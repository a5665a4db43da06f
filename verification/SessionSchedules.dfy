/**
 Two kinds of schedule followed event by event. In the first, an input called in one generation is sent on the
 WebSocket of the next, although the lock serves its waiters in the order they came. In the second, a version asked
 for in one generation is cached in the next.
 */
module SessionSchedules {
  import opened Common
  import opened Text
  import opened SessionState
  import opened SessionTasks
  import opened SessionInvariant

  lemma AfterEvent(cfg: Config, schedule: seq<Event>, e: Event)
    ensures Reached(cfg, schedule + [e]) == Step(cfg, Reached(cfg, schedule), e)
  {
    assert (schedule + [e])[..|schedule|] == schedule;
  }

  /** The state that later segments depend on: `pcs[i]` is where task `i` is, and every task was called in generation 0. */
  ghost predicate Is(s: State, sh: Shared, nextId: nat, pcs: seq<Pc>) {
    && s.sh == sh && s.h.nextId == nextId
    && (forall i: nat :: i in s.tasks <==> i < |pcs|)
    && (forall i: nat :: i < |pcs| ==> i in s.h.logs && s.tasks[i] == pcs[i] && i in s.h.started && s.h.started[i] == 0)
  }

  lemma CallIs(schedule: seq<Event>, sh: Shared, nextId: nat, pcs: seq<Pc>, op: Op, pc: Pc) returns (longer: seq<Event>)
    requires Is(Reached(CLIENT, schedule), sh, nextId, pcs) && BeginOp(sh, op) == (sh, pc) && sh.generation == 0
    ensures longer == schedule + [Call(|pcs|, op)] && Is(Reached(CLIENT, longer), sh, nextId, pcs + [pc])
  {
    longer := schedule + [Call(|pcs|, op)];
    AfterEvent(CLIENT, schedule, Call(|pcs|, op));
    CallStep(Reached(CLIENT, schedule), sh, nextId, pcs, op, pc);
  }

  lemma CallStep(s: State, sh: Shared, nextId: nat, pcs: seq<Pc>, op: Op, pc: Pc)
    requires Is(s, sh, nextId, pcs) && BeginOp(sh, op) == (sh, pc) && sh.generation == 0
    ensures Is(Step(CLIENT, s, Call(|pcs|, op)), sh, nextId, pcs + [pc])
  {
    var s' := Step(CLIENT, s, Call(|pcs|, op));
    assert s'.tasks == s.tasks[|pcs| := pc] && s'.sh == sh && s'.h.nextId == nextId;
    assert s'.h.started == s.h.started[|pcs| := sh.generation];
    forall i: nat | i < |pcs + [pc]|
      ensures i in s'.h.logs && s'.tasks[i] == (pcs + [pc])[i] && i in s'.h.started && s'.h.started[i] == 0
    {
      assert i < |pcs| ==> i in s.h.logs && s.tasks[i] == pcs[i] && i in s.h.started && s.h.started[i] == 0;
    }
  }

  /** What a segment does, whatever has been recorded so far. */
  ghost predicate Does(t: TaskId, sh: Shared, nextId: nat, pc: Pc, o: Outcome, sh': Shared, nextId': nat, pc': Pc) {
    forall h: History :: h.nextId == nextId ==>
      var n := Resume(CLIENT, t, sh, h, pc, o);
      n.sh == sh' && n.h.nextId == nextId' && n.pc == pc' && n.h.logs == h.logs && n.h.started == h.started
  }

  lemma RunIs(schedule: seq<Event>, sh: Shared, nextId: nat, pcs: seq<Pc>, t: TaskId, o: Outcome, sh': Shared, nextId': nat, pc: Pc)
    returns (longer: seq<Event>)
    requires Is(Reached(CLIENT, schedule), sh, nextId, pcs) && t < |pcs| && Does(t, sh, nextId, pcs[t], o, sh', nextId', pc)
    ensures longer == schedule + [Run(t, o)] && Is(Reached(CLIENT, longer), sh', nextId', pcs[t := pc])
  {
    longer := schedule + [Run(t, o)];
    AfterEvent(CLIENT, schedule, Run(t, o));
    RunStep(Reached(CLIENT, schedule), sh, nextId, pcs, t, o, sh', nextId', pc);
  }

  lemma RunStep(s: State, sh: Shared, nextId: nat, pcs: seq<Pc>, t: TaskId, o: Outcome, sh': Shared, nextId': nat, pc: Pc)
    requires Is(s, sh, nextId, pcs) && t < |pcs| && Does(t, sh, nextId, pcs[t], o, sh', nextId', pc)
    ensures Is(Step(CLIENT, s, Run(t, o)), sh', nextId', pcs[t := pc])
  {
  }

  const CLIENT := Config(Some("a"), Some(true), false)

  /** The session of a schedule: its generation and token, the lock, and the shared WebSocket with its heartbeat. */
  function Session(generation: nat, token: Option<string>, lock: Option<TaskId>, ws: Option<Socket>, heartbeat: Option<nat>): Shared {
    Shared(token, generation, None, Some(true), ws, heartbeat, lock, None, None)
  }

  const FIRST := Session(0, Some("a"), None, None, None)
  const CLEARED := Session(1, None, None, None, None)

  // ------------------------------------------------------------- a late input

  function PcOf(s: State, t: TaskId): Option<Pc> {
    if t in s.tasks then Some(s.tasks[t]) else None
  }

  /** How long the schedule was when task `t` came to where it is. */
  function Since(schedule: seq<Event>, t: TaskId): (n: nat)
    ensures n <= |schedule|
  {
    if schedule == [] then 0
    else
      var before := schedule[..|schedule| - 1];
      if PcOf(Reached(CLIENT, before), t) == PcOf(Reached(CLIENT, schedule), t) then Since(before, t) else |schedule|
  }

  /** Task `t` waits for the lock, and no waiting task came before it. */
  ghost predicate FirstInLine(schedule: seq<Event>, t: TaskId) {
    var tasks := Reached(CLIENT, schedule).tasks;
    && t in tasks && Waits(tasks[t])
    && forall u :: u in tasks && u != t && Waits(tasks[u]) ==> Since(schedule, t) < Since(schedule, u)
  }

  /** A waiting task gets the free lock only when it is the first in line. */
  ghost predicate InOrder(schedule: seq<Event>) {
    schedule != [] ==>
      var before, e := schedule[..|schedule| - 1], schedule[|schedule| - 1];
      InOrder(before) && (TakesLock(Reached(CLIENT, before), e) ==> FirstInLine(before, e.task))
  }

  predicate TakesLock(s: State, e: Event) {
    e.Run? && e.outcome.Go? && s.sh.lock.None? && e.task in s.tasks && Waits(s.tasks[e.task])
  }

  /** So far the lock has been given in order, and its waiters stand in the order of their names. */
  ghost predicate Lined(schedule: seq<Event>, pcs: seq<Pc>) {
    && InOrder(schedule)
    && (forall i, j :: 0 <= i < j < |pcs| && Waits(pcs[i]) && Waits(pcs[j]) ==> Since(schedule, i) < Since(schedule, j))
  }

  lemma SinceStays(schedule: seq<Event>, e: Event, t: TaskId)
    ensures Since(schedule + [e], t)
         == if PcOf(Reached(CLIENT, schedule), t) == PcOf(Step(CLIENT, Reached(CLIENT, schedule), e), t) then Since(schedule, t)
            else |schedule| + 1
  {
    AfterEvent(CLIENT, schedule, e);
    assert (schedule + [e])[..|schedule|] == schedule;
  }

  /** A schedule that has given the lock in order and leaves the session and its tasks there. */
  ghost predicate Leads(schedule: seq<Event>, sh: Shared, nextId: nat, pcs: seq<Pc>) {
    Is(Reached(CLIENT, schedule), sh, nextId, pcs) && Lined(schedule, pcs)
  }

  lemma CallLeads(schedule: seq<Event>, sh: Shared, nextId: nat, pcs: seq<Pc>, op: Op, pc: Pc) returns (longer: seq<Event>)
    requires Leads(schedule, sh, nextId, pcs) && BeginOp(sh, op) == (sh, pc) && sh.generation == 0
    ensures longer == schedule + [Call(|pcs|, op)] && Leads(longer, sh, nextId, pcs + [pc])
  {
    longer := CallIs(schedule, sh, nextId, pcs, op, pc);
    SameElsewhere(schedule, Call(|pcs|, op), sh, nextId, pcs, |pcs|);
    assert longer[..|schedule|] == schedule;
  }

  /** A task that waits for the lock has its turn when every task before it has had its own. */
  lemma RunLeads(schedule: seq<Event>, sh: Shared, nextId: nat, pcs: seq<Pc>, t: TaskId, o: Outcome, sh': Shared, nextId': nat, pc: Pc)
    returns (longer: seq<Event>)
    requires Leads(schedule, sh, nextId, pcs) && t < |pcs| && Does(t, sh, nextId, pcs[t], o, sh', nextId', pc)
    requires !Waits(pc) && (Waits(pcs[t]) ==> forall u :: 0 <= u < t ==> !Waits(pcs[u]))
    ensures longer == schedule + [Run(t, o)] && Leads(longer, sh', nextId', pcs[t := pc])
  {
    longer := RunIs(schedule, sh, nextId, pcs, t, o, sh', nextId', pc);
    SameElsewhere(schedule, Run(t, o), sh, nextId, pcs, t);
    assert longer[..|schedule|] == schedule;
    if Waits(pcs[t]) {
      FirstByName(schedule, sh, nextId, pcs, t);
    }
  }

  lemma FirstByName(schedule: seq<Event>, sh: Shared, nextId: nat, pcs: seq<Pc>, t: TaskId)
    requires Leads(schedule, sh, nextId, pcs) && t < |pcs| && Waits(pcs[t])
    requires forall u :: 0 <= u < t ==> !Waits(pcs[u])
    ensures FirstInLine(schedule, t)
  {
    var tasks := Reached(CLIENT, schedule).tasks;
    forall u | u in tasks && u != t && Waits(tasks[u])
      ensures Since(schedule, t) < Since(schedule, u)
    {
      assert u < |pcs| && tasks[u] == pcs[u];
    }
  }

  /** An event of task `t` leaves every other task where it is; a new task has come last. */
  lemma SameElsewhere(schedule: seq<Event>, e: Event, sh: Shared, nextId: nat, pcs: seq<Pc>, t: TaskId)
    requires Is(Reached(CLIENT, schedule), sh, nextId, pcs) && e.task == t
    ensures forall u :: 0 <= u < |pcs| && u != t ==> Since(schedule + [e], u) == Since(schedule, u)
    ensures t == |pcs| && e.Call? ==> Since(schedule + [e], t) == |schedule| + 1
  {
    forall u | 0 <= u < |pcs| && u != t
      ensures Since(schedule + [e], u) == Since(schedule, u)
    {
      SinceStays(schedule, e, u);
    }
    SinceStays(schedule, e, t);
  }

  const NEW := Socket(1, 1, "b")
  const LOGIN := Login(None, "u", "p")
  const CONNECTING := Session(0, Some("a"), Some(0), None, None)
  const LOGGED_IN := Session(1, Some("b"), None, None, None)

  function Same(n: nat, pc: Pc): (pcs: seq<Pc>) {
    seq(n, _ => pc)
  }

  /** The tasks while the lock is held: the first connects, a login waits, then `n` calls that want the WebSocket. */
  function Queued(n: nat): seq<Pc> {
    [Connecting(false, 0, "a"), LoginClearing(LOGIN)] + Same(n, SocketWaiting(false))
  }

  /** The tasks after the login's turn, when `n` of the `k` calls behind it have had theirs, and have failed. */
  function Turned(login: Pc, n: nat, k: nat): seq<Pc>
    requires n <= k
  {
    [Done(false), login] + Same(n, Done(false)) + Same(k - n, SocketWaiting(false)) + [SocketWaiting(true)]
  }

  lemma FirstDoes()
    ensures Does(0, FIRST, 0, SocketWaiting(false), Go(false), CONNECTING, 0, Connecting(false, 0, "a"))
    ensures Does(0, CONNECTING, 0, Connecting(false, 0, "a"), Fail, FIRST, 0, Done(false))
    ensures Does(1, FIRST, 0, LoginClearing(LOGIN), Go(true), CLEARED, 0, LoginClosing(LOGIN, 1))
    ensures Does(1, CLEARED, 0, LoginClosing(LOGIN, 1), Go(true), CLEARED, 0, LoginSent(LOGIN, 1, true, []))
  {
  }

  /** Without a token a call that wants the WebSocket gives up the lock at once. */
  lemma TurnDoes(t: TaskId)
    ensures Does(t, CLEARED, 0, SocketWaiting(false), Go(false), CLEARED, 0, Done(false))
  {
  }

  lemma GrantDoes()
    ensures Does(1, CLEARED, 0, LoginSent(LOGIN, 1, true, []), LoginReply(Granted("b", None)), LOGGED_IN, 1, Done(true))
  {
    assert Strip("b") == "b" by {
      assert !IsSpace("b"[0]) && "" + "b" + "" == "b";
      StripSurrounded("", "b", "");
    }
  }

  lemma InputDoes(t: TaskId)
    ensures Does(t, LOGGED_IN, 1, SocketWaiting(true), Go(false),
                 LOGGED_IN.(lock := Some(t)), 1, Connecting(true, 1, "b"))
    ensures Does(t, LOGGED_IN.(lock := Some(t)), 1, Connecting(true, 1, "b"), Go(false),
                 Session(1, Some("b"), None, Some(NEW), Some(2)), 3, SocketSending(NEW))
  {
  }

  const SENT := LoginSent(LOGIN, 1, true, [])

  /** A call takes the lock to connect; */
  lemma CallConnects() returns (schedule: seq<Event>)
    ensures Leads(schedule, CONNECTING, 0, [Connecting(false, 0, "a")])
  {
    FirstDoes();
    schedule := CallLeads([], FIRST, 0, [], GetSocket, SocketWaiting(false));
    schedule := RunLeads(schedule, FIRST, 0, [SocketWaiting(false)], 0, Go(false), CONNECTING, 0, Connecting(false, 0, "a"));
  }

  /** a login queues behind it, */
  lemma LoginQueues() returns (schedule: seq<Event>)
    ensures Leads(schedule, CONNECTING, 0, Queued(0))
  {
    schedule := CallConnects();
    schedule := CallLeads(schedule, CONNECTING, 0, [Connecting(false, 0, "a")], Authenticate("u", "p"), LoginClearing(LOGIN));
    assert Queued(0) == [Connecting(false, 0, "a")] + [LoginClearing(LOGIN)];
  }

  /** then one more call, */
  lemma CallQueues(schedule: seq<Event>, n: nat) returns (longer: seq<Event>)
    requires Leads(schedule, CONNECTING, 0, Queued(n))
    ensures Leads(longer, CONNECTING, 0, Queued(n + 1))
  {
    longer := CallLeads(schedule, CONNECTING, 0, Queued(n), GetSocket, SocketWaiting(false));
    assert Queued(n + 1) == Queued(n) + [SocketWaiting(false)];
  }

  /** or `n` of them, */
  lemma {:induction false} CallsQueue(n: nat) returns (schedule: seq<Event>)
    ensures Leads(schedule, CONNECTING, 0, Queued(n))
  {
    if n == 0 {
      schedule := LoginQueues();
    } else {
      schedule := CallsQueue(n - 1);
      schedule := CallQueues(schedule, n - 1);
    }
  }

  /** and last an input, still in generation 0. */
  lemma InputQueues(k: nat) returns (schedule: seq<Event>)
    ensures Leads(schedule, CONNECTING, 0, Queued(k) + [SocketWaiting(true)])
  {
    schedule := CallsQueue(k);
    schedule := CallLeads(schedule, CONNECTING, 0, Queued(k), SendInput, SocketWaiting(true));
  }

  lemma FirstGone(k: nat)
    ensures var pcs := Queued(k) + [SocketWaiting(true)];
            && pcs[0] == Connecting(false, 0, "a") && pcs[0 := Done(false)] == Turned(LoginClearing(LOGIN), 0, k)
  {
  }

  /** Connecting fails and gives up the lock. */
  lemma ConnectingFails(k: nat) returns (schedule: seq<Event>)
    ensures Leads(schedule, FIRST, 0, Turned(LoginClearing(LOGIN), 0, k))
  {
    FirstDoes();
    FirstGone(k);
    schedule := InputQueues(k);
    schedule := RunLeads(schedule, CONNECTING, 0, Queued(k) + [SocketWaiting(true)], 0, Fail, FIRST, 0, Done(false));
  }

  lemma LoginAt(login: Pc, next: Pc, n: nat, k: nat)
    requires n <= k
    ensures var pcs := Turned(login, n, k);
            pcs[0] == Done(false) && pcs[1] == login && pcs[1 := next] == Turned(next, n, k)
  {
  }

  /** The login has its turn: the session is cleared and the lock is free again. */
  lemma LoginClears(k: nat) returns (schedule: seq<Event>)
    ensures Leads(schedule, CLEARED, 0, Turned(LoginClosing(LOGIN, 1), 0, k))
  {
    FirstDoes();
    schedule := ConnectingFails(k);
    LoginAt(LoginClearing(LOGIN), LoginClosing(LOGIN, 1), 0, k);
    schedule := RunLeads(schedule, FIRST, 0, Turned(LoginClearing(LOGIN), 0, k), 1, Go(true), CLEARED, 0, LoginClosing(LOGIN, 1));
  }

  /** The login is sent. */
  lemma LoginPosts(k: nat) returns (schedule: seq<Event>)
    ensures Leads(schedule, CLEARED, 0, Turned(SENT, 0, k))
  {
    FirstDoes();
    schedule := LoginClears(k);
    LoginAt(LoginClosing(LOGIN, 1), SENT, 0, k);
    schedule := RunLeads(schedule, CLEARED, 0, Turned(LoginClosing(LOGIN, 1), 0, k), 1, Go(true), CLEARED, 0, SENT);
  }

  lemma NextTurn(n: nat, k: nat)
    requires n < k
    ensures var pcs := Turned(SENT, n, k);
            && pcs[n + 2] == SocketWaiting(false) && pcs[n + 2 := Done(false)] == Turned(SENT, n + 1, k)
            && forall u :: 0 <= u < n + 2 ==> !Waits(pcs[u])
  {
  }

  /** While it waits for the reply, the next call has its turn, */
  lemma CallFails(schedule: seq<Event>, n: nat, k: nat) returns (longer: seq<Event>)
    requires n < k && Leads(schedule, CLEARED, 0, Turned(SENT, n, k))
    ensures Leads(longer, CLEARED, 0, Turned(SENT, n + 1, k))
  {
    TurnDoes(n + 2);
    NextTurn(n, k);
    longer := RunLeads(schedule, CLEARED, 0, Turned(SENT, n, k), n + 2, Go(false), CLEARED, 0, Done(false));
  }

  /** and so have all of them. */
  lemma {:induction false} CallsFail(n: nat, k: nat) returns (schedule: seq<Event>)
    requires n <= k
    ensures Leads(schedule, CLEARED, 0, Turned(SENT, n, k))
  {
    if n == 0 {
      schedule := LoginPosts(k);
    } else {
      schedule := CallsFail(n - 1, k);
      schedule := CallFails(schedule, n - 1, k);
    }
  }

  /** The login is accepted, */
  lemma LoginCompletes(k: nat) returns (schedule: seq<Event>)
    ensures Leads(schedule, LOGGED_IN, 1, Turned(Done(true), k, k))
  {
    GrantDoes();
    schedule := CallsFail(k, k);
    LoginAt(SENT, Done(true), k, k);
    schedule := RunLeads(schedule, CLEARED, 0, Turned(SENT, k, k), 1, LoginReply(Granted("b", None)), LOGGED_IN, 1, Done(true));
  }

  lemma LastTurn(k: nat)
    ensures var pcs := Turned(Done(true), k, k);
            && |pcs| == k + 3 && pcs[k + 2] == SocketWaiting(true)
            && forall u :: 0 <= u < k + 2 ==> pcs[u].Done? && (u >= 2 ==> pcs[u] == Done(false))
  {
  }

  /** and the input has its turn: it connects in the new session, */
  lemma InputConnects(schedule: seq<Event>, pcs: seq<Pc>, t: TaskId) returns (longer: seq<Event>)
    requires Leads(schedule, LOGGED_IN, 1, pcs) && t < |pcs| && pcs[t] == SocketWaiting(true)
    requires forall u :: 0 <= u < t ==> !Waits(pcs[u])
    ensures Leads(longer, LOGGED_IN.(lock := Some(t)), 1, pcs[t := Connecting(true, 1, "b")])
  {
    InputDoes(t);
    longer := RunLeads(schedule, LOGGED_IN, 1, pcs, t, Go(false), LOGGED_IN.(lock := Some(t)), 1, Connecting(true, 1, "b"));
  }

  const RECONNECTED := Session(1, Some("b"), None, Some(NEW), Some(2))

  /** and sends. */
  lemma InputSends(schedule: seq<Event>, pcs: seq<Pc>, t: TaskId) returns (longer: seq<Event>)
    requires t < |pcs| && pcs[t] == Connecting(true, 1, "b") && Leads(schedule, LOGGED_IN.(lock := Some(t)), 1, pcs)
    ensures Leads(longer, RECONNECTED, 3, pcs[t := SocketSending(NEW)])
  {
    InputDoes(t);
    longer := RunLeads(schedule, LOGGED_IN.(lock := Some(t)), 1, pcs, t, Go(false), RECONNECTED, 3, SocketSending(NEW));
  }

  lemma InputRun(k: nat) returns (schedule: seq<Event>)
    ensures Leads(schedule, RECONNECTED, 3,
                  Turned(Done(true), k, k)[k + 2 := Connecting(true, 1, "b")][k + 2 := SocketSending(NEW)])
  {
    schedule := LoginCompletes(k);
    LastTurn(k);
    var pcs := Turned(Done(true), k, k);
    schedule := InputConnects(schedule, pcs, k + 2);
    schedule := InputSends(schedule, pcs[k + 2 := Connecting(true, 1, "b")], k + 2);
  }

  /**
   An input called in one generation can go out on the WebSocket of a later one, although the lock serves its waiters
   in order: a login waits before it, and `k` calls between the two, however many, leave the login the time it takes.
   */
  lemma InputOutlivesItsSession(k: nat) returns (schedule: seq<Event>)
    ensures InOrder(schedule)
    ensures var s := Reached(CLIENT, schedule);
            && k + 2 in s.tasks && s.tasks[k + 2] == SocketSending(NEW) && NEW.generation == s.sh.generation == 1
            && k + 2 in s.h.started && s.h.started[k + 2] == 0
            && forall i :: 2 <= i < k + 2 ==> i in s.tasks && s.tasks[i] == Done(false)
  {
    schedule := InputRun(k);
    LastTurn(k);
  }

  // ------------------------------------------------------------- a late version

  const LATE := VersionIs("2.5.1")

  lemma DetectionDoes()
    ensures Does(0, FIRST, 0, Sent(Versions, 0, "a"), Status(200), FIRST, 0, Reading(Versions, 0, "a"))
    ensures Does(0, FIRST, 0, Reading(Versions, 0, "a"), Body(LATE), FIRST, 0, Exiting(Versions, 0, "a", LATE))
    ensures Does(1, FIRST, 0, Sent(LogoutPost, 0, "a"), Fail, FIRST, 0, Clearing(LoggedOut(0), End(false)))
    ensures Does(1, FIRST, 0, Clearing(LoggedOut(0), End(false)), Go(true), CLEARED, 0, Closing(LoggedOut(0), End(false)))
    ensures Does(0, CLEARED, 0, Exiting(Versions, 0, "a", LATE), Go(true),
                 CLEARED.(version := Some(LATE.application)), 0, Done(true))
  {
  }

  /** A version detection is sent in generation 0, */
  lemma DetectionSent() returns (schedule: seq<Event>)
    ensures Is(Reached(CLIENT, schedule), FIRST, 0, [Sent(Versions, 0, "a")])
  {
    schedule := CallIs([], FIRST, 0, [], DetectVersions, Sent(Versions, 0, "a"));
  }

  /** answered, */
  lemma DetectionAnswered() returns (schedule: seq<Event>)
    ensures Is(Reached(CLIENT, schedule), FIRST, 0, [Reading(Versions, 0, "a")])
  {
    DetectionDoes();
    schedule := DetectionSent();
    schedule := RunIs(schedule, FIRST, 0, [Sent(Versions, 0, "a")],
                      0, Status(200), FIRST, 0, Reading(Versions, 0, "a"));
  }

  /** and accepted; its response context is still to be left. */
  lemma DetectionAccepted() returns (schedule: seq<Event>)
    ensures Is(Reached(CLIENT, schedule), FIRST, 0, [Exiting(Versions, 0, "a", LATE)])
  {
    DetectionDoes();
    schedule := DetectionAnswered();
    schedule := RunIs(schedule, FIRST, 0, [Reading(Versions, 0, "a")],
                      0, Body(LATE), FIRST, 0, Exiting(Versions, 0, "a", LATE));
  }

  /** Meanwhile a logout is sent, */
  lemma LogoutSent() returns (schedule: seq<Event>)
    ensures Is(Reached(CLIENT, schedule), FIRST, 0, [Exiting(Versions, 0, "a", LATE), Sent(LogoutPost, 0, "a")])
  {
    schedule := DetectionAccepted();
    schedule := CallIs(schedule, FIRST, 0, [Exiting(Versions, 0, "a", LATE)], Logout, Sent(LogoutPost, 0, "a"));
  }

  /** fails, */
  lemma LogoutFails() returns (schedule: seq<Event>)
    ensures Is(Reached(CLIENT, schedule), FIRST, 0, [Exiting(Versions, 0, "a", LATE), Clearing(LoggedOut(0), End(false))])
  {
    DetectionDoes();
    schedule := LogoutSent();
    schedule := RunIs(schedule, FIRST, 0, [Exiting(Versions, 0, "a", LATE), Sent(LogoutPost, 0, "a")],
                      1, Fail, FIRST, 0, Clearing(LoggedOut(0), End(false)));
  }

  /** and clears the session. */
  lemma LogoutClears() returns (schedule: seq<Event>)
    ensures Is(Reached(CLIENT, schedule), CLEARED, 0, [Exiting(Versions, 0, "a", LATE), Closing(LoggedOut(0), End(false))])
  {
    DetectionDoes();
    schedule := LogoutFails();
    schedule := RunIs(schedule, FIRST, 0, [Exiting(Versions, 0, "a", LATE), Clearing(LoggedOut(0), End(false))],
                      1, Go(true), CLEARED, 0, Closing(LoggedOut(0), End(false)));
  }

  /** A version asked for in generation 0 can be the cached one in generation 1. */
  lemma VersionOutlivesItsSession() returns (schedule: seq<Event>)
    ensures var s := Reached(CLIENT, schedule);
            && s.sh.version == Some(LATE.application) && s.sh.generation == 1
            && 0 in s.tasks && s.tasks[0] == Done(true)
  {
    DetectionDoes();
    schedule := LogoutClears();
    schedule := RunIs(schedule, CLEARED, 0, [Exiting(Versions, 0, "a", LATE), Closing(LoggedOut(0), End(false))], 0, Go(true),
                      CLEARED.(version := Some(LATE.application)), 0, Done(true));
  }
}
