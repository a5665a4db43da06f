/**
 The SSH client's connection state (nanokvm/ssh_client.py): authenticate, disconnect and failed commands as a step
 machine. The lock is never held across an await, so each locked part is one step. A client is live while its
 transport may be open; a connect that outlives its cancelled task may open it again.
 */
module SshClient {
  import opened Common

  type TaskId = nat
  type ClientId = nat

  datatype Op = Authenticate | Disconnect | RunCommand

  /** `Abandoned` is a cancelled authenticate whose connect still runs; `Late` has it done and the callback due. */
  datatype Pc =
    | Connecting(client: ClientId, generation: nat)
    | Abandoned(client: ClientId)
    | Late(client: ClientId)
    | Commanding(client: ClientId)
    | Done(ok: bool)

  /**
   What a connect or command delivers. `ListedFailure` is an authentication, SSH or OS failure (for a command also
   an unexpected end of file); `OtherFailure` is any exception the caller does not catch.
   */
  datatype Outcome = Succeeds | ListedFailure | OtherFailure | Cancelled

  /**
   `live` are the clients not closed since they last may have connected; `owner` created each client; `everInstalled`
   have been the installed client at some time; `uncaught` are those whose connect raised an uncaught exception.
   */
  datatype Shared = Shared(
    generation: nat,
    installed: Option<ClientId>,
    live: set<ClientId>,
    nextClient: ClientId,
    owner: map<ClientId, TaskId>,
    everInstalled: set<ClientId>,
    uncaught: set<ClientId>)

  function Closed(sh: Shared, c: Option<ClientId>): Shared {
    if c.Some? then sh.(live := sh.live - {c.value}) else sh
  }

  /** `authenticate` up to its connect: a new client and a new generation. */
  function Begun(sh: Shared, t: TaskId): Shared {
    sh.(generation := sh.generation + 1, live := sh.live + {sh.nextClient}, nextClient := sh.nextClient + 1,
        owner := sh.owner[sh.nextClient := t])
  }

  /** `authenticate` after its connect: install the client and close the previous one, or close it if superseded. */
  function Connected(sh: Shared, client: ClientId, generation: nat): Shared {
    if generation != sh.generation then Closed(sh, Some(client))
    else Closed(sh, sh.installed).(installed := Some(client), everInstalled := sh.everInstalled + {client})
  }

  function Disconnected(sh: Shared): Shared {
    Closed(sh, sh.installed).(generation := sh.generation + 1, installed := None)
  }

  /** `_invalidate_client`: drop a failed client unless a newer one replaced it. */
  function Invalidated(sh: Shared, client: ClientId): Shared {
    Closed(if sh.installed == Some(client) then sh.(installed := None) else sh, Some(client))
  }

  function BeginOp(sh: Shared, t: TaskId, op: Op): (Shared, Pc) {
    match op
    case Authenticate => (Begun(sh, t), Connecting(sh.nextClient, sh.generation + 1))
    case Disconnect => (Disconnected(sh), Done(true))
    case RunCommand => (sh, if sh.installed.Some? then Commanding(sh.installed.value) else Done(false))
  }

  function Resume(sh: Shared, pc: Pc, o: Outcome): (Shared, Pc) {
    match pc
    case Connecting(c, g) =>
      (match o
       case Succeeds => (Connected(sh, c, g), Done(g == sh.generation))
       case ListedFailure => (Closed(sh, Some(c)), Done(false))
       case OtherFailure => (sh.(uncaught := sh.uncaught + {c}), Done(false))
       case Cancelled => (Closed(sh, Some(c)), Abandoned(c)))
    case Abandoned(c) => (if o.Succeeds? then sh.(live := sh.live + {c}) else sh, Late(c))
    case Late(c) => (Closed(sh, Some(c)), Done(false))
    case Commanding(c) => (if o.ListedFailure? then Invalidated(sh, c) else sh, Done(o.Succeeds?))
    case Done(_) => (sh, pc)
  }

  datatype State = State(sh: Shared, tasks: map<TaskId, Pc>)

  datatype Event = Call(task: TaskId, op: Op) | Run(task: TaskId, outcome: Outcome)

  const Initial := State(Shared(0, None, {}, 0, map[], {}, {}), map[])

  function Step(s: State, e: Event): State {
    match e
    case Call(t, op) =>
      if t in s.tasks then s
      else
        var (sh, pc) := BeginOp(s.sh, t, op);
        State(sh, s.tasks[t := pc])
    case Run(t, o) =>
      if t !in s.tasks then s
      else
        var (sh, pc) := Resume(s.sh, s.tasks[t], o);
        State(sh, s.tasks[t := pc])
  }

  function Reached(schedule: seq<Event>): State {
    if schedule == [] then Initial
    else Step(Reached(schedule[..|schedule| - 1]), schedule[|schedule| - 1])
  }

  // --------------------------------------------------------------- invariant

  /** The client is held by a task that will close it or install it. */
  predicate Pending(pc: Pc, c: ClientId) {
    (pc.Connecting? || pc.Abandoned? || pc.Late?) && pc.client == c
  }

  predicate PendingSomewhere(s: State, c: ClientId) {
    c in s.sh.owner && s.sh.owner[c] in s.tasks && Pending(s.tasks[s.sh.owner[c]], c)
  }

  ghost predicate SharedOk(sh: Shared) {
    && (forall c: ClientId :: c in sh.owner <==> c < sh.nextClient)
    && (forall c :: c in sh.live ==> c in sh.owner)
    && (forall c :: c in sh.everInstalled ==> c in sh.owner)
    && sh.uncaught <= sh.live && sh.uncaught !! sh.everInstalled
    && (sh.installed.Some? ==> sh.installed.value in sh.live && sh.installed.value in sh.everInstalled)
  }

  /** A client its creator still holds: not installed so far, and not given up. */
  predicate Held(sh: Shared, t: TaskId, c: ClientId) {
    c in sh.owner && sh.owner[c] == t && c !in sh.everInstalled && c !in sh.uncaught
  }

  predicate TaskOk(sh: Shared, t: TaskId, pc: Pc) {
    match pc
    case Connecting(c, g) => Held(sh, t, c) && g <= sh.generation && c in sh.live
    case Abandoned(c) => Held(sh, t, c) && c !in sh.live
    case Late(c) => Held(sh, t, c)
    case Commanding(c) => c in sh.everInstalled
    case Done(_) => true
  }

  /** Every live client is the installed one, held by its creator, or lost to an uncaught exception. */
  ghost predicate Accounted(s: State) {
    forall c :: c in s.sh.live ==> s.sh.installed == Some(c) || c in s.sh.uncaught || PendingSomewhere(s, c)
  }

  ghost predicate Inv(s: State) {
    && SharedOk(s.sh)
    && (forall t :: t in s.tasks ==> TaskOk(s.sh, t, s.tasks[t]))
    && (forall c :: c in s.sh.owner ==> s.sh.owner[c] in s.tasks)
    && Accounted(s)
  }

  /** A step of task `t` leaves the clients other tasks hold alone, and never goes back. */
  ghost predicate Guarantee(t: TaskId, sh: Shared, sh': Shared) {
    && sh.generation <= sh'.generation
    && sh.everInstalled <= sh'.everInstalled
    && (forall c :: c in sh.owner ==> c in sh'.owner && sh'.owner[c] == sh.owner[c])
    && (forall c :: c in sh'.owner && c !in sh.owner ==> sh'.owner[c] == t)
    && (forall c :: c in sh.owner && sh.owner[c] != t && c !in sh.everInstalled ==>
          && (c in sh'.live <==> c in sh.live)
          && (c in sh'.uncaught <==> c in sh.uncaught)
          && c !in sh'.everInstalled)
  }

  lemma Stable(t: TaskId, u: TaskId, sh: Shared, sh': Shared, pc: Pc)
    requires t != u && TaskOk(sh, u, pc) && Guarantee(t, sh, sh')
    ensures TaskOk(sh', u, pc)
  {
  }

  lemma BeginOk(sh: Shared, t: TaskId, op: Op)
    requires SharedOk(sh) && forall c :: c in sh.owner ==> sh.owner[c] != t
    ensures var (sh', pc) := BeginOp(sh, t, op); SharedOk(sh') && TaskOk(sh', t, pc) && Guarantee(t, sh, sh')
  {
  }

  lemma ResumeOk(sh: Shared, t: TaskId, pc: Pc, o: Outcome)
    requires SharedOk(sh) && TaskOk(sh, t, pc)
    ensures var (sh', pc') := Resume(sh, pc, o); SharedOk(sh') && TaskOk(sh', t, pc') && Guarantee(t, sh, sh')
  {
  }

  /** A client that is live after a step of `t` was live and elsewhere before it, or is accounted for by the step. */
  lemma ResumeAccounts(sh: Shared, t: TaskId, pc: Pc, o: Outcome, c: ClientId)
    requires SharedOk(sh) && TaskOk(sh, t, pc)
    ensures var (sh', pc') := Resume(sh, pc, o);
            c in sh'.live ==>
              || sh'.installed == Some(c) || c in sh'.uncaught || Pending(pc', c)
              || (c in sh.live && sh.installed != Some(c) && c !in sh.uncaught && !Pending(pc, c))
  {
  }

  lemma StepKeepsInv(s: State, e: Event)
    requires Inv(s)
    ensures Inv(Step(s, e))
  {
    match e
    case Call(t, op) =>
      if t !in s.tasks {
        BeginOk(s.sh, t, op);
        BegunTasks(s, t, op);
        BegunAccounted(s, t, op);
      }
    case Run(t, o) =>
      if t in s.tasks {
        ResumeOk(s.sh, t, s.tasks[t], o);
        ResumedTasks(s, t, o);
        ResumedAccounted(s, t, o);
      }
  }

  lemma BegunTasks(s: State, t: TaskId, op: Op)
    requires Inv(s) && t !in s.tasks
    ensures var s' := Step(s, Call(t, op));
            forall u :: u in s'.tasks ==> TaskOk(s'.sh, u, s'.tasks[u])
  {
    BeginOk(s.sh, t, op);
    var s' := Step(s, Call(t, op));
    forall u | u in s.tasks
      ensures TaskOk(s'.sh, u, s.tasks[u])
    {
      Stable(t, u, s.sh, s'.sh, s.tasks[u]);
    }
  }

  lemma BegunAccounted(s: State, t: TaskId, op: Op)
    requires Inv(s) && t !in s.tasks
    ensures Accounted(Step(s, Call(t, op)))
  {
    var s' := Step(s, Call(t, op));
    forall c | c in s'.sh.live
      ensures s'.sh.installed == Some(c) || c in s'.sh.uncaught || PendingSomewhere(s', c)
    {
      if PendingSomewhere(s, c) {
        assert s'.tasks[s.sh.owner[c]] == s.tasks[s.sh.owner[c]];
      }
    }
  }

  lemma ResumedTasks(s: State, t: TaskId, o: Outcome)
    requires Inv(s) && t in s.tasks
    ensures var s' := Step(s, Run(t, o));
            forall u :: u in s'.tasks ==> TaskOk(s'.sh, u, s'.tasks[u])
  {
    ResumeOk(s.sh, t, s.tasks[t], o);
    var s' := Step(s, Run(t, o));
    forall u | u in s.tasks && u != t
      ensures TaskOk(s'.sh, u, s.tasks[u])
    {
      Stable(t, u, s.sh, s'.sh, s.tasks[u]);
    }
  }

  lemma ResumedAccounted(s: State, t: TaskId, o: Outcome)
    requires Inv(s) && t in s.tasks
    ensures Accounted(Step(s, Run(t, o)))
  {
    var s' := Step(s, Run(t, o));
    ResumeOk(s.sh, t, s.tasks[t], o);
    forall c | c in s'.sh.live
      ensures s'.sh.installed == Some(c) || c in s'.sh.uncaught || PendingSomewhere(s', c)
    {
      ResumeAccounts(s.sh, t, s.tasks[t], o, c);
      if Pending(s'.tasks[t], c) {
        assert TaskOk(s'.sh, t, s'.tasks[t]);
      }
    }
  }

  lemma {:induction false} ReachedInv(schedule: seq<Event>)
    ensures Inv(Reached(schedule))
  {
    if schedule != [] {
      var n := |schedule| - 1;
      ReachedInv(schedule[..n]);
      StepKeepsInv(Reached(schedule[..n]), schedule[n]);
    }
  }

  // --------------------------------------------------------------- properties

  /**
   Conservation, in every interleaving: a created client is the installed one, is held by its own pending
   authenticate, or is closed, except exactly those whose connect raised an exception `authenticate` does not catch.
   */
  lemma ClientsAreConserved(schedule: seq<Event>, c: ClientId)
    requires c < Reached(schedule).sh.nextClient
    ensures var s := Reached(schedule);
            (s.sh.installed == Some(c) || PendingSomewhere(s, c) || c !in s.sh.live) <==> c !in s.sh.uncaught
  {
    ReachedInv(schedule);
    var s := Reached(schedule);
    if PendingSomewhere(s, c) {
      assert TaskOk(s.sh, s.sh.owner[c], s.tasks[s.sh.owner[c]]);
    }
  }

  /** The installed client is not closed, and no task is still connecting it. */
  lemma InstalledIsLive(schedule: seq<Event>)
    ensures var s := Reached(schedule);
            s.sh.installed.Some? ==> s.sh.installed.value in s.sh.live && !PendingSomewhere(s, s.sh.installed.value)
  {
    ReachedInv(schedule);
    var s := Reached(schedule);
    if s.sh.installed.Some? && s.sh.owner[s.sh.installed.value] in s.tasks {
      assert TaskOk(s.sh, s.sh.owner[s.sh.installed.value], s.tasks[s.sh.owner[s.sh.installed.value]]);
    }
  }

  /** Task `t` created `c`, which is not installed, and can no longer install it. */
  ghost predicate Overtaken(s: State, t: TaskId, c: ClientId) {
    && t in s.tasks && c in s.sh.owner && s.sh.owner[c] == t && c !in s.sh.everInstalled
    && (s.tasks[t].Connecting? ==> s.tasks[t].client == c && s.tasks[t].generation < s.sh.generation)
  }

  lemma StepKeepsOvertaken(s: State, e: Event, t: TaskId, c: ClientId)
    requires Inv(s) && Overtaken(s, t, c)
    ensures Overtaken(Step(s, e), t, c)
  {
    match e
    case Call(u, op) =>
      if u !in s.tasks {
        BeginOk(s.sh, u, op);
      }
    case Run(u, o) =>
      if u in s.tasks {
        ResumeOk(s.sh, u, s.tasks[u], o);
      }
  }

  lemma ReachedLast(schedule: seq<Event>, more: seq<Event>)
    requires more != []
    ensures Reached(schedule + more) == Step(Reached(schedule + more[..|more| - 1]), more[|more| - 1])
  {
    LastOfBoth(schedule, more);
  }

  /** An authenticate overtaken by a later authenticate or disconnect never installs its client. */
  lemma {:induction false} OvertakenNeverInstalls(schedule: seq<Event>, more: seq<Event>, t: TaskId)
    requires var s := Reached(schedule);
             t in s.tasks && s.tasks[t].Connecting? && s.tasks[t].generation < s.sh.generation
    ensures Overtaken(Reached(schedule + more), t, Reached(schedule).tasks[t].client)
    ensures Reached(schedule + more).sh.installed != Some(Reached(schedule).tasks[t].client)
  {
    ReachedInv(schedule);
    var s := Reached(schedule);
    assert TaskOk(s.sh, t, s.tasks[t]);
    if more == [] {
      assert schedule + more == schedule;
    } else {
      var n := |more| - 1;
      OvertakenNeverInstalls(schedule, more[..n], t);
      ReachedInv(schedule + more[..n]);
      ReachedLast(schedule, more);
      StepKeepsOvertaken(Reached(schedule + more[..n]), more[n], t, s.tasks[t].client);
    }
    ReachedInv(schedule + more);
  }

  /** Every later authenticate or disconnect overtakes a connect in flight. */
  lemma LaterCallOvertakes(schedule: seq<Event>, t: TaskId, u: TaskId, op: Op)
    requires var s := Reached(schedule); t in s.tasks && s.tasks[t].Connecting? && u !in s.tasks
    requires op.Authenticate? || op.Disconnect?
    ensures var s' := Reached(schedule + [Call(u, op)]);
            t in s'.tasks && s'.tasks[t].Connecting? && s'.tasks[t].generation < s'.sh.generation
  {
    ReachedInv(schedule);
    var s := Reached(schedule);
    assert TaskOk(s.sh, t, s.tasks[t]);
    assert (schedule + [Call(u, op)])[..|schedule|] == schedule;
  }

  /** A successful connect installs its client exactly when nothing overtook it, and then closes the one it replaces. */
  lemma ConnectInstallsUnlessOvertaken(schedule: seq<Event>, t: TaskId)
    requires var s := Reached(schedule); t in s.tasks && s.tasks[t].Connecting?
    ensures var s := Reached(schedule);
            var pc := s.tasks[t];
            var s' := Step(s, Run(t, Succeeds));
            && (s'.sh.installed == Some(pc.client) <==> pc.generation == s.sh.generation)
            && (s'.tasks[t] == Done(true) <==> pc.generation == s.sh.generation)
            && (s'.sh.installed == Some(pc.client) ==>
                  pc.client in s'.sh.live && (s.sh.installed.Some? ==> s.sh.installed.value !in s'.sh.live))
            && (s'.sh.installed != Some(pc.client) ==> s'.sh.installed == s.sh.installed && pc.client !in s'.sh.live)
  {
    ReachedInv(schedule);
    var s := Reached(schedule);
    assert TaskOk(s.sh, t, s.tasks[t]);
  }

  /** A connect that does not succeed installs nothing; a listed failure or a cancellation closes its client at once. */
  lemma FailedConnectInstallsNothing(schedule: seq<Event>, t: TaskId, o: Outcome)
    requires var s := Reached(schedule); t in s.tasks && s.tasks[t].Connecting? && !o.Succeeds?
    ensures var s := Reached(schedule);
            var c := s.tasks[t].client;
            var s' := Step(s, Run(t, o));
            && s'.sh.installed == s.sh.installed && s'.sh.generation == s.sh.generation
            && s'.tasks[t] == (if o.Cancelled? then Abandoned(c) else Done(false))
            && (c in s'.sh.live <==> o.OtherFailure?)
  {
    ReachedInv(schedule);
    var s := Reached(schedule);
    assert TaskOk(s.sh, t, s.tasks[t]);
  }

  /** The leak is real: one connect that raises an unlisted exception leaves its client open, uninstalled and unheld. */
  lemma UnlistedFailureLeaks()
    ensures var s := Reached([Call(0, Authenticate), Run(0, OtherFailure)]);
            && 0 in s.sh.live && s.sh.installed.None? && s.tasks[0] == Done(false) && !PendingSomewhere(s, 0)
            && s.sh.uncaught == {0}
  {
    var calls := [Call(0, Authenticate)];
    var all := [Call(0, Authenticate), Run(0, OtherFailure)];
    assert calls[..0] == [] && all[..1] == calls;
    assert Reached(calls) == Step(Initial, calls[0]);
    assert Reached(all) == Step(Reached(calls), all[1]);
  }

  /** A cancelled authenticate has closed its client; whatever its connect then does, its callback closes it again. */
  lemma AbandonedIsClosed(schedule: seq<Event>, t: TaskId)
    requires t in Reached(schedule).tasks
    ensures var s := Reached(schedule);
            && (s.tasks[t].Abandoned? ==> s.tasks[t].client !in s.sh.live)
            && (s.tasks[t].Late? ==> forall o :: s.tasks[t].client !in Step(s, Run(t, o)).sh.live)
  {
    ReachedInv(schedule);
    var s := Reached(schedule);
    assert TaskOk(s.sh, t, s.tasks[t]);
  }

  /** Client `c` has been installed, and is neither installed nor open any more. */
  predicate Retired(sh: Shared, c: ClientId) {
    c in sh.everInstalled && c !in sh.live && sh.installed != Some(c)
  }

  lemma StepKeepsRetired(s: State, e: Event, c: ClientId)
    requires Inv(s) && Retired(s.sh, c)
    ensures Retired(Step(s, e).sh, c)
  {
    if e.Run? && e.task in s.tasks {
      assert TaskOk(s.sh, e.task, s.tasks[e.task]);
    }
  }

  /** A client that was installed and then closed is in no continuation opened or installed again. */
  lemma {:induction false} RetiredForGood(schedule: seq<Event>, more: seq<Event>, c: ClientId)
    requires Retired(Reached(schedule).sh, c)
    ensures Retired(Reached(schedule + more).sh, c)
  {
    if more == [] {
      assert schedule + more == schedule;
    } else {
      RetiredForGood(schedule, more[..|more| - 1], c);
      ReachedInv(schedule + more[..|more| - 1]);
      ReachedLast(schedule, more);
      StepKeepsRetired(Reached(schedule + more[..|more| - 1]), more[|more| - 1], c);
    }
  }

  /** A disconnect forgets the installed client and closes it for good, in every continuation. */
  lemma DisconnectRetires(schedule: seq<Event>, t: TaskId, more: seq<Event>)
    requires t !in Reached(schedule).tasks
    ensures var s, s' := Reached(schedule), Reached(schedule + [Call(t, Disconnect)]);
            && s'.sh.installed.None? && s'.tasks[t] == Done(true)
            && (s.sh.installed.Some? ==> Retired(Reached(schedule + [Call(t, Disconnect)] + more).sh, s.sh.installed.value))
  {
    ReachedInv(schedule);
    var all := schedule + [Call(t, Disconnect)];
    assert all[..|schedule|] == schedule;
    if Reached(schedule).sh.installed.Some? {
      RetiredForGood(all, more, Reached(schedule).sh.installed.value);
    }
  }

  /** `e` completes an authenticate. */
  predicate Completes(s: State, e: Event) {
    e.Run? && e.outcome.Succeeds? && e.task in s.tasks && s.tasks[e.task].Connecting?
  }

  predicate NoneCompletes(schedule: seq<Event>, more: seq<Event>) {
    more != [] ==>
      var n := |more| - 1;
      NoneCompletes(schedule, more[..n]) && !Completes(Reached(schedule + more[..n]), more[n])
  }

  lemma StepInstallsNone(s: State, e: Event)
    requires s.sh.installed.None? && !Completes(s, e)
    ensures Step(s, e).sh.installed.None?
  {
  }

  lemma {:induction false} NoneUntilCompleted(schedule: seq<Event>, more: seq<Event>)
    requires Reached(schedule).sh.installed.None? && NoneCompletes(schedule, more)
    ensures Reached(schedule + more).sh.installed.None?
  {
    if more == [] {
      assert schedule + more == schedule;
    } else {
      var n := |more| - 1;
      NoneUntilCompleted(schedule, more[..n]);
      ReachedLast(schedule, more);
      StepInstallsNone(Reached(schedule + more[..n]), more[n]);
    }
  }

  /** Without a client, and until an authenticate completes, none is installed and every command fails at once. */
  lemma NoCommandWithoutClient(schedule: seq<Event>, more: seq<Event>, t: TaskId)
    requires Reached(schedule).sh.installed.None? && NoneCompletes(schedule, more)
    requires t !in Reached(schedule + more).tasks
    ensures Reached(schedule + more).sh.installed.None?
    ensures Step(Reached(schedule + more), Call(t, RunCommand)).tasks[t] == Done(false)
  {
    NoneUntilCompleted(schedule, more);
  }

  /** A command runs on the client installed when it is called, and fails at once exactly when there is none. */
  lemma CommandUsesInstalled(schedule: seq<Event>, t: TaskId)
    requires t !in Reached(schedule).tasks
    ensures var s := Reached(schedule);
            var s' := Step(s, Call(t, RunCommand));
            && s'.sh == s.sh
            && (forall c: ClientId :: s'.tasks[t] == Commanding(c) <==> s.sh.installed == Some(c))
            && (s'.tasks[t] == Done(false) <==> s.sh.installed.None?)
  {
  }

  /**
   A command that fails with a listed error closes its client for good; if that was the installed one, none is
   installed then. Any other end of a command changes nothing.
   */
  lemma FailedCommandRetires(schedule: seq<Event>, t: TaskId, o: Outcome, more: seq<Event>)
    requires t in Reached(schedule).tasks && Reached(schedule).tasks[t].Commanding?
    ensures var s, s' := Reached(schedule), Reached(schedule + [Run(t, o)]);
            var c := s.tasks[t].client;
            && s'.tasks[t] == Done(o.Succeeds?)
            && (o.ListedFailure? ==>
                  && s'.sh.installed == (if s.sh.installed == Some(c) then None else s.sh.installed)
                  && s'.sh.live == s.sh.live - {c}
                  && Retired(Reached(schedule + [Run(t, o)] + more).sh, c))
            && (!o.ListedFailure? ==> s'.sh == s.sh)
  {
    ReachedInv(schedule);
    var s := Reached(schedule);
    assert TaskOk(s.sh, t, s.tasks[t]);
    var all := schedule + [Run(t, o)];
    assert all[..|schedule|] == schedule;
    if o.ListedFailure? {
      RetiredForGood(all, more, s.tasks[t].client);
    }
  }

  /** A command that fails on an older client leaves the installed client alone. */
  lemma FailedCommandSparesReplacement(sh: Shared, c: ClientId, o: Outcome)
    requires sh.installed != Some(c)
    ensures Resume(sh, Commanding(c), o).0.installed == sh.installed
    ensures sh.installed.Some? && sh.installed.value in sh.live ==> sh.installed.value in Resume(sh, Commanding(c), o).0.live
  {
  }

  // ------------------------------------------------------------------- class

  class NanoKvmSsh {
    var sshClient: Option<ClientId>
    var stateGeneration: nat
    var live: set<ClientId>
    var nextClient: ClientId
    ghost var owner: map<ClientId, TaskId>
    ghost var everInstalled: set<ClientId>
    ghost var uncaught: set<ClientId>

    ghost function View(): Shared
      reads this
    {
      Shared(stateGeneration, sshClient, live, nextClient, owner, everInstalled, uncaught)
    }

    constructor ()
      ensures View() == Initial.sh && SharedOk(View())
    {
      sshClient, stateGeneration := None, 0;
      live, nextClient := {}, 0;
      owner, everInstalled, uncaught := map[], {}, {};
    }

    method CloseClient(client: ClientId)
      modifies this`live
      ensures View() == Closed(old(View()), Some(client))
    {
      live := live - {client};
    }

    method BeginAuthenticate(ghost task: TaskId) returns (client: ClientId, generation: nat)
      requires SharedOk(View())
      modifies this
      ensures View() == Begun(old(View()), task) && SharedOk(View())
      ensures client == old(nextClient) && generation == stateGeneration
    {
      client := nextClient;
      live := live + {client};
      nextClient := nextClient + 1;
      owner := owner[client := task];
      stateGeneration := stateGeneration + 1;
      generation := stateGeneration;
    }

    /** After a successful connect: false is the error of a superseded authentication. */
    method FinishAuthenticate(client: ClientId, generation: nat) returns (installed: bool)
      requires SharedOk(View()) && client in owner && client in live && client !in uncaught && sshClient != Some(client)
      modifies this
      ensures View() == Connected(old(View()), client, generation) && SharedOk(View())
      ensures installed <==> generation == old(stateGeneration)
    {
      if generation != stateGeneration {
        CloseClient(client);
        return false;
      }
      var previous := sshClient;
      sshClient := Some(client);
      everInstalled := everInstalled + {client};
      if previous.Some? {
        CloseClient(previous.value);
      }
      installed := true;
    }

    method Disconnect()
      requires SharedOk(View())
      modifies this
      ensures View() == Disconnected(old(View())) && SharedOk(View())
    {
      stateGeneration := stateGeneration + 1;
      var client := sshClient;
      sshClient := None;
      if client.Some? {
        CloseClient(client.value);
      }
    }

    method InvalidateClient(client: ClientId)
      requires SharedOk(View()) && client in everInstalled
      modifies this
      ensures View() == Invalidated(old(View()), client) && SharedOk(View())
    {
      if sshClient == Some(client) {
        sshClient := None;
      }
      CloseClient(client);
    }
  }

  // --------------------------------------------------------------------- runs

  method Begin(ssh: NanoKvmSsh, t: TaskId, op: Op) returns (next: Pc)
    requires SharedOk(ssh.View())
    modifies ssh
    ensures BeginOp(old(ssh.View()), t, op) == (ssh.View(), next)
  {
    match op
    case Authenticate =>
      var client, generation := ssh.BeginAuthenticate(t);
      next := Connecting(client, generation);
    case Disconnect =>
      ssh.Disconnect();
      next := Done(true);
    case RunCommand =>
      next := if ssh.sshClient.Some? then Commanding(ssh.sshClient.value) else Done(false);
  }

  method Continue(ssh: NanoKvmSsh, ghost t: TaskId, pc: Pc, o: Outcome) returns (next: Pc)
    requires SharedOk(ssh.View()) && TaskOk(ssh.View(), t, pc)
    modifies ssh
    ensures Resume(old(ssh.View()), pc, o) == (ssh.View(), next)
  {
    match pc
    case Connecting(c, g) =>
      match o {
        case Succeeds =>
          var installed := ssh.FinishAuthenticate(c, g);
          next := Done(installed);
        case ListedFailure =>
          ssh.CloseClient(c);
          next := Done(false);
        case OtherFailure =>
          ssh.uncaught := ssh.uncaught + {c};
          next := Done(false);
        case Cancelled =>
          ssh.CloseClient(c);
          next := Abandoned(c);
      }
    case Abandoned(c) =>
      if o.Succeeds? {
        ssh.live := ssh.live + {c};
      }
      next := Late(c);
    case Late(c) =>
      ssh.CloseClient(c);
      next := Done(false);
    case Commanding(c) =>
      if o.ListedFailure? {
        ssh.InvalidateClient(c);
      }
      next := Done(o.Succeeds?);
    case Done(_) =>
      next := pc;
  }

  /** One client object through any schedule of calls and outcomes. */
  method RunSchedule(schedule: seq<Event>) returns (ssh: NanoKvmSsh, tasks: map<TaskId, Pc>)
    ensures fresh(ssh) && ssh.View() == Reached(schedule).sh && tasks == Reached(schedule).tasks
  {
    ssh := new NanoKvmSsh();
    tasks := map[];
    assert schedule[..0] == [];
    for i := 0 to |schedule|
      invariant fresh(ssh) && ssh.View() == Reached(schedule[..i]).sh && tasks == Reached(schedule[..i]).tasks
    {
      CutAt(schedule, i);
      ReachedInv(schedule[..i]);
      match schedule[i]
      case Call(t, op) =>
        if t !in tasks {
          var pc := Begin(ssh, t, op);
          tasks := tasks[t := pc];
        }
      case Run(t, o) =>
        if t in tasks {
          var pc := Continue(ssh, t, tasks[t], o);
          tasks := tasks[t := pc];
        }
    }
    TakeAll(schedule);
  }
}
