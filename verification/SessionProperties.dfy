/** What the session's protocol guarantees in every reachable state and over every run. */
module SessionProperties {
  import opened Common
  import opened SessionState
  import opened SessionTasks
  import opened SessionInvariant
  import opened SessionOutcomes

  // ---------------------------------------------------------------- tokens

  /**
   A token in use is the constructor's, in generation 0, or was written by the one login that began the current
   generation; each generation has at most one token write, by its own login.
   */
  lemma TokenBelongsToItsLogin(cfg: Config, schedule: seq<Event>)
    ensures var s := Reached(cfg, schedule);
            && (s.sh.token.Some? ==>
                  if s.sh.generation == 0 then s.sh.token == cfg.token
                  else exists w :: w in s.h.writes && w.generation == s.sh.generation && w.token == s.sh.token.value)
            && (forall i :: 0 <= i < |s.h.writes| ==> Owns(s.h, s.h.writes[i].task, s.h.writes[i].generation))
            && (forall i, j :: 0 <= i < j < |s.h.writes| ==> s.h.writes[i].generation != s.h.writes[j].generation)
  {
    ReachedInv(cfg, schedule);
    var s := Reached(cfg, schedule);
    if s.sh.token.Some? && s.sh.generation > 0 {
      var w := s.h.writes[|s.h.writes| - 1];
      assert w in s.h.writes;
    }
  }

  /** A login that captured `generation`. */
  predicate LoginIn(pc: Pc, generation: nat) {
    || (pc.LoginClosing? && pc.generation == generation)
    || (pc.LoginSent? && pc.generation == generation)
  }

  /** Its next segment changes nothing and ends it. */
  lemma SupersededLoginEnds(cfg: Config, t: TaskId, sh: Shared, h: History, pc: Pc, o: Outcome, generation: nat)
    requires LoginIn(pc, generation) && generation != sh.generation
    ensures Resume(cfg, t, sh, h, pc, o) == Next(sh, h, Done(false))
  {
  }

  /** No token is set, no credentials are kept and no password mode is learnt; they may only be dropped. */
  predicate WritesNoIdentity(sh: Shared, sh': Shared) {
    && (sh'.token == sh.token || sh'.token.None?)
    && (sh'.credentials == sh.credentials || sh'.credentials.None?)
    && sh'.obfuscation == sh.obfuscation
  }

  lemma BeginningWritesNoIdentity(sh: Shared, op: Op)
    ensures WritesNoIdentity(sh, BeginOp(sh, op).0)
  {
  }

  lemma OtherSegmentsWriteNoIdentity(cfg: Config, t: TaskId, sh: Shared, h: History, pc: Pc, o: Outcome)
    requires !pc.LoginSent?
    ensures WritesNoIdentity(sh, Resume(cfg, t, sh, h, pc, o).sh)
  {
  }

  lemma LoginWritesWhenItEnds(cfg: Config, t: TaskId, sh: Shared, h: History, pc: Pc, o: Outcome)
    requires pc.LoginSent?
    ensures var n := Resume(cfg, t, sh, h, pc, o);
            || WritesNoIdentity(sh, n.sh)
            || (pc.generation == sh.generation == n.sh.generation && n.pc == Done(true) && Usable(n.sh.token))
  {
  }

  /** Only the login that owns the current generation sets a token, keeps credentials or learns the password mode. */
  lemma OnlyTheOwnerWrites(cfg: Config, schedule: seq<Event>, e: Event)
    ensures var s := Reached(cfg, schedule);
            var s' := Step(cfg, s, e);
            || WritesNoIdentity(s.sh, s'.sh)
            || (&& e.Run? && e.task in s.tasks && LoginIn(s.tasks[e.task], s.sh.generation)
                && Owns(s.h, e.task, s.sh.generation)
                && s'.sh.generation == s.sh.generation && s'.tasks[e.task] == Done(true))
  {
    ReachedInv(cfg, schedule);
    var s := Reached(cfg, schedule);
    if e.Call? {
      BeginningWritesNoIdentity(s.sh, e.op);
    } else if e.task in s.tasks {
      var pc := s.tasks[e.task];
      assert TaskOk(s.sh, s.h, e.task, pc);
      if pc.LoginSent? {
        LoginWritesWhenItEnds(cfg, e.task, s.sh, s.h, pc, e.outcome);
      } else {
        OtherSegmentsWriteNoIdentity(cfg, e.task, s.sh, s.h, pc, e.outcome);
      }
    }
  }

  /** Kept credentials exist only in a client that keeps them, and are those of a login the device accepted. */
  lemma KeptCredentialsWereAccepted(cfg: Config, schedule: seq<Event>)
    requires Reached(cfg, schedule).sh.credentials.Some?
    ensures var s := Reached(cfg, schedule);
            cfg.keepCredentials && exists w :: w in s.h.writes && w.kept == s.sh.credentials && Owns(s.h, w.task, w.generation)
  {
    ReachedInv(cfg, schedule);
    var s := Reached(cfg, schedule);
    var i :| 0 <= i < |s.h.writes| && s.h.writes[i].kept == s.sh.credentials;
    assert s.h.writes[i] in s.h.writes;
  }

  // ------------------------------------------------------------ over a run

  /** `s'` is later than `s`: nothing recorded is lost, and everything new happened at or after `s`'s generation. */
  ghost predicate Later(s: State, s': State) {
    && s.sh.generation <= s'.sh.generation
    && s.h.posts <= s'.h.posts && s.h.accepted <= s'.h.accepted
    && (forall t :: t in s.h.started ==> t in s'.h.started && s'.h.started[t] == s.h.started[t])
    && (s'.sh.generation == s.sh.generation && s.sh.token.Some? ==> s'.sh.token == s.sh.token)
    && (forall i :: |s.h.posts| <= i < |s'.h.posts| ==> s'.h.posts[i].generation >= s.sh.generation)
    && (forall i :: |s.h.accepted| <= i < |s'.h.accepted| ==> s'.h.accepted[i].at >= s.sh.generation)
  }

  lemma LaterTrans(s: State, s1: State, s2: State)
    requires Later(s, s1) && Later(s1, s2)
    ensures Later(s, s2)
  {
    forall i | |s.h.posts| <= i < |s2.h.posts|
      ensures s2.h.posts[i].generation >= s.sh.generation
    {
      assert i < |s1.h.posts| ==> s2.h.posts[i] == s1.h.posts[i];
    }
    forall i | |s.h.accepted| <= i < |s2.h.accepted|
      ensures s2.h.accepted[i].at >= s.sh.generation
    {
      assert i < |s1.h.accepted| ==> s2.h.accepted[i] == s1.h.accepted[i];
    }
  }

  /** Whatever a step guarantees to the others makes its end later than its beginning. */
  lemma GuaranteeIsLater(t: TaskId, s: State, sh': Shared, h': History, s': State)
    requires Guarantee(t, s.sh, s.h, sh', h')
    requires s'.sh == sh' && s'.h == h'.(logs := s'.h.logs, rejected := s'.h.rejected)
    ensures Later(s, s')
  {
  }

  lemma SegmentIsLater(cfg: Config, s: State, t: TaskId, o: Outcome)
    requires t in s.tasks && t in s.h.logs && SharedOk(cfg, s.sh, s.h) && TaskOk(s.sh, s.h, t, s.tasks[t])
    ensures Later(s, Step(cfg, s, Run(t, o)))
  {
    var n := Resume(cfg, t, s.sh, s.h, s.tasks[t], o);
    StepResume(cfg, t, s.sh, s.h, s.tasks[t], o);
    GuaranteeIsLater(t, s, n.sh, n.h, Step(cfg, s, Run(t, o)));
  }

  lemma StepIsLater(cfg: Config, s: State, e: Event)
    requires Inv(cfg, s)
    ensures Later(s, Step(cfg, s, e))
  {
    match e
    case Call(t, op) =>
    case Run(t, o) =>
      if t in s.tasks && t in s.h.logs {
        SegmentIsLater(cfg, s, t, o);
      }
  }

  lemma {:induction false} RunIsLater(cfg: Config, schedule: seq<Event>, more: seq<Event>)
    ensures Later(Reached(cfg, schedule), Reached(cfg, schedule + more))
  {
    if more == [] {
      assert schedule + more == schedule;
    } else {
      var n := |more| - 1;
      var before := schedule + more[..n];
      RunIsLater(cfg, schedule, more[..n]);
      ReachedInv(cfg, before);
      LastOfBoth(schedule, more);
      StepIsLater(cfg, Reached(cfg, before), more[n]);
      LaterTrans(Reached(cfg, schedule), Reached(cfg, before), Reached(cfg, schedule + more));
    }
  }

  /** A login that can write no more: it has failed, or its generation has passed. */
  predicate Superseded(s: State, t: TaskId) {
    && t in s.tasks
    && (s.tasks[t] == Done(false)
        || ((s.tasks[t].LoginClosing? || s.tasks[t].LoginSent?) && s.tasks[t].generation < s.sh.generation))
  }

  ghost predicate NoWriteBy(t: TaskId, h: History, h': History) {
    h.writes <= h'.writes && forall i :: |h.writes| <= i < |h'.writes| ==> h'.writes[i].task != t
  }

  lemma OtherKeepsSuperseded(cfg: Config, s: State, u: TaskId, o: Outcome, t: TaskId)
    requires u in s.tasks && u in s.h.logs && u != t && SharedOk(cfg, s.sh, s.h) && TaskOk(s.sh, s.h, u, s.tasks[u])
    requires Superseded(s, t)
    ensures var s' := Step(cfg, s, Run(u, o)); Superseded(s', t) && NoWriteBy(t, s.h, s'.h)
  {
    StepResume(cfg, u, s.sh, s.h, s.tasks[u], o);
    StepAdds(cfg, u, s.sh, s.h, s.tasks[u], o);
  }

  lemma StepKeepsSuperseded(cfg: Config, s: State, e: Event, t: TaskId)
    requires Inv(cfg, s) && Superseded(s, t)
    ensures Superseded(Step(cfg, s, e), t) && NoWriteBy(t, s.h, Step(cfg, s, e).h)
  {
    if e.Run? && e.task in s.tasks && e.task in s.h.logs {
      if e.task != t {
        OtherKeepsSuperseded(cfg, s, e.task, e.outcome, t);
      } else if !s.tasks[t].Done? {
        SupersededLoginEnds(cfg, t, s.sh, s.h, s.tasks[t], e.outcome, s.tasks[t].generation);
      }
    }
  }

  /** Once its generation has passed, a login writes neither token nor credentials nor password mode in any continuation. */
  lemma {:induction false} SupersededLoginWritesNothing(cfg: Config, schedule: seq<Event>, more: seq<Event>, t: TaskId)
    requires Superseded(Reached(cfg, schedule), t)
    ensures Superseded(Reached(cfg, schedule + more), t)
    ensures NoWriteBy(t, Reached(cfg, schedule).h, Reached(cfg, schedule + more).h)
  {
    if more == [] {
      assert schedule + more == schedule;
    } else {
      var n := |more| - 1;
      var before := schedule + more[..n];
      SupersededLoginWritesNothing(cfg, schedule, more[..n], t);
      ReachedInv(cfg, before);
      LastOfBoth(schedule, more);
      StepKeepsSuperseded(cfg, Reached(cfg, before), more[n], t);
      NoWriteTrans(t, Reached(cfg, schedule).h, Reached(cfg, before).h, Reached(cfg, schedule + more).h);
    }
  }

  lemma NoWriteTrans(t: TaskId, h: History, h1: History, h2: History)
    requires NoWriteBy(t, h, h1) && NoWriteBy(t, h1, h2)
    ensures NoWriteBy(t, h, h2)
  {
    assert forall i :: |h.writes| <= i < |h1.writes| ==> h2.writes[i] == h1.writes[i];
  }

  /** A token, once set, stays until the generation moves on. */
  lemma TokenStaysInItsGeneration(cfg: Config, schedule: seq<Event>, more: seq<Event>)
    requires Reached(cfg, schedule).sh.token.Some?
    requires Reached(cfg, schedule + more).sh.generation == Reached(cfg, schedule).sh.generation
    ensures Reached(cfg, schedule + more).sh.token == Reached(cfg, schedule).sh.token
  {
    RunIsLater(cfg, schedule, more);
  }

  // ------------------------------------------------------- stale outcomes

  /**
   A clear for generation `expected` (after a 401, a failed handshake, a logout or a password change) does nothing
   in any other generation. In its own it begins the next one without token or WebSocket. Either way the
   generation is past `expected` once it has run.
   */
  lemma StaleClearIsIsolated(cfg: Config, schedule: seq<Event>, t: TaskId, closed: bool)
    requires var s := Reached(cfg, schedule); t in s.tasks && s.tasks[t].Clearing? && s.sh.lock.None?
    ensures var s := Reached(cfg, schedule);
            var expected := s.tasks[t].cause.generation;
            var n := Resume(cfg, t, s.sh, s.h, s.tasks[t], Go(closed));
            && n.sh.generation > expected
            && (expected != s.sh.generation ==> n.sh == s.sh && n.h == s.h)
            && (expected == s.sh.generation ==>
                  && n.sh.generation == expected + 1 && n.sh.token.None? && n.sh.ws.None? && n.sh.heartbeat.None?
                  && n.h.clears == s.h.clears + [Clear(t, Some(s.tasks[t].cause))])
  {
    ReachedInv(cfg, schedule);
    var s := Reached(cfg, schedule);
    assert TaskOk(s.sh, s.h, t, s.tasks[t]);
  }

  /**
   Why each generation ended: a login replaced it; or a request or handshake sent in it, with its own token, was
   answered 401; or a logout, or a password change whose POST was accepted in it, had been called in it.
   */
  lemma GenerationsEndForCause(cfg: Config, schedule: seq<Event>, g: nat)
    requires g < Reached(cfg, schedule).sh.generation
    ensures var h := Reached(cfg, schedule).h;
            && |h.clears| == Reached(cfg, schedule).sh.generation
            && var c := h.clears[g];
            && c.task in h.logs && c.task in h.started
            && var log := h.logs[c.task];
            && match c.cause {
                 case None => IsLogin(log.op)
                 case Some(Refused(at, token, handshake)) =>
                   && at == g && Sending(g, token, handshake) in log.refused && Sending(g, token, handshake) in log.sent
                   && TokenOf(cfg, h, g, token)
                 case Some(LoggedOut(at)) => at == g && log.op.Logout? && h.started[c.task] == g
                 case Some(PasswordChanged(at)) =>
                   at == g && log.op.ChangePassword? && h.started[c.task] == g && AcceptedPost(log, g)
               }
  {
    ReachedInv(cfg, schedule);
    ReachedTraced(cfg, schedule);
    var s := Reached(cfg, schedule);
    var t := s.h.clears[g].task;
    assert OwnOk(cfg, s.sh, s.h, s.h.started[t], s.h.logs[t], s.tasks[t]);
  }

  /** Every request and handshake carried the token of the generation it was sent in; so did every refused one. */
  lemma SentWithItsToken(cfg: Config, schedule: seq<Event>, t: TaskId)
    requires t in Reached(cfg, schedule).tasks
    ensures var h := Reached(cfg, schedule).h;
            && t in h.logs && h.logs[t].refused <= h.logs[t].sent
            && forall x :: x in h.logs[t].sent ==> TokenOf(cfg, h, x.generation, x.token)
  {
    ReachedTraced(cfg, schedule);
    var s := Reached(cfg, schedule);
    assert OwnOk(cfg, s.sh, s.h, s.h.started[t], s.h.logs[t], s.tasks[t]);
  }

  /** A response passes its exit check only in the generation it was sent in, and it was sent with that generation's token. */
  lemma AcceptedInItsGeneration(cfg: Config, schedule: seq<Event>, more: seq<Event>, i: nat)
    requires |Reached(cfg, schedule).h.accepted| <= i < |Reached(cfg, schedule + more).h.accepted|
    ensures var h := Reached(cfg, schedule + more).h;
            var a := h.accepted[i];
            && a.sent == a.at >= Reached(cfg, schedule).sh.generation
            && a.task in h.logs && Sending(a.sent, a.token, false) in h.logs[a.task].sent
            && TokenOf(cfg, h, a.at, a.token)
  {
    RunIsLater(cfg, schedule, more);
    ReachedInv(cfg, schedule + more);
    ReachedTraced(cfg, schedule + more);
    var s := Reached(cfg, schedule + more);
    var a := s.h.accepted[i];
    assert OwnOk(cfg, s.sh, s.h, s.h.started[a.task], s.h.logs[a.task], s.tasks[a.task]);
  }

  /** The next segment of a request overtaken by a generation change raises, whatever the device answers. */
  lemma OvertakenRequestRaises(cfg: Config, t: TaskId, sh: Shared, h: History, pc: Pc, o: Outcome)
    requires (pc.Sent? || pc.Reading?) && pc.generation != sh.generation
    ensures Resume(cfg, t, sh, h, pc, o) == Next(sh, h, Raised(pc.use, pc.generation))
  {
  }

  /** A request or logout on its way to a failure: it has raised, or been answered 401, and is cleaning up. */
  predicate Failing(pc: Pc) {
    match pc
    case Clearing(_, after) => after == End(false) || after.LogoutFinally?
    case Closing(_, after) => after == End(false) || after.LogoutFinally?
    case Done(ok) => !ok
    case _ => false
  }

  /** An authenticated request that can no longer be accepted: its generation passed before, or it is failing already. */
  predicate Overtaken(s: State, t: TaskId) {
    && t in s.tasks
    && (Failing(s.tasks[t]) || ((s.tasks[t].Sent? || s.tasks[t].Reading?) && s.tasks[t].generation < s.sh.generation))
  }

  /** Nothing sent by `t` is accepted between the two histories. */
  ghost predicate NoneAccepted(t: TaskId, h: History, h': History) {
    h.accepted <= h'.accepted && forall i :: |h.accepted| <= i < |h'.accepted| ==> h'.accepted[i].task != t
  }

  lemma OwnOvertakenStep(cfg: Config, s: State, t: TaskId, o: Outcome)
    requires Overtaken(s, t)
    ensures var n := Resume(cfg, t, s.sh, s.h, s.tasks[t], o);
            && n.h.accepted == s.h.accepted && s.sh.generation <= n.sh.generation
            && Failing(n.pc)
  {
    if s.tasks[t].Sent? || s.tasks[t].Reading? {
      OvertakenRequestRaises(cfg, t, s.sh, s.h, s.tasks[t], o);
    }
  }

  lemma OtherKeepsOvertaken(cfg: Config, s: State, u: TaskId, o: Outcome, t: TaskId)
    requires u in s.tasks && u in s.h.logs && u != t && SharedOk(cfg, s.sh, s.h) && TaskOk(s.sh, s.h, u, s.tasks[u])
    requires Overtaken(s, t)
    ensures var s' := Step(cfg, s, Run(u, o)); Overtaken(s', t) && NoneAccepted(t, s.h, s'.h)
  {
    StepResume(cfg, u, s.sh, s.h, s.tasks[u], o);
    StepAdds(cfg, u, s.sh, s.h, s.tasks[u], o);
  }

  lemma StepKeepsOvertaken(cfg: Config, s: State, e: Event, t: TaskId)
    requires Inv(cfg, s) && Overtaken(s, t)
    ensures Overtaken(Step(cfg, s, e), t) && NoneAccepted(t, s.h, Step(cfg, s, e).h)
  {
    if e.Run? && e.task in s.tasks && e.task in s.h.logs {
      if e.task == t {
        OwnOvertakenStep(cfg, s, t, e.outcome);
      } else {
        OtherKeepsOvertaken(cfg, s, e.task, e.outcome, t);
      }
    }
  }

  /**
   A request whose generation passed before it was accepted, the logout's POST included, is accepted in no
   continuation, and the operation that made it never succeeds.
   */
  lemma {:induction false} OvertakenRequestFails(cfg: Config, schedule: seq<Event>, more: seq<Event>, t: TaskId)
    requires Overtaken(Reached(cfg, schedule), t)
    ensures Overtaken(Reached(cfg, schedule + more), t)
    ensures NoneAccepted(t, Reached(cfg, schedule).h, Reached(cfg, schedule + more).h)
  {
    if more == [] {
      assert schedule + more == schedule;
    } else {
      var n := |more| - 1;
      var before := schedule + more[..n];
      OvertakenRequestFails(cfg, schedule, more[..n], t);
      ReachedInv(cfg, before);
      LastOfBoth(schedule, more);
      StepKeepsOvertaken(cfg, Reached(cfg, before), more[n], t);
      NoneAcceptedTrans(t, Reached(cfg, schedule).h, Reached(cfg, before).h, Reached(cfg, schedule + more).h);
    }
  }

  lemma NoneAcceptedTrans(t: TaskId, h: History, h1: History, h2: History)
    requires NoneAccepted(t, h, h1) && NoneAccepted(t, h1, h2)
    ensures NoneAccepted(t, h, h2)
  {
    assert forall i :: |h.accepted| <= i < |h1.accepted| ==> h2.accepted[i] == h1.accepted[i];
  }

  /**
   A request or detection that succeeded had its own response accepted, in the generation and with the token it was
   sent with; that is the generation it expects, if it names one.
   */
  lemma SuccessWasAccepted(cfg: Config, schedule: seq<Event>, t: TaskId)
    requires var s := Reached(cfg, schedule);
             t in s.tasks && t in s.h.logs && PlainUse(s.h.logs[t].op).Some? && s.tasks[t] == Done(true)
    ensures var h := Reached(cfg, schedule).h;
            exists a :: a in h.logs[t].accepted && a.use == PlainUse(h.logs[t].op).value && Expected(h.logs[t].op, a.at)
                        && a.sent == a.at && TokenOf(cfg, h, a.at, a.token)
  {
    ReachedTraced(cfg, schedule);
    AcceptanceMeans(cfg, Reached(cfg, schedule), t);
  }

  lemma AcceptanceMeans(cfg: Config, s: State, t: TaskId)
    requires Traced(cfg, s) && t in s.tasks && t in s.h.logs && PlainUse(s.h.logs[t].op).Some? && s.tasks[t] == Done(true)
    ensures exists a :: a in s.h.logs[t].accepted && a.use == PlainUse(s.h.logs[t].op).value && Expected(s.h.logs[t].op, a.at)
                        && a.sent == a.at && TokenOf(cfg, s.h, a.at, a.token)
  {
    var log := s.h.logs[t];
    assert OwnOk(cfg, s.sh, s.h, s.h.started[t], log, s.tasks[t]);
    var a :| a in log.accepted && a.use == PlainUse(log.op).value && Expected(log.op, a.at);
    assert a.sent == a.at && Sending(a.sent, a.token, false) in log.sent;
  }

  // ---------------------------------------------------------- a late version

  /** The state after the first `k` events. */
  function At(cfg: Config, schedule: seq<Event>, k: nat): State
    requires k <= |schedule|
  {
    Reached(cfg, schedule[..k])
  }

  /** `e` passes the exit check of a response, whose context its task then leaves at `pc`. */
  predicate ChecksReply(s: State, e: Event, pc: Pc) {
    && pc.Exiting? && e.Run? && e.task in s.tasks && e.outcome == Body(pc.payload)
    && s.tasks[e.task] == Reading(pc.use, pc.generation, pc.token) && pc.generation == s.sh.generation
  }

  /** `e` leaves the context of a version reply and stores it. */
  predicate StoresVersion(s: State, e: Event) {
    && e.Run? && e.outcome.Go? && e.task in s.tasks && e.task in s.h.logs
    && var pc := s.tasks[e.task];
    pc.Exiting? && (pc.use.Versions? || pc.use.VersionsFor?) && pc.payload.VersionIs?
  }

  /** What an event did: stored a version reply, or ended the session. */
  datatype Effect = Effect(stored: bool, ended: bool)

  function Effects(cfg: Config, schedule: seq<Event>): (effects: seq<Effect>)
    ensures |effects| == |schedule|
  {
    if schedule == [] then []
    else
      var s, e := Reached(cfg, schedule[..|schedule| - 1]), schedule[|schedule| - 1];
      Effects(cfg, schedule[..|schedule| - 1])
      + [Effect(StoresVersion(s, e), Reached(cfg, schedule).sh.generation != s.sh.generation)]
  }

  lemma {:induction false} EarlierEffects(cfg: Config, schedule: seq<Event>, k: nat)
    requires k <= |schedule|
    ensures Effects(cfg, schedule[..k]) == Effects(cfg, schedule)[..k]
  {
    if k == |schedule| {
      TakeAll(schedule);
    } else {
      var n := |schedule| - 1;
      EarlierEffects(cfg, schedule[..n], k);
      assert schedule[..n][..k] == schedule[..k];
    }
  }

  lemma ExitVersion(t: TaskId, sh: Shared, h: History, use: Use, g: nat, token: string, p: Payload, o: Outcome)
    ensures var n := OnExit(t, sh, h, use, g, token, p, o);
            && n.sh.generation == sh.generation
            && n.sh.version == if o.Go? && (use.Versions? || use.VersionsFor?) && p.VersionIs? then Some(p.application)
                               else sh.version
  {
  }

  lemma ResumeVersion(cfg: Config, t: TaskId, sh: Shared, h: History, pc: Pc, o: Outcome)
    requires !pc.Exiting?
    ensures var n := Resume(cfg, t, sh, h, pc, o);
            n.sh.version == if n.sh.generation == sh.generation then sh.version else None
  {
  }

  /** The cached version is stored by a version reply and forgotten when the session ends; nothing else changes it. */
  lemma StepVersion(cfg: Config, s: State, e: Event)
    ensures var s' := Step(cfg, s, e);
            if StoresVersion(s, e) then
              s'.sh.version == Some(s.tasks[e.task].payload.application) && s'.sh.generation == s.sh.generation
            else s'.sh.version == if s'.sh.generation == s.sh.generation then s.sh.version else None
  {
    if e.Run? && e.task in s.tasks && e.task in s.h.logs {
      var pc := s.tasks[e.task];
      if pc.Exiting? {
        ExitVersion(e.task, s.sh, s.h, pc.use, pc.generation, pc.token, pc.payload, e.outcome);
      } else {
        ResumeVersion(cfg, e.task, s.sh, s.h, pc, e.outcome);
      }
    }
  }

  /** An event that does not store a version keeps the cached one in its session, or ends the session and forgets it. */
  lemma LastEffect(cfg: Config, schedule: seq<Event>)
    requires schedule != [] && !Effects(cfg, schedule)[|schedule| - 1].stored && Reached(cfg, schedule).sh.version.Some?
    ensures var s, s' := Reached(cfg, schedule[..|schedule| - 1]), Reached(cfg, schedule);
            s'.sh.version == s.sh.version && s'.sh.generation == s.sh.generation
    ensures !Effects(cfg, schedule)[|schedule| - 1].ended
  {
    var n := |schedule| - 1;
    StepVersion(cfg, Reached(cfg, schedule[..n]), schedule[n]);
  }

  /** The event that stored the cached version; no later one stored another or ended the session. */
  lemma {:induction false} StoredBy(cfg: Config, schedule: seq<Event>) returns (stored: nat)
    requires Reached(cfg, schedule).sh.version.Some?
    ensures stored < |schedule| && Effects(cfg, schedule)[stored].stored
    ensures At(cfg, schedule, stored + 1).sh.version == Reached(cfg, schedule).sh.version
    ensures At(cfg, schedule, stored + 1).sh.generation == Reached(cfg, schedule).sh.generation
    ensures forall k :: stored < k < |schedule| ==> Effects(cfg, schedule)[k] == Effect(false, false)
  {
    var n := |schedule| - 1;
    if Effects(cfg, schedule)[n].stored {
      stored := n;
      TakeAll(schedule);
    } else {
      LastEffect(cfg, schedule);
      stored := StoredBy(cfg, schedule[..n]);
      assert schedule[..n][..stored + 1] == schedule[..stored + 1];
    }
  }

  function Ended(effects: seq<Effect>): nat {
    if effects == [] then 0
    else Ended(effects[..|effects| - 1]) + if effects[|effects| - 1].ended then 1 else 0
  }

  lemma ResumeGeneration(cfg: Config, t: TaskId, sh: Shared, h: History, pc: Pc, o: Outcome)
    ensures sh.generation <= Resume(cfg, t, sh, h, pc, o).sh.generation <= sh.generation + 1
  {
    if pc.Exiting? {
      ExitVersion(t, sh, h, pc.use, pc.generation, pc.token, pc.payload, o);
    }
  }

  lemma StepGeneration(cfg: Config, s: State, e: Event)
    ensures s.sh.generation <= Step(cfg, s, e).sh.generation <= s.sh.generation + 1
  {
    if e.Run? && e.task in s.tasks && e.task in s.h.logs {
      ResumeGeneration(cfg, e.task, s.sh, s.h, s.tasks[e.task], e.outcome);
    }
  }

  /** The generation counts the events that ended a session. */
  lemma {:induction false} GenerationCounts(cfg: Config, schedule: seq<Event>)
    ensures Reached(cfg, schedule).sh.generation == Ended(Effects(cfg, schedule))
  {
    if schedule != [] {
      var n := |schedule| - 1;
      GenerationCounts(cfg, schedule[..n]);
      StepGeneration(cfg, Reached(cfg, schedule[..n]), schedule[n]);
      assert Effects(cfg, schedule)[..n] == Effects(cfg, schedule[..n]);
    }
  }

  lemma {:induction false} EndedFrom(effects: seq<Effect>, i: nat)
    requires i <= |effects|
    ensures Ended(effects[..i]) <= Ended(effects)
    ensures Ended(effects[..i]) == Ended(effects) <==> forall k :: i <= k < |effects| ==> !effects[k].ended
  {
    if i == |effects| {
      TakeAll(effects);
    } else {
      EndedFrom(effects[..|effects| - 1], i);
      assert effects[..|effects| - 1][..i] == effects[..i];
    }
  }

  lemma GenerationAt(cfg: Config, schedule: seq<Event>, k: nat)
    requires k <= |schedule|
    ensures At(cfg, schedule, k).sh.generation == Ended(Effects(cfg, schedule)[..k])
  {
    GenerationCounts(cfg, schedule[..k]);
    EarlierEffects(cfg, schedule, k);
  }

  /** Between two points of a run the generation is the same exactly when no event there ended a session. */
  lemma SameGeneration(cfg: Config, schedule: seq<Event>, i: nat, m: nat)
    requires i <= m <= |schedule|
    ensures At(cfg, schedule, i).sh.generation == At(cfg, schedule, m).sh.generation
       <==> forall k :: i <= k < m ==> !Effects(cfg, schedule)[k].ended
  {
    GenerationAt(cfg, schedule, i);
    GenerationAt(cfg, schedule, m);
    EndedBetween(Effects(cfg, schedule), i, m);
  }

  lemma EndedBetween(effects: seq<Effect>, i: nat, m: nat)
    requires i <= m <= |effects|
    ensures Ended(effects[..i]) == Ended(effects[..m]) <==> forall k :: i <= k < m ==> !effects[k].ended
  {
    assert effects[..m][..i] == effects[..i];
    EndedFrom(effects[..m], i);
  }

  lemma StepExits(cfg: Config, s: State, e: Event, t: TaskId)
    requires t in Step(cfg, s, e).tasks && Step(cfg, s, e).tasks[t].Exiting?
    ensures (t in s.tasks && s.tasks[t] == Step(cfg, s, e).tasks[t])
            || (ChecksReply(s, e, Step(cfg, s, e).tasks[t]) && e.task == t)
  {
    match e
    case Call(u, op) =>
      if op.ChangePassword? {
        BegunPcs(s.sh.(credentials := None), PasswordCall(s.sh.generation, op.account, op.current));
      }
    case Run(u, o) =>
      if u in s.tasks && u in s.h.logs && s.tasks[u].Exiting? {
        var pc := s.tasks[u];
        ExitWaits(u, s.sh, s.h, pc.use, pc.generation, pc.token, pc.payload, o);
      }
  }

  /** A task that leaves a response's context has passed its exit check. */
  lemma {:induction false} CheckedBy(cfg: Config, schedule: seq<Event>, t: TaskId) returns (checked: nat)
    requires t in Reached(cfg, schedule).tasks && Reached(cfg, schedule).tasks[t].Exiting?
    ensures checked < |schedule| && schedule[checked].task == t
    ensures ChecksReply(At(cfg, schedule, checked), schedule[checked], Reached(cfg, schedule).tasks[t])
  {
    var n := |schedule| - 1;
    StepExits(cfg, At(cfg, schedule, n), schedule[n], t);
    if ChecksReply(At(cfg, schedule, n), schedule[n], Reached(cfg, schedule).tasks[t]) && schedule[n].task == t {
      checked := n;
    } else {
      checked := CheckedBy(cfg, schedule[..n], t);
      assert schedule[..n][..checked] == schedule[..checked];
    }
  }

  /**
   In every reachable state with a cached version: it is the reply to a request that was sent, and passed its exit
   check, in one generation, and it was asked for in the current generation if and only if no session ended between
   that check and its store. No session has ended, and no other version was stored, since.
   */
  lemma CachedVersionIsCurrentIff(cfg: Config, schedule: seq<Event>) returns (checked: nat, stored: nat)
    requires Reached(cfg, schedule).sh.version.Some?
    ensures checked < stored < |schedule| && schedule[checked].task == schedule[stored].task
    ensures StoresVersion(At(cfg, schedule, stored), schedule[stored])
    ensures var s, t := At(cfg, schedule, stored), schedule[stored].task;
            var pc := s.tasks[t];
            && Reached(cfg, schedule).sh.version == Some(pc.payload.application)
            && Sending(pc.generation, pc.token, false) in s.h.logs[t].sent
            && ChecksReply(At(cfg, schedule, checked), schedule[checked], pc)
            && (pc.generation == Reached(cfg, schedule).sh.generation
                <==> forall k :: checked < k < stored ==> !Effects(cfg, schedule)[k].ended)
    ensures forall k :: stored < k < |schedule| ==> Effects(cfg, schedule)[k] == Effect(false, false)
  {
    stored := StoredVersion(cfg, schedule);
    checked := CheckedBefore(cfg, schedule, stored);
  }

  lemma StoredVersion(cfg: Config, schedule: seq<Event>) returns (stored: nat)
    requires Reached(cfg, schedule).sh.version.Some?
    ensures stored < |schedule| && StoresVersion(At(cfg, schedule, stored), schedule[stored])
    ensures var s, s' := At(cfg, schedule, stored), Reached(cfg, schedule);
            && s'.sh.version == Some(s.tasks[schedule[stored].task].payload.application)
            && s'.sh.generation == s.sh.generation
    ensures forall k :: stored < k < |schedule| ==> Effects(cfg, schedule)[k] == Effect(false, false)
  {
    stored := StoredBy(cfg, schedule);
    StoreMeans(cfg, schedule, stored);
  }

  /** The store leaves the version of its reply, in the generation it finds. */
  lemma StoreMeans(cfg: Config, schedule: seq<Event>, stored: nat)
    requires stored < |schedule| && Effects(cfg, schedule)[stored].stored
    ensures var s, s' := At(cfg, schedule, stored), At(cfg, schedule, stored + 1);
            && StoresVersion(s, schedule[stored]) && s'.sh.generation == s.sh.generation
            && s'.sh.version == Some(s.tasks[schedule[stored].task].payload.application)
  {
    EarlierEffects(cfg, schedule, stored + 1);
    assert schedule[..stored + 1][..stored] == schedule[..stored];
    StepVersion(cfg, At(cfg, schedule, stored), schedule[stored]);
  }

  /** The check that the stored reply passed, the request that was sent for it, and the sessions since. */
  lemma CheckedBefore(cfg: Config, schedule: seq<Event>, stored: nat) returns (checked: nat)
    requires stored < |schedule| && StoresVersion(At(cfg, schedule, stored), schedule[stored])
    ensures checked < stored && schedule[checked].task == schedule[stored].task
    ensures var s, t := At(cfg, schedule, stored), schedule[stored].task;
            && Sending(s.tasks[t].generation, s.tasks[t].token, false) in s.h.logs[t].sent
            && ChecksReply(At(cfg, schedule, checked), schedule[checked], s.tasks[t])
            && (s.tasks[t].generation == s.sh.generation
                <==> forall k :: checked < k < stored ==> !Effects(cfg, schedule)[k].ended)
  {
    var t := schedule[stored].task;
    checked := CheckedIn(cfg, schedule, stored, t);
    SentBefore(cfg, schedule[..stored], t);
    SessionsSince(cfg, schedule, checked, stored, At(cfg, schedule, stored).tasks[t]);
  }

  lemma CheckedIn(cfg: Config, schedule: seq<Event>, k: nat, t: TaskId) returns (checked: nat)
    requires k <= |schedule| && t in At(cfg, schedule, k).tasks && At(cfg, schedule, k).tasks[t].Exiting?
    ensures checked < k && schedule[checked].task == t
    ensures ChecksReply(At(cfg, schedule, checked), schedule[checked], At(cfg, schedule, k).tasks[t])
  {
    checked := CheckedBy(cfg, schedule[..k], t);
    assert schedule[..k][..checked] == schedule[..checked];
  }

  /** A passed exit check ends no session, so the generation is still its own unless a later event ended one. */
  lemma SessionsSince(cfg: Config, schedule: seq<Event>, checked: nat, k: nat, pc: Pc)
    requires checked < k <= |schedule| && ChecksReply(At(cfg, schedule, checked), schedule[checked], pc)
    ensures pc.generation == At(cfg, schedule, k).sh.generation
       <==> forall i :: checked < i < k ==> !Effects(cfg, schedule)[i].ended
  {
    CheckKeepsGeneration(cfg, schedule, checked, pc);
    SameGeneration(cfg, schedule, checked + 1, k);
  }

  lemma SentBefore(cfg: Config, schedule: seq<Event>, t: TaskId)
    requires t in Reached(cfg, schedule).tasks && Reached(cfg, schedule).tasks[t].Exiting?
    ensures var s := Reached(cfg, schedule);
            t in s.h.logs && Sending(s.tasks[t].generation, s.tasks[t].token, false) in s.h.logs[t].sent
  {
    ReachedTraced(cfg, schedule);
    var s := Reached(cfg, schedule);
    assert OwnOk(cfg, s.sh, s.h, s.h.started[t], s.h.logs[t], s.tasks[t]);
  }

  /** A passed exit check ends no session. */
  lemma CheckKeepsGeneration(cfg: Config, schedule: seq<Event>, k: nat, pc: Pc)
    requires k < |schedule| && ChecksReply(At(cfg, schedule, k), schedule[k], pc)
    ensures At(cfg, schedule, k + 1).sh.generation == pc.generation
  {
    assert schedule[..k + 1][..k] == schedule[..k];
  }

  // -------------------------------------------------------- kept credentials

  predicate Drops(op: Op) {
    op.Authenticate? || op.Logout? || op.ChangePassword? || op == CloseSocket(true)
  }

  lemma RunCredentials(cfg: Config, t: TaskId, sh: Shared, h: History, pc: Pc, o: Outcome)
    requires sh.credentials.Some?
    ensures var n := Resume(cfg, t, sh, h, pc, o);
            n.sh.credentials != sh.credentials ==>
              && pc.LoginSent? && o.LoginReply? && pc.generation == sh.generation
              && (if n.sh.credentials.None? then sh.credentials.value in RejectedNow(sh, pc, o)
                  else n.pc == Done(true) && pc.login.used.None? && cfg.keepCredentials)
  {
    if pc.Exiting? {
      ExitKeepsCredentials(t, sh, h, pc.use, pc.generation, pc.token, pc.payload, o);
    }
  }

  lemma ExitKeepsCredentials(t: TaskId, sh: Shared, h: History, use: Use, g: nat, token: string, p: Payload, o: Outcome)
    ensures OnExit(t, sh, h, use, g, token, p, o).sh.credentials == sh.credentials
  {
  }

  /**
   Kept credentials go only for cause: a fresh login, a logout, a password change or the client's exit is called; the
   device rejects the login that used them; or a fresh login is accepted and keeps its own. Failures of any other
   kind, of a reauthentication too, leave them.
   */
  lemma CredentialsGoForCause(cfg: Config, schedule: seq<Event>, e: Event)
    requires Reached(cfg, schedule).sh.credentials.Some?
    ensures var s := Reached(cfg, schedule);
            var s' := Step(cfg, s, e);
            s'.sh.credentials != s.sh.credentials ==>
              match e {
                case Call(t, op) => Drops(op) && s'.sh.credentials.None?
                case Run(t, o) =>
                  && t in s.tasks && s.tasks[t].LoginSent? && o.LoginReply?
                  && (if s'.sh.credentials.None? then s.sh.credentials.value in s'.h.rejected
                      else s'.tasks[t] == Done(true) && s.tasks[t].login.used.None? && cfg.keepCredentials)
              }
    ensures e.Call? && e.task !in Reached(cfg, schedule).tasks ==>
              (Step(cfg, Reached(cfg, schedule), e).sh.credentials.None? <==> Drops(e.op))
  {
    var s := Reached(cfg, schedule);
    if e.Run? && e.task in s.tasks && e.task in s.h.logs {
      RunCredentials(cfg, e.task, s.sh, s.h, s.tasks[e.task], e.outcome);
    }
  }

  // ------------------------------------------------- how operations end

  /** A login that tried these modes succeeded exactly if it wrote a token, and then in the last of them. */
  ghost predicate LoginEndedAs(h: History, t: TaskId, tries: seq<bool>, ok: bool) {
    && (ok <==> exists i :: 0 <= i < |h.writes| && h.writes[i].task == t)
    && (|tries| <= 1 || tries == [true, false])
    && forall i :: 0 <= i < |h.writes| && h.writes[i].task == t ==>
         tries != [] && h.writes[i].obfuscate == tries[|tries| - 1]
  }

  /** A login succeeds exactly when it wrote a token; it tried at most two modes, plain only after obfuscated, and kept the last. */
  lemma LoginSucceedsIffItWrote(cfg: Config, schedule: seq<Event>, t: TaskId)
    requires var s := Reached(cfg, schedule);
             t in s.tasks && t in s.h.logs && IsLogin(s.h.logs[t].op) && s.tasks[t].Done?
    ensures var s := Reached(cfg, schedule); LoginEndedAs(s.h, t, s.h.logs[t].tries, s.tasks[t].ok)
  {
    ReachedTraced(cfg, schedule);
    LoginMeans(cfg, Reached(cfg, schedule), t);
  }

  lemma LoginMeans(cfg: Config, s: State, t: TaskId)
    requires Traced(cfg, s) && t in s.tasks && t in s.h.logs && IsLogin(s.h.logs[t].op) && s.tasks[t].Done?
    ensures LoginEndedAs(s.h, t, s.h.logs[t].tries, s.tasks[t].ok)
  {
    var log := s.h.logs[t];
    assert OwnOk(cfg, s.sh, s.h, s.h.started[t], log, s.tasks[t]);
    if s.tasks[t].ok {
      var w :| log.wrote == {w} && log.tries != [] && w.obfuscate == log.tries[|log.tries| - 1];
      OneWrite(s.h, t, w);
    } else {
      NoWrite(s.h, t);
    }
  }

  lemma NoWrite(h: History, t: TaskId)
    requires WritesLogged(h) && t in h.logs && h.logs[t].wrote == {}
    ensures forall i :: 0 <= i < |h.writes| ==> h.writes[i].task != t
  {
    forall i | 0 <= i < |h.writes|
      ensures h.writes[i].task != t
    {
      assert h.writes[i] in h.logs[h.writes[i].task].wrote;
    }
  }

  lemma OneWrite(h: History, t: TaskId, w: TokenWrite)
    requires WritesLogged(h) && t in h.logs && h.logs[t].wrote == {w}
    ensures exists i :: 0 <= i < |h.writes| && h.writes[i].task == t
    ensures forall i :: 0 <= i < |h.writes| && h.writes[i].task == t ==> h.writes[i] == w
  {
    assert w in h.logs[t].wrote && w in h.writes;
    forall i | 0 <= i < |h.writes| && h.writes[i].task == t
      ensures h.writes[i] == w
    {
      assert h.writes[i] in h.logs[t].wrote;
    }
  }

  /** No other operation writes a token. */
  lemma OnlyLoginsWrite(cfg: Config, schedule: seq<Event>, i: nat)
    requires i < |Reached(cfg, schedule).h.writes|
    ensures var h := Reached(cfg, schedule).h; h.writes[i].task in h.logs && IsLogin(h.logs[h.writes[i].task].op)
  {
    ReachedTraced(cfg, schedule);
    var s := Reached(cfg, schedule);
    var t := s.h.writes[i].task;
    assert OwnOk(cfg, s.sh, s.h, s.h.started[t], s.h.logs[t], s.tasks[t]);
  }

  /** The password mode is the constructor's until a login is accepted, and then the last accepted login's. */
  lemma ModeOfLatestLogin(cfg: Config, schedule: seq<Event>)
    ensures ModeIsLatest(cfg, Reached(cfg, schedule).sh, Reached(cfg, schedule).h)
  {
    ReachedCredentials(cfg, schedule);
  }

  /** Credentials that the device rejected are dropped and never kept again. */
  lemma RejectedStayDropped(cfg: Config, schedule: seq<Event>, c: Credentials)
    requires c in Reached(cfg, schedule).h.rejected
    ensures Reached(cfg, schedule).sh.credentials != Some(c)
  {
    ReachedCredentials(cfg, schedule);
  }

  /**
   An ended logout has ended the generation it was called in, however the device answered and whatever ran
   meanwhile, unless its own wait for the lock was cancelled; then it fails.
   */
  lemma LogoutEndsItsGeneration(cfg: Config, schedule: seq<Event>, t: TaskId)
    requires var s := Reached(cfg, schedule);
             t in s.tasks && t in s.h.logs && s.h.logs[t].op.Logout? && s.tasks[t].Done?
    ensures var s := Reached(cfg, schedule);
            && t in s.h.started
            && (s.h.started[t] < s.sh.generation || (!s.tasks[t].ok && s.h.logs[t].gaveUp))
  {
    ReachedTraced(cfg, schedule);
    var s := Reached(cfg, schedule);
    assert OwnOk(cfg, s.sh, s.h, s.h.started[t], s.h.logs[t], s.tasks[t]);
  }

  // ------------------------------------------------------- password change

  /**
   A successful password change, in any interleaving. What it saw when it looked at hardware and version decides
   between the two contracts, and each is confirmed by its own accepted POST in the generation of the call. With
   the current-password contract that generation is over. Without it the change has ended no generation at all, so
   it is over exactly when another operation ended it.
   */
  lemma SuccessfulChange(cfg: Config, schedule: seq<Event>, t: TaskId)
    requires var s := Reached(cfg, schedule);
             t in s.tasks && t in s.h.logs && s.h.logs[t].op.ChangePassword? && s.tasks[t] == Done(true)
    ensures var s := Reached(cfg, schedule);
            && t in s.h.started
            && var log, start := s.h.logs[t], s.h.started[t];
            && (Checked(log) <==> !Unchecked(log))
            && (Checked(log) ==> AcceptedPost(log, start) && start < s.sh.generation)
            && (Unchecked(log) ==>
                  AcceptedLegacy(log, start) && forall g :: 0 <= g < |s.h.clears| ==> s.h.clears[g].task != t)
            && (start < s.sh.generation <==>
                  Checked(log) || (start < |s.h.clears| && s.h.clears[start].task != t))
  {
    ReachedInv(cfg, schedule);
    ReachedTraced(cfg, schedule);
    ChangeMeans(cfg, Reached(cfg, schedule), t);
  }

  lemma ChangeMeans(cfg: Config, s: State, t: TaskId)
    requires Traced(cfg, s) && |s.h.clears| == s.sh.generation
    requires t in s.tasks && t in s.h.logs && s.h.logs[t].op.ChangePassword? && s.tasks[t] == Done(true)
    ensures t in s.h.started
    ensures var log, start := s.h.logs[t], s.h.started[t];
            && (Checked(log) <==> !Unchecked(log))
            && (Checked(log) ==> AcceptedPost(log, start) && start < s.sh.generation)
            && (Unchecked(log) ==>
                  AcceptedLegacy(log, start) && forall g :: 0 <= g < |s.h.clears| ==> s.h.clears[g].task != t)
            && (start < s.sh.generation <==>
                  Checked(log) || (start < |s.h.clears| && s.h.clears[start].task != t))
  {
    assert OwnOk(cfg, s.sh, s.h, s.h.started[t], s.h.logs[t], s.tasks[t]);
    if Unchecked(s.h.logs[t]) {
      assert forall g :: 0 <= g < |s.h.clears| ==> g in s.h.logs[s.h.clears[g].task].cleared;
    }
  }

  /**
   A POST of either kind is under way only after a decision for its contract, with what the change was called with;
   the current-password contract, its account check included, only when a current password was given.
   */
  lemma PostFollowsDecision(cfg: Config, schedule: seq<Event>, t: TaskId)
    requires var s := Reached(cfg, schedule); t in s.tasks && (s.tasks[t].Sent? || s.tasks[t].Reading? || s.tasks[t].Exiting?)
    ensures var s := Reached(cfg, schedule);
            && t in s.h.logs
            && var use, op := s.tasks[t].use, s.h.logs[t].op;
            && (use.PasswordPost? || use.AccountFor? ==>
                  Checked(s.h.logs[t]) && op == ChangePassword(use.call.username, use.call.current) && !Blank(op.current))
            && (use.LegacyPost? ==> Unchecked(s.h.logs[t]) && op == ChangePassword(use.call.username, use.call.current))
  {
    ReachedTraced(cfg, schedule);
    var s := Reached(cfg, schedule);
    assert OwnOk(cfg, s.sh, s.h, s.h.started[t], s.h.logs[t], s.tasks[t]);
  }

  /**
   A current-password POST carries the token whose account name was checked, that name is the caller's, and its
   generation is the one in which the call began.
   */
  lemma PasswordPostIsChecked(cfg: Config, schedule: seq<Event>, i: nat)
    requires i < |Reached(cfg, schedule).h.posts|
    ensures var s := Reached(cfg, schedule);
            var p := s.h.posts[i];
            && p.token == p.checkedToken && p.checkedName == p.username
            && p.generation == p.start && p.task in s.h.started && p.start == s.h.started[p.task]
  {
    ReachedInv(cfg, schedule);
  }

  /** If the generation has changed since a password change began, that call never sends its POST. */
  lemma NoPostAfterChange(cfg: Config, schedule: seq<Event>, more: seq<Event>, t: TaskId)
    requires t in Reached(cfg, schedule).tasks
    requires t in Reached(cfg, schedule).h.started && Reached(cfg, schedule).h.started[t] != Reached(cfg, schedule).sh.generation
    ensures var s, s' := Reached(cfg, schedule), Reached(cfg, schedule + more);
            && |s.h.posts| <= |s'.h.posts|
            && forall i :: |s.h.posts| <= i < |s'.h.posts| ==> s'.h.posts[i].task != t
  {
    RunIsLater(cfg, schedule, more);
    ReachedInv(cfg, schedule);
    ReachedInv(cfg, schedule + more);
    var s := Reached(cfg, schedule);
    assert TaskOk(s.sh, s.h, t, s.tasks[t]);
  }

  lemma ObservedLegacy(log: TaskLog, h: History, pc: Pc, o: Outcome, n: Next)
    ensures Observed(log, h, pc, o, n).legacy
         == log.legacy + if n.pc.Sent? && n.pc.use.LegacyPost? then {n.pc.generation} else {}
  {
  }

  lemma SegmentSendsNoLegacy(cfg: Config, t: TaskId, sh: Shared, h: History, pc: Pc, o: Outcome)
    requires SharedOk(cfg, sh, h) && TaskOk(sh, h, t, pc) && h.started[t] < sh.generation
    ensures var n := Resume(cfg, t, sh, h, pc, o);
            && !(n.pc.Sent? && n.pc.use.LegacyPost?)
            && n.h.started == h.started && sh.generation <= n.sh.generation
  {
    StepResume(cfg, t, sh, h, pc, o);
    StepSendsCurrent(cfg, t, sh, h, pc, o);
    var n := Resume(cfg, t, sh, h, pc, o);
    LegacyInItsGeneration(n.sh, n.h, t, n.pc);
  }

  lemma SegmentKeepsStart(cfg: Config, t: TaskId, sh: Shared, h: History, pc: Pc, o: Outcome)
    requires SharedOk(cfg, sh, h) && TaskOk(sh, h, t, pc)
    ensures var n := Resume(cfg, t, sh, h, pc, o);
            n.h.started == h.started && sh.generation <= n.sh.generation && n.h.logs == h.logs
  {
    StepResume(cfg, t, sh, h, pc, o);
    StepAdds(cfg, t, sh, h, pc, o);
  }

  lemma RunSendsNoLegacy(cfg: Config, s: State, u: TaskId, o: Outcome, t: TaskId)
    requires u in s.tasks && u in s.h.logs && t in s.tasks && t in s.h.logs && t in s.h.started
    requires SharedOk(cfg, s.sh, s.h) && TaskOk(s.sh, s.h, u, s.tasks[u]) && s.h.started[t] < s.sh.generation
    ensures var s' := Step(cfg, s, Run(u, o));
            t in s'.h.logs && s'.h.logs[t].legacy == s.h.logs[t].legacy
            && s'.h.started == s.h.started && s.sh.generation <= s'.sh.generation
  {
    var pc := s.tasks[u];
    SegmentKeepsStart(cfg, u, s.sh, s.h, pc, o);
    ObservedLegacy(s.h.logs[u], s.h, pc, o, Resume(cfg, u, s.sh, s.h, pc, o));
    if u == t {
      SegmentSendsNoLegacy(cfg, t, s.sh, s.h, pc, o);
    }
  }

  lemma CallSendsNoLegacy(cfg: Config, s: State, u: TaskId, op: Op, t: TaskId)
    requires u !in s.tasks && u !in s.h.logs && u !in s.h.started && t in s.h.logs && t in s.h.started
    ensures var s' := Step(cfg, s, Call(u, op));
            t in s'.h.logs && s'.h.logs[t].legacy == s.h.logs[t].legacy
            && t in s'.h.started && s'.h.started[t] == s.h.started[t] && s.sh.generation == s'.sh.generation
  {
  }

  lemma StepSendsNoLegacy(cfg: Config, s: State, e: Event, t: TaskId)
    requires Inv(cfg, s) && Traced(cfg, s) && t in s.tasks && s.h.started[t] < s.sh.generation
    ensures var s' := Step(cfg, s, e);
            t in s'.h.logs && t in s'.tasks && s'.h.logs[t].legacy == s.h.logs[t].legacy
            && t in s'.h.started && s'.h.started[t] == s.h.started[t] && s.sh.generation <= s'.sh.generation
  {
    match e
    case Call(u, op) =>
      if u !in s.tasks {
        CallSendsNoLegacy(cfg, s, u, op, t);
      }
    case Run(u, o) =>
      if u in s.tasks {
        RunSendsNoLegacy(cfg, s, u, o, t);
      }
  }

  /** The POST without the current password is sent in the generation its call began in. */
  lemma LegacyInItsGeneration(sh: Shared, h: History, t: TaskId, pc: Pc)
    requires TaskOk(sh, h, t, pc) && SendsCurrent(sh, pc)
    ensures pc.Sent? && pc.use.LegacyPost? ==> sh.generation == h.started[t]
  {
  }

  /** Nor does it, in any continuation, send the POST without the current password. */
  lemma {:induction false} NoLegacyPostAfterChange(cfg: Config, schedule: seq<Event>, more: seq<Event>, t: TaskId)
    requires var s := Reached(cfg, schedule); t in s.tasks && t in s.h.started && s.h.started[t] < s.sh.generation
    ensures var s, s' := Reached(cfg, schedule), Reached(cfg, schedule + more);
            && t in s.h.logs && t in s'.h.logs && s'.h.logs[t].legacy == s.h.logs[t].legacy
            && t in s'.tasks && t in s'.h.started && s'.h.started[t] < s'.sh.generation
  {
    if more == [] {
      ReachedTraced(cfg, schedule);
      assert schedule + more == schedule;
    } else {
      var n := |more| - 1;
      var before := schedule + more[..n];
      NoLegacyPostAfterChange(cfg, schedule, more[..n], t);
      ReachedInv(cfg, before);
      ReachedTraced(cfg, before);
      LastOfBoth(schedule, more);
      StepSendsNoLegacy(cfg, Reached(cfg, before), more[n], t);
    }
  }

  /** A password request of either kind is in flight only in the generation of its call, with that generation's token. */
  lemma PasswordRequestInItsGeneration(cfg: Config, schedule: seq<Event>, t: TaskId)
    requires var s := Reached(cfg, schedule); t in s.tasks && s.tasks[t].Sent?
    ensures var s := Reached(cfg, schedule);
            var pc := s.tasks[t];
            && pc.token != "" && pc.generation <= s.sh.generation
            && (pc.generation == s.sh.generation ==> s.sh.token == Some(pc.token))
            && (pc.use.PasswordPost? || pc.use.LegacyPost? ==> t in s.h.started && pc.generation == pc.use.call.start == s.h.started[t])
  {
    ReachedInv(cfg, schedule);
    var s := Reached(cfg, schedule);
    assert TaskOk(s.sh, s.h, t, s.tasks[t]);
  }

  // ------------------------------------------------------- the shared socket

  /** The shared WebSocket's handshake carried exactly the current token in the current generation. */
  lemma SocketCarriesCurrentIdentity(cfg: Config, schedule: seq<Event>)
    ensures var sh := Reached(cfg, schedule).sh;
            sh.ws.Some? ==> sh.ws.value.generation == sh.generation && sh.token == Some(sh.ws.value.token) && sh.ws.value.token != ""
  {
    ReachedInv(cfg, schedule);
  }

  /** So does the handshake in flight, for as long as it is in flight: the lock keeps the generation from moving. */
  lemma HandshakeCarriesCurrentIdentity(cfg: Config, schedule: seq<Event>, t: TaskId)
    requires var s := Reached(cfg, schedule); t in s.tasks && s.tasks[t].Connecting?
    ensures var s := Reached(cfg, schedule);
            s.tasks[t].generation == s.sh.generation && s.sh.token == Some(s.tasks[t].token) && s.sh.ws.None? && s.sh.lock == Some(t)
  {
    ReachedInv(cfg, schedule);
    var s := Reached(cfg, schedule);
    assert TaskOk(s.sh, s.h, t, s.tasks[t]);
  }

  /** There is a heartbeat exactly when there is a shared WebSocket, and every other heartbeat has been cancelled. */
  lemma OneHeartbeat(cfg: Config, schedule: seq<Event>)
    ensures var s := Reached(cfg, schedule);
            && (s.sh.ws.Some? <==> s.sh.heartbeat.Some?)
            && (forall b :: b in s.h.beats ==> (b in s.h.cancelledBeats <==> s.sh.heartbeat != Some(b)))
  {
    ReachedInv(cfg, schedule);
  }

  /** No task ever closes the WebSocket that is shared now. */
  lemma SharedSocketIsNeverClosed(cfg: Config, schedule: seq<Event>)
    ensures var s := Reached(cfg, schedule); s.sh.ws.Some? ==> s.sh.ws.value !in s.h.closes
  {
    ReachedInv(cfg, schedule);
  }

  /** Invalidating a failed WebSocket neither detaches nor closes the one that replaced it. */
  lemma InvalidateSparesReplacement(cfg: Config, t: TaskId, sh: Shared, h: History, failed: Socket, o: Outcome)
    requires sh.ws.Some? && sh.ws.value != failed
    ensures var n := Resume(cfg, t, sh, h, InvalidateWaiting(failed), o);
            && n.sh.ws == sh.ws && n.sh.heartbeat == sh.heartbeat && n.h.cancelledBeats == h.cancelledBeats
            && n.h.closes <= h.closes + {failed}
  {
  }

  // ------------------------------------------------------- lock and progress

  /** The lock's holder is one task, suspended while holding it, and never one that waits for it. */
  lemma LockHasOneWorkingHolder(cfg: Config, schedule: seq<Event>)
    ensures var s := Reached(cfg, schedule);
            && (s.sh.lock.Some? ==> s.sh.lock.value in s.tasks)
            && forall t :: t in s.tasks ==>
                 (s.sh.lock == Some(t) <==> Holds(s.tasks[t])) && !(s.sh.lock == Some(t) && Waits(s.tasks[t]))
  {
    ReachedInv(cfg, schedule);
    var s := Reached(cfg, schedule);
    assert forall t :: t in s.tasks ==> TaskOk(s.sh, s.h, t, s.tasks[t]);
  }

  function UseRank(use: Use): nat {
    match use
    case HardwareFor(_) => 14
    case VersionsFor(_) => 11
    case AccountFor(_) => 8
    case _ => 5
  }

  /** A bound on the steps a task still has to make. */
  function Rank(pc: Pc): nat {
    match pc
    case LoginClearing(_) => 4
    case LoginClosing(_, _) => 3
    case LoginSent(_, _, _, more) => 1 + |more|
    case Sent(use, _, _) => UseRank(use) + 2
    case Reading(use, _, _) => UseRank(use) + 1
    case Exiting(use, _, _, _) => UseRank(use)
    case Clearing(_, after) => if after.End? then 2 else 4
    case Closing(_, after) => if after.End? then 1 else 3
    case SocketWaiting(_) => 6
    case StaleClosing(_) => 5
    case Connecting(_, _, _) => 4
    case SocketSending(_) => 3
    case InvalidateWaiting(_) => 2
    case InvalidateClosing(_) => 1
    case CloseWaiting => 2
    case CloseClosing(_) => 1
    case Handshaking(_, _) => 3
    case Done(_) => 0
  }

  lemma BegunRank(sh: Shared, call: PasswordCall)
    ensures Rank(BeginLegacy(sh, call)) <= 7
    ensures Rank(AfterVersions(sh, call)) <= 10
    ensures Rank(AfterHardware(sh, call)) <= 13
  {
  }

  /** Every step of an unfinished task brings it nearer its end, unless it waits for the lock. */
  lemma StepLowersRank(cfg: Config, t: TaskId, sh: Shared, h: History, pc: Pc, o: Outcome)
    requires !pc.Done?
    ensures var n := Resume(cfg, t, sh, h, pc, o);
            Rank(n.pc) < Rank(pc) || (Waits(pc) && n == Next(sh, h, pc))
    ensures o.Go? && (sh.lock.None? || !Waits(pc)) ==> Rank(Resume(cfg, t, sh, h, pc, o).pc) < Rank(pc)
  {
    if ForRequest(pc) {
      RequestLowersRank(cfg, t, sh, h, pc, o);
    } else if ForLogin(pc) {
      LoginLowersRank(cfg, t, sh, h, pc, o);
    } else {
      SocketLowersRank(cfg, t, sh, h, pc, o);
    }
  }

  ghost predicate LowersRank(cfg: Config, t: TaskId, sh: Shared, h: History, pc: Pc, o: Outcome) {
    var n := Resume(cfg, t, sh, h, pc, o);
    && (Rank(n.pc) < Rank(pc) || (Waits(pc) && n == Next(sh, h, pc)))
    && (o.Go? && (sh.lock.None? || !Waits(pc)) ==> Rank(n.pc) < Rank(pc))
  }

  lemma RequestLowersRank(cfg: Config, t: TaskId, sh: Shared, h: History, pc: Pc, o: Outcome)
    requires ForRequest(pc)
    ensures LowersRank(cfg, t, sh, h, pc, o)
  {
    if pc.Exiting? {
      ExitLowersRank(t, sh, h, pc.use, pc.generation, pc.token, pc.payload, o);
    }
  }

  lemma LoginLowersRank(cfg: Config, t: TaskId, sh: Shared, h: History, pc: Pc, o: Outcome)
    requires ForLogin(pc)
    ensures LowersRank(cfg, t, sh, h, pc, o)
  {
  }

  lemma SocketLowersRank(cfg: Config, t: TaskId, sh: Shared, h: History, pc: Pc, o: Outcome)
    requires !ForRequest(pc) && !ForLogin(pc) && !pc.Done?
    ensures LowersRank(cfg, t, sh, h, pc, o)
  {
  }

  lemma ExitLowersRank(t: TaskId, sh: Shared, h: History, use: Use, g: nat, token: string, p: Payload, o: Outcome)
    ensures Rank(OnExit(t, sh, h, use, g, token, p, o).pc) < Rank(Exiting(use, g, token, p))
  {
    match use
    case HardwareFor(call) =>
      if p.HardwareIs? {
        BegunRank(sh.(isPro := Some(p.pro)), call);
      }
    case VersionsFor(call) =>
      if p.VersionIs? {
        BegunRank(sh.(version := Some(p.application)), call);
      }
    case _ =>
  }

  /** The lock cannot deadlock: while any task is unfinished, some task can step, and its step brings it nearer its end. */
  lemma SomeTaskCanMove(cfg: Config, schedule: seq<Event>, t: TaskId) returns (mover: TaskId)
    requires var s := Reached(cfg, schedule); t in s.tasks && !s.tasks[t].Done?
    ensures var s := Reached(cfg, schedule);
            && mover in s.tasks && !s.tasks[mover].Done?
            && Rank(Resume(cfg, mover, s.sh, s.h, s.tasks[mover], Go(false)).pc) < Rank(s.tasks[mover])
  {
    LockHasOneWorkingHolder(cfg, schedule);
    var s := Reached(cfg, schedule);
    mover := if s.sh.lock.Some? then s.sh.lock.value else t;
    StepLowersRank(cfg, mover, s.sh, s.h, s.tasks[mover], Go(false));
  }
}
