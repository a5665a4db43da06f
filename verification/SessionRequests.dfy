/** How an authenticated request ends: what a 401 does to the session, and what the device answered for a success. */
module SessionRequests {
  import opened Common
  import opened SessionState
  import opened SessionTasks
  import opened SessionInvariant
  import opened SessionOutcomes
  import opened SessionProperties

  // ------------------------------------------------------------------ refusals

  /**
   Every request, logout POST or handshake that was answered 401 has ended its generation by the time its operation
   has ended, unless that operation gave up its wait for the lock, and then it failed. Until then it waits to do so.
   */
  lemma RefusalEndsSession(cfg: Config, schedule: seq<Event>, t: TaskId)
    requires t in Reached(cfg, schedule).tasks
    ensures var s := Reached(cfg, schedule);
            && t in s.h.logs
            && (s.h.logs[t].gaveUp ==> s.tasks[t] == Done(false))
            && forall x :: x in s.h.logs[t].refused ==>
                 || x.generation < s.sh.generation
                 || s.h.logs[t].gaveUp
                 || (s.tasks[t].Clearing? && s.tasks[t].cause.generation == x.generation)
  {
    ReachedTraced(cfg, schedule);
    var s := Reached(cfg, schedule);
    assert OwnOk(cfg, s.sh, s.h, s.h.started[t], s.h.logs[t], s.tasks[t]);
  }

  /** The session a 401 ended is not in use again: the token is of a later generation, and so is the WebSocket. */
  lemma RefusedTokenIsGone(cfg: Config, schedule: seq<Event>, t: TaskId, x: Sending)
    requires var s := Reached(cfg, schedule);
             t in s.tasks && t in s.h.logs && s.tasks[t].Done? && !s.h.logs[t].gaveUp && x in s.h.logs[t].refused
    ensures var s := Reached(cfg, schedule);
            && x.generation < s.sh.generation
            && (s.sh.token.Some? ==> exists w :: w in s.h.writes && w.generation == s.sh.generation && w.token == s.sh.token.value)
            && (s.sh.ws.Some? ==> s.sh.ws.value.generation > x.generation)
  {
    RefusalEndsSession(cfg, schedule, t);
    TokenBelongsToItsLogin(cfg, schedule);
    SocketCarriesCurrentIdentity(cfg, schedule);
  }

  // ------------------------------------------------------------------ successes

  /** `e` answers the request that task `t` waits for, in the generation it was sent in. */
  predicate Answers(s: State, e: Event, t: TaskId, use: Use, generation: nat, token: string) {
    && e.Run? && e.task == t && e.outcome.Status? && e.outcome.code < 400
    && t in s.tasks && s.tasks[t] == Sent(use, generation, token) && generation == s.sh.generation
  }

  lemma StepReads(cfg: Config, s: State, e: Event, t: TaskId)
    requires t in Step(cfg, s, e).tasks && Step(cfg, s, e).tasks[t].Reading?
    ensures var pc := Step(cfg, s, e).tasks[t];
            (t in s.tasks && s.tasks[t] == pc) || Answers(s, e, t, pc.use, pc.generation, pc.token)
  {
    match e
    case Call(u, op) =>
      if op.ChangePassword? {
        BegunPcs(s.sh.(credentials := None), PasswordCall(s.sh.generation, op.account, op.current));
      }
    case Run(u, o) =>
      if u in s.tasks && u in s.h.logs && s.tasks[u].Exiting? {
        var pc := s.tasks[u];
        ExitWaits(u, s.sh, s.h, pc.use, pc.generation, pc.token, pc.payload, o);
      }
  }

  /** A task that reads a response has been given its status. */
  lemma {:induction false} AnsweredBy(cfg: Config, schedule: seq<Event>, t: TaskId) returns (answered: nat)
    requires t in Reached(cfg, schedule).tasks && Reached(cfg, schedule).tasks[t].Reading?
    ensures answered < |schedule|
    ensures var pc := Reached(cfg, schedule).tasks[t];
            Answers(At(cfg, schedule, answered), schedule[answered], t, pc.use, pc.generation, pc.token)
  {
    var n := |schedule| - 1;
    var pc := Reached(cfg, schedule).tasks[t];
    StepReads(cfg, At(cfg, schedule, n), schedule[n], t);
    if Answers(At(cfg, schedule, n), schedule[n], t, pc.use, pc.generation, pc.token) {
      answered := n;
    } else {
      answered := AnsweredBy(cfg, schedule[..n], t);
      assert schedule[..n][..answered] == schedule[..answered];
    }
  }

  /** The payload is a reply to a request for `use`: no API error, and for a detection what was asked for. */
  predicate Replies(use: Use, p: Payload) {
    !p.ApiError? && (use.Hardware? ==> p.HardwareIs?) && (use.Versions? ==> p.VersionIs?)
  }

  /** `e` leaves the context of task `t`'s response, with a reply to what was asked. */
  predicate Leaves(s: State, e: Event, t: TaskId, use: Use) {
    && e.Run? && e.task == t && e.outcome.Go? && t in s.tasks && t in s.h.logs
    && s.tasks[t].Exiting? && s.tasks[t].use == use && Replies(use, s.tasks[t].payload)
  }

  /** What the device said of itself is kept. */
  lemma LeavingLearns(cfg: Config, schedule: seq<Event>, left: nat, t: TaskId, use: Use)
    requires left < |schedule| && Leaves(At(cfg, schedule, left), schedule[left], t, use)
    ensures var p, sh := At(cfg, schedule, left).tasks[t].payload, At(cfg, schedule, left + 1).sh;
            (use.Hardware? ==> sh.isPro == Some(p.pro)) && (use.Versions? ==> sh.version == Some(p.application))
  {
    assert schedule[..left + 1][..left] == schedule[..left];
  }

  lemma SegmentSucceeds(cfg: Config, t: TaskId, sh: Shared, h: History, start: nat, log: TaskLog, pc: Pc, o: Outcome)
    requires OutcomeOk(sh, start, log, pc) && PlainUse(log.op).Some? && Resume(cfg, t, sh, h, pc, o).pc == Done(true)
    ensures || pc == Done(true)
            || (pc.Exiting? && pc.use == PlainUse(log.op).value && o.Go? && Replies(pc.use, pc.payload))
  {
  }

  lemma StepSucceeds(cfg: Config, s: State, e: Event, t: TaskId)
    requires Traced(cfg, s) && t in Step(cfg, s, e).tasks && t in Step(cfg, s, e).h.logs
    requires Step(cfg, s, e).tasks[t] == Done(true) && PlainUse(Step(cfg, s, e).h.logs[t].op).Some?
    ensures var s' := Step(cfg, s, e);
            && t in s.tasks && t in s.h.logs && s.h.logs[t].op == s'.h.logs[t].op
            && (s.tasks[t] == Done(true) || Leaves(s, e, t, PlainUse(s'.h.logs[t].op).value))
  {
    if e.Run? && e.task == t && t in s.tasks && t in s.h.logs {
      assert OwnOk(cfg, s.sh, s.h, s.h.started[t], s.h.logs[t], s.tasks[t]);
      ObservedGrows(s.h.logs[t], s.h, s.tasks[t], e.outcome, Resume(cfg, t, s.sh, s.h, s.tasks[t], e.outcome));
      SegmentSucceeds(cfg, t, s.sh, s.h, s.h.started[t], s.h.logs[t], s.tasks[t], e.outcome);
    } else if e.Run? {
      OthersAreKept(cfg, s, e, t);
    }
  }

  lemma OthersAreKept(cfg: Config, s: State, e: Event, t: TaskId)
    requires e.Run? && (e.task != t || t !in s.tasks || t !in s.h.logs) && t in Step(cfg, s, e).tasks && t in Step(cfg, s, e).h.logs
    ensures t in s.tasks && s.tasks[t] == Step(cfg, s, e).tasks[t]
    ensures t in s.h.logs && s.h.logs[t] == Step(cfg, s, e).h.logs[t]
  {
    if e.task in s.tasks && e.task in s.h.logs {
      StepAdds(cfg, e.task, s.sh, s.h, s.tasks[e.task], e.outcome);
    }
  }

  /** The request, made for `use`, has succeeded. */
  predicate Succeeded(s: State, t: TaskId, use: Use) {
    t in s.tasks && t in s.h.logs && PlainUse(s.h.logs[t].op) == Some(use) && s.tasks[t] == Done(true)
  }

  lemma LastSucceeds(cfg: Config, schedule: seq<Event>, t: TaskId, use: Use)
    requires Succeeded(Reached(cfg, schedule), t, use)
    ensures schedule != []
    ensures var n := |schedule| - 1;
            || Succeeded(Reached(cfg, schedule[..n]), t, use)
            || Leaves(Reached(cfg, schedule[..n]), schedule[n], t, use)
  {
    var n := |schedule| - 1;
    ReachedTraced(cfg, schedule[..n]);
    StepSucceeds(cfg, Reached(cfg, schedule[..n]), schedule[n], t);
  }

  lemma {:induction false} LeftBy(cfg: Config, schedule: seq<Event>, t: TaskId, use: Use) returns (left: nat)
    requires Succeeded(Reached(cfg, schedule), t, use)
    ensures left < |schedule| && Leaves(At(cfg, schedule, left), schedule[left], t, use)
  {
    LastSucceeds(cfg, schedule, t, use);
    var n := |schedule| - 1;
    if Succeeded(Reached(cfg, schedule[..n]), t, use) {
      left := LeftBy(cfg, schedule[..n], t, use);
      assert schedule[..n][..left] == schedule[..left];
    } else {
      left := n;
    }
  }

  /** The exit check that a response had passed by then, and the status before it. */
  lemma AnsweredBefore(cfg: Config, schedule: seq<Event>, left: nat, t: TaskId) returns (answered: nat, checked: nat)
    requires left <= |schedule| && t in At(cfg, schedule, left).tasks && At(cfg, schedule, left).tasks[t].Exiting?
    ensures answered < checked < left
    ensures var pc := At(cfg, schedule, left).tasks[t];
            && schedule[checked].task == t && ChecksReply(At(cfg, schedule, checked), schedule[checked], pc)
            && Answers(At(cfg, schedule, answered), schedule[answered], t, pc.use, pc.generation, pc.token)
  {
    checked := CheckedIn(cfg, schedule, left, t);
    answered := AnsweredBy(cfg, schedule[..checked], t);
    assert schedule[..checked][..answered] == schedule[..answered];
  }

  /**
   A request or detection succeeds only after three events of its own, in this order: a status below 400, a body whose
   exit check finds the request's generation still current, and the end of its response's context; the reply is no API
   error, and a detection keeps what the device said.
   */
  lemma SuccessWasAnswered(cfg: Config, schedule: seq<Event>, t: TaskId, use: Use)
    returns (answered: nat, checked: nat, left: nat)
    requires Succeeded(Reached(cfg, schedule), t, use)
    ensures answered < checked < left < |schedule| && schedule[checked].task == t
    ensures Leaves(At(cfg, schedule, left), schedule[left], t, use)
    ensures var pc := At(cfg, schedule, left).tasks[t];
            && Answers(At(cfg, schedule, answered), schedule[answered], t, use, pc.generation, pc.token)
            && ChecksReply(At(cfg, schedule, checked), schedule[checked], pc)
    ensures var p, sh := At(cfg, schedule, left).tasks[t].payload, At(cfg, schedule, left + 1).sh;
            (use.Hardware? ==> sh.isPro == Some(p.pro)) && (use.Versions? ==> sh.version == Some(p.application))
  {
    left := LeftBy(cfg, schedule, t, use);
    LeavingLearns(cfg, schedule, left, t, use);
    answered, checked := AnsweredBefore(cfg, schedule, left, t);
  }
}
