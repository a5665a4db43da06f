/** Whose credentials a login sends, and which it keeps. */
module SessionLogins {
  import opened Common
  import opened SessionState
  import opened SessionTasks
  import opened SessionInvariant
  import opened SessionOutcomes

  /** What a call with these kept credentials logs in with: its own, or the kept ones. */
  predicate LoginOf(op: Op, kept: Option<Credentials>, login: Login) {
    match op
    case Authenticate(u, p) => login == Login(None, u, p)
    case Reauthenticate => kept.Some? && login == Login(kept, kept.value.username, kept.value.password)
    case _ => false
  }

  /** Credentials kept with a token of task `t` are those its call gave, and only `authenticate` keeps any. */
  predicate KeepsItsOwn(h: History, t: TaskId, op: Op) {
    forall i :: 0 <= i < |h.writes| && h.writes[i].task == t && h.writes[i].kept.Some? ==>
      op.Authenticate? && h.writes[i].kept.value.username == op.username && h.writes[i].kept.value.password == op.password
  }

  ghost predicate LogsInWith(s: State, t: TaskId, op: Op, kept: Option<Credentials>) {
    && t in s.tasks && (ForLogin(s.tasks[t]) ==> LoginOf(op, kept, s.tasks[t].login))
    && KeepsItsOwn(s.h, t, op)
  }

  lemma CallLogsInWith(cfg: Config, s: State, t: TaskId, op: Op)
    requires Traced(cfg, s) && t !in s.tasks
    ensures LogsInWith(Step(cfg, s, Call(t, op)), t, op, s.sh.credentials)
  {
    if op.ChangePassword? {
      BegunPcs(s.sh.(credentials := None), PasswordCall(s.sh.generation, op.account, op.current));
    }
  }

  /** What a segment writes, if anything, is its login's. */
  lemma SegmentWrites(cfg: Config, t: TaskId, sh: Shared, h: History, pc: Pc, o: Outcome)
    ensures var n := Resume(cfg, t, sh, h, pc, o);
            n.h.writes != h.writes ==>
              && pc.LoginSent? && |n.h.writes| == |h.writes| + 1 && n.h.writes[..|h.writes|] == h.writes
              && var w := n.h.writes[|h.writes|];
              w.task == t && (w.kept.Some? ==>
                pc.login.used.None? && w.kept.value.username == pc.login.username && w.kept.value.password == pc.login.password)
  {
    if !pc.LoginSent? {
      StepAdds(cfg, t, sh, h, pc, o);
    }
  }

  lemma StepLogsInWith(cfg: Config, s: State, e: Event, t: TaskId, op: Op, kept: Option<Credentials>)
    requires LogsInWith(s, t, op, kept)
    ensures LogsInWith(Step(cfg, s, e), t, op, kept)
  {
    if e.Run? && e.task in s.tasks && e.task in s.h.logs {
      StepCredentials(cfg, e.task, s.sh, s.h, s.tasks[e.task], e.outcome);
      SegmentWrites(cfg, e.task, s.sh, s.h, s.tasks[e.task], e.outcome);
      NewWriteIsItsOwn(s.h, Resume(cfg, e.task, s.sh, s.h, s.tasks[e.task], e.outcome).h, t, op);
    }
  }

  lemma NewWriteIsItsOwn(h: History, h': History, t: TaskId, op: Op)
    requires KeepsItsOwn(h, t, op)
    requires h'.writes != h.writes ==>
               && |h'.writes| == |h.writes| + 1 && h'.writes[..|h.writes|] == h.writes
               && var w := h'.writes[|h.writes|];
               w.task == t && w.kept.Some? ==>
                 op.Authenticate? && w.kept.value.username == op.username && w.kept.value.password == op.password
    ensures KeepsItsOwn(h', t, op)
  {
    forall i | 0 <= i < |h'.writes| && h'.writes[i].task == t && h'.writes[i].kept.Some?
      ensures op.Authenticate? && h'.writes[i].kept.value.username == op.username && h'.writes[i].kept.value.password == op.password
    {
      assert i < |h.writes| ==> h'.writes[i] == h'.writes[..|h.writes|][i];
    }
  }

  /**
   In every continuation, an `authenticate` sends the username and password it was called with, and a `reauthenticate`
   those kept when it was called, each in its place; only an `authenticate` keeps credentials, and they are its own.
   */
  lemma {:induction false} LoginSendsItsCredentials(cfg: Config, schedule: seq<Event>, t: TaskId, op: Op, more: seq<Event>)
    requires t !in Reached(cfg, schedule).tasks
    ensures LogsInWith(Reached(cfg, schedule + [Call(t, op)] + more), t, op, Reached(cfg, schedule).sh.credentials)
  {
    var called := schedule + [Call(t, op)];
    if more == [] {
      assert called + more == called && called[..|schedule|] == schedule;
      ReachedTraced(cfg, schedule);
      CallLogsInWith(cfg, Reached(cfg, schedule), t, op);
    } else {
      var n := |more| - 1;
      LoginSendsItsCredentials(cfg, schedule, t, op, more[..n]);
      LastOfBoth(called, more);
      StepLogsInWith(cfg, Reached(cfg, called + more[..n]), more[n], t, op, Reached(cfg, schedule).sh.credentials);
    }
  }
}
