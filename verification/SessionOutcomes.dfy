/**
 What the observer's logs mean, in every reachable state: why each generation ended, whose token every request
 carried, and what the end of a login, a logout or a password change says about the session.
 */
module SessionOutcomes {
  import opened Common
  import opened Text
  import opened Version
  import opened SessionState
  import opened SessionTasks
  import opened SessionInvariant

  predicate IsLogin(op: Op) {
    op.Authenticate? || op.Reauthenticate?
  }

  /** The token of a generation: the constructor's in generation 0, else the one its login wrote. */
  predicate TokenOf(cfg: Config, h: History, generation: nat, token: string) {
    if generation == 0 then cfg.token == Some(token)
    else exists i :: 0 <= i < |h.writes| && h.writes[i].generation == generation && h.writes[i].token == token
  }

  // ---------------------------------------------------- one task and its log

  /** The decision found firmware with the current-password contract. */
  predicate Checked(log: TaskLog) {
    && log.decided.Some? && log.decided.value.isPro == Some(false)
    && log.decided.value.version.Some? && UsesCurrentPassword(log.decided.value.version.value) == Some(true)
  }

  /** It found a Pro, or older firmware. */
  predicate Unchecked(log: TaskLog) {
    && log.decided.Some?
    && (log.decided.value.isPro == Some(true)
        || (log.decided.value.version.Some? && UsesCurrentPassword(log.decided.value.version.value) == Some(false)))
  }

  /** A response to a request for `use`, sent in `generation`, passed its exit check. */
  predicate Accepted(log: TaskLog, use: Use, generation: nat) {
    exists a :: a in log.accepted && a.use == use && a.at == generation
  }

  predicate AcceptedPost(log: TaskLog, generation: nat) {
    exists a :: a in log.accepted && a.use.PasswordPost? && a.at == generation
  }

  predicate AcceptedLegacy(log: TaskLog, generation: nat) {
    exists a :: a in log.accepted && a.use.LegacyPost? && a.at == generation
  }

  /** The request in flight, or the refused one, is in the log. */
  predicate Heard(log: TaskLog, pc: Pc) {
    match pc
    case Sent(_, g, token) => Sending(g, token, false) in log.sent
    case Reading(_, g, token) => Sending(g, token, false) in log.sent
    case Exiting(_, g, token, _) => Sending(g, token, false) in log.sent
    case Connecting(_, g, token) => Sending(g, token, true) in log.sent
    case Handshaking(g, token) => Sending(g, token, true) in log.sent
    case Clearing(Refused(g, token, handshake), _) => Sending(g, token, handshake) in log.refused
    case _ => true
  }

  predicate LogTokens(cfg: Config, h: History, log: TaskLog) {
    && (forall x :: x in log.sent ==> TokenOf(cfg, h, x.generation, x.token))
    && log.refused <= log.sent
    && (forall a :: a in log.accepted ==> a.sent == a.at && Sending(a.sent, a.token, false) in log.sent)
  }

  /** A request that names the generation it expects is made in no other. */
  predicate Expected(op: Op, generation: nat) {
    op.Request? && op.expected.Some? ==> op.expected.value == generation
  }

  /** The uses a task's operation makes of requests, and what it has decided by then. */
  predicate UseFits(start: nat, log: TaskLog, use: Use, generation: nat) {
    match use
    case Endpoint => log.op.Request? && Expected(log.op, generation)
    case Hardware => log.op.DetectHardware?
    case Versions => log.op.DetectVersions?
    case LogoutPost => log.op.Logout? && generation == start
    case HardwareFor(call) => CallFits(start, log, call) && log.decided.None?
    case VersionsFor(call) => CallFits(start, log, call) && log.decided == Some(Decision(Some(false), None))
    case AccountFor(call) => CallFits(start, log, call) && Checked(log) && !Blank(call.current)
    case PasswordPost(call) => CallFits(start, log, call) && start == generation && Checked(log) && !Blank(call.current)
    case LegacyPost(call) => CallFits(start, log, call) && start == generation && Unchecked(log)
  }

  /** The password change carries what it was called with. */
  predicate CallFits(start: nat, log: TaskLog, call: PasswordCall) {
    log.op == ChangePassword(call.username, call.current) && call.start == start
  }

  predicate CauseFits(start: nat, log: TaskLog, cause: Cause) {
    match cause
    case Refused(_, _, _) => true
    case LoggedOut(g) => log.op.Logout? && g == start
    case PasswordChanged(g) => log.op.ChangePassword? && g == start && Checked(log) && AcceptedPost(log, start)
  }

  predicate AfterFits(start: nat, log: TaskLog, cause: Cause, after: After) {
    && !IsLogin(log.op)
    && match after
       case LogoutFinally(g) => log.op.Logout? && g == start == cause.generation
       case End(ok) =>
         && (log.op.Logout? ==> cause == LoggedOut(start))
         && (PlainUse(log.op).Some? ==> !ok)
         && (log.op.ChangePassword? && ok ==> cause.PasswordChanged?)
  }

  /** What an operation of one request uses it for. */
  function PlainUse(op: Op): Option<Use> {
    match op
    case Request(_) => Some(Endpoint)
    case DetectHardware => Some(Hardware)
    case DetectVersions => Some(Versions)
    case _ => None
  }

  /** At most two tries of a password mode, and the second only in plain text after an obfuscated one. */
  predicate TriesFit(tries: seq<bool>) {
    |tries| <= 1 || tries == [true, false]
  }

  ghost predicate WroteLast(log: TaskLog) {
    exists w :: log.wrote == {w} && log.tries != [] && w.obfuscate == log.tries[|log.tries| - 1]
  }

  /** What an ended operation says about the session. */
  ghost predicate EndFits(sh: Shared, start: nat, log: TaskLog, ok: bool) {
    && (log.op.Logout? ==> start < sh.generation || (!ok && log.gaveUp))
    && (log.op.ChangePassword? && ok ==>
          || (Checked(log) && AcceptedPost(log, start) && start < sh.generation)
          || (Unchecked(log) && AcceptedLegacy(log, start) && log.cleared == {}))
    && (PlainUse(log.op).Some? && ok ==> exists a :: a in log.accepted && a.use == PlainUse(log.op).value && Expected(log.op, a.at))
    && (if IsLogin(log.op) && ok then WroteLast(log) else log.wrote == {})
  }

  ghost predicate OutcomeOk(sh: Shared, start: nat, log: TaskLog, pc: Pc) {
    && TriesFit(log.tries)
    && (!pc.Done? ==> log.wrote == {})
    && match pc
       case LoginClearing(_) => IsLogin(log.op) && log.tries == []
       case LoginClosing(_, _) => IsLogin(log.op) && log.tries == []
       case LoginSent(_, _, obfuscate, more) =>
         && IsLogin(log.op)
         && (log.tries == [obfuscate] || (log.tries == [true, false] && !obfuscate && more == []))
         && (more == [] || (obfuscate && more == [false]))
       case Sent(use, g, _) => UseFits(start, log, use, g) && log.cleared == {}
       case Reading(use, g, _) => UseFits(start, log, use, g) && log.cleared == {}
       case Exiting(use, g, _, _) => UseFits(start, log, use, g) && log.cleared == {} && Accepted(log, use, g)
       case Clearing(cause, after) => CauseFits(start, log, cause) && AfterFits(start, log, cause, after)
       case Closing(cause, after) =>
         CauseFits(start, log, cause) && AfterFits(start, log, cause, after) && cause.generation < sh.generation
       case Done(ok) => EndFits(sh, start, log, ok)
       case _ => !IsLogin(log.op) && !log.op.Logout? && !log.op.ChangePassword? && PlainUse(log.op).None?
  }

  /**
   A generation in which the task was answered 401 is over, or the task waits to clear it, or it has failed after
   giving up that wait.
   */
  ghost predicate RefusalsOk(sh: Shared, log: TaskLog, pc: Pc) {
    && (log.gaveUp ==> pc == Done(false))
    && forall x :: x in log.refused ==> x.generation < sh.generation || log.gaveUp || (pc.Clearing? && pc.cause.generation == x.generation)
  }

  ghost predicate OwnOk(cfg: Config, sh: Shared, h: History, start: nat, log: TaskLog, pc: Pc) {
    LogTokens(cfg, h, log) && Heard(log, pc) && OutcomeOk(sh, start, log, pc) && RefusalsOk(sh, log, pc)
  }

  // ------------------------------------------------------------- all the logs

  /** Why the task of `log` ended generation `g`. */
  predicate Genuine(start: nat, log: TaskLog, cause: Option<Cause>, g: nat) {
    match cause
    case None => IsLogin(log.op)
    case Some(Refused(g', token, handshake)) => g' == g && Sending(g, token, handshake) in log.refused
    case Some(LoggedOut(g')) => log.op.Logout? && g' == start == g
    case Some(PasswordChanged(g')) => log.op.ChangePassword? && g' == start == g && AcceptedPost(log, g)
  }

  predicate ClearsLogged(h: History) {
    forall g :: 0 <= g < |h.clears| ==>
      var c := h.clears[g];
      c.task in h.logs && c.task in h.started && g in h.logs[c.task].cleared && Genuine(h.started[c.task], h.logs[c.task], c.cause, g)
  }

  predicate WritesLogged(h: History) {
    && (forall i :: 0 <= i < |h.writes| ==> h.writes[i].task in h.logs && h.writes[i] in h.logs[h.writes[i].task].wrote)
    && (forall t, w :: t in h.logs && w in h.logs[t].wrote ==> w.task == t && w in h.writes)
  }

  predicate AcceptedLogged(h: History) {
    forall i :: 0 <= i < |h.accepted| ==>
      h.accepted[i].task in h.logs && h.accepted[i] in h.logs[h.accepted[i].task].accepted
  }

  ghost predicate OwnAll(cfg: Config, sh: Shared, h: History, tasks: map<TaskId, Pc>) {
    && (forall t :: t in h.logs <==> t in tasks)
    && (forall t :: t in h.started <==> t in tasks)
    && (forall t :: t in tasks ==> OwnOk(cfg, sh, h, h.started[t], h.logs[t], tasks[t]))
  }

  ghost predicate Traced(cfg: Config, s: State) {
    OwnAll(cfg, s.sh, s.h, s.tasks) && ClearsLogged(s.h) && WritesLogged(s.h) && AcceptedLogged(s.h)
  }

  // -------------------------------------------------------- one task's own step

  /** What a step adds to the global records, if anything, is the stepping task's. */
  ghost predicate Adds(t: TaskId, h: History, pc: Pc, n: Next) {
    && n.h.logs == h.logs && n.h.started == h.started && n.h.rejected == h.rejected
    && (n.h.clears == h.clears
        || (&& n.h.clears == h.clears + [Clear(t, if pc.Clearing? then Some(pc.cause) else None)]
            && (pc.LoginClearing? || pc.Clearing?)))
    && (n.h.writes == h.writes
        || (pc.LoginSent? && n.pc == Done(true)
            && exists token, kept :: n.h.writes == h.writes + [TokenWrite(pc.generation, t, token, pc.obfuscate, kept)]))
    && (n.h.accepted == h.accepted
        || (pc.Reading? && n.pc.Exiting? && n.pc.use == pc.use && n.pc.generation == pc.generation
            && n.h.accepted == h.accepted + [Acceptance(t, pc.use, pc.generation, pc.token, pc.generation)]))
  }

  lemma StepAdds(cfg: Config, t: TaskId, sh: Shared, h: History, pc: Pc, o: Outcome)
    ensures Adds(t, h, pc, Resume(cfg, t, sh, h, pc, o))
  {
    if ForRequest(pc) {
      RequestAdds(cfg, t, sh, h, pc, o);
    } else if ForLogin(pc) {
      LoginAdds(cfg, t, sh, h, pc, o);
    }
  }

  lemma RequestAdds(cfg: Config, t: TaskId, sh: Shared, h: History, pc: Pc, o: Outcome)
    requires ForRequest(pc)
    ensures Adds(t, h, pc, Resume(cfg, t, sh, h, pc, o))
  {
  }

  lemma LoginAdds(cfg: Config, t: TaskId, sh: Shared, h: History, pc: Pc, o: Outcome)
    requires ForLogin(pc)
    ensures Adds(t, h, pc, Resume(cfg, t, sh, h, pc, o))
  {
  }

  /** A request or handshake begun in state `sh` carries its token in its generation. */
  predicate SendsCurrent(sh: Shared, pc: Pc) {
    pc.Sent? || pc.Connecting? || pc.Handshaking? ==> pc.generation == sh.generation && sh.token == Some(pc.token)
  }

  lemma BegunSendsCurrent(sh: Shared, call: PasswordCall)
    ensures SendsCurrent(sh, BeginLegacy(sh, call))
    ensures SendsCurrent(sh, AfterVersions(sh, call))
    ensures SendsCurrent(sh, AfterHardware(sh, call))
    ensures SendsCurrent(sh, BeginChange(sh, call))
  {
  }

  lemma ExitSendsCurrent(t: TaskId, sh: Shared, h: History, use: Use, g: nat, token: string, p: Payload, o: Outcome)
    ensures var n := OnExit(t, sh, h, use, g, token, p, o); SendsCurrent(n.sh, n.pc)
  {
    match use
    case HardwareFor(call) =>
      if p.HardwareIs? {
        BegunSendsCurrent(sh.(isPro := Some(p.pro)), call);
      }
    case VersionsFor(call) =>
      if p.VersionIs? {
        BegunSendsCurrent(sh.(version := Some(p.application)), call);
      }
    case _ =>
  }

  lemma StepSendsCurrent(cfg: Config, t: TaskId, sh: Shared, h: History, pc: Pc, o: Outcome)
    ensures var n := Resume(cfg, t, sh, h, pc, o); SendsCurrent(n.sh, n.pc)
  {
    match pc
    case Exiting(use, g, token, p) => ExitSendsCurrent(t, sh, h, use, g, token, p, o);
    case _ =>
  }

  lemma CurrentToken(cfg: Config, sh: Shared, h: History)
    requires TokenOwned(cfg, sh, h) && sh.token.Some?
    ensures TokenOf(cfg, h, sh.generation, sh.token.value)
  {
  }

  lemma TokenOfStays(cfg: Config, h: History, h': History, generation: nat, token: string)
    requires h.writes <= h'.writes && TokenOf(cfg, h, generation, token)
    ensures TokenOf(cfg, h', generation, token)
  {
    if generation > 0 {
      var i :| 0 <= i < |h.writes| && h.writes[i].generation == generation && h.writes[i].token == token;
      assert h'.writes[i] == h.writes[i];
    }
  }

  lemma LogTokensStay(cfg: Config, h: History, h': History, log: TaskLog)
    requires h.writes <= h'.writes && LogTokens(cfg, h, log)
    ensures LogTokens(cfg, h', log)
  {
    forall x | x in log.sent
      ensures TokenOf(cfg, h', x.generation, x.token)
    {
      TokenOfStays(cfg, h, h', x.generation, x.token);
    }
  }

  lemma SentTokens(cfg: Config, sh: Shared, h: History, log: TaskLog, pc: Pc)
    requires SharedOk(cfg, sh, h) && LogTokens(cfg, h, log) && SendsCurrent(sh, pc)
    ensures LogTokens(cfg, h, Note(log, sh, pc))
  {
    if sh.token.Some? {
      CurrentToken(cfg, sh, h);
    }
  }

  lemma TokensStep(cfg: Config, t: TaskId, sh: Shared, h: History, log: TaskLog, pc: Pc, o: Outcome)
    requires SharedOk(cfg, sh, h) && TaskOk(sh, h, t, pc) && LogTokens(cfg, h, log) && Heard(log, pc)
    ensures var n := Resume(cfg, t, sh, h, pc, o); LogTokens(cfg, n.h, Observed(log, h, pc, o, n))
  {
    StepResume(cfg, t, sh, h, pc, o);
    StepAdds(cfg, t, sh, h, pc, o);
    StepSendsCurrent(cfg, t, sh, h, pc, o);
    var n := Resume(cfg, t, sh, h, pc, o);
    LogTokensStay(cfg, h, n.h, log);
    ObservedTokens(cfg, t, h, log, pc, o, n);
  }

  lemma ObservedTokens(cfg: Config, t: TaskId, h: History, log: TaskLog, pc: Pc, o: Outcome, n: Next)
    requires LogTokens(cfg, n.h, log) && Heard(log, pc) && Adds(t, h, pc, n)
    requires SharedOk(cfg, n.sh, n.h) && SendsCurrent(n.sh, n.pc)
    ensures LogTokens(cfg, n.h, Observed(log, h, pc, o, n))
  {
    var base := Observed(log, h, pc, o, Next(n.sh, n.h, Done(true)));
    assert LogTokens(cfg, n.h, base);
    SentTokens(cfg, n.sh, n.h, base, n.pc);
    assert Observed(log, h, pc, o, n).sent == Note(base, n.sh, n.pc).sent;
  }

  /** The refused request of a 401 is the one the task waited for. */
  lemma HeardStep(cfg: Config, t: TaskId, sh: Shared, h: History, log: TaskLog, pc: Pc, o: Outcome)
    requires Heard(log, pc)
    ensures var n := Resume(cfg, t, sh, h, pc, o); Heard(Observed(log, h, pc, o, n), n.pc)
  {
    var n := Resume(cfg, t, sh, h, pc, o);
    ObservedHears(log, h, pc, o, n);
    match pc
    case Exiting(use, g, token, p) => ExitWaits(t, sh, h, use, g, token, p, o);
    case _ => SegmentHears(cfg, t, sh, h, pc, o);
  }

  /** The log has what the task now waits for, and what was just refused. */
  lemma ObservedHears(log: TaskLog, h: History, pc: Pc, o: Outcome, n: Next)
    ensures var log' := Observed(log, h, pc, o, n);
            && log.sent <= log'.sent && log.refused <= log'.refused && Awaited(n.pc) <= log'.sent
            && (o == Status(401) ==> Awaited(pc) <= log'.refused)
  {
  }

  /** A segment goes on reading the response it waited for, or goes to clear because that was refused, or waits for another. */
  lemma SegmentHears(cfg: Config, t: TaskId, sh: Shared, h: History, pc: Pc, o: Outcome)
    requires !pc.Exiting?
    ensures var next := Resume(cfg, t, sh, h, pc, o).pc;
            && (next.Reading? ==> pc == Sent(next.use, next.generation, next.token))
            && (next.Exiting? ==> pc == Reading(next.use, next.generation, next.token))
            && (next.Clearing? && next.cause.Refused? ==>
                  || (pc.Clearing? && pc.cause == next.cause)
                  || (o == Status(401) && Sending(next.cause.generation, next.cause.token, next.cause.handshake) in Awaited(pc)))
  {
  }

  /** Past a response's context a task waits for a new request, for the lock, or no more. */
  lemma ExitWaits(t: TaskId, sh: Shared, h: History, use: Use, g: nat, token: string, p: Payload, o: Outcome)
    ensures var pc := OnExit(t, sh, h, use, g, token, p, o).pc; pc.Sent? || pc.Done? || (pc.Clearing? && !pc.cause.Refused?)
  {
  }

  // ------------------------------------------------------------ its outcome

  lemma LoginStep(cfg: Config, t: TaskId, sh: Shared, h: History, start: nat, log: TaskLog, pc: Pc, o: Outcome)
    requires OutcomeOk(sh, start, log, pc) && ForLogin(pc)
    ensures var n := Resume(cfg, t, sh, h, pc, o); OutcomeOk(n.sh, start, Observed(log, h, pc, o, n), n.pc)
  {
    var n := Resume(cfg, t, sh, h, pc, o);
    var log' := Observed(log, h, pc, o, n);
    if n.pc == Done(true) {
      var w := n.h.writes[|h.writes|];
      assert log'.wrote == {w};
    }
  }

  lemma StatusStep(cfg: Config, t: TaskId, sh: Shared, h: History, start: nat, log: TaskLog, pc: Pc, o: Outcome)
    requires OutcomeOk(sh, start, log, pc) && pc.Sent?
    ensures var n := Resume(cfg, t, sh, h, pc, o); OutcomeOk(n.sh, start, Observed(log, h, pc, o, n), n.pc)
  {
  }

  lemma BodyStep(cfg: Config, t: TaskId, sh: Shared, h: History, start: nat, log: TaskLog, pc: Pc, o: Outcome)
    requires OutcomeOk(sh, start, log, pc) && pc.Reading?
    ensures var n := Resume(cfg, t, sh, h, pc, o); OutcomeOk(n.sh, start, Observed(log, h, pc, o, n), n.pc)
  {
    var n := Resume(cfg, t, sh, h, pc, o);
    if n.pc.Exiting? {
      var a := n.h.accepted[|h.accepted|];
      assert a in Observed(log, h, pc, o, n).accepted && a.use == pc.use && a.at == pc.generation;
    }
  }

  /** A password change on its way: it has cleared nothing. */
  ghost predicate Changing(start: nat, log: TaskLog, call: PasswordCall) {
    CallFits(start, log, call) && log.cleared == {} && log.wrote == {} && TriesFit(log.tries)
  }

  ghost predicate Begins(sh: Shared, start: nat, log: TaskLog, pc: Pc) {
    OutcomeOk(sh, start, Note(log, sh, pc), pc)
  }

  lemma LegacyBegins(sh: Shared, start: nat, log: TaskLog, call: PasswordCall)
    requires Changing(start, log, call)
    requires Unchecked(log.(decided := Decided(log, sh, LegacyPost(call))))
    ensures Begins(sh, start, log, BeginLegacy(sh, call))
  {
  }

  lemma VersionsBegin(sh: Shared, start: nat, log: TaskLog, call: PasswordCall)
    requires Changing(start, log, call)
    requires Decided(log, sh, AccountFor(call)).value.isPro == Some(false)
    ensures Begins(sh, start, log, AfterVersions(sh, call))
  {
    if UsesCurrentPassword(sh.version.GetOr("")) == Some(false) {
      assert sh.version.Some? || UsesCurrentPassword("").None?;
      LegacyBegins(sh, start, log, call);
    }
  }

  lemma HardwareBegins(sh: Shared, start: nat, log: TaskLog, call: PasswordCall)
    requires Changing(start, log, call) && sh.isPro.Some? && log.decided.None?
    ensures Begins(sh, start, log, AfterHardware(sh, call))
  {
    if sh.isPro == Some(true) {
      LegacyBegins(sh, start, log, call);
    } else {
      assert sh.isPro.value ==> sh.isPro == Some(true);
      VersionsBegin(sh, start, log, call);
    }
  }

  lemma ChangeBegins(sh: Shared, start: nat, log: TaskLog, call: PasswordCall)
    requires Changing(start, log, call) && log.decided.None?
    ensures Begins(sh, start, log, BeginChange(sh, call))
  {
    if sh.isPro.Some? {
      HardwareBegins(sh, start, log, call);
    }
  }

  /** Leaving a response's context adds nothing to the log but what the next segment sends. */
  lemma ExitObserved(cfg: Config, t: TaskId, sh: Shared, h: History, log: TaskLog, pc: Pc, o: Outcome)
    requires pc.Exiting?
    ensures var n := Resume(cfg, t, sh, h, pc, o); Observed(log, h, pc, o, n) == Note(log, n.sh, n.pc)
  {
    var n := Resume(cfg, t, sh, h, pc, o);
    StepAdds(cfg, t, sh, h, pc, o);
  }

  lemma ExitStep(cfg: Config, t: TaskId, sh: Shared, h: History, start: nat, log: TaskLog, pc: Pc, o: Outcome)
    requires OutcomeOk(sh, start, log, pc) && pc.Exiting?
    ensures var n := Resume(cfg, t, sh, h, pc, o); OutcomeOk(n.sh, start, Observed(log, h, pc, o, n), n.pc)
  {
    ExitObserved(cfg, t, sh, h, log, pc, o);
    if o.Go? && !pc.payload.ApiError? {
      PayloadBegins(t, sh, h, start, log, pc.use, pc.generation, pc.token, pc.payload);
    }
  }

  lemma PayloadBegins(t: TaskId, sh: Shared, h: History, start: nat, log: TaskLog, use: Use, g: nat, token: string, p: Payload)
    requires OutcomeOk(sh, start, log, Exiting(use, g, token, p))
    ensures var n := OnPayload(t, sh, h, use, g, token, p); Begins(n.sh, start, log, n.pc)
  {
    match use
    case HardwareFor(call) =>
      if p.HardwareIs? {
        HardwareBegins(sh.(isPro := Some(p.pro)), start, log, call);
      }
    case VersionsFor(call) =>
      if p.VersionIs? {
        VersionsBegin(sh.(version := Some(p.application)), start, log, call);
      }
    case _ =>
  }

  lemma ClearStep(cfg: Config, t: TaskId, sh: Shared, h: History, start: nat, log: TaskLog, pc: Pc, o: Outcome)
    requires OutcomeOk(sh, start, log, pc) && (pc.Clearing? || pc.Closing?)
    requires pc.Clearing? ==> pc.cause.generation <= sh.generation
    ensures var n := Resume(cfg, t, sh, h, pc, o); OutcomeOk(n.sh, start, Observed(log, h, pc, o, n), n.pc)
  {
  }

  lemma SocketStep(cfg: Config, t: TaskId, sh: Shared, h: History, start: nat, log: TaskLog, pc: Pc, o: Outcome)
    requires OutcomeOk(sh, start, log, pc) && !ForRequest(pc) && !ForLogin(pc)
    ensures var n := Resume(cfg, t, sh, h, pc, o); OutcomeOk(n.sh, start, Observed(log, h, pc, o, n), n.pc)
  {
    match pc
    case Done(ok) => EndedStep(cfg, t, sh, h, start, log, pc, o);
    case SocketWaiting(_) => ConnectStep(cfg, t, sh, h, start, log, pc, o);
    case StaleClosing(_) => ConnectStep(cfg, t, sh, h, start, log, pc, o);
    case _ =>
  }

  lemma ConnectStep(cfg: Config, t: TaskId, sh: Shared, h: History, start: nat, log: TaskLog, pc: Pc, o: Outcome)
    requires OutcomeOk(sh, start, log, pc) && (pc.SocketWaiting? || pc.StaleClosing?)
    ensures var n := Resume(cfg, t, sh, h, pc, o); OutcomeOk(n.sh, start, Observed(log, h, pc, o, n), n.pc)
  {
    StepAdds(cfg, t, sh, h, pc, o);
    WaitsOn(cfg, t, sh, h, pc, o);
  }

  /** A task that wants the WebSocket goes on towards it, or ends. */
  lemma WaitsOn(cfg: Config, t: TaskId, sh: Shared, h: History, pc: Pc, o: Outcome)
    requires pc.SocketWaiting? || pc.StaleClosing?
    ensures var next := Resume(cfg, t, sh, h, pc, o).pc;
            next.SocketWaiting? || next.StaleClosing? || next.Connecting? || next.SocketSending? || next.Done?
  {
  }

  lemma EndedStep(cfg: Config, t: TaskId, sh: Shared, h: History, start: nat, log: TaskLog, pc: Pc, o: Outcome)
    requires OutcomeOk(sh, start, log, pc) && pc.Done?
    ensures var n := Resume(cfg, t, sh, h, pc, o); OutcomeOk(n.sh, start, Observed(log, h, pc, o, n), n.pc)
  {
  }

  lemma OutcomeStep(cfg: Config, t: TaskId, sh: Shared, h: History, start: nat, log: TaskLog, pc: Pc, o: Outcome)
    requires OutcomeOk(sh, start, log, pc) && TaskOk(sh, h, t, pc)
    ensures var n := Resume(cfg, t, sh, h, pc, o); OutcomeOk(n.sh, start, Observed(log, h, pc, o, n), n.pc)
  {
    if ForLogin(pc) {
      LoginStep(cfg, t, sh, h, start, log, pc, o);
    } else if pc.Sent? {
      StatusStep(cfg, t, sh, h, start, log, pc, o);
    } else if pc.Reading? {
      BodyStep(cfg, t, sh, h, start, log, pc, o);
    } else if pc.Exiting? {
      ExitStep(cfg, t, sh, h, start, log, pc, o);
    } else if pc.Clearing? || pc.Closing? {
      ClearStep(cfg, t, sh, h, start, log, pc, o);
    } else {
      SocketStep(cfg, t, sh, h, start, log, pc, o);
    }
  }

  /** After a 401 the task waits to clear the generation of what was refused, unless that is over already. */
  lemma RefusedNow(cfg: Config, t: TaskId, sh: Shared, h: History, pc: Pc)
    requires TaskOk(sh, h, t, pc)
    ensures var n := Resume(cfg, t, sh, h, pc, Status(401));
            forall x :: x in Awaited(pc) ==> x.generation < sh.generation || (n.pc.Clearing? && n.pc.cause.generation == x.generation)
  {
  }

  /** A wait to clear a generation ends with that generation over, goes on, or is given up. */
  lemma WaitToClear(cfg: Config, t: TaskId, sh: Shared, h: History, start: nat, log: TaskLog, pc: Pc, o: Outcome)
    requires TaskOk(sh, h, t, pc) && OutcomeOk(sh, start, log, pc) && pc.Clearing?
    ensures var n := Resume(cfg, t, sh, h, pc, o);
            || n.pc == Done(false)
            || (n.pc.Clearing? && n.pc.cause.generation == pc.cause.generation)
            || (n.pc.Closing? && pc.cause.generation < n.sh.generation)
  {
  }

  lemma KeepsGivingUp(cfg: Config, t: TaskId, sh: Shared, h: History, pc: Pc, o: Outcome)
    requires pc == Done(false) || pc.Clearing?
    ensures var n := Resume(cfg, t, sh, h, pc, o); n.pc.Done? ==> n.pc == Done(false)
  {
  }

  lemma RefusalsStep(cfg: Config, t: TaskId, sh: Shared, h: History, start: nat, log: TaskLog, pc: Pc, o: Outcome)
    requires SharedOk(cfg, sh, h) && TaskOk(sh, h, t, pc) && OutcomeOk(sh, start, log, pc) && RefusalsOk(sh, log, pc)
    ensures var n := Resume(cfg, t, sh, h, pc, o); RefusalsOk(n.sh, Observed(log, h, pc, o, n), n.pc)
  {
    StepResume(cfg, t, sh, h, pc, o);
    var n := Resume(cfg, t, sh, h, pc, o);
    ObservedRefusals(log, h, pc, o, n);
    if o == Status(401) {
      RefusedNow(cfg, t, sh, h, pc);
    }
    if pc.Clearing? {
      WaitToClear(cfg, t, sh, h, start, log, pc, o);
    }
    if log.gaveUp || pc.Clearing? {
      KeepsGivingUp(cfg, t, sh, h, pc, o);
    }
  }

  lemma ObservedRefusals(log: TaskLog, h: History, pc: Pc, o: Outcome, n: Next)
    ensures var log' := Observed(log, h, pc, o, n);
            && log'.refused == log.refused + (if o == Status(401) then Awaited(pc) else {})
            && log'.gaveUp == (log.gaveUp || (pc.Clearing? && n.pc.Done?))
  {
  }

  lemma OwnStep(cfg: Config, t: TaskId, sh: Shared, h: History, start: nat, log: TaskLog, pc: Pc, o: Outcome)
    requires SharedOk(cfg, sh, h) && TaskOk(sh, h, t, pc) && OwnOk(cfg, sh, h, start, log, pc)
    ensures var n := Resume(cfg, t, sh, h, pc, o);
            OwnOk(cfg, n.sh, n.h, start, Observed(log, h, pc, o, n), n.pc)
  {
    TokensStep(cfg, t, sh, h, log, pc, o);
    HeardStep(cfg, t, sh, h, log, pc, o);
    OutcomeStep(cfg, t, sh, h, start, log, pc, o);
    RefusalsStep(cfg, t, sh, h, start, log, pc, o);
  }

  /** Another task's step only moves the generation on and adds token writes. */
  lemma OwnStays(cfg: Config, sh: Shared, h: History, sh': Shared, h': History, start: nat, log: TaskLog, pc: Pc)
    requires OwnOk(cfg, sh, h, start, log, pc) && sh.generation <= sh'.generation && h.writes <= h'.writes
    ensures OwnOk(cfg, sh', h', start, log, pc)
  {
    LogTokensStay(cfg, h, h', log);
  }

  lemma OutcomeBegins(sh: Shared, op: Op)
    ensures var (sh', pc) := BeginOp(sh, op);
            OutcomeOk(sh', sh.generation, Note(NewLog(op), sh', pc), pc) && SendsCurrent(sh', pc) && Heard(Note(NewLog(op), sh', pc), pc)
  {
    if op.ChangePassword? {
      ChangeOutcomeBegins(sh.(credentials := None), op);
    }
  }

  lemma ChangeOutcomeBegins(sh: Shared, op: Op)
    requires op.ChangePassword?
    ensures var pc := BeginChange(sh, PasswordCall(sh.generation, op.account, op.current));
            && OutcomeOk(sh, sh.generation, Note(NewLog(op), sh, pc), pc) && SendsCurrent(sh, pc)
            && Heard(Note(NewLog(op), sh, pc), pc)
  {
    var call := PasswordCall(sh.generation, op.account, op.current);
    ChangeBegins(sh, sh.generation, NewLog(op), call);
    BegunSendsCurrent(sh, call);
  }

  lemma OwnBegins(cfg: Config, sh: Shared, h: History, op: Op)
    requires SharedOk(cfg, sh, h)
    ensures var (sh', pc) := BeginOp(sh, op);
            sh'.generation == sh.generation && OwnOk(cfg, sh', h, sh.generation, Note(NewLog(op), sh', pc), pc)
  {
    var (sh', pc) := BeginOp(sh, op);
    CredentialsDropped(cfg, 0, sh, h);
    OutcomeBegins(sh, op);
    assert sh' == sh || sh' == sh.(credentials := None);
    SentTokens(cfg, sh', h, NewLog(op), pc);
  }

  // ---------------------------------------------------------------- the records

  /** A log that has only grown still explains what it explained. */
  ghost predicate Grown(log: TaskLog, log': TaskLog) {
    && log'.op == log.op && log.refused <= log'.refused && log.accepted <= log'.accepted
    && log.wrote <= log'.wrote && log.cleared <= log'.cleared
  }

  lemma GenuineStays(start: nat, log: TaskLog, log': TaskLog, cause: Option<Cause>, g: nat)
    requires Grown(log, log') && Genuine(start, log, cause, g)
    ensures Genuine(start, log', cause, g)
  {
  }

  lemma ObservedGrows(log: TaskLog, h: History, pc: Pc, o: Outcome, n: Next)
    ensures Grown(log, Observed(log, h, pc, o, n))
  {
  }

  /** A clear is made for the cause its task waited with. */
  lemma ClearIsGenuine(start: nat, sh: Shared, log: TaskLog, pc: Pc, g: nat)
    requires OutcomeOk(sh, start, log, pc) && Heard(log, pc)
    requires pc.LoginClearing? || (pc.Clearing? && pc.cause.generation == g)
    ensures Genuine(start, log, if pc.Clearing? then Some(pc.cause) else None, g)
  {
  }

  ghost predicate OthersKept(t: TaskId, h: History, h': History) {
    && h'.started == h.started && t in h.logs && t in h.started
    && (forall u :: u in h'.logs <==> u in h.logs)
    && (forall u :: u in h.logs && u != t ==> h'.logs[u] == h.logs[u])
    && Grown(h.logs[t], h'.logs[t])
  }

  lemma ClearsStep(t: TaskId, h: History, h': History, cause: Option<Cause>)
    requires ClearsLogged(h) && OthersKept(t, h, h')
    requires h'.clears == h.clears
             || (h'.clears == h.clears + [Clear(t, cause)] && |h.clears| in h'.logs[t].cleared
                 && Genuine(h.started[t], h'.logs[t], cause, |h.clears|))
    ensures ClearsLogged(h')
  {
    forall g | 0 <= g < |h'.clears|
      ensures var c := h'.clears[g];
              c.task in h'.logs && c.task in h'.started && g in h'.logs[c.task].cleared
              && Genuine(h'.started[c.task], h'.logs[c.task], c.cause, g)
    {
      if g < |h.clears| {
        var c := h.clears[g];
        assert h'.clears[g] == c;
        if c.task == t {
          GenuineStays(h.started[t], h.logs[t], h'.logs[t], c.cause, g);
        }
      }
    }
  }

  lemma WritesStep(t: TaskId, h: History, h': History, w: TokenWrite)
    requires WritesLogged(h) && OthersKept(t, h, h')
    requires if h'.writes == h.writes then h'.logs[t].wrote == h.logs[t].wrote
             else h'.writes == h.writes + [w] && w.task == t && h'.logs[t].wrote == h.logs[t].wrote + {w}
    ensures WritesLogged(h')
  {
    assert h'.writes != h.writes ==> w in h'.writes;
    assert forall i :: 0 <= i < |h.writes| ==> h'.writes[i] == h.writes[i];
  }

  lemma AcceptedStep(t: TaskId, h: History, h': History, a: Acceptance)
    requires AcceptedLogged(h) && OthersKept(t, h, h')
    requires h'.accepted == h.accepted || (h'.accepted == h.accepted + [a] && a.task == t && a in h'.logs[t].accepted)
    ensures AcceptedLogged(h')
  {
    assert forall i :: 0 <= i < |h.accepted| ==> h'.accepted[i] == h.accepted[i];
  }

  /** The history after a step of `t` to `n`, with the observer's log. */
  function LoggedAs(h: History, t: TaskId, pc: Pc, o: Outcome, n: Next, rejected: set<Credentials>): History
    requires t in h.logs
  {
    n.h.(logs := n.h.logs[t := Observed(h.logs[t], h, pc, o, n)], rejected := rejected)
  }

  lemma LoggedKeepsOthers(h: History, t: TaskId, pc: Pc, o: Outcome, n: Next, rejected: set<Credentials>)
    requires t in h.logs && t in h.started && Adds(t, h, pc, n)
    ensures OthersKept(t, h, LoggedAs(h, t, pc, o, n, rejected))
  {
    ObservedGrows(h.logs[t], h, pc, o, n);
  }

  lemma ClearsRun(sh: Shared, h: History, t: TaskId, pc: Pc, o: Outcome, n: Next, rejected: set<Credentials>)
    requires t in h.logs && t in h.started && Adds(t, h, pc, n) && ClearsLogged(h)
    requires OutcomeOk(sh, h.started[t], h.logs[t], pc) && Heard(h.logs[t], pc)
    requires pc.Clearing? && n.h.clears != h.clears ==> pc.cause.generation == |h.clears|
    ensures ClearsLogged(LoggedAs(h, t, pc, o, n, rejected))
  {
    var h' := LoggedAs(h, t, pc, o, n, rejected);
    LoggedKeepsOthers(h, t, pc, o, n, rejected);
    var cause := if pc.Clearing? then Some(pc.cause) else None;
    if n.h.clears != h.clears {
      ClearIsGenuine(h.started[t], sh, h.logs[t], pc, |h.clears|);
      GenuineStays(h.started[t], h.logs[t], h'.logs[t], cause, |h.clears|);
    }
    ClearsStep(t, h, h', cause);
  }

  lemma WritesRun(h: History, t: TaskId, pc: Pc, o: Outcome, n: Next, rejected: set<Credentials>)
    requires t in h.logs && t in h.started && Adds(t, h, pc, n) && WritesLogged(h)
    ensures WritesLogged(LoggedAs(h, t, pc, o, n, rejected))
  {
    LoggedKeepsOthers(h, t, pc, o, n, rejected);
    var w := if n.h.writes == h.writes then TokenWrite(0, t, "", false, None) else n.h.writes[|h.writes|];
    WritesStep(t, h, LoggedAs(h, t, pc, o, n, rejected), w);
  }

  lemma AcceptedRun(h: History, t: TaskId, pc: Pc, o: Outcome, n: Next, rejected: set<Credentials>)
    requires t in h.logs && t in h.started && Adds(t, h, pc, n) && AcceptedLogged(h)
    ensures AcceptedLogged(LoggedAs(h, t, pc, o, n, rejected))
  {
    LoggedKeepsOthers(h, t, pc, o, n, rejected);
    var a := if n.h.accepted == h.accepted then Acceptance(t, Endpoint, 0, "", 0) else n.h.accepted[|h.accepted|];
    AcceptedStep(t, h, LoggedAs(h, t, pc, o, n, rejected), a);
  }

  /** A clear that happens is one of the current generation. */
  lemma ClearTiming(cfg: Config, t: TaskId, sh: Shared, h: History, pc: Pc, o: Outcome)
    requires |h.clears| == sh.generation && pc.Clearing? && Resume(cfg, t, sh, h, pc, o).h.clears != h.clears
    ensures pc.cause.generation == |h.clears|
  {
  }

  // -------------------------------------------------------------- every run

  lemma OthersOwn(cfg: Config, sh: Shared, h: History, sh': Shared, h': History, tasks: map<TaskId, Pc>, t: TaskId, pc: Pc)
    requires OwnAll(cfg, sh, h, tasks) && sh.generation <= sh'.generation && h.writes <= h'.writes
    requires forall u :: u in h'.logs <==> u in tasks || u == t
    requires forall u :: u in h'.started <==> u in tasks || u == t
    requires forall u :: u in tasks && u != t ==> h'.logs[u] == h.logs[u] && h'.started[u] == h.started[u]
    requires OwnOk(cfg, sh', h', h'.started[t], h'.logs[t], pc)
    ensures OwnAll(cfg, sh', h', tasks[t := pc])
  {
    var tasks' := tasks[t := pc];
    forall u | u in tasks'
      ensures OwnsIts(cfg, sh', h', tasks', u)
    {
      if u != t {
        OtherOwn(cfg, sh, h, sh', h', tasks, u);
      }
    }
    EachOwns(cfg, sh', h', tasks');
  }

  ghost predicate OwnsIts(cfg: Config, sh: Shared, h: History, tasks: map<TaskId, Pc>, t: TaskId) {
    t in tasks && t in h.logs && t in h.started && OwnOk(cfg, sh, h, h.started[t], h.logs[t], tasks[t])
  }

  lemma EachOwns(cfg: Config, sh: Shared, h: History, tasks: map<TaskId, Pc>)
    requires forall t :: t in h.logs <==> t in tasks
    requires forall t :: t in h.started <==> t in tasks
    requires forall t :: t in tasks ==> OwnsIts(cfg, sh, h, tasks, t)
    ensures OwnAll(cfg, sh, h, tasks)
  {
    forall t | t in tasks
      ensures OwnOk(cfg, sh, h, h.started[t], h.logs[t], tasks[t])
    {
      assert OwnsIts(cfg, sh, h, tasks, t);
    }
  }

  lemma OtherOwn(cfg: Config, sh: Shared, h: History, sh': Shared, h': History, tasks: map<TaskId, Pc>, u: TaskId)
    requires OwnAll(cfg, sh, h, tasks) && sh.generation <= sh'.generation && h.writes <= h'.writes
    requires u in tasks && u in h'.logs && u in h'.started && h'.logs[u] == h.logs[u] && h'.started[u] == h.started[u]
    ensures OwnOk(cfg, sh', h', h'.started[u], h'.logs[u], tasks[u])
  {
    OwnStays(cfg, sh, h, sh', h', h.started[u], h.logs[u], tasks[u]);
  }

  lemma TracedAfterCall(cfg: Config, s: State, t: TaskId, sh': Shared, log: TaskLog, pc: Pc)
    requires Traced(cfg, s) && t !in s.tasks && sh'.generation == s.sh.generation && log.wrote == {}
    requires OwnOk(cfg, sh', s.h, s.sh.generation, log, pc)
    ensures var h' := s.h.(started := s.h.started[t := s.sh.generation], logs := s.h.logs[t := log]);
            Traced(cfg, State(sh', h', s.tasks[t := pc]))
  {
    var h' := s.h.(started := s.h.started[t := s.sh.generation], logs := s.h.logs[t := log]);
    OwnStays(cfg, sh', s.h, sh', h', s.sh.generation, log, pc);
    OthersOwn(cfg, s.sh, s.h, sh', h', s.tasks, t, pc);
    NewLogKeepsRecords(s.h, h', t);
  }

  lemma CallKeepsTraced(cfg: Config, s: State, t: TaskId, op: Op)
    requires Inv(cfg, s) && Traced(cfg, s) && t !in s.tasks
    ensures Traced(cfg, Step(cfg, s, Call(t, op)))
  {
    var (sh', pc) := BeginOp(s.sh, op);
    OwnBegins(cfg, s.sh, s.h, op);
    TracedAfterCall(cfg, s, t, sh', Note(NewLog(op), sh', pc), pc);
  }

  lemma NewLogKeepsRecords(h: History, h': History, t: TaskId)
    requires ClearsLogged(h) && WritesLogged(h) && AcceptedLogged(h) && t !in h.logs && t !in h.started
    requires h' == h.(started := h'.started, logs := h'.logs) && t in h'.logs && h'.logs[t].wrote == {}
    requires forall u :: u in h.logs ==> u in h'.logs && h'.logs[u] == h.logs[u]
    requires forall u :: u in h.started ==> u in h'.started && h'.started[u] == h.started[u]
    requires forall u :: u in h'.logs ==> u in h.logs || u == t
    ensures ClearsLogged(h') && WritesLogged(h') && AcceptedLogged(h')
  {
  }

  /** All that is needed of a step, whatever it was. */
  ghost predicate StepFacts(cfg: Config, t: TaskId, sh: Shared, h: History, start: nat, log: TaskLog, pc: Pc, o: Outcome, n: Next) {
    && Adds(t, h, pc, n) && sh.generation <= n.sh.generation && h.writes <= n.h.writes
    && (pc.Clearing? && n.h.clears != h.clears ==> pc.cause.generation == |h.clears|)
    && OwnOk(cfg, n.sh, n.h, start, Observed(log, h, pc, o, n), n.pc)
  }

  lemma ResumeFacts(cfg: Config, t: TaskId, sh: Shared, h: History, start: nat, log: TaskLog, pc: Pc, o: Outcome)
    requires SharedOk(cfg, sh, h) && TaskOk(sh, h, t, pc) && OwnOk(cfg, sh, h, start, log, pc)
    ensures StepFacts(cfg, t, sh, h, start, log, pc, o, Resume(cfg, t, sh, h, pc, o))
  {
    StepResume(cfg, t, sh, h, pc, o);
    StepAdds(cfg, t, sh, h, pc, o);
    OwnStep(cfg, t, sh, h, start, log, pc, o);
    if pc.Clearing? && Resume(cfg, t, sh, h, pc, o).h.clears != h.clears {
      ClearTiming(cfg, t, sh, h, pc, o);
    }
  }

  lemma TracedAfterRun(cfg: Config, s: State, t: TaskId, o: Outcome, n: Next, rejected: set<Credentials>)
    requires Traced(cfg, s) && t in s.tasks
    requires StepFacts(cfg, t, s.sh, s.h, s.h.started[t], s.h.logs[t], s.tasks[t], o, n)
    ensures Traced(cfg, State(n.sh, LoggedAs(s.h, t, s.tasks[t], o, n, rejected), s.tasks[t := n.pc]))
  {
    var pc := s.tasks[t];
    var h' := LoggedAs(s.h, t, pc, o, n, rejected);
    assert OwnOk(cfg, s.sh, s.h, s.h.started[t], s.h.logs[t], pc);
    OwnStays(cfg, n.sh, n.h, n.sh, h', s.h.started[t], h'.logs[t], n.pc);
    OthersOwn(cfg, s.sh, s.h, n.sh, h', s.tasks, t, n.pc);
    ClearsRun(s.sh, s.h, t, pc, o, n, rejected);
    WritesRun(s.h, t, pc, o, n, rejected);
    AcceptedRun(s.h, t, pc, o, n, rejected);
  }

  lemma RunKeepsTraced(cfg: Config, s: State, t: TaskId, o: Outcome)
    requires Inv(cfg, s) && Traced(cfg, s) && t in s.tasks
    ensures Traced(cfg, Step(cfg, s, Run(t, o)))
  {
    var pc := s.tasks[t];
    assert TaskOk(s.sh, s.h, t, pc) && OwnOk(cfg, s.sh, s.h, s.h.started[t], s.h.logs[t], pc);
    ResumeFacts(cfg, t, s.sh, s.h, s.h.started[t], s.h.logs[t], pc, o);
    var n := Resume(cfg, t, s.sh, s.h, pc, o);
    TracedAfterRun(cfg, s, t, o, n, n.h.rejected + RejectedNow(s.sh, pc, o));
  }

  /** The logs explain every reachable state. */
  lemma {:induction false} ReachedTraced(cfg: Config, schedule: seq<Event>)
    ensures Traced(cfg, Reached(cfg, schedule))
  {
    if schedule != [] {
      var n := |schedule| - 1;
      var s := Reached(cfg, schedule[..n]);
      ReachedTraced(cfg, schedule[..n]);
      ReachedInv(cfg, schedule[..n]);
      match schedule[n]
      case Call(t, op) =>
        if t !in s.tasks {
          CallKeepsTraced(cfg, s, t, op);
        }
      case Run(t, o) =>
        if t in s.tasks {
          RunKeepsTraced(cfg, s, t, o);
        }
    }
  }

  // ------------------------------------------------- credentials and password mode

  predicate LoginUses(pc: Pc, limit: nat) {
    ForLogin(pc) && pc.login.used.Some? ==> pc.login.used.value.id < limit
  }

  /** Kept credentials are new objects, and rejected ones are never kept again. */
  ghost predicate RejectedGone(s: State) {
    && (s.sh.credentials.Some? ==> s.sh.credentials.value.id < s.h.nextId)
    && (forall c :: c in s.h.rejected ==> c.id < s.h.nextId && s.sh.credentials != Some(c))
    && (forall t :: t in s.tasks ==> LoginUses(s.tasks[t], s.h.nextId))
  }

  /** What one step does to the credentials. */
  lemma StepCredentials(cfg: Config, t: TaskId, sh: Shared, h: History, pc: Pc, o: Outcome)
    ensures var n := Resume(cfg, t, sh, h, pc, o);
            && h.nextId <= n.h.nextId
            && (n.sh.credentials == sh.credentials || n.sh.credentials.None?
                || (n.sh.credentials.value.id == h.nextId && h.nextId < n.h.nextId))
            && (forall c :: c in RejectedNow(sh, pc, o) ==> pc.login.used == Some(c) && n.sh.credentials != Some(c))
            && (ForLogin(n.pc) ==> ForLogin(pc) && n.pc.login == pc.login)
  {
    if pc.Exiting? {
      ExitWaits(t, sh, h, pc.use, pc.generation, pc.token, pc.payload, o);
    }
  }

  lemma RunKeepsRejected(cfg: Config, s: State, t: TaskId, o: Outcome)
    requires RejectedGone(s) && t in s.tasks && t in s.h.logs
    ensures RejectedGone(Step(cfg, s, Run(t, o)))
  {
    StepCredentials(cfg, t, s.sh, s.h, s.tasks[t], o);
    StepAdds(cfg, t, s.sh, s.h, s.tasks[t], o);
    assert LoginUses(s.tasks[t], s.h.nextId);
  }

  lemma CallKeepsRejected(cfg: Config, s: State, t: TaskId, op: Op)
    requires RejectedGone(s) && t !in s.tasks
    ensures RejectedGone(Step(cfg, s, Call(t, op)))
  {
    var (sh', pc) := BeginOp(s.sh, op);
    assert sh'.credentials == s.sh.credentials || sh'.credentials.None?;
    assert LoginUses(pc, s.h.nextId) by {
      if op.ChangePassword? {
        BegunPcs(s.sh.(credentials := None), PasswordCall(s.sh.generation, op.account, op.current));
      }
    }
  }

  lemma BegunPcs(sh: Shared, call: PasswordCall)
    ensures BeginChange(sh, call).Sent? || BeginChange(sh, call).Done?
  {
  }

  /** The password mode is the constructor's until a login is accepted, and then the last accepted login's. */
  predicate ModeIsLatest(cfg: Config, sh: Shared, h: History) {
    sh.obfuscation == if h.writes == [] then cfg.obfuscation else Some(h.writes[|h.writes| - 1].obfuscate)
  }

  lemma StepMode(cfg: Config, t: TaskId, sh: Shared, h: History, pc: Pc, o: Outcome)
    requires ModeIsLatest(cfg, sh, h)
    ensures var n := Resume(cfg, t, sh, h, pc, o); ModeIsLatest(cfg, n.sh, n.h)
  {
    if pc.Exiting? {
      ExitKeepsMode(t, sh, h, pc.use, pc.generation, pc.token, pc.payload, o);
    } else if !pc.LoginSent? {
      OtherKeepsMode(cfg, t, sh, h, pc, o);
    }
  }

  lemma OtherKeepsMode(cfg: Config, t: TaskId, sh: Shared, h: History, pc: Pc, o: Outcome)
    requires !pc.LoginSent? && !pc.Exiting?
    ensures var n := Resume(cfg, t, sh, h, pc, o); n.sh.obfuscation == sh.obfuscation && n.h.writes == h.writes
  {
  }

  lemma ExitKeepsMode(t: TaskId, sh: Shared, h: History, use: Use, g: nat, token: string, p: Payload, o: Outcome)
    ensures var n := OnExit(t, sh, h, use, g, token, p, o); n.sh.obfuscation == sh.obfuscation && n.h.writes == h.writes
  {
  }

  lemma CallKeepsMode(cfg: Config, sh: Shared, op: Op)
    ensures BeginOp(sh, op).0.obfuscation == sh.obfuscation
  {
  }

  ghost predicate CredentialsOk(cfg: Config, s: State) {
    RejectedGone(s) && ModeIsLatest(cfg, s.sh, s.h)
  }

  lemma StepKeepsCredentials(cfg: Config, s: State, e: Event)
    requires CredentialsOk(cfg, s)
    ensures CredentialsOk(cfg, Step(cfg, s, e))
  {
    match e
    case Call(t, op) =>
      if t !in s.tasks {
        CallKeepsRejected(cfg, s, t, op);
        CallKeepsMode(cfg, s.sh, op);
      }
    case Run(t, o) =>
      if t in s.tasks && t in s.h.logs {
        RunKeepsRejected(cfg, s, t, o);
        StepMode(cfg, t, s.sh, s.h, s.tasks[t], o);
      }
  }

  lemma {:induction false} ReachedCredentials(cfg: Config, schedule: seq<Event>)
    ensures CredentialsOk(cfg, Reached(cfg, schedule))
  {
    if schedule != [] {
      var n := |schedule| - 1;
      ReachedCredentials(cfg, schedule[..n]);
      StepKeepsCredentials(cfg, Reached(cfg, schedule[..n]), schedule[n]);
    }
  }
}
