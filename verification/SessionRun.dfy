/**
 `SessionController` driven by a schedule: each task's segment runs on the class's fields, in place, and the whole
 run is the one `Reached` describes.
 */
module SessionRun {
  import opened Common
  import opened SessionState
  import opened SessionTasks
  import opened SessionInvariant
  import opened SessionOutcomes

  /** The class's fields are the machine's shared state, and the task may run. */
  ghost predicate Ready(cfg: Config, c: SessionController, h: History, t: TaskId, pc: Pc)
    reads c
  {
    SharedOk(cfg, c.View(), h) && TaskOk(c.View(), h, t, pc) && c.cancelledHeartbeats == h.cancelledBeats
  }

  method LoginSegment(c: SessionController, cfg: Config, t: TaskId, ghost h: History, nextId: nat, pc: Pc, o: Outcome)
    returns (next: Pc)
    requires Ready(cfg, c, h, t, pc) && nextId == h.nextId && ForLogin(pc)
    modifies c
    ensures var n := Resume(cfg, t, old(c.View()), h, pc, o);
            c.View() == n.sh && next == n.pc && c.cancelledHeartbeats == n.h.cancelledBeats
  {
    match pc
    case LoginClearing(login) =>
      if o.Fail? || o.Cancelled? {
        return Done(false);
      }
      if !o.Go? || c.wsLock.Some? {
        return pc;
      }
      var generation, _ := c.ClearLocalSession(None);
      next := LoginClosing(login, generation);
    case LoginClosing(login, g) =>
      var same := c.CheckSessionGeneration(g);
      if !o.Go? || !same {
        return Done(false);
      }
      var modes := Modes(c.usePasswordObfuscation);
      next := LoginSent(login, g, modes[0], modes[1..]);
    case LoginSent(login, g, obfuscate, more) =>
      var same := c.CheckSessionGeneration(g);
      if !o.LoginReply? || !same || o.reply.Unsuccessful? {
        return Done(false);
      }
      if o.reply.WrongPassword? {
        if more != [] {
          return LoginSent(login, g, more[0], more[1..]);
        }
        c.RejectLogin(login.used);
        return Done(false);
      }
      var token := GrantedToken(o.reply.cookie, o.reply.data);
      if token.None? {
        return Done(false);
      }
      GrantedTokenUsable(o.reply.cookie, o.reply.data);
      var kept := None;
      if login.used.None? && cfg.keepCredentials {
        kept := Some(Credentials(nextId, login.username, login.password));
      }
      var accepted := c.FinishLogin(g, token.value, obfuscate, kept);
      next := Done(accepted);
  }

  method RequestSegment(c: SessionController, cfg: Config, t: TaskId, ghost h: History, pc: Pc, o: Outcome)
    returns (next: Pc)
    requires Ready(cfg, c, h, t, pc) && (pc.Sent? || pc.Reading? || pc.Clearing? || pc.Closing?)
    modifies c
    ensures var n := Resume(cfg, t, old(c.View()), h, pc, o);
            c.View() == n.sh && next == n.pc && c.cancelledHeartbeats == n.h.cancelledBeats
  {
    match pc
    case Sent(use, g, token) =>
      var same := c.CheckSessionGeneration(g);
      if !o.Status? || !same {
        next := Raised(use, g);
      } else if o.code == 401 {
        next := Clearing(Refused(g, token, false), if use.LogoutPost? then LogoutFinally(g) else End(false));
      } else if o.code == 404 && use.LogoutPost? {
        next := Clearing(LoggedOut(g), End(true));
      } else if o.code >= 400 {
        next := Raised(use, g);
      } else {
        next := Reading(use, g, token);
      }
    case Reading(use, g, token) =>
      var same := c.CheckSessionGeneration(g);
      next := if !o.Body? || !same then Raised(use, g) else Exiting(use, g, token, o.payload);
    case Clearing(cause, after) =>
      if o.Fail? || o.Cancelled? {
        return if after.End? then Done(false) else AfterClear(after);
      }
      if !o.Go? || c.wsLock.Some? {
        return pc;
      }
      var _, _ := c.ClearLocalSession(Some(cause.generation));
      next := Closing(cause, after);
    case Closing(cause, after) =>
      next := if o.Go? || after.LogoutFinally? then AfterClear(after) else Done(false);
  }

  /** Past a response's context: what it said of the device is stored, and the operation goes on. */
  method ExitSegment(c: SessionController, cfg: Config, t: TaskId, ghost h: History, pc: Pc, o: Outcome)
    returns (next: Pc)
    requires Ready(cfg, c, h, t, pc) && pc.Exiting?
    modifies c
    ensures var n := Resume(cfg, t, old(c.View()), h, pc, o);
            c.View() == n.sh && next == n.pc && c.cancelledHeartbeats == n.h.cancelledBeats
  {
    var use, g, p := pc.use, pc.generation, pc.payload;
    if !o.Go? || p.ApiError? {
      return Raised(use, g);
    }
    match use
    case Endpoint => next := Done(true);
    case LogoutPost => next := Clearing(LoggedOut(g), End(true));
    case PasswordPost(call) => next := Clearing(PasswordChanged(call.start), End(true));
    case LegacyPost(call) => next := Done(true);
    case AccountFor(call) =>
      var same := c.CheckSessionGeneration(call.start);
      next := if !p.Account? || !same || p.username != call.username then Done(false)
              else BeginRequest(c.View(), PasswordPost(call), Some(call.start));
    case Hardware =>
      if p.HardwareIs? {
        c.isPro := Some(p.pro);
      }
      next := Done(p.HardwareIs?);
    case Versions =>
      if p.VersionIs? {
        c.applicationVersion := Some(p.application);
      }
      next := Done(p.VersionIs?);
    case HardwareFor(call) =>
      if !p.HardwareIs? {
        return Done(false);
      }
      c.isPro := Some(p.pro);
      next := AfterHardware(c.View(), call);
    case VersionsFor(call) =>
      if !p.VersionIs? {
        return Done(false);
      }
      c.applicationVersion := Some(p.application);
      next := AfterVersions(c.View(), call);
  }

  /** With the lock held and no WebSocket: start the handshake, or give up the lock. */
  method ConnectOrUnlock(c: SessionController, t: TaskId, input: bool) returns (next: Pc)
    modifies c`wsLock
    ensures forall h :: Connect(t, old(c.View()), h, input) == Next(c.View(), h, next)
  {
    if Usable(c.token) {
      c.wsLock := Some(t);
      next := Connecting(input, c.sessionGeneration, c.token.value);
    } else {
      c.wsLock := None;
      next := Done(false);
    }
  }

  method SocketSegment(c: SessionController, cfg: Config, t: TaskId, ghost h: History, nextId: nat, pc: Pc, o: Outcome)
    returns (next: Pc)
    requires Ready(cfg, c, h, t, pc) && nextId == h.nextId
    requires pc.SocketWaiting? || pc.StaleClosing? || pc.Connecting? || pc.SocketSending?
    modifies c
    ensures var n := Resume(cfg, t, old(c.View()), h, pc, o);
            c.View() == n.sh && next == n.pc && c.cancelledHeartbeats == n.h.cancelledBeats
  {
    match pc
    case SocketWaiting(input) =>
      if o.Fail? || o.Cancelled? {
        return Done(false);
      }
      if !o.Go? || c.wsLock.Some? {
        return pc;
      }
      if c.ws.Some? && !o.closed {
        return GotSocket(input, c.ws.value);
      }
      var stale := c.DetachWs();
      if stale.Some? {
        c.wsLock := Some(t);
        return StaleClosing(input);
      }
      next := ConnectOrUnlock(c, t, input);
    case StaleClosing(input) =>
      if o.Go? {
        next := ConnectOrUnlock(c, t, input);
      } else {
        c.wsLock := None;
        next := Done(false);
      }
    case Connecting(input, g, token) =>
      if o.Go? {
        var ws := Socket(nextId, g, token);
        c.InstallWs(ws, nextId + 1);
        next := GotSocket(input, ws);
      } else {
        next := if o == Status(401) then Clearing(Refused(g, token, true), End(false)) else Done(false);
      }
      c.wsLock := None;
    case SocketSending(ws) =>
      next := if o.Go? then Done(true) else if o.Fail? then InvalidateWaiting(ws) else Done(false);
  }

  method InvalidateSegment(c: SessionController, cfg: Config, t: TaskId, ghost h: History, pc: Pc, o: Outcome)
    returns (next: Pc)
    requires Ready(cfg, c, h, t, pc) && (pc.InvalidateWaiting? || pc.InvalidateClosing?)
    modifies c
    ensures var n := Resume(cfg, t, old(c.View()), h, pc, o);
            c.View() == n.sh && next == n.pc && c.cancelledHeartbeats == n.h.cancelledBeats
  {
    match pc
    case InvalidateWaiting(ws) =>
      if o.Fail? || o.Cancelled? {
        return Done(false);
      }
      if !o.Go? || c.wsLock.Some? {
        return pc;
      }
      c.ForgetFailedWs(ws);
      if o.closed {
        return Done(false);
      }
      c.wsLock := Some(t);
      next := InvalidateClosing(ws);
    case InvalidateClosing(ws) =>
      c.wsLock := None;
      next := Done(false);
  }

  method CloseSegment(c: SessionController, cfg: Config, t: TaskId, ghost h: History, pc: Pc, o: Outcome)
    returns (next: Pc)
    requires Ready(cfg, c, h, t, pc)
    requires pc.CloseWaiting? || pc.CloseClosing? || pc.Handshaking? || pc.Done?
    modifies c
    ensures var n := Resume(cfg, t, old(c.View()), h, pc, o);
            c.View() == n.sh && next == n.pc && c.cancelledHeartbeats == n.h.cancelledBeats
  {
    match pc
    case CloseWaiting =>
      if o.Fail? || o.Cancelled? {
        return Done(false);
      }
      if !o.Go? || c.wsLock.Some? {
        return pc;
      }
      var ws := c.DetachWs();
      if ws.Some? && !o.closed {
        c.wsLock := Some(t);
        return CloseClosing(ws.value);
      }
      next := Done(true);
    case CloseClosing(ws) =>
      c.wsLock := None;
      next := Done(o.Go?);
    case Handshaking(g, token) =>
      next := if o == Status(401) then Clearing(Refused(g, token, true), End(false)) else Done(o.Go?);
    case Done(ok) =>
      next := pc;
  }

  method Segment(c: SessionController, cfg: Config, t: TaskId, ghost h: History, nextId: nat, pc: Pc, o: Outcome)
    returns (next: Pc)
    requires Ready(cfg, c, h, t, pc) && nextId == h.nextId
    modifies c
    ensures var n := Resume(cfg, t, old(c.View()), h, pc, o);
            c.View() == n.sh && next == n.pc && c.cancelledHeartbeats == n.h.cancelledBeats
  {
    if ForLogin(pc) {
      next := LoginSegment(c, cfg, t, h, nextId, pc, o);
    } else if pc.Exiting? {
      next := ExitSegment(c, cfg, t, h, pc, o);
    } else if ForRequest(pc) {
      next := RequestSegment(c, cfg, t, h, pc, o);
    } else if pc.SocketWaiting? || pc.StaleClosing? || pc.Connecting? || pc.SocketSending? {
      next := SocketSegment(c, cfg, t, h, nextId, pc, o);
    } else if pc.InvalidateWaiting? || pc.InvalidateClosing? {
      next := InvalidateSegment(c, cfg, t, h, pc, o);
    } else {
      next := CloseSegment(c, cfg, t, h, pc, o);
    }
  }

  /** The first segment of an operation, up to its first await. */
  method FirstSegment(c: SessionController, op: Op) returns (next: Pc)
    modifies c`credentials
    ensures BeginOp(old(c.View()), op) == (c.View(), next)
  {
    match op
    case Authenticate(u, p) =>
      c.credentials := None;
      next := LoginClearing(Login(None, u, p));
    case Reauthenticate =>
      var used := c.credentials;
      next := if used.None? then Done(false) else LoginClearing(Login(used, used.value.username, used.value.password));
    case Logout =>
      c.credentials := None;
      next := if Usable(c.token) && c.token != Some("disabled") then Sent(LogoutPost, c.sessionGeneration, c.token.value)
              else Clearing(LoggedOut(c.sessionGeneration), End(true));
    case Request(expected) => next := BeginRequest(c.View(), Endpoint, expected);
    case DetectHardware => next := BeginRequest(c.View(), Hardware, None);
    case DetectVersions => next := BeginRequest(c.View(), Versions, None);
    case ChangePassword(u, current) =>
      var generation := c.sessionGeneration;
      c.credentials := None;
      next := BeginChange(c.View(), PasswordCall(generation, u, current));
    case GetSocket => next := SocketWaiting(false);
    case SendInput => next := SocketWaiting(true);
    case OpenSocket => next := if Usable(c.token) then Handshaking(c.sessionGeneration, c.token.value) else Done(false);
    case CloseSocket(exiting) =>
      if exiting {
        c.credentials := None;
      }
      next := CloseWaiting;
  }

  /** How many object identities a step uses up. */
  function Fresh(before: Pc, o: Outcome, after: Pc): nat {
    if before.LoginSent? && after == Done(true) then 1
    else if before.Connecting? && o.Go? then 2
    else 0
  }

  lemma FreshIds(cfg: Config, t: TaskId, sh: Shared, h: History, pc: Pc, o: Outcome)
    ensures var n := Resume(cfg, t, sh, h, pc, o); n.h.nextId == h.nextId + Fresh(pc, o, n.pc)
  {
  }

  /** The state and the tasks after a schedule, the class's fields having been updated in place throughout. */
  method Run(cfg: Config, schedule: seq<Event>) returns (c: SessionController, tasks: map<TaskId, Pc>)
    ensures fresh(c) && c.Valid()
    ensures c.View() == Reached(cfg, schedule).sh && tasks == Reached(cfg, schedule).tasks
    ensures c.cancelledHeartbeats == Reached(cfg, schedule).h.cancelledBeats
  {
    c := new SessionController(cfg.token, cfg.obfuscation);
    tasks := map[];
    var nextId := 0;
    assert schedule[..0] == [];
    for i := 0 to |schedule|
      invariant fresh(c)
      invariant var s := Reached(cfg, schedule[..i]);
                c.View() == s.sh && tasks == s.tasks && nextId == s.h.nextId && c.cancelledHeartbeats == s.h.cancelledBeats
    {
      CutAt(schedule, i);
      ghost var s := Reached(cfg, schedule[..i]);
      ReachedInv(cfg, schedule[..i]);
      ReachedTraced(cfg, schedule[..i]);
      tasks, nextId := OneEvent(c, cfg, s, tasks, nextId, schedule[i]);
    }
    TakeAll(schedule);
    ReachedInv(cfg, schedule);
  }

  method OneEvent(c: SessionController, cfg: Config, ghost s: State, tasks0: map<TaskId, Pc>, nextId0: nat, e: Event)
    returns (tasks: map<TaskId, Pc>, nextId: nat)
    requires c.View() == s.sh && tasks0 == s.tasks && nextId0 == s.h.nextId && c.cancelledHeartbeats == s.h.cancelledBeats
    requires Inv(cfg, s) && (forall t :: t in s.h.logs <==> t in s.tasks)
    modifies c
    ensures var s' := Step(cfg, s, e);
            c.View() == s'.sh && tasks == s'.tasks && nextId == s'.h.nextId && c.cancelledHeartbeats == s'.h.cancelledBeats
  {
    tasks, nextId := tasks0, nextId0;
    match e
    case Call(t, op) =>
      if t !in tasks {
        var pc := FirstSegment(c, op);
        tasks := tasks[t := pc];
      }
    case Run(t, o) =>
      if t in tasks {
        var pc := tasks[t];
        assert TaskOk(s.sh, s.h, t, pc);
        var next := Segment(c, cfg, t, s.h, nextId, pc, o);
        FreshIds(cfg, t, s.sh, s.h, pc, o);
        tasks, nextId := tasks[t := next], nextId + Fresh(pc, o, next);
      }
  }
}
