/**
 The tasks of one NanoKVM session (nanokvm/components/session.py) as a step machine. A task's program counter is
 the await it is suspended at, with the local variables that outlive it; one step runs a task to its next await.
 The environment chooses which task runs and what its await delivers.
 */
module SessionTasks {
  import opened Common
  import opened Text
  import opened Version
  import opened SessionState

  datatype Op =
    | Authenticate(username: string, password: string)
    | Reauthenticate
    | Logout
    | Request(expected: Option<nat>)
    | DetectHardware
    | DetectVersions
    | ChangePassword(account: string, current: Option<string>)
    | GetSocket
    | SendInput
    | OpenSocket
    | CloseSocket(exiting: bool)

  /** A login: `used` are the kept credentials of `reauthenticate`, None for `authenticate`. */
  datatype Login = Login(used: Option<Credentials>, username: string, password: string)

  /** A password change: `start` is the generation captured at its beginning. */
  datatype PasswordCall = PasswordCall(start: nat, username: string, current: Option<string>)

  /** What an authenticated request is for. */
  datatype Use =
    | Endpoint
    | Hardware
    | Versions
    | LogoutPost
    | HardwareFor(call: PasswordCall)
    | VersionsFor(call: PasswordCall)
    | AccountFor(call: PasswordCall)
    | PasswordPost(call: PasswordCall)
    | LegacyPost(call: PasswordCall)

  /** Why `clear_local_session(expected_generation=...)` is called; `generation` is the expected one. */
  datatype Cause =
    | Refused(generation: nat, token: string, handshake: bool)
    | LoggedOut(generation: nat)
    | PasswordChanged(generation: nat)

  /** What follows the clear. */
  datatype After = End(ok: bool) | LogoutFinally(start: nat)

  datatype Pc =
    | LoginClearing(login: Login)
    | LoginClosing(login: Login, generation: nat)
    | LoginSent(login: Login, generation: nat, obfuscate: bool, more: seq<bool>)
    | Sent(use: Use, generation: nat, token: string)
    | Reading(use: Use, generation: nat, token: string)
    | Exiting(use: Use, generation: nat, token: string, payload: Payload)
    | Clearing(cause: Cause, after: After)
    | Closing(cause: Cause, after: After)
    | SocketWaiting(input: bool)
    | StaleClosing(input: bool)
    | Connecting(input: bool, generation: nat, token: string)
    | SocketSending(ws: Socket)
    | InvalidateWaiting(ws: Socket)
    | InvalidateClosing(ws: Socket)
    | CloseWaiting
    | CloseClosing(ws: Socket)
    | Handshaking(generation: nat, token: string)
    | Done(ok: bool)

  /** The device's reply to a login, once decoded. */
  datatype Reply = Unsuccessful | WrongPassword | Granted(cookie: string, data: Option<Option<string>>)

  datatype Payload = NoData | ApiError | Account(username: string) | HardwareIs(pro: bool) | VersionIs(application: string)

  /**
   What an await delivers. `Go` is completion, with whether the WebSocket looked at is closed; `Fail` a transport
   error; `Cancelled` a cancellation; `Status` a response or handshake status.
   */
  datatype Outcome =
    | Go(closed: bool)
    | Fail
    | Cancelled
    | Status(code: nat)
    | LoginReply(reply: Reply)
    | Body(payload: Payload)

  /** One run of the locked part of `clear_local_session`; it begins the next generation. A login has no cause. */
  datatype Clear = Clear(task: TaskId, cause: Option<Cause>)

  /** A login's one write: its token, the mode that worked, and the credentials kept with it. */
  datatype TokenWrite = TokenWrite(generation: nat, task: TaskId, token: string, obfuscate: bool, kept: Option<Credentials>)

  /** A response accepted by its exit check at generation `at`, having been sent with `token` in `sent`. */
  datatype Acceptance = Acceptance(task: TaskId, use: Use, sent: nat, token: string, at: nat)

  /** An authenticated request or handshake that was sent. */
  datatype Sending = Sending(generation: nat, token: string, handshake: bool)

  /** What a password change saw when it looked at the hardware, and at the version. */
  datatype Decision = Decision(isPro: Option<bool>, version: Option<string>)

  /** What one task has done so far, as an observer sees it. `legacy` are the generations of its other password POSTs. */
  datatype TaskLog = TaskLog(
    op: Op,
    sent: set<Sending>,
    refused: set<Sending>,
    accepted: set<Acceptance>,
    tries: seq<bool>,
    wrote: set<TokenWrite>,
    cleared: set<nat>,
    decided: Option<Decision>,
    legacy: set<nat>,
    gaveUp: bool)

  /** A current-password POST with the account name checked before it and the token that check used. */
  datatype Posted = Posted(task: TaskId, start: nat, generation: nat, token: string,
                           username: string, checkedToken: string, checkedName: string)

  /** What has happened: generation `g + 1` was begun by `clears[g]`. */
  datatype History = History(
    clears: seq<Clear>,
    writes: seq<TokenWrite>,
    accepted: seq<Acceptance>,
    posts: seq<Posted>,
    started: map<TaskId, nat>,
    beats: set<nat>,
    cancelledBeats: set<nat>,
    closes: set<Socket>,
    nextId: nat,
    logs: map<TaskId, TaskLog>,
    rejected: set<Credentials>)

  datatype Config = Config(token: Option<string>, obfuscation: Option<bool>, keepCredentials: bool)

  datatype Next = Next(sh: Shared, h: History, pc: Pc)

  // ------------------------------------------------------------- segments

  function WithDetach(sh: Shared, h: History): History {
    if sh.heartbeat.Some? then h.(cancelledBeats := h.cancelledBeats + {sh.heartbeat.value}) else h
  }

  function WithClose(h: History, ws: Option<Socket>, closed: bool): History {
    if ws.Some? && !closed then h.(closes := h.closes + {ws.value}) else h
  }

  /** The locked part of `clear_local_session` and the start of the close that follows it. */
  function Clears(t: TaskId, sh: Shared, h: History, cause: Option<Cause>, closed: bool): (Shared, History) {
    (Cleared(sh), WithClose(WithDetach(sh, h), sh.ws, closed).(clears := h.clears + [Clear(t, cause)]))
  }

  function Unlocked(sh: Shared): Shared {
    sh.(lock := None)
  }

  /** Where an exception leaves an authenticated request: the `finally` of `logout`, or the end. */
  function Raised(use: Use, generation: nat): Pc {
    if use.LogoutPost? then Clearing(LoggedOut(generation), End(false)) else Done(false)
  }

  /** `request`: check the expected generation, capture the current one, and send with the current token. */
  function BeginRequest(sh: Shared, use: Use, expected: Option<nat>): Pc {
    if expected.Some? && expected.value != sh.generation then Done(false)
    else if !Usable(sh.token) then Done(false)
    else Sent(use, sh.generation, sh.token.value)
  }

  /** The part of `change_password` for firmware without the current-password contract. */
  function BeginLegacy(sh: Shared, call: PasswordCall): Pc {
    if sh.obfuscation.None? then Done(false) else BeginRequest(sh, LegacyPost(call), Some(call.start))
  }

  predicate Blank(s: Option<string>) {
    s.None? || Strip(s.value) == ""
  }

  /** `change_password` once the application version is known. */
  function AfterVersions(sh: Shared, call: PasswordCall): Pc {
    match UsesCurrentPassword(sh.version.GetOr(""))
    case None => Done(false)
    case Some(false) => BeginLegacy(sh, call)
    case Some(true) => if Blank(call.current) then Done(false) else BeginRequest(sh, AccountFor(call), None)
  }

  /** `change_password` once the hardware is known. */
  function AfterHardware(sh: Shared, call: PasswordCall): Pc {
    if sh.isPro == Some(true) then BeginLegacy(sh, call)
    else if sh.version.Some? then AfterVersions(sh, call)
    else BeginRequest(sh, VersionsFor(call), None)
  }

  function BeginChange(sh: Shared, call: PasswordCall): Pc {
    if sh.isPro.Some? then AfterHardware(sh, call) else BeginRequest(sh, HardwareFor(call), None)
  }

  function BeginOp(sh: Shared, op: Op): (Shared, Pc) {
    match op
    case Authenticate(u, p) => (sh.(credentials := None), LoginClearing(Login(None, u, p)))
    case Reauthenticate =>
      (sh, if sh.credentials.None? then Done(false)
           else LoginClearing(Login(sh.credentials, sh.credentials.value.username, sh.credentials.value.password)))
    case Logout =>
      (sh.(credentials := None),
       if Usable(sh.token) && sh.token != Some("disabled") then Sent(LogoutPost, sh.generation, sh.token.value)
       else Clearing(LoggedOut(sh.generation), End(true)))
    case Request(expected) => (sh, BeginRequest(sh, Endpoint, expected))
    case DetectHardware => (sh, BeginRequest(sh, Hardware, None))
    case DetectVersions => (sh, BeginRequest(sh, Versions, None))
    case ChangePassword(u, current) =>
      (sh.(credentials := None), BeginChange(sh.(credentials := None), PasswordCall(sh.generation, u, current)))
    case GetSocket => (sh, SocketWaiting(false))
    case SendInput => (sh, SocketWaiting(true))
    case OpenSocket =>
      (sh, if Usable(sh.token) then Handshaking(sh.generation, sh.token.value) else Done(false))
    case CloseSocket(exiting) => (if exiting then sh.(credentials := None) else sh, CloseWaiting)
  }

  // ---------------------------------------------------------------- login

  function ClearForLogin(t: TaskId, sh: Shared, h: History, login: Login, o: Outcome): Next {
    if o.Fail? || o.Cancelled? then Next(sh, h, Done(false))
    else if !o.Go? || sh.lock.Some? then Next(sh, h, LoginClearing(login))
    else
      var (sh1, h1) := Clears(t, sh, h, None, o.closed);
      Next(sh1, h1, LoginClosing(login, sh1.generation))
  }

  /** `modes = (True, False) if forced is None else (forced,)`. */
  function Modes(forced: Option<bool>): seq<bool> {
    if forced.None? then [true, false] else [forced.value]
  }

  function SendLogin(sh: Shared, h: History, login: Login, generation: nat, o: Outcome): Next {
    if !o.Go? || generation != sh.generation then Next(sh, h, Done(false))
    else
      var modes := Modes(sh.obfuscation);
      Next(sh, h, LoginSent(login, generation, modes[0], modes[1..]))
  }

  /** The token of an accepted login: the cookie's, else the payload's; None when it is missing or malformed. */
  function GrantedToken(cookie: string, data: Option<Option<string>>): Option<string> {
    if Strip(cookie) != "" then Some(Strip(cookie))
    else if data.Some? && data.value.Some? && Strip(data.value.value) != "" then Some(Strip(data.value.value))
    else None
  }

  function EndLogin(cfg: Config, t: TaskId, sh: Shared, h: History, login: Login, generation: nat,
                    obfuscate: bool, more: seq<bool>, o: Outcome): Next
  {
    if !o.LoginReply? || generation != sh.generation then Next(sh, h, Done(false))
    else
      match o.reply
      case Unsuccessful => Next(sh, h, Done(false))
      case WrongPassword =>
        if more == [] then Next(Rejected(sh, login.used), h, Done(false))
        else Next(sh, h, LoginSent(login, generation, more[0], more[1..]))
      case Granted(cookie, data) =>
        var token := GrantedToken(cookie, data);
        if token.None? then Next(sh, h, Done(false))
        else
          var kept := if login.used.None? && cfg.keepCredentials
                      then Some(Credentials(h.nextId, login.username, login.password)) else None;
          Next(LoggedIn(sh, token.value, obfuscate, kept),
               h.(writes := h.writes + [TokenWrite(generation, t, token.value, obfuscate, kept)], nextId := h.nextId + 1),
               Done(true))
  }

  // ------------------------------------------------- authenticated requests

  function OnStatus(sh: Shared, h: History, use: Use, generation: nat, token: string, o: Outcome): Next {
    if !o.Status? || generation != sh.generation then Next(sh, h, Raised(use, generation))
    else if o.code == 401 then
      Next(sh, h, Clearing(Refused(generation, token, false), if use.LogoutPost? then LogoutFinally(generation) else End(false)))
    else if o.code == 404 && use.LogoutPost? then Next(sh, h, Clearing(LoggedOut(generation), End(true)))
    else if o.code >= 400 then Next(sh, h, Raised(use, generation))
    else Next(sh, h, Reading(use, generation, token))
  }

  /** After a successful response's context has been left: the generation may have moved since its exit check. */
  function OnPayload(t: TaskId, sh: Shared, h: History, use: Use, generation: nat, token: string, p: Payload): Next {
    match use
    case Endpoint => Next(sh, h, Done(true))
    case Hardware => if p.HardwareIs? then Next(sh.(isPro := Some(p.pro)), h, Done(true)) else Next(sh, h, Done(false))
    case Versions =>
      if p.VersionIs? then Next(sh.(version := Some(p.application)), h, Done(true)) else Next(sh, h, Done(false))
    case LogoutPost => Next(sh, h, Clearing(LoggedOut(generation), End(true)))
    case HardwareFor(call) =>
      if p.HardwareIs? then Next(sh.(isPro := Some(p.pro)), h, AfterHardware(sh.(isPro := Some(p.pro)), call))
      else Next(sh, h, Done(false))
    case VersionsFor(call) =>
      if p.VersionIs? then
        Next(sh.(version := Some(p.application)), h, AfterVersions(sh.(version := Some(p.application)), call))
      else Next(sh, h, Done(false))
    case AccountFor(call) =>
      if !p.Account? || call.start != sh.generation || p.username != call.username then Next(sh, h, Done(false))
      else
        var pc := BeginRequest(sh, PasswordPost(call), Some(call.start));
        if !pc.Sent? then Next(sh, h, pc)
        else
          Next(sh, h.(posts := h.posts + [Posted(t, call.start, pc.generation, pc.token, call.username, token, p.username)]), pc)
    case PasswordPost(call) => Next(sh, h, Clearing(PasswordChanged(call.start), End(true)))
    case LegacyPost(call) => Next(sh, h, Done(true))
  }

  /** The exit check of a response whose body has been read. */
  function OnBody(t: TaskId, sh: Shared, h: History, use: Use, generation: nat, token: string, o: Outcome): Next {
    if !o.Body? || generation != sh.generation then Next(sh, h, Raised(use, generation))
    else
      Next(sh, h.(accepted := h.accepted + [Acceptance(t, use, generation, token, sh.generation)]),
           Exiting(use, generation, token, o.payload))
  }

  /** Leaving the response's context, then reading the envelope. */
  function OnExit(t: TaskId, sh: Shared, h: History, use: Use, generation: nat, token: string, p: Payload, o: Outcome): Next {
    if !o.Go? || p.ApiError? then Next(sh, h, Raised(use, generation))
    else OnPayload(t, sh, h, use, generation, token, p)
  }

  // ------------------------------------------- clear_local_session(expected)

  function AfterClear(after: After): Pc {
    match after
    case End(ok) => Done(ok)
    case LogoutFinally(start) => Clearing(LoggedOut(start), End(false))
  }

  function ClearIfCurrent(t: TaskId, sh: Shared, h: History, cause: Cause, after: After, o: Outcome): Next {
    if o.Fail? || o.Cancelled? then Next(sh, h, if after.End? then Done(false) else AfterClear(after))
    else if !o.Go? || sh.lock.Some? then Next(sh, h, Clearing(cause, after))
    else if cause.generation != sh.generation then Next(sh, h, Closing(cause, after))
    else
      var (sh1, h1) := Clears(t, sh, h, Some(cause), o.closed);
      Next(sh1, h1, Closing(cause, after))
  }

  function EndClear(sh: Shared, h: History, after: After, o: Outcome): Next {
    Next(sh, h, if o.Go? || after.LogoutFinally? then AfterClear(after) else Done(false))
  }

  // ------------------------------------------------------- the shared WebSocket

  /** With the lock held and no WebSocket: read the token and start the handshake, or give up the lock. */
  function Connect(t: TaskId, sh: Shared, h: History, input: bool): Next {
    if !Usable(sh.token) then Next(Unlocked(sh), h, Done(false))
    else Next(sh.(lock := Some(t)), h, Connecting(input, sh.generation, sh.token.value))
  }

  function GotSocket(input: bool, ws: Socket): Pc {
    if input then SocketSending(ws) else Done(true)
  }

  function AcquireSocket(t: TaskId, sh: Shared, h: History, input: bool, o: Outcome): Next {
    if o.Fail? || o.Cancelled? then Next(sh, h, Done(false))
    else if !o.Go? || sh.lock.Some? then Next(sh, h, SocketWaiting(input))
    else if sh.ws.Some? && !o.closed then Next(sh, h, GotSocket(input, sh.ws.value))
    else if sh.ws.Some? then
      Next(Detached(sh).(lock := Some(t)), WithClose(WithDetach(sh, h), sh.ws, false), StaleClosing(input))
    else Connect(t, Detached(sh), WithDetach(sh, h), input)
  }

  function AfterStale(t: TaskId, sh: Shared, h: History, input: bool, o: Outcome): Next {
    if o.Go? then Connect(t, sh, h, input) else Next(Unlocked(sh), h, Done(false))
  }

  function EndConnect(sh: Shared, h: History, input: bool, generation: nat, token: string, o: Outcome): Next {
    if o.Status? && o.code == 401 then Next(Unlocked(sh), h, Clearing(Refused(generation, token, true), End(false)))
    else if !o.Go? then Next(Unlocked(sh), h, Done(false))
    else
      var ws := Socket(h.nextId, generation, token);
      Next(Unlocked(Installed(sh, ws, h.nextId + 1)),
           h.(beats := h.beats + {h.nextId + 1}, nextId := h.nextId + 2), GotSocket(input, ws))
  }

  function EndSend(sh: Shared, h: History, ws: Socket, o: Outcome): Next {
    Next(sh, h, if o.Go? then Done(true) else if o.Fail? then InvalidateWaiting(ws) else Done(false))
  }

  /** `invalidate_ws`: forget the failed WebSocket only if it is still the shared one; close it if it is open. */
  function Invalidate(t: TaskId, sh: Shared, h: History, ws: Socket, o: Outcome): Next {
    if o.Fail? || o.Cancelled? then Next(sh, h, Done(false))
    else if !o.Go? || sh.lock.Some? then Next(sh, h, InvalidateWaiting(ws))
    else
      var mine := sh.ws == Some(ws);
      var sh1 := if mine then Detached(sh) else sh;
      var h1 := if mine then WithDetach(sh, h) else h;
      if o.closed then Next(sh1, h1, Done(false))
      else Next(sh1.(lock := Some(t)), WithClose(h1, Some(ws), false), InvalidateClosing(ws))
  }

  function CloseShared(t: TaskId, sh: Shared, h: History, o: Outcome): Next {
    if o.Fail? || o.Cancelled? then Next(sh, h, Done(false))
    else if !o.Go? || sh.lock.Some? then Next(sh, h, CloseWaiting)
    else if sh.ws.Some? && !o.closed then
      Next(Detached(sh).(lock := Some(t)), WithClose(WithDetach(sh, h), sh.ws, false), CloseClosing(sh.ws.value))
    else Next(Detached(sh), WithDetach(sh, h), Done(true))
  }

  function EndHandshake(sh: Shared, h: History, generation: nat, token: string, o: Outcome): Next {
    if o.Status? && o.code == 401 then Next(sh, h, Clearing(Refused(generation, token, true), End(false)))
    else Next(sh, h, Done(o.Go?))
  }

  // ---------------------------------------------------------------- machine

  /** Run task `t`, suspended at `pc`, to its next await. A task waiting for a held lock stays where it is. */
  function Resume(cfg: Config, t: TaskId, sh: Shared, h: History, pc: Pc, o: Outcome): Next {
    match pc
    case LoginClearing(login) => ClearForLogin(t, sh, h, login, o)
    case LoginClosing(login, g) => SendLogin(sh, h, login, g, o)
    case LoginSent(login, g, obfuscate, more) => EndLogin(cfg, t, sh, h, login, g, obfuscate, more, o)
    case Sent(use, g, token) => OnStatus(sh, h, use, g, token, o)
    case Reading(use, g, token) => OnBody(t, sh, h, use, g, token, o)
    case Exiting(use, g, token, p) => OnExit(t, sh, h, use, g, token, p, o)
    case Clearing(cause, after) => ClearIfCurrent(t, sh, h, cause, after, o)
    case Closing(cause, after) => EndClear(sh, h, after, o)
    case SocketWaiting(input) => AcquireSocket(t, sh, h, input, o)
    case StaleClosing(input) => AfterStale(t, sh, h, input, o)
    case Connecting(input, g, token) => EndConnect(sh, h, input, g, token, o)
    case SocketSending(ws) => EndSend(sh, h, ws, o)
    case InvalidateWaiting(ws) => Invalidate(t, sh, h, ws, o)
    case InvalidateClosing(ws) => Next(Unlocked(sh), h, Done(false))
    case CloseWaiting => CloseShared(t, sh, h, o)
    case CloseClosing(ws) => Next(Unlocked(sh), h, Done(o.Go?))
    case Handshaking(g, token) => EndHandshake(sh, h, g, token, o)
    case Done(ok) => Next(sh, h, pc)
  }

  // -------------------------------------------------------------- the observer

  /** What a task that now waits at `pc` has just sent or decided; `sh` is the state it left behind. */
  function Note(log: TaskLog, sh: Shared, pc: Pc): TaskLog {
    match pc
    case Sent(use, g, token) =>
      log.(sent := log.sent + {Sending(g, token, false)}, decided := Decided(log, sh, use),
           legacy := log.legacy + if use.LegacyPost? then {g} else {})
    case Connecting(_, g, token) => log.(sent := log.sent + {Sending(g, token, true)})
    case Handshaking(g, token) => log.(sent := log.sent + {Sending(g, token, true)})
    case LoginSent(_, _, obfuscate, _) => log.(tries := log.tries + [obfuscate])
    case _ => log
  }

  /** A change that asks for the version has looked at the hardware; one that goes on has looked at both. */
  function Decided(log: TaskLog, sh: Shared, use: Use): Option<Decision> {
    match use
    case VersionsFor(_) => Some(Decision(sh.isPro, None))
    case AccountFor(_) => Some(Decision(if log.decided.Some? then log.decided.value.isPro else sh.isPro, sh.version))
    case LegacyPost(_) => Some(Decision(if log.decided.Some? then log.decided.value.isPro else sh.isPro, sh.version))
    case _ => log.decided
  }

  /** The request or handshake a task waits for. */
  function Awaited(pc: Pc): set<Sending> {
    match pc
    case Sent(_, g, token) => {Sending(g, token, false)}
    case Connecting(_, g, token) => {Sending(g, token, true)}
    case Handshaking(g, token) => {Sending(g, token, true)}
    case _ => {}
  }

  /** The log of a task after its step from `pc` on `o`, which took `h` to `n`. */
  function Observed(log: TaskLog, h: History, pc: Pc, o: Outcome, n: Next): TaskLog {
    Note(log.(
      refused := log.refused + (if o == Status(401) then Awaited(pc) else {}),
      accepted := log.accepted + (if |n.h.accepted| > |h.accepted| then {n.h.accepted[|h.accepted|]} else {}),
      wrote := log.wrote + (if |n.h.writes| > |h.writes| then {n.h.writes[|h.writes|]} else {}),
      cleared := log.cleared + (if |n.h.clears| > |h.clears| then {|h.clears|} else {}),
      gaveUp := log.gaveUp || (pc.Clearing? && n.pc.Done?)), n.sh, n.pc)
  }

  /** The kept credentials that the device rejects in this step, if any. */
  function RejectedNow(sh: Shared, pc: Pc, o: Outcome): set<Credentials> {
    if pc.LoginSent? && pc.generation == sh.generation && pc.more == [] && o == LoginReply(WrongPassword) && pc.login.used.Some?
    then {pc.login.used.value} else {}
  }

  function NewLog(op: Op): TaskLog {
    TaskLog(op, {}, {}, {}, [], {}, {}, None, {}, false)
  }

  // ----------------------------------------------------------------- all tasks

  datatype State = State(sh: Shared, h: History, tasks: map<TaskId, Pc>)

  /** The environment calls an operation in a new task, which runs to its first await, or resumes a suspended task. */
  datatype Event = Call(task: TaskId, op: Op) | Run(task: TaskId, outcome: Outcome)

  function Initial(cfg: Config): State {
    State(Shared(cfg.token, 0, None, cfg.obfuscation, None, None, None, None, None),
          History([], [], [], [], map[], {}, {}, {}, 0, map[], {}), map[])
  }

  function Step(cfg: Config, s: State, e: Event): State {
    match e
    case Call(t, op) =>
      if t in s.tasks then s
      else
        var (sh1, pc1) := BeginOp(s.sh, op);
        State(sh1, s.h.(started := s.h.started[t := s.sh.generation],
                        logs := s.h.logs[t := Note(NewLog(op), sh1, pc1)]), s.tasks[t := pc1])
    case Run(t, o) =>
      if t !in s.tasks || t !in s.h.logs then s
      else
        var pc := s.tasks[t];
        var n := Resume(cfg, t, s.sh, s.h, pc, o);
        State(n.sh, n.h.(logs := n.h.logs[t := Observed(s.h.logs[t], s.h, pc, o, n)],
                         rejected := n.h.rejected + RejectedNow(s.sh, pc, o)), s.tasks[t := n.pc])
  }

  /** The state after a schedule: every interleaving of every set of tasks is one. */
  function Reached(cfg: Config, schedule: seq<Event>): State {
    if schedule == [] then Initial(cfg)
    else Step(cfg, Reached(cfg, schedule[..|schedule| - 1]), schedule[|schedule| - 1])
  }
}
