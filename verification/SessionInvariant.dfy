/**
 The inductive invariant of the session's tasks. Each task's part is checked on its own step and is stable under
 every other task's step, because a step only does what `Guarantee` allows.
 */
module SessionInvariant {
  import opened Common
  import opened SessionState
  import opened SessionTasks

  // --------------------------------------------------------- shared invariant

  /** The login, if any, that owns a generation: its own unconditional clear began it. */
  predicate Owns(h: History, t: TaskId, generation: nat) {
    0 < generation <= |h.clears| && h.clears[generation - 1] == Clear(t, None)
  }

  /** Every clear of an expected generation happened in that generation. */
  predicate ClearsOnTime(h: History) {
    forall g :: 0 <= g < |h.clears| && h.clears[g].cause.Some? ==> h.clears[g].cause.value.generation == g
  }

  /** At most one token is written per generation, by the login that owns it. */
  predicate WritesOwned(h: History) {
    && (forall i :: 0 <= i < |h.writes| ==>
          h.writes[i].token != "" && Owns(h, h.writes[i].task, h.writes[i].generation))
    && (forall i, j :: 0 <= i < j < |h.writes| ==> h.writes[i].generation < h.writes[j].generation)
  }

  /** The current token: none, the constructor's in generation 0, or the one write of this generation. */
  predicate TokenOwned(cfg: Config, sh: Shared, h: History) {
    var n := |h.writes|;
    && (sh.token.None? ==> n == 0 || h.writes[n - 1].generation < sh.generation)
    && (sh.token.Some? && sh.generation == 0 ==> sh.token == cfg.token && n == 0)
    && (sh.token.Some? && sh.generation > 0 ==>
          n > 0 && h.writes[n - 1].generation == sh.generation && h.writes[n - 1].token == sh.token.value)
  }

  /** Kept credentials were kept by some login that wrote a token, and only if the client keeps credentials. */
  predicate CredentialsOwned(cfg: Config, sh: Shared, h: History) {
    && (forall i :: 0 <= i < |h.writes| && h.writes[i].kept.Some? ==> cfg.keepCredentials)
    && (sh.credentials.Some? ==> exists i :: 0 <= i < |h.writes| && h.writes[i].kept == sh.credentials)
  }

  predicate BeatsOwned(sh: Shared, h: History) {
    && (sh.heartbeat.Some? ==> sh.heartbeat.value in h.beats && sh.heartbeat.value !in h.cancelledBeats)
    && h.cancelledBeats <= h.beats
    && (forall b :: b in h.beats ==> b < h.nextId && (b in h.cancelledBeats || sh.heartbeat == Some(b)))
  }

  predicate ClosesOwned(sh: Shared, h: History) {
    && (forall ws :: ws in h.closes ==> ws.id < h.nextId)
    && (sh.ws.Some? ==> sh.ws.value.id < h.nextId && sh.ws.value !in h.closes)
  }

  predicate PostsChecked(sh: Shared, h: History) {
    forall i :: 0 <= i < |h.posts| ==>
      var p := h.posts[i];
      && p.generation == p.start && p.token == p.checkedToken && p.checkedName == p.username
      && p.task in h.started && h.started[p.task] == p.start
  }

  predicate AcceptedInTime(h: History) {
    forall i :: 0 <= i < |h.accepted| ==> h.accepted[i].sent == h.accepted[i].at
  }

  ghost predicate SharedOk(cfg: Config, sh: Shared, h: History) {
    && |h.clears| == sh.generation
    && ClearsOnTime(h)
    && WritesOwned(h)
    && TokenOwned(cfg, sh, h)
    && CredentialsOwned(cfg, sh, h)
    && SocketIsCurrent(sh)
    && BeatsOwned(sh, h)
    && ClosesOwned(sh, h)
    && PostsChecked(sh, h)
    && AcceptedInTime(h)
  }

  // ------------------------------------------------------------ task invariant

  /** The counters at which a task holds `_ws_lock` across an await. */
  predicate Holds(pc: Pc) {
    pc.StaleClosing? || pc.Connecting? || pc.InvalidateClosing? || pc.CloseClosing?
  }

  /** The counters at which a task waits for `_ws_lock`. */
  predicate Waits(pc: Pc) {
    pc.LoginClearing? || pc.Clearing? || pc.SocketWaiting? || pc.InvalidateWaiting? || pc.CloseWaiting?
  }

  /** A token captured in a generation is still that generation's token. */
  predicate Carries(sh: Shared, generation: nat, token: string) {
    && generation <= sh.generation && token != ""
    && (generation == sh.generation ==> sh.token == Some(token))
  }

  predicate LoginOk(sh: Shared, h: History, t: TaskId, generation: nat) {
    Owns(h, t, generation) && generation <= sh.generation && (generation == sh.generation ==> sh.token.None?)
  }

  predicate CallOk(h: History, t: TaskId, call: PasswordCall) {
    t in h.started && h.started[t] == call.start
  }

  predicate UseOk(h: History, t: TaskId, use: Use, generation: nat) {
    match use
    case HardwareFor(call) => CallOk(h, t, call)
    case VersionsFor(call) => CallOk(h, t, call)
    case AccountFor(call) => CallOk(h, t, call) && call.start <= generation
    case PasswordPost(call) => CallOk(h, t, call) && call.start == generation
    case LegacyPost(call) => CallOk(h, t, call) && call.start == generation
    case _ => true
  }

  predicate Reaches(sh: Shared, after: After) {
    after.LogoutFinally? ==> after.start <= sh.generation
  }

  predicate TaskOk(sh: Shared, h: History, t: TaskId, pc: Pc) {
    && t in h.started && h.started[t] <= sh.generation
    && (Holds(pc) <==> sh.lock == Some(t))
    && match pc {
         case LoginClosing(_, g) => LoginOk(sh, h, t, g)
         case LoginSent(_, g, _, _) => LoginOk(sh, h, t, g)
         case Sent(use, g, token) => Carries(sh, g, token) && UseOk(h, t, use, g)
         case Reading(use, g, token) => Carries(sh, g, token) && UseOk(h, t, use, g)
         case Exiting(use, g, token, _) => Carries(sh, g, token) && UseOk(h, t, use, g)
         case Clearing(cause, after) => cause.generation <= sh.generation && Reaches(sh, after)
         case Closing(cause, after) => cause.generation < sh.generation && Reaches(sh, after)
         case StaleClosing(_) => sh.ws.None?
         case Connecting(_, g, token) => Carries(sh, g, token) && g == sh.generation && sh.ws.None?
         case SocketSending(ws) => ws.id < h.nextId
         case InvalidateWaiting(ws) => ws.id < h.nextId
         case Handshaking(g, token) => Carries(sh, g, token)
         case _ => true
       }
  }

  ghost predicate Inv(cfg: Config, s: State) {
    && SharedOk(cfg, s.sh, s.h)
    && (forall t :: t in s.tasks ==> TaskOk(s.sh, s.h, t, s.tasks[t]))
    && (forall t :: t in s.h.started <==> t in s.tasks)
    && (s.sh.lock.Some? ==> s.sh.lock.value in s.tasks)
  }

  // ----------------------------------------------------------- what a step may do

  /** A step of task `t` never goes back, writes a token only as the generation's owner, and respects the lock. */
  predicate Guarantee(t: TaskId, sh: Shared, h: History, sh': Shared, h': History) {
    && sh.generation <= sh'.generation
    && h.clears <= h'.clears && h.writes <= h'.writes && h.posts <= h'.posts && h.accepted <= h'.accepted
    && h.started == h'.started && h.nextId <= h'.nextId
    && (sh'.generation == sh.generation && sh.token.Some? ==> sh'.token == sh.token)
    && (sh'.generation == sh.generation && sh.token.None? && sh'.token.Some? ==> Owns(h, t, sh.generation))
    && (sh.lock != Some(t) && sh.lock.Some? ==>
          sh'.lock == sh.lock && sh'.generation == sh.generation && sh'.ws == sh.ws && sh'.heartbeat == sh.heartbeat)
    && (sh'.lock == sh.lock || sh'.lock == Some(t) || sh'.lock.None?)
    && (forall i :: |h.posts| <= i < |h'.posts| ==> h'.posts[i].generation == sh.generation == sh'.generation)
    && (forall i :: |h.accepted| <= i < |h'.accepted| ==> h'.accepted[i].at == sh.generation == sh'.generation)
  }

  /** What another task may do does not break a task's own invariant. */
  lemma Stable(cfg: Config, t: TaskId, u: TaskId, sh: Shared, h: History, sh': Shared, h': History, pc: Pc)
    requires t != u && SharedOk(cfg, sh, h) && SharedOk(cfg, sh', h')
    requires TaskOk(sh, h, u, pc) && Guarantee(t, sh, h, sh', h')
    ensures TaskOk(sh', h', u, pc)
  {
  }

  /** What a task's own step must establish. */
  ghost predicate StepOk(cfg: Config, t: TaskId, sh: Shared, h: History, n: Next) {
    && SharedOk(cfg, n.sh, n.h) && TaskOk(n.sh, n.h, t, n.pc) && Guarantee(t, sh, h, n.sh, n.h)
    && (n.sh.lock.Some? ==> n.sh.lock == Some(t) || n.sh.lock == sh.lock)
  }

  // ------------------------------------------------------------ the segments

  /** A segment that changes no shared state: its new counter must be justified. */
  lemma Moves(cfg: Config, t: TaskId, sh: Shared, h: History, pc: Pc)
    requires SharedOk(cfg, sh, h) && TaskOk(sh, h, t, pc)
    ensures StepOk(cfg, t, sh, h, Next(sh, h, pc))
  {
  }

  lemma OwnershipGrows(h: History, h': History)
    requires WritesOwned(h) && h.clears <= h'.clears && h'.writes == h.writes
    ensures WritesOwned(h')
    ensures forall u, g :: Owns(h, u, g) ==> Owns(h', u, g)
  {
  }

  lemma ClearBookkeeping(sh: Shared, h: History, closed: bool)
    requires SocketIsCurrent(sh) && BeatsOwned(sh, h) && ClosesOwned(sh, h)
    ensures var h' := WithClose(WithDetach(sh, h), sh.ws, closed);
            BeatsOwned(Cleared(sh), h') && ClosesOwned(Cleared(sh), h')
  {
  }

  lemma ClearKeeps(cfg: Config, t: TaskId, sh: Shared, h: History, cause: Option<Cause>, closed: bool)
    requires SharedOk(cfg, sh, h) && sh.lock.None?
    requires cause.Some? ==> cause.value.generation == sh.generation
    ensures var (sh', h') := Clears(t, sh, h, cause, closed);
            && SharedOk(cfg, sh', h') && Guarantee(t, sh, h, sh', h')
            && (cause.None? ==> Owns(h', t, sh'.generation))
  {
    var (sh', h') := Clears(t, sh, h, cause, closed);
    OwnershipGrows(h, h');
    ClearBookkeeping(sh, h, closed);
    assert ClearsOnTime(h');
    assert TokenOwned(cfg, sh', h') by {
      assert forall i :: 0 <= i < |h.writes| ==> Owns(h, h.writes[i].task, h.writes[i].generation);
    }
  }

  lemma DetachKeeps(cfg: Config, t: TaskId, sh: Shared, h: History, close: Option<Socket>)
    requires SharedOk(cfg, sh, h) && (sh.lock.None? || sh.lock == Some(t))
    requires close.Some? ==> close.value.id < h.nextId
    ensures var sh', h' := Detached(sh), WithClose(WithDetach(sh, h), close, false);
            SharedOk(cfg, sh', h') && Guarantee(t, sh, h, sh', h')
  {
    OwnershipGrows(h, WithClose(WithDetach(sh, h), close, false));
    DetachBookkeeping(sh, h, close);
  }

  lemma DetachBookkeeping(sh: Shared, h: History, close: Option<Socket>)
    requires SocketIsCurrent(sh) && BeatsOwned(sh, h) && ClosesOwned(sh, h) && (close.Some? ==> close.value.id < h.nextId)
    ensures var h' := WithClose(WithDetach(sh, h), close, false);
            BeatsOwned(Detached(sh), h') && ClosesOwned(Detached(sh), h')
  {
  }

  lemma UnlockKeeps(cfg: Config, t: TaskId, sh: Shared, h: History)
    requires SharedOk(cfg, sh, h) && (sh.lock.None? || sh.lock == Some(t))
    ensures SharedOk(cfg, Unlocked(sh), h) && Guarantee(t, sh, h, Unlocked(sh), h)
    ensures SharedOk(cfg, sh.(lock := Some(t)), h) && Guarantee(t, sh, h, sh.(lock := Some(t)), h)
  {
  }

  /** A request begun now captures the current generation and its token. */
  lemma BegunRequest(sh: Shared, h: History, t: TaskId, use: Use, expected: Option<nat>)
    requires t in h.started && h.started[t] <= sh.generation && sh.lock != Some(t)
    requires UseOk(h, t, use, sh.generation)
    ensures TaskOk(sh, h, t, BeginRequest(sh, use, expected))
  {
  }

  lemma BegunLegacy(sh: Shared, h: History, t: TaskId, call: PasswordCall)
    requires t in h.started && h.started[t] <= sh.generation && sh.lock != Some(t) && CallOk(h, t, call)
    ensures TaskOk(sh, h, t, BeginLegacy(sh, call))
  {
  }

  lemma BegunChange(sh: Shared, h: History, t: TaskId, call: PasswordCall)
    requires t in h.started && h.started[t] <= sh.generation && sh.lock != Some(t) && CallOk(h, t, call)
    ensures TaskOk(sh, h, t, AfterVersions(sh, call))
    ensures TaskOk(sh, h, t, AfterHardware(sh, call))
    ensures TaskOk(sh, h, t, BeginChange(sh, call))
  {
    BegunLegacy(sh, h, t, call);
    BegunRequest(sh, h, t, AccountFor(call), None);
    BegunRequest(sh, h, t, VersionsFor(call), None);
    BegunRequest(sh, h, t, HardwareFor(call), None);
  }

  lemma BegunOp(cfg: Config, t: TaskId, sh: Shared, h: History, op: Op)
    requires t in h.started && h.started[t] == sh.generation && sh.lock != Some(t)
    ensures TaskOk(BeginOp(sh, op).0, h, t, BeginOp(sh, op).1)
  {
    match op
    case ChangePassword(u, current) =>
      BegunChange(sh.(credentials := None), h, t, PasswordCall(sh.generation, u, current));
    case Request(expected) => BegunRequest(sh, h, t, Endpoint, expected);
    case DetectHardware => BegunRequest(sh, h, t, Hardware, None);
    case DetectVersions => BegunRequest(sh, h, t, Versions, None);
    case _ =>
  }

  lemma CredentialsDropped(cfg: Config, t: TaskId, sh: Shared, h: History)
    requires SharedOk(cfg, sh, h)
    ensures var sh' := sh.(credentials := None); SharedOk(cfg, sh', h) && Guarantee(t, sh, h, sh', h)
  {
  }

  /** Beginning an operation at most drops the credentials. */
  lemma StepBegin(cfg: Config, t: TaskId, sh: Shared, h: History, op: Op)
    requires SharedOk(cfg, sh, h) && t in h.started && h.started[t] == sh.generation && sh.lock != Some(t)
    ensures var (sh', pc') := BeginOp(sh, op); StepOk(cfg, t, sh, h, Next(sh', h, pc'))
  {
    BegunOp(cfg, t, sh, h, op);
    CredentialsDropped(cfg, t, sh, h);
    assert BeginOp(sh, op).0 == sh || BeginOp(sh, op).0 == sh.(credentials := None);
  }

  lemma StepLoginClear(cfg: Config, t: TaskId, sh: Shared, h: History, login: Login, o: Outcome)
    requires SharedOk(cfg, sh, h) && TaskOk(sh, h, t, LoginClearing(login))
    ensures StepOk(cfg, t, sh, h, ClearForLogin(t, sh, h, login, o))
  {
    if o.Go? && sh.lock.None? {
      ClearKeeps(cfg, t, sh, h, None, o.closed);
    } else {
      Moves(cfg, t, sh, h, ClearForLogin(t, sh, h, login, o).pc);
    }
  }

  lemma StepSendLogin(cfg: Config, t: TaskId, sh: Shared, h: History, login: Login, g: nat, o: Outcome)
    requires SharedOk(cfg, sh, h) && TaskOk(sh, h, t, LoginClosing(login, g))
    ensures StepOk(cfg, t, sh, h, SendLogin(sh, h, login, g, o))
  {
    Moves(cfg, t, sh, h, SendLogin(sh, h, login, g, o).pc);
  }

  lemma GrantedTokenUsable(cookie: string, data: Option<Option<string>>)
    ensures GrantedToken(cookie, data) == None || Usable(GrantedToken(cookie, data))
  {
  }

  lemma CredentialsKept(cfg: Config, t: TaskId, sh: Shared, h: History, token: string, obfuscate: bool, kept: Option<Credentials>)
    requires CredentialsOwned(cfg, sh, h) && (kept.Some? ==> cfg.keepCredentials)
    ensures CredentialsOwned(cfg, LoggedIn(sh, token, obfuscate, kept),
              h.(writes := h.writes + [TokenWrite(sh.generation, t, token, obfuscate, kept)], nextId := h.nextId + 1))
  {
    var h' := h.(writes := h.writes + [TokenWrite(sh.generation, t, token, obfuscate, kept)], nextId := h.nextId + 1);
    assert h'.writes[|h.writes|].kept == kept;
    assert forall i :: 0 <= i < |h.writes| ==> h'.writes[i] == h.writes[i];
  }

  lemma WriteKeeps(cfg: Config, t: TaskId, sh: Shared, h: History, token: string, obfuscate: bool, kept: Option<Credentials>)
    requires SharedOk(cfg, sh, h) && LoginOk(sh, h, t, sh.generation) && token != ""
    requires kept.Some? ==> cfg.keepCredentials
    ensures var sh' := LoggedIn(sh, token, obfuscate, kept);
            var h' := h.(writes := h.writes + [TokenWrite(sh.generation, t, token, obfuscate, kept)], nextId := h.nextId + 1);
            SharedOk(cfg, sh', h') && Guarantee(t, sh, h, sh', h')
  {
    var h' := h.(writes := h.writes + [TokenWrite(sh.generation, t, token, obfuscate, kept)], nextId := h.nextId + 1);
    assert forall u, g :: Owns(h', u, g) <==> Owns(h, u, g);
    assert WritesOwned(h') by {
      assert forall i :: 0 <= i < |h.writes| ==> h'.writes[i] == h.writes[i] && h.writes[i].generation < sh.generation;
    }
    CredentialsKept(cfg, t, sh, h, token, obfuscate, kept);
  }

  lemma RejectKeeps(cfg: Config, t: TaskId, sh: Shared, h: History, used: Option<Credentials>)
    requires SharedOk(cfg, sh, h)
    ensures SharedOk(cfg, Rejected(sh, used), h) && Guarantee(t, sh, h, Rejected(sh, used), h)
  {
  }

  lemma StepWrites(cfg: Config, t: TaskId, sh: Shared, h: History, token: string, obfuscate: bool, kept: Option<Credentials>)
    requires SharedOk(cfg, sh, h) && LoginOk(sh, h, t, sh.generation) && token != "" && (kept.Some? ==> cfg.keepCredentials)
    requires t in h.started && h.started[t] <= sh.generation && sh.lock != Some(t)
    ensures var write := TokenWrite(sh.generation, t, token, obfuscate, kept);
            StepOk(cfg, t, sh, h, Next(LoggedIn(sh, token, obfuscate, kept),
                                       h.(writes := h.writes + [write], nextId := h.nextId + 1), Done(true)))
  {
    WriteKeeps(cfg, t, sh, h, token, obfuscate, kept);
  }

  lemma StepGranted(cfg: Config, t: TaskId, sh: Shared, h: History, login: Login,
                    obfuscate: bool, more: seq<bool>, cookie: string, data: Option<Option<string>>)
    requires SharedOk(cfg, sh, h) && TaskOk(sh, h, t, LoginSent(login, sh.generation, obfuscate, more))
    requires GrantedToken(cookie, data).Some?
    ensures StepOk(cfg, t, sh, h,
              EndLogin(cfg, t, sh, h, login, sh.generation, obfuscate, more, LoginReply(Granted(cookie, data))))
  {
    var token := GrantedToken(cookie, data).value;
    GrantedTokenUsable(cookie, data);
    var kept := if login.used.None? && cfg.keepCredentials
                then Some(Credentials(h.nextId, login.username, login.password)) else None;
    StepWrites(cfg, t, sh, h, token, obfuscate, kept);
  }

  lemma StepWrongPassword(cfg: Config, t: TaskId, sh: Shared, h: History, login: Login, obfuscate: bool, more: seq<bool>)
    requires SharedOk(cfg, sh, h) && TaskOk(sh, h, t, LoginSent(login, sh.generation, obfuscate, more))
    ensures StepOk(cfg, t, sh, h, EndLogin(cfg, t, sh, h, login, sh.generation, obfuscate, more, LoginReply(WrongPassword)))
  {
    if more == [] {
      RejectKeeps(cfg, t, sh, h, login.used);
    } else {
      Moves(cfg, t, sh, h, LoginSent(login, sh.generation, more[0], more[1..]));
    }
  }

  lemma StepEndLogin(cfg: Config, t: TaskId, sh: Shared, h: History, login: Login, g: nat,
                     obfuscate: bool, more: seq<bool>, o: Outcome)
    requires SharedOk(cfg, sh, h) && TaskOk(sh, h, t, LoginSent(login, g, obfuscate, more))
    ensures StepOk(cfg, t, sh, h, EndLogin(cfg, t, sh, h, login, g, obfuscate, more, o))
  {
    if !o.LoginReply? || g != sh.generation || o.reply.Unsuccessful? {
      Moves(cfg, t, sh, h, Done(false));
    } else if o.reply.WrongPassword? {
      StepWrongPassword(cfg, t, sh, h, login, obfuscate, more);
    } else if GrantedToken(o.reply.cookie, o.reply.data).None? {
      Moves(cfg, t, sh, h, Done(false));
    } else {
      StepGranted(cfg, t, sh, h, login, obfuscate, more, o.reply.cookie, o.reply.data);
    }
  }

  lemma StepStatus(cfg: Config, t: TaskId, sh: Shared, h: History, use: Use, g: nat, token: string, o: Outcome)
    requires SharedOk(cfg, sh, h) && TaskOk(sh, h, t, Sent(use, g, token))
    ensures StepOk(cfg, t, sh, h, OnStatus(sh, h, use, g, token, o))
  {
    Moves(cfg, t, sh, h, OnStatus(sh, h, use, g, token, o).pc);
  }

  lemma AcceptKeeps(cfg: Config, t: TaskId, sh: Shared, h: History, use: Use, token: string)
    requires SharedOk(cfg, sh, h)
    ensures var h' := h.(accepted := h.accepted + [Acceptance(t, use, sh.generation, token, sh.generation)]);
            SharedOk(cfg, sh, h') && Guarantee(t, sh, h, sh, h')
  {
    var h' := h.(accepted := h.accepted + [Acceptance(t, use, sh.generation, token, sh.generation)]);
    assert forall u, g :: Owns(h', u, g) <==> Owns(h, u, g);
  }

  lemma PostKeeps(cfg: Config, t: TaskId, sh: Shared, h: History, call: PasswordCall, name: string)
    requires SharedOk(cfg, sh, h) && CallOk(h, t, call) && call.start == sh.generation && Usable(sh.token)
    requires name == call.username
    ensures var p := Posted(t, call.start, sh.generation, sh.token.value, call.username, sh.token.value, name);
            var h' := h.(posts := h.posts + [p]);
            SharedOk(cfg, sh, h') && Guarantee(t, sh, h, sh, h')
  {
    var p := Posted(t, call.start, sh.generation, sh.token.value, call.username, sh.token.value, name);
    var h' := h.(posts := h.posts + [p]);
    assert forall u, g :: Owns(h', u, g) <==> Owns(h, u, g);
  }

  lemma SetDeviceKeeps(cfg: Config, t: TaskId, sh: Shared, h: History, pro: Option<bool>, version: Option<string>)
    requires SharedOk(cfg, sh, h)
    ensures var sh' := sh.(isPro := pro, version := version); SharedOk(cfg, sh', h) && Guarantee(t, sh, h, sh', h)
  {
  }

  lemma StepPayload(cfg: Config, t: TaskId, sh: Shared, h: History, use: Use, g: nat, token: string, p: Payload)
    requires SharedOk(cfg, sh, h) && TaskOk(sh, h, t, Exiting(use, g, token, p))
    ensures StepOk(cfg, t, sh, h, OnPayload(t, sh, h, use, g, token, p))
  {
    match use
    case Hardware => StepDetected(cfg, t, sh, h, use, g, token, p);
    case Versions => StepDetected(cfg, t, sh, h, use, g, token, p);
    case HardwareFor(call) => StepHardware(cfg, t, sh, h, call, g, token, p);
    case VersionsFor(call) => StepVersions(cfg, t, sh, h, call, g, token, p);
    case AccountFor(call) => StepAccount(cfg, t, sh, h, call, g, token, p);
    case _ => StepFinished(cfg, t, sh, h, use, g, token, p);
  }

  lemma StepFinished(cfg: Config, t: TaskId, sh: Shared, h: History, use: Use, g: nat, token: string, p: Payload)
    requires SharedOk(cfg, sh, h) && TaskOk(sh, h, t, Exiting(use, g, token, p))
    requires use.Endpoint? || use.LogoutPost? || use.PasswordPost? || use.LegacyPost?
    ensures StepOk(cfg, t, sh, h, OnPayload(t, sh, h, use, g, token, p))
  {
    Moves(cfg, t, sh, h, OnPayload(t, sh, h, use, g, token, p).pc);
  }

  lemma StepDetected(cfg: Config, t: TaskId, sh: Shared, h: History, use: Use, g: nat, token: string, p: Payload)
    requires SharedOk(cfg, sh, h) && TaskOk(sh, h, t, Exiting(use, g, token, p)) && (use.Hardware? || use.Versions?)
    ensures StepOk(cfg, t, sh, h, OnPayload(t, sh, h, use, g, token, p))
  {
    if use.Hardware? && p.HardwareIs? {
      SetDeviceKeeps(cfg, t, sh, h, Some(p.pro), sh.version);
    } else if use.Versions? && p.VersionIs? {
      SetDeviceKeeps(cfg, t, sh, h, sh.isPro, Some(p.application));
    } else {
      Moves(cfg, t, sh, h, Done(false));
    }
  }

  lemma StepHardware(cfg: Config, t: TaskId, sh: Shared, h: History, call: PasswordCall, g: nat, token: string, p: Payload)
    requires SharedOk(cfg, sh, h) && TaskOk(sh, h, t, Exiting(HardwareFor(call), g, token, p))
    ensures StepOk(cfg, t, sh, h, OnPayload(t, sh, h, HardwareFor(call), g, token, p))
  {
    if p.HardwareIs? {
      SetDeviceKeeps(cfg, t, sh, h, Some(p.pro), sh.version);
      BegunChange(sh.(isPro := Some(p.pro)), h, t, call);
    } else {
      Moves(cfg, t, sh, h, Done(false));
    }
  }

  lemma StepVersions(cfg: Config, t: TaskId, sh: Shared, h: History, call: PasswordCall, g: nat, token: string, p: Payload)
    requires SharedOk(cfg, sh, h) && TaskOk(sh, h, t, Exiting(VersionsFor(call), g, token, p))
    ensures StepOk(cfg, t, sh, h, OnPayload(t, sh, h, VersionsFor(call), g, token, p))
  {
    if p.VersionIs? {
      SetDeviceKeeps(cfg, t, sh, h, sh.isPro, Some(p.application));
      BegunChange(sh.(version := Some(p.application)), h, t, call);
    } else {
      Moves(cfg, t, sh, h, Done(false));
    }
  }

  /** The account was asked for in the generation of the call, if that generation is still the current one. */
  lemma StepAccount(cfg: Config, t: TaskId, sh: Shared, h: History, call: PasswordCall, g: nat, token: string, p: Payload)
    requires SharedOk(cfg, sh, h) && TaskOk(sh, h, t, Exiting(AccountFor(call), g, token, p))
    ensures StepOk(cfg, t, sh, h, OnPayload(t, sh, h, AccountFor(call), g, token, p))
  {
    if p.Account? && call.start == sh.generation && p.username == call.username {
      assert g == sh.generation;
      BegunRequest(sh, h, t, PasswordPost(call), Some(call.start));
      PostKeeps(cfg, t, sh, h, call, p.username);
    } else {
      Moves(cfg, t, sh, h, Done(false));
    }
  }

  lemma StepBody(cfg: Config, t: TaskId, sh: Shared, h: History, use: Use, g: nat, token: string, o: Outcome)
    requires SharedOk(cfg, sh, h) && TaskOk(sh, h, t, Reading(use, g, token))
    ensures StepOk(cfg, t, sh, h, OnBody(t, sh, h, use, g, token, o))
  {
    if !o.Body? || g != sh.generation {
      Moves(cfg, t, sh, h, Raised(use, g));
    } else {
      AcceptKeeps(cfg, t, sh, h, use, token);
    }
  }

  lemma StepExit(cfg: Config, t: TaskId, sh: Shared, h: History, use: Use, g: nat, token: string, p: Payload, o: Outcome)
    requires SharedOk(cfg, sh, h) && TaskOk(sh, h, t, Exiting(use, g, token, p))
    ensures StepOk(cfg, t, sh, h, OnExit(t, sh, h, use, g, token, p, o))
  {
    if !o.Go? || p.ApiError? {
      Moves(cfg, t, sh, h, Raised(use, g));
    } else {
      StepPayload(cfg, t, sh, h, use, g, token, p);
    }
  }

  lemma StepClearNow(cfg: Config, t: TaskId, sh: Shared, h: History, cause: Cause, after: After, closed: bool)
    requires SharedOk(cfg, sh, h) && sh.lock.None? && t in h.started && h.started[t] <= sh.generation
    requires Reaches(sh, after) && cause.generation == sh.generation
    ensures var (sh', h') := Clears(t, sh, h, Some(cause), closed);
            StepOk(cfg, t, sh, h, Next(sh', h', Closing(cause, after)))
  {
    ClearKeeps(cfg, t, sh, h, Some(cause), closed);
  }

  lemma StepClear(cfg: Config, t: TaskId, sh: Shared, h: History, cause: Cause, after: After, o: Outcome)
    requires SharedOk(cfg, sh, h) && TaskOk(sh, h, t, Clearing(cause, after))
    ensures StepOk(cfg, t, sh, h, ClearIfCurrent(t, sh, h, cause, after, o))
  {
    if o.Fail? || o.Cancelled? {
      Moves(cfg, t, sh, h, if after.End? then Done(false) else AfterClear(after));
    } else if !o.Go? || sh.lock.Some? {
      Moves(cfg, t, sh, h, Clearing(cause, after));
    } else if cause.generation != sh.generation {
      Moves(cfg, t, sh, h, Closing(cause, after));
    } else {
      StepClearNow(cfg, t, sh, h, cause, after, o.closed);
    }
  }

  lemma StepEndClear(cfg: Config, t: TaskId, sh: Shared, h: History, cause: Cause, after: After, o: Outcome)
    requires SharedOk(cfg, sh, h) && TaskOk(sh, h, t, Closing(cause, after))
    ensures StepOk(cfg, t, sh, h, EndClear(sh, h, after, o))
  {
    Moves(cfg, t, sh, h, EndClear(sh, h, after, o).pc);
  }

  lemma StepConnect(cfg: Config, t: TaskId, sh: Shared, h: History, input: bool)
    requires SharedOk(cfg, sh, h) && (sh.lock.None? || sh.lock == Some(t)) && sh.ws.None?
    requires t in h.started && h.started[t] <= sh.generation
    ensures StepOk(cfg, t, sh, h, Connect(t, sh, h, input))
  {
    UnlockKeeps(cfg, t, sh, h);
  }

  /** Taking the lock, detaching the shared WebSocket and starting to close it. */
  lemma StepDetach(cfg: Config, t: TaskId, sh: Shared, h: History, pc: Pc, next: Pc)
    requires SharedOk(cfg, sh, h) && TaskOk(sh, h, t, pc) && sh.lock.None? && sh.ws.Some?
    requires next.StaleClosing? || next.CloseClosing?
    ensures var n := Next(Detached(sh).(lock := Some(t)), WithClose(WithDetach(sh, h), sh.ws, false), next);
            StepOk(cfg, t, sh, h, n)
  {
    DetachKeeps(cfg, t, sh, h, sh.ws);
    UnlockKeeps(cfg, t, Detached(sh), WithClose(WithDetach(sh, h), sh.ws, false));
  }

  lemma StepAcquire(cfg: Config, t: TaskId, sh: Shared, h: History, input: bool, o: Outcome)
    requires SharedOk(cfg, sh, h) && TaskOk(sh, h, t, SocketWaiting(input))
    ensures StepOk(cfg, t, sh, h, AcquireSocket(t, sh, h, input, o))
  {
    if !o.Go? || sh.lock.Some? || (sh.ws.Some? && !o.closed) {
      StepWaitOrReuse(cfg, t, sh, h, input, o);
    } else if sh.ws.Some? {
      StepDetach(cfg, t, sh, h, SocketWaiting(input), StaleClosing(input));
    } else {
      assert Detached(sh) == sh && WithDetach(sh, h) == h;
      StepConnect(cfg, t, sh, h, input);
    }
  }

  lemma StepWaitOrReuse(cfg: Config, t: TaskId, sh: Shared, h: History, input: bool, o: Outcome)
    requires SharedOk(cfg, sh, h) && TaskOk(sh, h, t, SocketWaiting(input))
    requires !o.Go? || sh.lock.Some? || (sh.ws.Some? && !o.closed)
    ensures StepOk(cfg, t, sh, h, AcquireSocket(t, sh, h, input, o))
  {
    Moves(cfg, t, sh, h, AcquireSocket(t, sh, h, input, o).pc);
  }

  lemma StepAfterStale(cfg: Config, t: TaskId, sh: Shared, h: History, input: bool, o: Outcome)
    requires SharedOk(cfg, sh, h) && TaskOk(sh, h, t, StaleClosing(input))
    ensures StepOk(cfg, t, sh, h, AfterStale(t, sh, h, input, o))
  {
    UnlockKeeps(cfg, t, sh, h);
    StepConnect(cfg, t, sh, h, input);
  }

  lemma InstallKeeps(cfg: Config, t: TaskId, sh: Shared, h: History, token: string)
    requires SharedOk(cfg, sh, h) && sh.lock == Some(t) && sh.ws.None? && sh.token == Some(token) && token != ""
    ensures var sh' := Unlocked(Installed(sh, Socket(h.nextId, sh.generation, token), h.nextId + 1));
            var h' := h.(beats := h.beats + {h.nextId + 1}, nextId := h.nextId + 2);
            SharedOk(cfg, sh', h') && Guarantee(t, sh, h, sh', h')
  {
    var h' := h.(beats := h.beats + {h.nextId + 1}, nextId := h.nextId + 2);
    assert forall u, g :: Owns(h', u, g) <==> Owns(h, u, g);
  }

  lemma StepEndConnect(cfg: Config, t: TaskId, sh: Shared, h: History, input: bool, g: nat, token: string, o: Outcome)
    requires SharedOk(cfg, sh, h) && TaskOk(sh, h, t, Connecting(input, g, token))
    ensures StepOk(cfg, t, sh, h, EndConnect(sh, h, input, g, token, o))
  {
    if o.Go? {
      StepInstall(cfg, t, sh, h, input, token);
    } else {
      StepConnectFails(cfg, t, sh, h, g, token, EndConnect(sh, h, input, g, token, o).pc);
    }
  }

  /** A failed handshake gives up the lock; after a 401 its session is to be cleared. */
  lemma StepConnectFails(cfg: Config, t: TaskId, sh: Shared, h: History, g: nat, token: string, next: Pc)
    requires SharedOk(cfg, sh, h) && sh.lock == Some(t) && t in h.started && h.started[t] <= sh.generation
    requires next == Done(false) || (next == Clearing(Refused(g, token, true), End(false)) && g <= sh.generation)
    ensures StepOk(cfg, t, sh, h, Next(Unlocked(sh), h, next))
  {
    UnlockKeeps(cfg, t, sh, h);
  }

  lemma StepInstall(cfg: Config, t: TaskId, sh: Shared, h: History, input: bool, token: string)
    requires SharedOk(cfg, sh, h) && TaskOk(sh, h, t, Connecting(input, sh.generation, token))
    ensures StepOk(cfg, t, sh, h, EndConnect(sh, h, input, sh.generation, token, Go(false)))
  {
    InstallKeeps(cfg, t, sh, h, token);
  }

  lemma StepEndSend(cfg: Config, t: TaskId, sh: Shared, h: History, ws: Socket, o: Outcome)
    requires SharedOk(cfg, sh, h) && TaskOk(sh, h, t, SocketSending(ws))
    ensures StepOk(cfg, t, sh, h, EndSend(sh, h, ws, o))
  {
    Moves(cfg, t, sh, h, EndSend(sh, h, ws, o).pc);
  }

  /** Closing a socket that is not the shared one. */
  lemma CloseKeeps(cfg: Config, t: TaskId, sh: Shared, h: History, ws: Socket)
    requires SharedOk(cfg, sh, h) && ws.id < h.nextId && sh.ws != Some(ws)
    ensures SharedOk(cfg, sh, WithClose(h, Some(ws), false)) && Guarantee(t, sh, h, sh, WithClose(h, Some(ws), false))
  {
    var h' := WithClose(h, Some(ws), false);
    assert forall u, g :: Owns(h', u, g) <==> Owns(h, u, g);
  }

  lemma StepInvalidateShared(cfg: Config, t: TaskId, sh: Shared, h: History, ws: Socket, closed: bool)
    requires SharedOk(cfg, sh, h) && TaskOk(sh, h, t, InvalidateWaiting(ws)) && sh.lock.None? && sh.ws == Some(ws)
    ensures StepOk(cfg, t, sh, h, Invalidate(t, sh, h, ws, Go(closed)))
  {
    if closed {
      DetachKeeps(cfg, t, sh, h, None);
    } else {
      DetachKeeps(cfg, t, sh, h, Some(ws));
      UnlockKeeps(cfg, t, Detached(sh), WithClose(WithDetach(sh, h), Some(ws), false));
    }
  }

  lemma StepInvalidateOther(cfg: Config, t: TaskId, sh: Shared, h: History, ws: Socket, closed: bool)
    requires SharedOk(cfg, sh, h) && TaskOk(sh, h, t, InvalidateWaiting(ws)) && sh.lock.None? && sh.ws != Some(ws)
    ensures StepOk(cfg, t, sh, h, Invalidate(t, sh, h, ws, Go(closed)))
  {
    if closed {
      Moves(cfg, t, sh, h, Done(false));
    } else {
      CloseKeeps(cfg, t, sh, h, ws);
      UnlockKeeps(cfg, t, sh, WithClose(h, Some(ws), false));
    }
  }

  lemma StepInvalidate(cfg: Config, t: TaskId, sh: Shared, h: History, ws: Socket, o: Outcome)
    requires SharedOk(cfg, sh, h) && TaskOk(sh, h, t, InvalidateWaiting(ws))
    ensures StepOk(cfg, t, sh, h, Invalidate(t, sh, h, ws, o))
  {
    if o.Fail? || o.Cancelled? {
      Moves(cfg, t, sh, h, Done(false));
    } else if !o.Go? || sh.lock.Some? {
      Moves(cfg, t, sh, h, InvalidateWaiting(ws));
    } else if sh.ws == Some(ws) {
      StepInvalidateShared(cfg, t, sh, h, ws, o.closed);
    } else {
      StepInvalidateOther(cfg, t, sh, h, ws, o.closed);
    }
  }

  lemma StepCloseShared(cfg: Config, t: TaskId, sh: Shared, h: History, o: Outcome)
    requires SharedOk(cfg, sh, h) && TaskOk(sh, h, t, CloseWaiting)
    ensures StepOk(cfg, t, sh, h, CloseShared(t, sh, h, o))
  {
    if !o.Go? || sh.lock.Some? {
      Moves(cfg, t, sh, h, CloseShared(t, sh, h, o).pc);
    } else {
      if sh.ws.Some? && !o.closed {
        StepDetach(cfg, t, sh, h, CloseWaiting, CloseClosing(sh.ws.value));
      } else {
        StepForget(cfg, t, sh, h);
      }
    }
  }

  /** Forgetting the shared WebSocket under a lock that is given up at once. */
  lemma StepForget(cfg: Config, t: TaskId, sh: Shared, h: History)
    requires SharedOk(cfg, sh, h) && TaskOk(sh, h, t, CloseWaiting) && sh.lock.None?
    ensures StepOk(cfg, t, sh, h, Next(Detached(sh), WithDetach(sh, h), Done(true)))
  {
    DetachKeeps(cfg, t, sh, h, None);
  }

  lemma StepRelease(cfg: Config, t: TaskId, sh: Shared, h: History, pc: Pc, ok: bool)
    requires SharedOk(cfg, sh, h) && TaskOk(sh, h, t, pc) && Holds(pc)
    ensures StepOk(cfg, t, sh, h, Next(Unlocked(sh), h, Done(ok)))
  {
    UnlockKeeps(cfg, t, sh, h);
  }

  lemma StepHandshake(cfg: Config, t: TaskId, sh: Shared, h: History, g: nat, token: string, o: Outcome)
    requires SharedOk(cfg, sh, h) && TaskOk(sh, h, t, Handshaking(g, token))
    ensures StepOk(cfg, t, sh, h, EndHandshake(sh, h, g, token, o))
  {
    Moves(cfg, t, sh, h, EndHandshake(sh, h, g, token, o).pc);
  }

  // -------------------------------------------------------------- every run

  predicate ForRequest(pc: Pc) {
    pc.Sent? || pc.Reading? || pc.Exiting? || pc.Clearing? || pc.Closing?
  }

  predicate ForLogin(pc: Pc) {
    pc.LoginClearing? || pc.LoginClosing? || pc.LoginSent?
  }

  lemma ResumeRequest(cfg: Config, t: TaskId, sh: Shared, h: History, pc: Pc, o: Outcome)
    requires SharedOk(cfg, sh, h) && TaskOk(sh, h, t, pc) && ForRequest(pc)
    ensures StepOk(cfg, t, sh, h, Resume(cfg, t, sh, h, pc, o))
  {
    match pc
    case Sent(use, g, token) => StepStatus(cfg, t, sh, h, use, g, token, o);
    case Reading(use, g, token) => StepBody(cfg, t, sh, h, use, g, token, o);
    case Exiting(use, g, token, p) => StepExit(cfg, t, sh, h, use, g, token, p, o);
    case Clearing(cause, after) => StepClear(cfg, t, sh, h, cause, after, o);
    case Closing(cause, after) => StepEndClear(cfg, t, sh, h, cause, after, o);
  }

  lemma ResumeLogin(cfg: Config, t: TaskId, sh: Shared, h: History, pc: Pc, o: Outcome)
    requires SharedOk(cfg, sh, h) && TaskOk(sh, h, t, pc) && ForLogin(pc)
    ensures StepOk(cfg, t, sh, h, Resume(cfg, t, sh, h, pc, o))
  {
    match pc
    case LoginClearing(login) => StepLoginClear(cfg, t, sh, h, login, o);
    case LoginClosing(login, g) => StepSendLogin(cfg, t, sh, h, login, g, o);
    case LoginSent(login, g, obfuscate, more) => StepEndLogin(cfg, t, sh, h, login, g, obfuscate, more, o);
  }

  predicate ForConnection(pc: Pc) {
    pc.SocketWaiting? || pc.StaleClosing? || pc.Connecting? || pc.SocketSending?
  }

  lemma ResumeConnection(cfg: Config, t: TaskId, sh: Shared, h: History, pc: Pc, o: Outcome)
    requires SharedOk(cfg, sh, h) && TaskOk(sh, h, t, pc) && ForConnection(pc)
    ensures StepOk(cfg, t, sh, h, Resume(cfg, t, sh, h, pc, o))
  {
    match pc
    case SocketWaiting(input) => StepAcquire(cfg, t, sh, h, input, o);
    case StaleClosing(input) => StepAfterStale(cfg, t, sh, h, input, o);
    case Connecting(input, g, token) => StepEndConnect(cfg, t, sh, h, input, g, token, o);
    case SocketSending(ws) => StepEndSend(cfg, t, sh, h, ws, o);
  }

  lemma ResumeOther(cfg: Config, t: TaskId, sh: Shared, h: History, pc: Pc, o: Outcome)
    requires SharedOk(cfg, sh, h) && TaskOk(sh, h, t, pc) && !ForRequest(pc) && !ForLogin(pc) && !ForConnection(pc)
    ensures StepOk(cfg, t, sh, h, Resume(cfg, t, sh, h, pc, o))
  {
    match pc
    case InvalidateWaiting(ws) => StepInvalidate(cfg, t, sh, h, ws, o);
    case InvalidateClosing(ws) => StepRelease(cfg, t, sh, h, pc, false);
    case CloseWaiting => StepCloseShared(cfg, t, sh, h, o);
    case CloseClosing(ws) => StepRelease(cfg, t, sh, h, pc, o.Go?);
    case Handshaking(g, token) => StepHandshake(cfg, t, sh, h, g, token, o);
    case Done(ok) => Moves(cfg, t, sh, h, pc);
  }

  /** Every segment of every task keeps the invariant, whatever the environment delivers. */
  lemma StepResume(cfg: Config, t: TaskId, sh: Shared, h: History, pc: Pc, o: Outcome)
    requires SharedOk(cfg, sh, h) && TaskOk(sh, h, t, pc)
    ensures StepOk(cfg, t, sh, h, Resume(cfg, t, sh, h, pc, o))
  {
    if ForRequest(pc) {
      ResumeRequest(cfg, t, sh, h, pc, o);
    } else if ForLogin(pc) {
      ResumeLogin(cfg, t, sh, h, pc, o);
    } else if ForConnection(pc) {
      ResumeConnection(cfg, t, sh, h, pc, o);
    } else {
      ResumeOther(cfg, t, sh, h, pc, o);
    }
  }

  /** What the observer writes down is no part of the invariant. */
  lemma Unobserved(cfg: Config, sh: Shared, h: History, logs: map<TaskId, TaskLog>, rejected: set<Credentials>)
    requires SharedOk(cfg, sh, h)
    ensures var h' := h.(logs := logs, rejected := rejected);
            SharedOk(cfg, sh, h') && forall u, pc :: TaskOk(sh, h, u, pc) ==> TaskOk(sh, h', u, pc)
  {
    var h' := h.(logs := logs, rejected := rejected);
    assert forall u, g :: Owns(h', u, g) <==> Owns(h, u, g);
  }

  lemma OthersStable(cfg: Config, s: State, t: TaskId, n: Next)
    requires Inv(cfg, s) && t in s.tasks && StepOk(cfg, t, s.sh, s.h, n)
    ensures Inv(cfg, State(n.sh, n.h, s.tasks[t := n.pc]))
  {
    forall u | u in s.tasks && u != t
      ensures TaskOk(n.sh, n.h, u, s.tasks[u])
    {
      Stable(cfg, t, u, s.sh, s.h, n.sh, n.h, s.tasks[u]);
    }
  }

  /** A new task's generation is recorded; nothing else depends on it. */
  lemma StartedKeeps(cfg: Config, s: State, t: TaskId, logs: map<TaskId, TaskLog>)
    requires Inv(cfg, s) && t !in s.tasks
    ensures var h := s.h.(started := s.h.started[t := s.sh.generation], logs := logs);
            SharedOk(cfg, s.sh, h) && forall u :: u in s.tasks ==> TaskOk(s.sh, h, u, s.tasks[u])
  {
    var h := s.h.(started := s.h.started[t := s.sh.generation], logs := logs);
    assert forall u, g :: Owns(h, u, g) <==> Owns(s.h, u, g);
    forall u | u in s.tasks
      ensures TaskOk(s.sh, h, u, s.tasks[u])
    {
      assert TaskOk(s.sh, s.h, u, s.tasks[u]);
    }
  }

  lemma CallKeepsInv(cfg: Config, s: State, t: TaskId, op: Op)
    requires Inv(cfg, s) && t !in s.tasks
    ensures Inv(cfg, Step(cfg, s, Call(t, op)))
  {
    var (sh', pc') := BeginOp(s.sh, op);
    var logs := s.h.logs[t := Note(NewLog(op), sh', pc')];
    StartedKeeps(cfg, s, t, logs);
    var h := s.h.(started := s.h.started[t := s.sh.generation], logs := logs);
    StepBegin(cfg, t, s.sh, h, op);
    forall u | u in s.tasks
      ensures TaskOk(sh', h, u, s.tasks[u])
    {
      Stable(cfg, t, u, s.sh, h, sh', h, s.tasks[u]);
    }
  }

  lemma StepKeepsInv(cfg: Config, s: State, e: Event)
    requires Inv(cfg, s)
    ensures Inv(cfg, Step(cfg, s, e))
  {
    match e
    case Call(t, op) =>
      if t !in s.tasks {
        CallKeepsInv(cfg, s, t, op);
      }
    case Run(t, o) =>
      if t in s.tasks && t in s.h.logs {
        StepResume(cfg, t, s.sh, s.h, s.tasks[t], o);
        var n := Resume(cfg, t, s.sh, s.h, s.tasks[t], o);
        OthersStable(cfg, s, t, n);
        var h' := Step(cfg, s, e).h;
        Unobserved(cfg, n.sh, n.h, h'.logs, h'.rejected);
      }
  }

  /** The invariant holds after every schedule: any tasks, any interleaving, any outcomes. */
  lemma {:induction false} ReachedInv(cfg: Config, schedule: seq<Event>)
    ensures Inv(cfg, Reached(cfg, schedule))
  {
    if schedule != [] {
      var n := |schedule| - 1;
      ReachedInv(cfg, schedule[..n]);
      StepKeepsInv(cfg, Reached(cfg, schedule[..n]), schedule[n]);
    }
  }
}
