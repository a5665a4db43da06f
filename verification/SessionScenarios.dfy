/** Single operations of the session followed from beginning to end while no other task interferes. */
module SessionScenarios {
  import opened Common
  import opened Text
  import opened Version
  import opened SessionState
  import opened SessionTasks

  function Then(cfg: Config, t: TaskId, n: Next, o: Outcome): Next {
    Resume(cfg, t, n.sh, n.h, n.pc, o)
  }

  /** A login up to its first request: the session is cleared, then the password modes to try are chosen. */
  function LoginBegun(cfg: Config, t: TaskId, sh: Shared, h: History, login: Login, closed: bool): Next {
    Then(cfg, t, Then(cfg, t, Next(sh, h, LoginClearing(login)), Go(closed)), Go(false))
  }

  /**
   A login accepted at once keeps the mode it was sent in; with an unknown mode and a wrong-password reply to the
   obfuscated try, the plain try follows and its mode is kept. A reply without a token fails and writes nothing.
   */
  lemma LoginAnswered(cfg: Config, t: TaskId, sh: Shared, h: History, login: Login, closed: bool,
                      cookie: string, data: Option<Option<string>>, retry: bool)
    requires sh.lock.None? && (retry ==> sh.obfuscation.None?)
    ensures var n1 := LoginBegun(cfg, t, sh, h, login, closed);
            var n2 := if retry then Then(cfg, t, n1, LoginReply(WrongPassword)) else n1;
            var n := Then(cfg, t, n2, LoginReply(Granted(cookie, data)));
            && n.pc == Done(GrantedToken(cookie, data).Some?)
            && n.sh.token == GrantedToken(cookie, data) && n.sh.generation == sh.generation + 1
            && (GrantedToken(cookie, data).Some? ==>
                  n.sh.obfuscation == Some(if retry then false else sh.obfuscation.GetOr(true)))
            && (if GrantedToken(cookie, data).Some? && login.used.None? && cfg.keepCredentials then
                  n.sh.credentials.Some? && n.sh.credentials.value.username == login.username
                  && n.sh.credentials.value.password == login.password
                else n.sh.credentials == sh.credentials)
  {
  }

  /**
   The token of a reply is what stands between the spaces of its cookie, whatever its payload holds, and of its payload
   when the cookie is blank. With both blank or missing there is none.
   */
  lemma GrantedTokenExact(left: string, token: string, right: string, blank: string, data: Option<Option<string>>)
    requires AllSpace(left) && AllSpace(right) && AllSpace(blank)
    requires token != "" && !IsSpace(token[0]) && !IsSpace(token[|token| - 1])
    ensures GrantedToken(left + token + right, data) == Some(token)
    ensures GrantedToken(blank, Some(Some(left + token + right))) == Some(token)
    ensures GrantedToken(blank, None) == GrantedToken(blank, Some(None)) == GrantedToken(blank, Some(Some(left))) == None
  {
    StripSurrounded(left, token, right);
    StripBlank(left);
    StripBlank(blank);
  }

  lemma StripBlank(s: string)
    requires AllSpace(s)
    ensures Strip(s) == ""
  {
    var left, right := StripExact(s);
    assert forall i :: 0 <= i < |Strip(s)| ==> Strip(s)[i] == s[|left| + i];
  }

  /** A logout up to its clear: with a usable token that is not `disabled` it is posted first. */
  function LogoutPosted(cfg: Config, t: TaskId, sh: Shared, h: History, code: nat): Next {
    var (sh0, pc) := BeginOp(sh, Logout);
    var n := Next(sh0, h, pc);
    if !pc.Sent? then n
    else if code < 400 then Answered(cfg, t, n, NoData, code)
    else Then(cfg, t, n, Status(code))
  }

  /** The clear, and after a 401 the one in the `finally`. */
  function LogoutEnded(cfg: Config, t: TaskId, n: Next, closed: bool): Next {
    var n1 := Then(cfg, t, Then(cfg, t, n, Go(closed)), Go(false));
    if n1.pc.Done? then n1 else Then(cfg, t, Then(cfg, t, n1, Go(closed)), Go(false))
  }

  /**
   Undisturbed, a logout posts exactly when there is a real token, and whatever the device answers the session is
   over: no token, credentials or WebSocket. It succeeds unless the POST fails with a status other than 404.
   */
  lemma LogoutEndsSession(cfg: Config, t: TaskId, sh: Shared, h: History, code: nat, closed: bool)
    requires sh.lock.None?
    ensures var n := LogoutEnded(cfg, t, LogoutPosted(cfg, t, sh, h, code), closed);
            var posts := Usable(sh.token) && sh.token != Some("disabled");
            && (BeginOp(sh, Logout).1.Sent? <==> posts)
            && n.pc == Done(!posts || code < 400 || code == 404)
            && n.sh.generation == sh.generation + 1
            && n.sh.token.None? && n.sh.credentials.None? && n.sh.ws.None? && n.sh.heartbeat.None? && n.sh.version.None?
            && (sh.ws.Some? && !closed ==> sh.ws.value in n.h.closes)
            && (sh.heartbeat.Some? ==> sh.heartbeat.value in n.h.cancelledBeats)
  {
    var n := LogoutPosted(cfg, t, sh, h, code);
    assert n.sh == sh.(credentials := None) && n.h.closes == h.closes && n.h.cancelledBeats == h.cancelledBeats;
    assert n.pc.Clearing? && n.pc.cause.generation == sh.generation;
    LogoutClears(cfg, t, n, closed);
  }

  lemma LogoutClears(cfg: Config, t: TaskId, n: Next, closed: bool)
    requires n.sh.lock.None? && n.pc.Clearing? && n.pc.cause.generation == n.sh.generation
    requires n.pc.after.LogoutFinally? ==> n.pc.after.start == n.sh.generation
    ensures var n' := LogoutEnded(cfg, t, n, closed);
            && n'.pc == Done(n.pc.after == End(true))
            && n'.sh == Cleared(n.sh)
            && (n.sh.ws.Some? && !closed ==> n.sh.ws.value in n'.h.closes)
            && (n.sh.heartbeat.Some? ==> n.sh.heartbeat.value in n'.h.cancelledBeats)
  {
  }

  /**
   A failed send makes its caller invalidate the WebSocket it was sent on: that one is closed, and forgotten with its
   heartbeat while it is still the shared one; a replacement stays.
   */
  lemma FailedSendInvalidates(cfg: Config, t: TaskId, sh: Shared, h: History, ws: Socket, closed: bool)
    requires sh.lock.None? && (sh.ws.Some? <==> sh.heartbeat.Some?)
    ensures var n1 := Then(cfg, t, Then(cfg, t, Next(sh, h, SocketSending(ws)), Fail), Go(closed));
            var n := if n1.pc.Done? then n1 else Then(cfg, t, n1, Go(false));
            && n.pc == Done(false) && n.sh.lock.None? && (closed || ws in n.h.closes)
            && (sh.ws == Some(ws) ==> n.sh.ws.None? && n.sh.heartbeat.None? && sh.heartbeat.value in n.h.cancelledBeats)
            && (sh.ws != Some(ws) ==> n.sh.ws == sh.ws && n.sh.heartbeat == sh.heartbeat)
            && n.sh.token == sh.token && n.sh.generation == sh.generation
  {
  }

  /** Closing the shared WebSocket ends it and its heartbeat, and leaves the session. */
  lemma CloseEndsSocket(cfg: Config, t: TaskId, sh: Shared, h: History, closed: bool)
    requires sh.lock.None? && (sh.ws.Some? <==> sh.heartbeat.Some?)
    ensures var n1 := Then(cfg, t, Next(sh, h, CloseWaiting), Go(closed));
            var n := if n1.pc.Done? then n1 else Then(cfg, t, n1, Go(false));
            && n.pc == Done(true) && n.sh.lock.None? && n.sh.ws.None? && n.sh.heartbeat.None?
            && (sh.ws.Some? ==> (closed || sh.ws.value in n.h.closes) && sh.heartbeat.value in n.h.cancelledBeats)
            && n.sh.token == sh.token && n.sh.generation == sh.generation
  {
  }

  /**
   A WebSocket of one's own is opened with the current token, and fails without one. It leaves the session alone,
   unless it is answered 401: then the session is over.
   */
  lemma OpenedSocketEnds(cfg: Config, t: TaskId, sh: Shared, h: History, refused: bool, closed: bool)
    requires sh.lock.None?
    ensures var n0 := Next(BeginOp(sh, OpenSocket).0, h, BeginOp(sh, OpenSocket).1);
            var n := if !refused then Then(cfg, t, n0, Go(false))
                     else Then(cfg, t, Then(cfg, t, Then(cfg, t, n0, Status(401)), Go(closed)), Go(false));
            if !Usable(sh.token) then n0.pc == n.pc == Done(false) && n.sh == sh
            else
              && n0.pc == Handshaking(sh.generation, sh.token.value) && n.pc == Done(!refused)
              && n.sh == if refused then Cleared(sh) else sh
  {
  }

  /** An open shared WebSocket is used as it is. */
  lemma OpenSocketIsUsed(cfg: Config, t: TaskId, sh: Shared, h: History, input: bool)
    requires sh.lock.None? && sh.ws.Some?
    ensures var n := Then(cfg, t, Next(sh, h, SocketWaiting(input)), Go(false));
            n.sh == sh && n.h == h && n.pc == if input then SocketSending(sh.ws.value) else Done(true)
  {
  }

  /** A closed shared WebSocket is detached with its heartbeat and replaced by one that carries the current token. */
  lemma ClosedSocketIsReplaced(cfg: Config, t: TaskId, sh: Shared, h: History)
    requires sh.lock.None? && sh.ws.Some? && sh.heartbeat.Some? && Usable(sh.token)
    ensures var n1 := Then(cfg, t, Next(sh, h, SocketWaiting(false)), Go(true));
            var n := Then(cfg, t, Then(cfg, t, n1, Go(false)), Go(false));
            && n1.sh.ws.None? && n1.sh.lock == Some(t)
            && n.pc == Done(true) && n.sh.lock.None?
            && n.sh.ws == Some(Socket(h.nextId, sh.generation, sh.token.value)) && n.sh.heartbeat == Some(h.nextId + 1)
            && sh.heartbeat.value in n.h.cancelledBeats && n.sh.token == sh.token && n.sh.generation == sh.generation
  {
  }

  /** A request answered with a body, and left. */
  function Answered(cfg: Config, t: TaskId, n: Next, p: Payload, code: nat := 200): Next {
    Then(cfg, t, Then(cfg, t, Then(cfg, t, n, Status(code)), Body(p)), Go(false))
  }

  /** A change up to its decision: it asks for the hardware and the version only when they are unknown. */
  function Looked(cfg: Config, t: TaskId, sh: Shared, h: History, call: PasswordCall, pro: bool, application: string): Next {
    var n0 := Next(sh, h, BeginChange(sh, call));
    var n1 := if n0.pc.Sent? && n0.pc.use.HardwareFor? then Answered(cfg, t, n0, HardwareIs(pro)) else n0;
    if n1.pc.Sent? && n1.pc.use.VersionsFor? then Answered(cfg, t, n1, VersionIs(application)) else n1
  }

  /** A change up to its POST. */
  function ChangeBegun(cfg: Config, t: TaskId, n: Next, name: string): Next {
    if n.pc.Sent? && n.pc.use.AccountFor? then Answered(cfg, t, n, Account(name)) else n
  }

  /** From the POST to the end. */
  function ChangeEnded(cfg: Config, t: TaskId, n: Next, closed: bool): Next {
    Then(cfg, t, Then(cfg, t, Answered(cfg, t, n, NoData), Go(closed)), Go(false))
  }

  /** What the change decides on: what is known, else the device's replies. */
  predicate UsesContract(sh: Shared, pro: bool, application: string) {
    !sh.isPro.GetOr(pro) && UsesCurrentPassword(sh.version.GetOr(application)) == Some(true)
  }

  predicate Postable(sh: Shared, call: PasswordCall, pro: bool, application: string) {
    && Usable(sh.token) && call.start == sh.generation
    && (!sh.isPro.GetOr(pro) ==> UsesCurrentPassword(sh.version.GetOr(application)).Some?)
    && if UsesContract(sh, pro, application) then !Blank(call.current) else sh.obfuscation.Some?
  }

  /** Looking changes nothing but what is known of the device. */
  lemma LookedDecides(cfg: Config, t: TaskId, sh: Shared, h: History, call: PasswordCall, pro: bool, application: string)
    requires Postable(sh, call, pro, application)
    ensures var n := Looked(cfg, t, sh, h, call, pro, application);
            && n.sh == sh.(isPro := n.sh.isPro, version := n.sh.version) && n.h.posts == h.posts
            && n.pc == Sent(if UsesContract(sh, pro, application) then AccountFor(call) else LegacyPost(call),
                            sh.generation, sh.token.value)
  {
    if sh.isPro.None? {
      HardwareAnswered(cfg, t, sh, h, call, pro);
      var n := Answered(cfg, t, Next(sh, h, Sent(HardwareFor(call), sh.generation, sh.token.value)), HardwareIs(pro));
      VersionDecides(cfg, t, n.sh, n.h, call, application);
    } else {
      assert sh.isPro == Some(sh.isPro.value);
      VersionDecides(cfg, t, sh, h, call, application);
    }
  }

  /** With the hardware known, the version decides: it is asked for only when it matters and is unknown. */
  lemma VersionDecides(cfg: Config, t: TaskId, sh: Shared, h: History, call: PasswordCall, application: string)
    requires sh.isPro.Some? && Postable(sh, call, sh.isPro.value, application)
    ensures var n1 := Next(sh, h, AfterHardware(sh, call));
            var n := if n1.pc.Sent? && n1.pc.use.VersionsFor? then Answered(cfg, t, n1, VersionIs(application)) else n1;
            && n.sh == sh.(version := n.sh.version) && n.h.posts == h.posts
            && n.pc == Sent(if UsesContract(sh, sh.isPro.value, application) then AccountFor(call) else LegacyPost(call),
                            sh.generation, sh.token.value)
  {
    if sh.isPro == Some(false) && sh.version.None? {
      VersionAnswered(cfg, t, sh, h, call, application);
    }
    assert sh.isPro == Some(sh.isPro.value);
  }

  lemma VersionAnswered(cfg: Config, t: TaskId, sh: Shared, h: History, call: PasswordCall, application: string)
    requires Usable(sh.token) && call.start == sh.generation
    ensures var n := Answered(cfg, t, Next(sh, h, Sent(VersionsFor(call), sh.generation, sh.token.value)), VersionIs(application));
            n.sh == sh.(version := Some(application)) && n.pc == AfterVersions(n.sh, call) && n.h.posts == h.posts
  {
  }

  lemma HardwareAnswered(cfg: Config, t: TaskId, sh: Shared, h: History, call: PasswordCall, pro: bool)
    requires Usable(sh.token) && call.start == sh.generation
    ensures var n := Answered(cfg, t, Next(sh, h, Sent(HardwareFor(call), sh.generation, sh.token.value)), HardwareIs(pro));
            n.sh == sh.(isPro := Some(pro)) && n.pc == AfterHardware(n.sh, call) && n.h.posts == h.posts
  {
  }

  /**
   Undisturbed, with the caller's own name: a change on any device ends the session if and only if the device is no
   Pro and has the current-password contract, by what is known of it or by its replies. The documentation promises
   it of every successful change. With another name nothing is sent or changed.
   */
  lemma ChangeClearsExactlyWhenChecked(cfg: Config, t: TaskId, sh: Shared, h: History, call: PasswordCall,
                                       pro: bool, application: string, name: string, closed: bool)
    requires sh.lock.None? && Postable(sh, call, pro, application)
    ensures var n1 := ChangeBegun(cfg, t, Looked(cfg, t, sh, h, call, pro, application), name);
            var n := ChangeEnded(cfg, t, n1, closed);
            if UsesContract(sh, pro, application) && name != call.username then
              n1.pc == Done(false) && n1.h.posts == h.posts
              && n1.sh.token == sh.token && n1.sh.generation == sh.generation
            else
              && n.pc == Done(true)
              && (n.sh.token.None? <==> UsesContract(sh, pro, application))
              && n.sh.generation == (if UsesContract(sh, pro, application) then sh.generation + 1 else sh.generation)
  {
    LookedDecides(cfg, t, sh, h, call, pro, application);
    var n := Looked(cfg, t, sh, h, call, pro, application);
    if UsesContract(sh, pro, application) {
      CheckedEnds(cfg, t, n.sh, n.h, call, name, closed);
    } else {
      LegacyEnds(cfg, t, n.sh, n.h, call, name, closed);
    }
  }

  lemma CheckedEnds(cfg: Config, t: TaskId, sh: Shared, h: History, call: PasswordCall, name: string, closed: bool)
    requires sh.lock.None? && Usable(sh.token) && call.start == sh.generation
    ensures var n1 := ChangeBegun(cfg, t, Next(sh, h, Sent(AccountFor(call), sh.generation, sh.token.value)), name);
            var n := ChangeEnded(cfg, t, n1, closed);
            if name != call.username then
              n1.pc == Done(false) && n1.h.posts == h.posts && n1.sh.token == sh.token && n1.sh.generation == sh.generation
            else n.pc == Done(true) && n.sh.token.None? && n.sh.generation == sh.generation + 1
  {
    var n1 := ChangeBegun(cfg, t, Next(sh, h, Sent(AccountFor(call), sh.generation, sh.token.value)), name);
    if name == call.username {
      assert n1.pc == Sent(PasswordPost(call), sh.generation, sh.token.value) && n1.sh == sh;
      PostEnds(cfg, t, sh, n1.h, call, closed);
    }
  }

  lemma PostEnds(cfg: Config, t: TaskId, sh: Shared, h: History, call: PasswordCall, closed: bool)
    requires sh.lock.None? && Usable(sh.token) && call.start == sh.generation
    ensures var n := ChangeEnded(cfg, t, Next(sh, h, Sent(PasswordPost(call), sh.generation, sh.token.value)), closed);
            n.pc == Done(true) && n.sh.token.None? && n.sh.generation == sh.generation + 1
  {
  }

  lemma LegacyEnds(cfg: Config, t: TaskId, sh: Shared, h: History, call: PasswordCall, name: string, closed: bool)
    requires Usable(sh.token) && call.start == sh.generation
    ensures var n1 := ChangeBegun(cfg, t, Next(sh, h, Sent(LegacyPost(call), sh.generation, sh.token.value)), name);
            var n := ChangeEnded(cfg, t, n1, closed);
            n.pc == Done(true) && n.sh == sh
  {
  }
}
