/**
 The state one NanoKVM session shares between its tasks (nanokvm/components/session.py), and the segments of
 `SessionController` that change it. A segment runs between two awaits, so no other task sees the middle of it.
 */
module SessionState {
  import opened Common

  type TaskId = nat

  /** Kept login credentials; `id` stands for the identity of the object. */
  datatype Credentials = Credentials(id: nat, username: string, password: string)

  /** A WebSocket, with the generation and token that its handshake carried. */
  datatype Socket = Socket(id: nat, generation: nat, token: string)

  datatype Shared = Shared(
    token: Option<string>,
    generation: nat,
    credentials: Option<Credentials>,
    obfuscation: Option<bool>,
    ws: Option<Socket>,
    heartbeat: Option<nat>,
    lock: Option<TaskId>,
    isPro: Option<bool>,
    version: Option<string>)

  /** A token that `if not self._token` lets through. */
  predicate Usable(token: Option<string>) {
    token.Some? && token.value != ""
  }

  // ------------------------------------------------------ what the segments do

  /** `_detach_ws`: forget the shared WebSocket and its heartbeat. */
  function Detached(sh: Shared): Shared {
    sh.(ws := None, heartbeat := None)
  }

  /** The locked part of `clear_local_session`, when it is not stale. */
  function Cleared(sh: Shared): Shared {
    Detached(sh).(generation := sh.generation + 1, token := None, version := None)
  }

  /** A login accepted by the device: the token, the password mode and perhaps the credentials. */
  function LoggedIn(sh: Shared, token: string, obfuscate: bool, kept: Option<Credentials>): Shared {
    sh.(token := Some(token), obfuscation := Some(obfuscate),
        credentials := if kept.Some? then kept else sh.credentials)
  }

  /** A login the device rejected drops the credentials it used, unless they were replaced meanwhile. */
  function Rejected(sh: Shared, used: Option<Credentials>): Shared {
    if used.Some? && sh.credentials == used then sh.(credentials := None) else sh
  }

  function Installed(sh: Shared, ws: Socket, heartbeat: nat): Shared {
    sh.(ws := Some(ws), heartbeat := Some(heartbeat))
  }

  /** The shared WebSocket's handshake carried the current token in the current generation. */
  ghost predicate SocketIsCurrent(sh: Shared) {
    && (sh.ws.Some? <==> sh.heartbeat.Some?)
    && (sh.ws.Some? ==>
          sh.ws.value.generation == sh.generation && Usable(sh.token) && sh.token == Some(sh.ws.value.token))
  }

  class SessionController {
    var token: Option<string>
    var sessionGeneration: nat
    var credentials: Option<Credentials>
    var usePasswordObfuscation: Option<bool>
    var ws: Option<Socket>
    var wsHeartbeat: Option<nat>
    var wsLock: Option<TaskId>
    var isPro: Option<bool>
    var applicationVersion: Option<string>
    var cancelledHeartbeats: set<nat>

    function View(): Shared
      reads this
    {
      Shared(token, sessionGeneration, credentials, usePasswordObfuscation, ws, wsHeartbeat, wsLock, isPro, applicationVersion)
    }

    ghost predicate Valid()
      reads this
    {
      SocketIsCurrent(View())
    }

    constructor (token: Option<string>, usePasswordObfuscation: Option<bool>)
      ensures Valid()
      ensures View() == Shared(token, 0, None, usePasswordObfuscation, None, None, None, None, None)
      ensures cancelledHeartbeats == {}
    {
      this.token, sessionGeneration := token, 0;
      credentials := None;
      this.usePasswordObfuscation := usePasswordObfuscation;
      ws, wsHeartbeat, wsLock := None, None, None;
      isPro, applicationVersion := None, None;
      cancelledHeartbeats := {};
    }

    method CheckSessionGeneration(generation: nat) returns (same: bool)
      ensures same <==> generation == sessionGeneration
    {
      same := generation == sessionGeneration;
    }

    method ForgetVersions()
      modifies this`applicationVersion
      ensures View() == old(View()).(version := None)
    {
      applicationVersion := None;
    }

    method DetachWs() returns (detached: Option<Socket>)
      requires Valid()
      modifies this`ws, this`wsHeartbeat, this`cancelledHeartbeats
      ensures Valid() && View() == Detached(old(View())) && detached == old(ws)
      ensures cancelledHeartbeats == old(cancelledHeartbeats) + old(if wsHeartbeat.Some? then {wsHeartbeat.value} else {})
    {
      detached := ws;
      ws := None;
      if wsHeartbeat.Some? {
        cancelledHeartbeats := cancelledHeartbeats + {wsHeartbeat.value};
        wsHeartbeat := None;
      }
    }

    /** The locked part: generation, token and WebSocket change in one step, or nothing does. */
    method ClearLocalSession(expected: Option<nat>) returns (generation: nat, detached: Option<Socket>)
      requires Valid() && wsLock.None?
      modifies this
      ensures Valid()
      ensures var stale := expected.Some? && expected.value != old(sessionGeneration);
              && View() == (if stale then old(View()) else Cleared(old(View())))
              && detached == (if stale then None else old(ws))
              && cancelledHeartbeats
                 == old(cancelledHeartbeats) + (if stale then {} else old(if wsHeartbeat.Some? then {wsHeartbeat.value} else {}))
      ensures generation == sessionGeneration
    {
      detached := None;
      if expected.Some? && expected.value != sessionGeneration {
        return sessionGeneration, None;
      }
      detached := DetachWs();
      sessionGeneration := sessionGeneration + 1;
      token := None;
      ForgetVersions();
      generation := sessionGeneration;
    }

    /** The end of an accepted login of `generation`: every write happens, or the login was superseded and none does. */
    method FinishLogin(generation: nat, newToken: string, obfuscate: bool, kept: Option<Credentials>)
      returns (accepted: bool)
      requires Valid() && newToken != "" && (generation == sessionGeneration ==> token.None?)
      modifies this
      ensures Valid()
      ensures accepted <==> generation == old(sessionGeneration)
      ensures View() == if accepted then LoggedIn(old(View()), newToken, obfuscate, kept) else old(View())
      ensures cancelledHeartbeats == old(cancelledHeartbeats)
    {
      accepted := CheckSessionGeneration(generation);
      if !accepted {
        return;
      }
      token := Some(newToken);
      usePasswordObfuscation := Some(obfuscate);
      if kept.Some? {
        credentials := kept;
      }
    }

    method RejectLogin(used: Option<Credentials>)
      requires Valid()
      modifies this`credentials
      ensures Valid() && View() == Rejected(old(View()), used)
    {
      if used.Some? && credentials == used {
        credentials := None;
      }
    }

    /** Storing a connected WebSocket and its heartbeat, under the lock. */
    method InstallWs(connected: Socket, heartbeat: nat)
      requires Valid() && ws.None?
      requires connected.generation == sessionGeneration && token == Some(connected.token) && connected.token != ""
      modifies this`ws, this`wsHeartbeat
      ensures Valid() && View() == Installed(old(View()), connected, heartbeat)
    {
      ws := Some(connected);
      wsHeartbeat := Some(heartbeat);
    }

    /** The locked part of `invalidate_ws`: only the failed WebSocket itself is forgotten. */
    method ForgetFailedWs(failed: Socket)
      requires Valid()
      modifies this`ws, this`wsHeartbeat, this`cancelledHeartbeats
      ensures Valid()
      ensures View() == if old(ws) == Some(failed) then Detached(old(View())) else old(View())
      ensures cancelledHeartbeats
              == old(cancelledHeartbeats)
                 + old(if ws == Some(failed) && wsHeartbeat.Some? then {wsHeartbeat.value} else {})
    {
      if ws == Some(failed) {
        var _ := DetachWs();
      }
    }
  }
}
