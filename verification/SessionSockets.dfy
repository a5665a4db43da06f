/** What becomes of the shared WebSockets: why each is given up, and that none is left open. */
module SessionSockets {
  import opened Common
  import opened SessionState
  import opened SessionTasks
  import opened SessionInvariant
  import opened SessionOutcomes
  import opened SessionProperties

  /** Task `t` goes on while the WebSocket it looks at is found closed. */
  predicate FindsClosed(e: Event) {
    e.Run? && e.outcome == Go(true)
  }

  /** Why a step may give up the shared WebSocket `ws`. */
  predicate MayGiveUp(s: State, e: Event, ws: Socket) {
    && e.Run? && e.task in s.tasks
    && match s.tasks[e.task] {
         case LoginClearing(_) => true
         case Clearing(cause, _) => cause.generation == s.sh.generation
         case SocketWaiting(_) => FindsClosed(e)
         case InvalidateWaiting(failed) => failed == ws
         case CloseWaiting => true
         case _ => false
       }
  }

  lemma SegmentGivesUp(cfg: Config, s: State, t: TaskId, o: Outcome, ws: Socket)
    requires t in s.tasks && SharedOk(cfg, s.sh, s.h) && TaskOk(s.sh, s.h, t, s.tasks[t]) && s.sh.ws == Some(ws)
    ensures var n := Resume(cfg, t, s.sh, s.h, s.tasks[t], o);
            n.sh.ws != Some(ws) ==>
              && MayGiveUp(s, Run(t, o), ws) && (FindsClosed(Run(t, o)) || ws in n.h.closes)
              && s.sh.heartbeat.Some? && s.sh.heartbeat.value in n.h.cancelledBeats
  {
    match s.tasks[t]
    case Exiting(use, g, token, p) => ExitKeepsSocket(t, s.sh, s.h, use, g, token, p, o);
    case _ =>
  }

  lemma ExitKeepsSocket(t: TaskId, sh: Shared, h: History, use: Use, g: nat, token: string, p: Payload, o: Outcome)
    ensures var n := OnExit(t, sh, h, use, g, token, p, o); n.sh.ws == sh.ws && n.h.closes == h.closes
  {
  }

  lemma BeginKeepsSocket(sh: Shared, op: Op)
    ensures BeginOp(sh, op).0.ws == sh.ws
  {
  }

  /**
   A shared WebSocket is given up only when the session is cleared, when it is found closed, when a send on it has
   failed, or when it is to be closed. It is closed then, or was found closed, and its heartbeat is cancelled.
   */
  lemma SocketGoesForCause(cfg: Config, schedule: seq<Event>, e: Event)
    requires Reached(cfg, schedule).sh.ws.Some?
    ensures var s := Reached(cfg, schedule);
            var s' := Step(cfg, s, e);
            s'.sh.ws != s.sh.ws ==>
              && MayGiveUp(s, e, s.sh.ws.value) && (FindsClosed(e) || s.sh.ws.value in s'.h.closes)
              && s.sh.heartbeat.Some? && s.sh.heartbeat.value in s'.h.cancelledBeats
  {
    ReachedInv(cfg, schedule);
    var s := Reached(cfg, schedule);
    match e
    case Call(t, op) => BeginKeepsSocket(s.sh, op);
    case Run(t, o) =>
      if t in s.tasks && t in s.h.logs {
        SegmentGivesUp(cfg, s, t, o, s.sh.ws.value);
      }
  }

  // ---------------------------------------------------------------- over a run

  lemma SegmentCloses(cfg: Config, t: TaskId, sh: Shared, h: History, pc: Pc, o: Outcome)
    ensures h.closes <= Resume(cfg, t, sh, h, pc, o).h.closes
  {
    if pc.Exiting? {
      ExitKeepsSocket(t, sh, h, pc.use, pc.generation, pc.token, pc.payload, o);
    }
  }

  lemma StepCloses(cfg: Config, s: State, e: Event)
    ensures s.h.closes <= Step(cfg, s, e).h.closes
  {
    if e.Run? && e.task in s.tasks && e.task in s.h.logs {
      SegmentCloses(cfg, e.task, s.sh, s.h, s.tasks[e.task], e.outcome);
    }
  }

  /** At some event of `more` the WebSocket, still shared, is found closed. */
  ghost predicate FoundClosed(cfg: Config, schedule: seq<Event>, more: seq<Event>, ws: Socket) {
    exists k :: 0 <= k < |more| && FindsClosed(more[k]) && Reached(cfg, schedule + more[..k]).sh.ws == Some(ws)
  }

  /** No WebSocket is left open: whatever happens, one that was shared still is, or is closed, or was found closed. */
  lemma {:induction false} SocketIsClosedInTheEnd(cfg: Config, schedule: seq<Event>, more: seq<Event>, ws: Socket)
    requires Reached(cfg, schedule).sh.ws == Some(ws)
    ensures var s' := Reached(cfg, schedule + more);
            s'.sh.ws == Some(ws) || ws in s'.h.closes || FoundClosed(cfg, schedule, more, ws)
  {
    if more == [] {
      assert schedule + more == schedule;
    } else {
      var n := |more| - 1;
      var before := schedule + more[..n];
      SocketIsClosedInTheEnd(cfg, schedule, more[..n], ws);
      LastOfBoth(schedule, more);
      StepCloses(cfg, Reached(cfg, before), more[n]);
      if Reached(cfg, before).sh.ws == Some(ws) {
        SocketGoesForCause(cfg, before, more[n]);
      } else if FoundClosed(cfg, schedule, more[..n], ws) {
        StillFoundClosed(cfg, schedule, more, ws);
      }
    }
  }

  lemma StillFoundClosed(cfg: Config, schedule: seq<Event>, more: seq<Event>, ws: Socket)
    requires more != [] && FoundClosed(cfg, schedule, more[..|more| - 1], ws)
    ensures FoundClosed(cfg, schedule, more, ws)
  {
    var front := more[..|more| - 1];
    var k :| 0 <= k < |front| && FindsClosed(front[k]) && Reached(cfg, schedule + front[..k]).sh.ws == Some(ws);
    assert front[..k] == more[..k];
  }
}
