/**
 The handshake between `_CommandExecution.cancel` and the worker thread of one SSH command
 (nanokvm/ssh_client.py). Each step is one access to shared state, so the two threads interleave freely.
 */
module SshExecution {
  import opened Common

  /** The canceller: `saw` is whether its read of `channel` found one. */
  datatype Canceller = Idle | FlagSet | ChannelRead(saw: bool) | Finished(saw: bool)

  /** The worker: `Closing(true)` comes from reading the output, `Closing(false)` from a raise at the second check. */
  datatype Worker = FirstCheck | Opening | Publishing | SecondCheck | Reading | Closing(passed: bool) | Ended

  datatype Thread = CancelThread | WorkerThread

  datatype View = View(cancelled: bool, published: bool, created: bool, closed: bool, canceller: Canceller, worker: Worker)

  function StepCanceller(v: View): View {
    match v.canceller
    case Idle => v.(cancelled := true, canceller := FlagSet)
    case FlagSet => v.(canceller := ChannelRead(v.published))
    case ChannelRead(saw) => v.(closed := v.closed || saw, canceller := Finished(saw))
    case Finished(_) => v
  }

  /** `ok` is whether opening the channel succeeds. */
  function StepWorker(v: View, ok: bool): View {
    match v.worker
    case FirstCheck => v.(worker := if v.cancelled then Ended else Opening)
    case Opening => if ok then v.(created := true, worker := Publishing) else v.(worker := Ended)
    case Publishing => v.(published := true, worker := SecondCheck)
    case SecondCheck => v.(worker := if v.cancelled then Closing(false) else Reading)
    case Reading => v.(worker := Closing(true))
    case Closing(_) => v.(closed := true, worker := Ended)
    case Ended => v
  }

  function Step(v: View, thread: Thread, ok: bool): View {
    if thread.CancelThread? then StepCanceller(v) else StepWorker(v, ok)
  }

  const Initial := View(false, false, false, false, Idle, FirstCheck)

  /** The state after a schedule: any interleaving, with or without a cancellation. */
  function Reached(schedule: seq<(Thread, bool)>): View {
    if schedule == [] then Initial
    else
      var n := |schedule| - 1;
      Step(Reached(schedule[..n]), schedule[n].0, schedule[n].1)
  }

  predicate Inv(v: View) {
    && (v.cancelled <==> !v.canceller.Idle?)
    && (v.published ==> v.created) && (v.closed ==> v.created)
    && (v.worker.FirstCheck? || v.worker.Opening? ==> !v.created)
    && (v.worker.Publishing? ==> v.created && !v.published)
    && (v.worker.SecondCheck? || v.worker.Reading? || v.worker.Closing? ==> v.published)
    && (v.worker.Ended? && v.created ==> v.closed)
    && (v.canceller == ChannelRead(true) ==> v.published)
    && (v.canceller == Finished(true) ==> v.closed)
    && (v.canceller == ChannelRead(false) || v.canceller == Finished(false) ==>
          !v.worker.Reading? && v.worker != Closing(true))
    && (v.worker == Closing(false) ==> v.cancelled)
  }

  lemma ReachedInv(schedule: seq<(Thread, bool)>)
    ensures Inv(Reached(schedule))
  {
    if schedule != [] {
      ReachedInv(schedule[..|schedule| - 1]);
    }
  }

  /**
   Once `cancel` has returned, a worker that passed its second check has its channel closed: no interleaving
   leaves it reading an open channel.
   */
  lemma CancelClosesPassedChannel(schedule: seq<(Thread, bool)>)
    ensures var v := Reached(schedule);
            v.canceller.Finished? && (v.worker.Reading? || v.worker == Closing(true)) ==> v.closed
  {
    ReachedInv(schedule);
  }

  /** When the worker has ended, an opened channel is closed, cancelled or not; and none is closed unopened. */
  lemma EndedChannelIsClosed(schedule: seq<(Thread, bool)>)
    ensures var v := Reached(schedule);
            (v.worker.Ended? && v.created ==> v.closed) && (v.closed ==> v.created)
  {
    ReachedInv(schedule);
  }

  /**
   A worker gives up before reading only for cause: it ends without a channel only after a cancellation or a failed
   opening, and closes its channel unread only after a cancellation.
   */
  lemma {:induction false} WorkerStopsForCause(schedule: seq<(Thread, bool)>)
    ensures var v := Reached(schedule);
            && (v.worker.Ended? && !v.created ==> v.cancelled || (WorkerThread, false) in schedule)
            && (v.worker == Closing(false) ==> v.cancelled)
            && (v.cancelled ==> exists ok :: (CancelThread, ok) in schedule)
  {
    if schedule != [] {
      var n := |schedule| - 1;
      WorkerStopsForCause(schedule[..n]);
      ReachedInv(schedule[..n]);
      var thread, ok := schedule[n].0, schedule[n].1;
      assert schedule[n] == (thread, ok) && (thread, ok) in schedule;
      assert forall e :: e in schedule[..n] ==> e in schedule;
      assert thread == CancelThread || thread == WorkerThread;
    }
  }

  lemma ReachedLast(schedule: seq<(Thread, bool)>, more: seq<(Thread, bool)>)
    requires more != []
    ensures var last := more[|more| - 1];
            Reached(schedule + more) == Step(Reached(schedule + more[..|more| - 1]), last.0, last.1)
  {
    LastOfBoth(schedule, more);
  }

  /** A cancelled command without a channel, whose worker will not open one. */
  predicate Blocked(v: View) {
    v.cancelled && !v.created && (v.worker.FirstCheck? || v.worker.Ended?)
  }

  lemma StepKeepsBlocked(v: View, thread: Thread, ok: bool)
    requires Blocked(v)
    ensures Blocked(Step(v, thread, ok))
  {
  }

  /** A worker that had not yet checked the flag a first time never opens a channel after cancellation. */
  lemma {:induction false} CancelBeforeStartOpensNothing(schedule: seq<(Thread, bool)>, more: seq<(Thread, bool)>)
    requires Reached(schedule).cancelled && Reached(schedule).worker.FirstCheck?
    ensures Blocked(Reached(schedule + more))
  {
    if more == [] {
      ReachedInv(schedule);
      assert schedule + more == schedule;
    } else {
      var n := |more| - 1;
      CancelBeforeStartOpensNothing(schedule, more[..n]);
      ReachedLast(schedule, more);
      StepKeepsBlocked(Reached(schedule + more[..n]), more[n].0, more[n].1);
    }
  }

  class CommandExecution {
    var cancelled: bool
    var channelPublished: bool
    var channelOpened: bool
    var channelClosed: bool
    var canceller: Canceller
    var worker: Worker

    ghost function Contents(): View
      reads this
    {
      View(cancelled, channelPublished, channelOpened, channelClosed, canceller, worker)
    }

    constructor ()
      ensures Contents() == Initial
    {
      cancelled, channelPublished, channelOpened, channelClosed := false, false, false, false;
      canceller, worker := Idle, FirstCheck;
    }

    /** The next access of the cancelling thread. */
    method AdvanceCanceller()
      requires Inv(Contents())
      modifies this
      ensures Contents() == StepCanceller(old(Contents())) && Inv(Contents())
    {
      match canceller
      case Idle =>
        cancelled := true;
        canceller := FlagSet;
      case FlagSet =>
        canceller := ChannelRead(channelPublished);
      case ChannelRead(saw) =>
        if saw {
          channelClosed := true;
        }
        canceller := Finished(saw);
      case Finished(_) =>
    }

    /** The next access of the worker thread. */
    method AdvanceWorker(ok: bool)
      requires Inv(Contents())
      modifies this
      ensures Contents() == StepWorker(old(Contents()), ok) && Inv(Contents())
    {
      match worker
      case FirstCheck =>
        worker := if cancelled then Ended else Opening;
      case Opening =>
        if ok {
          channelOpened := true;
          worker := Publishing;
        } else {
          worker := Ended;
        }
      case Publishing =>
        channelPublished := true;
        worker := SecondCheck;
      case SecondCheck =>
        worker := if cancelled then Closing(false) else Reading;
      case Reading =>
        worker := Closing(true);
      case Closing(_) =>
        channelClosed := true;
        worker := Ended;
      case Ended =>
    }

    /** `cancel` run without interruption. */
    method Cancel()
      requires Inv(Contents()) && canceller.Idle?
      modifies this
      ensures Inv(Contents()) && cancelled && canceller == Finished(old(channelPublished))
      ensures channelClosed <==> old(channelClosed) || old(channelPublished)
      ensures worker == old(worker) && channelOpened == old(channelOpened) && channelPublished == old(channelPublished)
    {
      AdvanceCanceller();
      AdvanceCanceller();
      AdvanceCanceller();
    }
  }

  /** The two threads run on one execution object in any interleaving. */
  method RunThreads(schedule: seq<(Thread, bool)>) returns (e: CommandExecution)
    ensures fresh(e) && e.Contents() == Reached(schedule)
  {
    e := new CommandExecution();
    assert schedule[..0] == [];
    for i := 0 to |schedule|
      invariant fresh(e) && e.Contents() == Reached(schedule[..i]) && Inv(e.Contents())
    {
      CutAt(schedule, i);
      if schedule[i].0.CancelThread? {
        e.AdvanceCanceller();
      } else {
        e.AdvanceWorker(schedule[i].1);
      }
    }
    TakeAll(schedule);
  }
}
