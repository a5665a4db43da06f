/**
 The binary mouse protocol (nanokvm/components/mouse.py): the button mask with its rollback, and the reports. Calls
 do not overlap; the session may be cleared between calls or while a report is being sent. Coordinates are integers,
 after the source's rounding.
 */
module Mouse {
  import opened Common

  datatype Button = Left | Right | Middle | Back | Forward

  function Bit(b: Button): nat {
    match b
    case Left => 1
    case Right => 2
    case Middle => 4
    case Back => 8
    case Forward => 16
  }

  predicate HasBit(mask: nat, b: Button) {
    (mask / Bit(b)) % 2 == 1
  }

  /** `mask | int(button)`: a button is a single bit. */
  function Or(mask: nat, b: Button): nat {
    if HasBit(mask, b) then mask else mask + Bit(b)
  }

  function MaskOf(held: set<Button>): (mask: nat)
    ensures mask < 32
  {
    (if Left in held then 1 else 0) + (if Right in held then 2 else 0) + (if Middle in held then 4 else 0)
    + (if Back in held then 8 else 0) + (if Forward in held then 16 else 0)
  }

  /** A mask has exactly the bits of its buttons, and `|` adds one button to it. */
  lemma MaskBits(held: set<Button>, b: Button)
    ensures HasBit(MaskOf(held), b) <==> b in held
    ensures Or(MaskOf(held), b) == MaskOf(held + {b})
  {
    MaskHasBit(held, b);
    if b !in held {
      assert forall x :: x != b ==> (x in held + {b} <==> x in held);
      match b
      case Left =>
      case Right =>
      case Middle =>
      case Back =>
      case Forward =>
    } else {
      assert held + {b} == held;
    }
  }

  lemma MaskHasBit(held: set<Button>, b: Button)
    ensures HasBit(MaskOf(held), b) <==> b in held
  {
    match b
    case Left =>
    case Right =>
    case Middle =>
    case Back =>
    case Forward =>
  }

  // ------------------------------------------------------------------ reports

  function Clamp(value: int, minimum: int, maximum: int): (r: int)
    requires minimum <= maximum
    ensures minimum <= r <= maximum
    ensures minimum <= value <= maximum ==> r == value
    ensures value < minimum ==> r == minimum
    ensures value > maximum ==> r == maximum
  {
    var low := if maximum < value then maximum else value;
    if minimum > low then minimum else low
  }

  /** `value & 0xFF`. */
  function LowByte(value: int): (b: nat)
    ensures b < 256
  {
    value % 256
  }

  /** `(value >> 8) & 0xFF`. */
  function HighByte(value: int): (b: nat)
    ensures b < 256
  {
    (value / 256) % 256
  }

  function AbsoluteReport(mask: nat, x: int, y: int, wheel: int): seq<nat> {
    [mask, LowByte(x), HighByte(x), LowByte(y), HighByte(y), LowByte(Clamp(wheel, -127, 127))]
  }

  function RelativeReport(mask: nat, dx: int, dy: int, wheel: int): seq<nat> {
    [mask, LowByte(Clamp(dx, -127, 127)), LowByte(Clamp(dy, -127, 127)), LowByte(Clamp(wheel, -127, 127))]
  }

  /** A button or wheel report in the active mouse mode. */
  function ModeReport(absolute: bool, mask: nat, x: int, y: int, wheel: int): seq<nat> {
    if absolute then AbsoluteReport(mask, x, y, wheel) else RelativeReport(mask, 0, 0, wheel)
  }

  /** A byte as the device reads it: two's complement. */
  function Signed(b: nat): int {
    if b < 128 then b else b - 256
  }

  /** The device reads back exactly the clamped movement, and the position when it is in range. */
  lemma ReportsReadBack(mask: nat, x: int, y: int, dx: int, dy: int, wheel: int)
    requires 0 <= x <= 32767 && 0 <= y <= 32767
    ensures var a := AbsoluteReport(mask, x, y, wheel);
            a[0] == mask && a[1] + 256 * a[2] == x && a[3] + 256 * a[4] == y && Signed(a[5]) == Clamp(wheel, -127, 127)
    ensures var r := RelativeReport(mask, dx, dy, wheel);
            r[0] == mask && Signed(r[1]) == Clamp(dx, -127, 127) && Signed(r[2]) == Clamp(dy, -127, 127)
            && Signed(r[3]) == Clamp(wheel, -127, 127)
    ensures forall b :: b in AbsoluteReport(mask, x, y, wheel)[1..] + RelativeReport(mask, dx, dy, wheel)[1..] ==> b < 256
  {
  }

  /** What a mouse message tells the device: the buttons, then a position or a motion, and the wheel. */
  datatype Input = At(mask: nat, x: int, y: int, wheel: int) | By(mask: nat, dx: int, dy: int, wheel: int)

  /** How the device reads a message: positions are two bytes each, low byte first; motions are signed bytes. */
  function Read(message: seq<nat>): Option<Input> {
    if |message| == 7 && message[0] == 2 then
      Some(At(message[1], message[2] + 256 * message[3], message[4] + 256 * message[5], Signed(message[6])))
    else if |message| == 5 && message[0] == 2 then
      Some(By(message[1], Signed(message[2]), Signed(message[3]), Signed(message[4])))
    else None
  }

  lemma PositionIsRead(mask: nat, x: int, y: int, wheel: int)
    requires 0 <= x <= 32767 && 0 <= y <= 32767
    ensures Read([2] + AbsoluteReport(mask, x, y, wheel)) == Some(At(mask, x, y, Clamp(wheel, -127, 127)))
  {
    ReportsReadBack(mask, x, y, 0, 0, wheel);
  }

  lemma MotionIsRead(mask: nat, dx: int, dy: int, wheel: int)
    ensures Read([2] + RelativeReport(mask, dx, dy, wheel))
         == Some(By(mask, Clamp(dx, -127, 127), Clamp(dy, -127, 127), Clamp(wheel, -127, 127)))
  {
    ReportsReadBack(mask, 0, 0, dx, dy, wheel);
  }

  /** In absolute mode a button or wheel report repeats the position, in relative mode it moves nothing. */
  lemma ModeIsRead(absolute: bool, mask: nat, x: int, y: int, wheel: int)
    requires 0 <= x <= 32767 && 0 <= y <= 32767
    ensures Read([2] + ModeReport(absolute, mask, x, y, wheel))
         == Some(if absolute then At(mask, x, y, Clamp(wheel, -127, 127)) else By(mask, 0, 0, Clamp(wheel, -127, 127)))
  {
    PositionIsRead(mask, x, y, wheel);
    MotionIsRead(mask, 0, 0, wheel);
  }

  // ----------------------------------------------------------- what is held

  /**
   What happened to the buttons: a press with whether its report was sent, and whether it was stale, the session
   having been cleared between building the report and writing it; a release; or a cleared session.
   */
  datatype Happening = Pressed(button: Button, sent: bool, stale: bool) | Released | SessionReset

  /** The buttons the client holds: pressed, sent and not stale, with no later release or reset. */
  function Held(trail: seq<Happening>): set<Button> {
    if trail == [] then {}
    else
      var before, last := Held(trail[..|trail| - 1]), trail[|trail| - 1];
      if !last.Pressed? then {} else if last.sent && !last.stale then before + {last.button} else before
  }

  /** The buttons whose press was sent, stale or not, with no later release or reset. */
  function Down(trail: seq<Happening>): set<Button> {
    if trail == [] then {}
    else
      var before, last := Down(trail[..|trail| - 1]), trail[|trail| - 1];
      if !last.Pressed? then {} else if last.sent then before + {last.button} else before
  }

  /** Entry `i` is a press of `b` that was sent, and nothing but presses came after it. */
  ghost predicate SentSince(trail: seq<Happening>, i: nat, b: Button, stale: bool) {
    i < |trail| && trail[i] == Pressed(b, true, stale) && forall j :: i < j < |trail| ==> trail[j].Pressed?
  }

  lemma SentSinceLast(trail: seq<Happening>, i: nat, b: Button, stale: bool)
    requires trail != [] && i < |trail| - 1
    ensures SentSince(trail, i, b, stale) <==> trail[|trail| - 1].Pressed? && SentSince(trail[..|trail| - 1], i, b, stale)
  {
  }

  lemma {:induction false} HeldMeans(trail: seq<Happening>, b: Button)
    ensures b in Held(trail) <==> exists i: nat :: SentSince(trail, i, b, false)
  {
    if trail != [] {
      var n := |trail| - 1;
      HeldMeans(trail[..n], b);
      forall i: nat | i < n
        ensures SentSince(trail, i, b, false) <==> trail[n].Pressed? && SentSince(trail[..n], i, b, false)
      {
        SentSinceLast(trail, i, b, false);
      }
      assert trail[n] == Pressed(b, true, false) ==> SentSince(trail, n, b, false);
    }
  }

  lemma {:induction false} DownMeans(trail: seq<Happening>, b: Button)
    ensures b in Down(trail) <==> exists i: nat, stale :: SentSince(trail, i, b, stale)
  {
    if trail != [] {
      var n := |trail| - 1;
      DownMeans(trail[..n], b);
      forall i: nat, stale | i < n
        ensures SentSince(trail, i, b, stale) <==> trail[n].Pressed? && SentSince(trail[..n], i, b, stale)
      {
        SentSinceLast(trail, i, b, stale);
      }
      assert trail[n].Pressed? && trail[n].sent && trail[n].button == b ==> SentSince(trail, n, b, trail[n].stale);
    }
  }

  lemma MaskInjective(a: set<Button>, b: set<Button>)
    ensures MaskOf(a) == MaskOf(b) <==> a == b
  {
    if MaskOf(a) == MaskOf(b) {
      forall x
        ensures x in a <==> x in b
      {
        MaskBits(a, x);
        MaskBits(b, x);
      }
    }
  }

  /**
   A report's mask is that of the buttons held when it is written, with the ones it presses, exactly when no reset
   came between building and writing it, or nothing else was held.
   */
  lemma ReportAgrees(held: set<Button>, pressed: set<Button>, resets: nat)
    ensures MaskOf(held + pressed) == MaskOf((if resets == 0 then held else {}) + pressed) <==> resets == 0 || held <= pressed
  {
    MaskInjective(held + pressed, (if resets == 0 then held else {}) + pressed);
    assert held <= pressed <==> held + pressed == {} + pressed;
  }

  function Resets(count: nat): (r: seq<Happening>)
    ensures |r| == count
  {
    if count == 0 then [] else Resets(count - 1) + [SessionReset]
  }

  lemma {:induction false} HeldAfterResets(trail: seq<Happening>, count: nat)
    ensures Held(trail + Resets(count)) == if count == 0 then Held(trail) else {}
  {
    if count == 0 {
      assert trail + [] == trail;
    } else {
      var t := trail + Resets(count);
      assert t[|t| - 1] == SessionReset;
    }
  }

  lemma HeldAfter(trail: seq<Happening>, h: Happening)
    ensures Held(trail + [h])
         == if !h.Pressed? then {} else if h.sent && !h.stale then Held(trail) + {h.button} else Held(trail)
  {
    assert (trail + [h])[..|trail|] == trail;
  }

  /** How far a send gets. */
  datatype Fate = NotWritten | WriteFailed | Sent

  /**
   How a send goes: the session is cleared `before` times while it waits for the WebSocket, and `after` times while
   the write is under way.
   */
  datatype Sending = Sending(before: nat, fate: Fate, after: nat)

  /** A report written to the WebSocket, and whether its send succeeded. */
  datatype Attempt = Attempt(message: seq<nat>, sent: bool)

  function Attempts(report: seq<nat>, fate: Fate): seq<Attempt> {
    if fate.NotWritten? then [] else [Attempt([2] + report, fate.Sent?)]
  }

  /** The buttons after a press: nothing is held past a reset, and a stale press never is. */
  lemma HeldAfterPress(trail: seq<Happening>, button: Button, how: Sending)
    ensures Held(trail + Resets(how.before) + [Pressed(button, how.fate.Sent?, how.before > 0)] + Resets(how.after))
         == if how.before + how.after > 0 then {} else if how.fate.Sent? then Held(trail) + {button} else Held(trail)
  {
    var waited := trail + Resets(how.before);
    var press := Pressed(button, how.fate.Sent?, how.before > 0);
    HeldAfterResets(trail, how.before);
    HeldAfter(waited, press);
    HeldAfterResets(waited + [press], how.after);
  }

  lemma HeldAfterRelease(trail: seq<Happening>, how: Sending)
    ensures Held(trail + [Released] + Resets(how.before) + Resets(how.after)) == {}
  {
    HeldAfter(trail, Released);
    HeldAfterResets(trail + [Released], how.before);
    HeldAfterResets(trail + [Released] + Resets(how.before), how.after);
  }

  lemma HeldAfterSend(trail: seq<Happening>, how: Sending)
    ensures Held(trail + Resets(how.before) + Resets(how.after)) == if how.before + how.after > 0 then {} else Held(trail)
  {
    HeldAfterResets(trail, how.before);
    HeldAfterResets(trail + Resets(how.before), how.after);
  }

  lemma {:induction false} DownAfterResets(trail: seq<Happening>, count: nat)
    ensures Down(trail + Resets(count)) == if count == 0 then Down(trail) else {}
  {
    if count == 0 {
      assert trail + [] == trail;
    } else {
      var t := trail + Resets(count);
      assert t[|t| - 1] == SessionReset;
    }
  }

  lemma DownAfter(trail: seq<Happening>, h: Happening)
    ensures Down(trail + [h]) == if !h.Pressed? then {} else if h.sent then Down(trail) + {h.button} else Down(trail)
  {
    assert (trail + [h])[..|trail|] == trail;
  }

  // ------------------------------------------------------------ runs of calls

  /** A call's one message, if it was written, told the device that. */
  predicate Tells(before: seq<Attempt>, after: seq<Attempt>, c: Course, input: Input) {
    if c.detect.completes && !c.how.fate.NotWritten? then
      && |after| == |before| + 1 && after[..|before|] == before
      && after[|before|].sent == c.how.fate.Sent? && Read(after[|before|].message) == Some(input)
    else after == before
  }

  /** An await during which the session may be cleared; it may also raise. */
  datatype Pause = Pause(resets: nat, completes: bool)

  /** How a call goes: first the protocol is detected, then its report is sent. */
  datatype Course = Course(detect: Pause, how: Sending)

  datatype Call =
    | Press(button: Button, course: Course)
    | Release(course: Course)
    | MoveTo(x: int, y: int, course: Course)
    | MoveBy(dx: int, dy: int, course: Course)
    | Scroll(wheel: int, course: Course)
    | ClearSession

  predicate Succeeds(c: Course) {
    c.detect.completes && c.how.fate.Sent?
  }

  /** The session is cleared at some time during the call. */
  predicate Resetting(c: Course) {
    c.detect.resets > 0 || (c.detect.completes && c.how.before + c.how.after > 0)
  }

  /** The report is sent after a reset that came between building and writing it, and none comes later. */
  predicate Stale(c: Course) {
    Succeeds(c) && c.how.before > 0 && c.how.after == 0
  }

  function PressEffect(button: Button, how: Sending): seq<Happening> {
    Resets(how.before) + [Pressed(button, how.fate.Sent?, how.before > 0)] + Resets(how.after)
  }

  /** What a call adds to the trail. */
  function Effect(call: Call): seq<Happening> {
    if call.ClearSession? then [SessionReset]
    else
      var c := call.course;
      Resets(c.detect.resets)
      + if !c.detect.completes then []
        else if call.Press? then PressEffect(call.button, c.how)
        else (if call.Release? then [Released] else []) + Resets(c.how.before) + Resets(c.how.after)
  }

  function TrailOf(calls: seq<Call>): seq<Happening> {
    if calls == [] then [] else TrailOf(calls[..|calls| - 1]) + Effect(calls[|calls| - 1])
  }

  /** The call releases every button, or the session is cleared during it. */
  predicate Clears(call: Call) {
    call.ClearSession? || Resetting(call.course) || (call.Release? && call.course.detect.completes)
  }

  predicate PressesStale(call: Call, b: Button) {
    call.Press? && call.button == b && Stale(call.course)
  }

  predicate PressesNow(call: Call, b: Button) {
    call.Press? && call.button == b && Succeeds(call.course) && !Resetting(call.course)
  }

  /** The button, if any, that was pressed by a stale report and is not in the mask. */
  function Missing(calls: seq<Call>): Option<Button> {
    if calls == [] then None
    else
      var before, call := Missing(calls[..|calls| - 1]), calls[|calls| - 1];
      if Clears(call) then (if call.Press? && Stale(call.course) then Some(call.button) else None)
      else if before.Some? && PressesNow(call, before.value) then None
      else before
  }

  /** It is missing: a stale press of it was the last call to clear, and it has not been pressed again since. */
  lemma {:induction false} MissingMeans(calls: seq<Call>, b: Button)
    ensures Missing(calls) == Some(b) <==> exists i: nat :: MissingFrom(calls, i, b)
  {
    if calls != [] {
      var n := |calls| - 1;
      MissingMeans(calls[..n], b);
      forall i: nat | i < n
        ensures MissingFrom(calls, i, b) <==> MissingFrom(calls[..n], i, b) && !Clears(calls[n]) && !PressesNow(calls[n], b)
      {
        MissingFromLast(calls, i, b);
      }
      assert PressesStale(calls[n], b) ==> MissingFrom(calls, n, b);
    }
  }

  ghost predicate MissingFrom(calls: seq<Call>, i: nat, b: Button) {
    && i < |calls| && PressesStale(calls[i], b)
    && forall j :: i < j < |calls| ==> !Clears(calls[j]) && !PressesNow(calls[j], b)
  }

  lemma MissingFromLast(calls: seq<Call>, i: nat, b: Button)
    requires calls != [] && i < |calls| - 1
    ensures var n := |calls| - 1;
            MissingFrom(calls, i, b) <==> MissingFrom(calls[..n], i, b) && !Clears(calls[n]) && !PressesNow(calls[n], b)
  {
  }

  function Opt(b: Option<Button>): set<Button> {
    if b.Some? then {b.value} else {}
  }

  /** Down and held agree, but for one button. */
  ghost predicate Apart(trail: seq<Happening>, missing: Option<Button>) {
    Down(trail) == Held(trail) + Opt(missing) && (missing.Some? ==> missing.value !in Held(trail))
  }

  lemma ApartAfterResets(trail: seq<Happening>, missing: Option<Button>, count: nat)
    requires Apart(trail, missing)
    ensures Apart(trail + Resets(count), if count == 0 then missing else None)
  {
    HeldAfterResets(trail, count);
    DownAfterResets(trail, count);
  }

  lemma DownAfterPress(trail: seq<Happening>, button: Button, how: Sending)
    ensures Down(trail + Resets(how.before) + [Pressed(button, how.fate.Sent?, how.before > 0)] + Resets(how.after))
         == if how.after > 0 then {}
            else (if how.before > 0 then {} else Down(trail)) + if how.fate.Sent? then {button} else {}
  {
    var waited := trail + Resets(how.before);
    var press := Pressed(button, how.fate.Sent?, how.before > 0);
    DownAfterResets(trail, how.before);
    DownAfter(waited, press);
    DownAfterResets(waited + [press], how.after);
  }

  lemma Assoc3(a: seq<Happening>, b: seq<Happening>, c: seq<Happening>, d: seq<Happening>)
    ensures a + (b + c + d) == a + b + c + d
  {
  }

  lemma ApartAfterPress(trail: seq<Happening>, missing: Option<Button>, button: Button, how: Sending)
    requires Apart(trail, missing)
    ensures Apart(trail + PressEffect(button, how),
              if how.before + how.after > 0 then
                (if how.fate.Sent? && how.before > 0 && how.after == 0 then Some(button) else None)
              else if how.fate.Sent? && missing == Some(button) then None else missing)
  {
    HeldAfterPress(trail, button, how);
    DownAfterPress(trail, button, how);
    Assoc3(trail, Resets(how.before), [Pressed(button, how.fate.Sent?, how.before > 0)], Resets(how.after));
  }

  lemma ApartAfterSend(trail: seq<Happening>, missing: Option<Button>, how: Sending)
    requires Apart(trail, missing)
    ensures Apart(trail + Resets(how.before) + Resets(how.after), if how.before + how.after > 0 then None else missing)
  {
    ApartAfterResets(trail, missing, how.before);
    ApartAfterResets(trail + Resets(how.before), if how.before == 0 then missing else None, how.after);
  }

  lemma ApartAfterRelease(trail: seq<Happening>)
    ensures Apart(trail + [Released], None) && Apart(trail + [SessionReset], None)
  {
    HeldAfter(trail, Released);
    DownAfter(trail, Released);
    HeldAfter(trail, SessionReset);
    DownAfter(trail, SessionReset);
  }

  /** What one call does to the missing button. */
  function MissingAfter(missing: Option<Button>, call: Call): Option<Button> {
    if Clears(call) then (if call.Press? && Stale(call.course) then Some(call.button) else None)
    else if missing.Some? && PressesNow(call, missing.value) then None
    else missing
  }

  /** The trail after a call, part by part. */
  lemma EffectParts(trail: seq<Happening>, call: Call)
    requires !call.ClearSession?
    ensures var c := call.course;
            var seen := trail + Resets(c.detect.resets);
            trail + Effect(call)
            == if !c.detect.completes then seen
               else if call.Press? then seen + PressEffect(call.button, c.how)
               else seen + (if call.Release? then [Released] else []) + Resets(c.how.before) + Resets(c.how.after)
  {
    var c := call.course;
    var seen, resets := trail + Resets(c.detect.resets), Resets(c.detect.resets);
    if !c.detect.completes {
      assert resets + [] == resets;
    } else if call.Press? {
      Assoc(trail, resets, PressEffect(call.button, c.how));
    } else {
      var released := if call.Release? then [Released] else [];
      Assoc(trail, resets, released + Resets(c.how.before) + Resets(c.how.after));
      Assoc3(seen, released, Resets(c.how.before), Resets(c.how.after));
    }
  }

  lemma ApartAfterCall(trail: seq<Happening>, missing: Option<Button>, call: Call)
    requires Apart(trail, missing)
    ensures Apart(trail + Effect(call), MissingAfter(missing, call))
  {
    if call.ClearSession? {
      ApartAfterRelease(trail);
    } else {
      EffectParts(trail, call);
      ApartAfterParts(trail, missing, call);
    }
  }

  lemma ApartAfterParts(trail: seq<Happening>, missing: Option<Button>, call: Call)
    requires Apart(trail, missing) && !call.ClearSession?
    ensures var c := call.course;
            var seen := trail + Resets(c.detect.resets);
            Apart(if !c.detect.completes then seen
                  else if call.Press? then seen + PressEffect(call.button, c.how)
                  else seen + (if call.Release? then [Released] else []) + Resets(c.how.before) + Resets(c.how.after),
                  MissingAfter(missing, call))
  {
    var c := call.course;
    var seen := trail + Resets(c.detect.resets);
    var left := if c.detect.resets == 0 then missing else None;
    ApartAfterResets(trail, missing, c.detect.resets);
    if c.detect.completes {
      if call.Press? {
        ApartAfterPress(seen, left, call.button, c.how);
      } else if call.Release? {
        ApartAfterRelease(seen);
        ApartAfterSend(seen + [Released], None, c.how);
      } else {
        assert seen + [] == seen;
        ApartAfterSend(seen, left, c.how);
      }
    }
  }

  /** After any run of calls at most one button is down that the mask lacks. */
  lemma {:induction false} RunIsApart(calls: seq<Call>)
    ensures Apart(TrailOf(calls), Missing(calls))
  {
    if calls != [] {
      var n := |calls| - 1;
      RunIsApart(calls[..n]);
      ApartAfterCall(TrailOf(calls[..n]), Missing(calls[..n]), calls[n]);
    }
  }

  /**
   The mask is the union of the presses sent since the last release or reset, unless the last call to release or
   reset was a stale press whose button has not been pressed again since.
   */
  lemma UnionUnlessStale(calls: seq<Call>)
    ensures Held(TrailOf(calls)) == Down(TrailOf(calls)) <==> forall i: nat, b :: !MissingFrom(calls, i, b)
  {
    RunIsApart(calls);
    forall b
      ensures Missing(calls) == Some(b) <==> exists i: nat :: MissingFrom(calls, i, b)
    {
      MissingMeans(calls, b);
    }
    var missing := Missing(calls);
    if missing.Some? {
      assert missing == Some(missing.value);
      var i: nat :| MissingFrom(calls, i, missing.value);
      assert missing.value in Down(TrailOf(calls));
    } else {
      forall i: nat, b
        ensures !MissingFrom(calls, i, b)
      {
        assert missing != Some(b);
      }
      assert Held(TrailOf(calls)) + {} == Held(TrailOf(calls));
    }
  }

  /** One call can be enough: a press that waits through a reset is sent, and the mask lacks it. */
  lemma StalePressIsMissing(b: Button)
    ensures var calls := [Press(b, Course(Pause(0, true), Sending(1, Sent, 0)))];
            Held(TrailOf(calls)) == {} && Down(TrailOf(calls)) == {b} && MaskOf(Held(TrailOf(calls))) != MaskOf(Down(TrailOf(calls)))
  {
    var calls := [Press(b, Course(Pause(0, true), Sending(1, Sent, 0)))];
    assert calls[..0] == [];
    RunIsApart(calls);
    assert PressesStale(calls[0], b) && Missing(calls) == Some(b);
    HeldAfterPress([], b, Sending(1, Sent, 0));
    assert TrailOf(calls) == [] + Resets(1) + [Pressed(b, true, true)] + Resets(0);
    MaskInjective({}, {b});
  }

  class MouseController {
    var buttons: nat
    var absolute: bool
    var x: nat
    var y: nat
    var generation: nat
    var attempts: seq<Attempt>
    ghost var trail: seq<Happening>

    /** In every run: the mask is exactly that of the buttons held. */
    ghost predicate Valid()
      reads this
    {
      buttons == MaskOf(Held(trail)) && x <= 32767 && y <= 32767
    }

    constructor ()
      ensures Valid() && trail == [] && attempts == [] && buttons == 0 && !absolute && generation == 0
    {
      buttons, absolute, x, y, generation := 0, false, 0, 0, 0;
      attempts, trail := [], [];
    }

    /** `clear_local_session`, as the mouse sees it. */
    method SessionCleared()
      modifies this`buttons, this`generation, this`trail
      ensures buttons == 0 && generation == old(generation) + 1 && trail == old(trail) + [SessionReset]
    {
      buttons := 0;
      generation := generation + 1;
      trail := trail + [SessionReset];
    }

    method SessionClearedTimes(count: nat)
      modifies this`buttons, this`generation, this`trail
      ensures generation == old(generation) + count && trail == old(trail) + Resets(count)
      ensures buttons == if count == 0 then old(buttons) else 0
    {
      for i := 0 to count
        invariant generation == old(generation) + i && trail == old(trail) + Resets(i)
        invariant buttons == if i == 0 then old(buttons) else 0
      {
        SessionCleared();
        Assoc(old(trail), Resets(i), [SessionReset]);
      }
    }

    /** Sending one report; `pressing` is the button it presses. The session may be cleared before and after the write. */
    method SendMouseReport(report: seq<nat>, ghost pressing: seq<Button>, how: Sending) returns (ok: bool)
      requires |pressing| <= 1
      modifies this`buttons, this`generation, this`trail, this`attempts
      ensures ok == how.fate.Sent? && attempts == old(attempts) + Attempts(report, how.fate)
      ensures generation == old(generation) + how.before + how.after
      ensures trail
           == old(trail) + Resets(how.before)
              + (if pressing == [] then [] else [Pressed(pressing[0], how.fate.Sent?, how.before > 0)]) + Resets(how.after)
      ensures buttons == if how.before + how.after == 0 then old(buttons) else 0
    {
      SessionClearedTimes(how.before);
      if !how.fate.NotWritten? {
        attempts := attempts + [Attempt([2] + report, how.fate.Sent?)];
      }
      trail := trail + if pressing == [] then [] else [Pressed(pressing[0], how.fate.Sent?, how.before > 0)];
      SessionClearedTimes(how.after);
      ok := how.fate.Sent?;
    }

    method ReportForCurrentMode(wheel: int) returns (report: seq<nat>)
      ensures report == ModeReport(absolute, buttons, x, y, wheel)
    {
      report := if absolute then AbsoluteReport(buttons, x, y, wheel) else RelativeReport(buttons, 0, 0, wheel);
    }

    /** The press once the protocol is known. One that was not sent is taken back, unless a newer session has begun. */
    method PressKnown(button: Button, how: Sending) returns (ok: bool)
      requires Valid()
      modifies this
      ensures Valid() && ok == how.fate.Sent? && generation == old(generation) + how.before + how.after
      ensures trail == old(trail) + Resets(how.before) + [Pressed(button, ok, how.before > 0)] + Resets(how.after)
      ensures absolute == old(absolute) && x == old(x) && y == old(y)
      ensures attempts
           == old(attempts) + Attempts(ModeReport(absolute, MaskOf(old(Held(trail)) + {button}), x, y, 0), how.fate)
      ensures Held(trail) == if generation != old(generation) then {} else old(Held(trail)) + if ok then {button} else {}
    {
      var previousButtons := buttons;
      var startGeneration := generation;
      MaskBits(Held(trail), button);
      buttons := Or(buttons, button);
      var pressedButtons := buttons;
      var report := ReportForCurrentMode(0);
      HeldAfterPress(trail, button, how);
      ok := SendMouseReport(report, [button], how);
      if !ok {
        if generation == startGeneration && buttons == pressedButtons {
          buttons := previousButtons;
        }
      }
    }

    /** The release once the protocol is known: every button, whether or not the report is sent. */
    method ReleaseKnown(how: Sending) returns (ok: bool)
      requires Valid()
      modifies this
      ensures Valid() && ok == how.fate.Sent? && buttons == 0 && generation == old(generation) + how.before + how.after
      ensures trail == old(trail) + [Released] + Resets(how.before) + Resets(how.after)
      ensures absolute == old(absolute) && x == old(x) && y == old(y)
      ensures attempts == old(attempts) + Attempts(ModeReport(absolute, 0, x, y, 0), how.fate)
    {
      buttons := 0;
      HeldAfterRelease(trail, how);
      trail := trail + [Released];
      var report := ReportForCurrentMode(0);
      ok := SendMouseReport(report, [], how);
      assert trail == old(trail) + [Released] + Resets(how.before) + Resets(how.after);
    }

    method MoveToKnown(newX: int, newY: int, how: Sending) returns (ok: bool)
      requires Valid()
      modifies this
      ensures Valid() && ok == how.fate.Sent? && absolute && generation == old(generation) + how.before + how.after
      ensures x == Clamp(newX, 0, 32767) && y == Clamp(newY, 0, 32767)
      ensures trail == old(trail) + Resets(how.before) + Resets(how.after)
      ensures attempts == old(attempts) + Attempts(AbsoluteReport(MaskOf(old(Held(trail))), x, y, 0), how.fate)
    {
      absolute := true;
      x, y := Clamp(newX, 0, 32767), Clamp(newY, 0, 32767);
      HeldAfterSend(trail, how);
      ok := SendMouseReport(AbsoluteReport(buttons, x, y, 0), [], how);
      assert trail == old(trail) + Resets(how.before) + Resets(how.after);
    }

    method MoveByKnown(dx: int, dy: int, how: Sending) returns (ok: bool)
      requires Valid()
      modifies this
      ensures Valid() && ok == how.fate.Sent? && !absolute && generation == old(generation) + how.before + how.after
      ensures x == old(x) && y == old(y) && trail == old(trail) + Resets(how.before) + Resets(how.after)
      ensures attempts == old(attempts) + Attempts(RelativeReport(MaskOf(old(Held(trail))), dx, dy, 0), how.fate)
    {
      absolute := false;
      HeldAfterSend(trail, how);
      ok := SendMouseReport(RelativeReport(buttons, dx, dy, 0), [], how);
      assert trail == old(trail) + Resets(how.before) + Resets(how.after);
    }

    method ScrollKnown(wheel: int, how: Sending) returns (ok: bool)
      requires Valid()
      modifies this
      ensures Valid() && ok == how.fate.Sent? && absolute == old(absolute) && x == old(x) && y == old(y)
      ensures trail == old(trail) + Resets(how.before) + Resets(how.after)
      ensures attempts == old(attempts) + Attempts(ModeReport(absolute, MaskOf(old(Held(trail))), x, y, wheel), how.fate)
    {
      var report := ReportForCurrentMode(wheel);
      HeldAfterSend(trail, how);
      ok := SendMouseReport(report, [], how);
      assert trail == old(trail) + Resets(how.before) + Resets(how.after);
    }

    /** An await of something else, during which the session may be cleared and which may raise. */
    method Sleep(pause: Pause) returns (ok: bool)
      requires Valid()
      modifies this`buttons, this`generation, this`trail
      ensures Valid() && ok == pause.completes && trail == old(trail) + Resets(pause.resets)
      ensures generation == old(generation) + pause.resets
      ensures Held(trail) == if pause.resets > 0 then {} else old(Held(trail))
    {
      HeldAfterResets(trail, pause.resets);
      SessionClearedTimes(pause.resets);
      ok := pause.completes;
    }

    /**
     Press a button. Nothing happens when the protocol cannot be detected. A press that was not sent is taken back,
     unless a newer session has begun. From a mask that is the union of the presses sent, the mask stays that union
     if and only if the press is not stale.
     */
    method MouseDown(button: Button, course: Course) returns (ok: bool)
      requires Valid()
      modifies this
      ensures Valid() && ok == Succeeds(course) && trail == old(trail) + Effect(Press(button, course))
      ensures absolute == old(absolute) && x == old(x) && y == old(y)
      ensures attempts
           == old(attempts) + Written(course, ModeReport(absolute, MaskOf(HeldAt(old(Held(trail)), course) + {button}), x, y, 0))
      ensures var mask := MaskOf(HeldAt(old(Held(trail)), course) + {button});
              Tells(old(attempts), attempts, course, if absolute then At(mask, x, y, 0) else By(mask, 0, 0, 0))
      ensures Held(trail) == if course.detect.completes && course.how.before + course.how.after > 0 then {}
                             else HeldAt(old(Held(trail)), course) + if ok then {button} else {}
      ensures old(Held(trail) == Down(trail)) ==> (Held(trail) == Down(trail) <==> !Stale(course))
    {
      ModeIsRead(absolute, MaskOf(HeldAt(Held(trail), course) + {button}), x, y, 0);
      EffectParts(trail, Press(button, course));
      ApartAfterCallOnce(trail, Press(button, course));
      ok := Sleep(course.detect);
      if ok {
        ghost var seen := trail;
        ok := PressKnown(button, course.how);
        Assoc3(seen, Resets(course.how.before), [Pressed(button, ok, course.how.before > 0)], Resets(course.how.after));
      }
    }

    /** Release every button, unless the protocol cannot be detected; whether or not the report is sent. */
    method MouseUp(course: Course) returns (ok: bool)
      requires Valid()
      modifies this
      ensures Valid() && ok == Succeeds(course) && trail == old(trail) + Effect(Release(course))
      ensures absolute == old(absolute) && x == old(x) && y == old(y)
      ensures attempts == old(attempts) + Written(course, ModeReport(absolute, 0, x, y, 0))
      ensures Tells(old(attempts), attempts, course, if absolute then At(0, x, y, 0) else By(0, 0, 0, 0))
      ensures Held(trail) == if course.detect.completes || Resetting(course) then {} else old(Held(trail))
    {
      ModeIsRead(absolute, 0, x, y, 0);
      EffectParts(trail, Release(course));
      ok := Sleep(course.detect);
      if ok {
        ghost var seen := trail;
        HeldAfterRelease(trail, course.how);
        ok := ReleaseKnown(course.how);
      }
    }

    /** Move to a position; it is kept even when the report is not sent. */
    method MouseMoveAbs(newX: int, newY: int, course: Course) returns (ok: bool)
      requires Valid()
      modifies this
      ensures Valid() && ok == Succeeds(course) && trail == old(trail) + Effect(MoveTo(newX, newY, course))
      ensures if course.detect.completes then absolute && x == Clamp(newX, 0, 32767) && y == Clamp(newY, 0, 32767)
              else absolute == old(absolute) && x == old(x) && y == old(y)
      ensures attempts == old(attempts) + Written(course, AbsoluteReport(MaskOf(HeldAt(old(Held(trail)), course)), x, y, 0))
      ensures Tells(old(attempts), attempts, course, At(MaskOf(HeldAt(old(Held(trail)), course)), x, y, 0))
      ensures Held(trail) == if Resetting(course) then {} else old(Held(trail))
    {
      PositionIsRead(MaskOf(HeldAt(Held(trail), course)), Clamp(newX, 0, 32767), Clamp(newY, 0, 32767), 0);
      EffectParts(trail, MoveTo(newX, newY, course));
      ok := Sleep(course.detect);
      if ok {
        ghost var seen := trail;
        HeldAfterSend(trail, course.how);
        ok := MoveToKnown(newX, newY, course.how);
        assert trail == seen + [] + Resets(course.how.before) + Resets(course.how.after) by {
          assert seen + [] == seen;
        }
      }
    }

    method MouseMoveRel(dx: int, dy: int, course: Course) returns (ok: bool)
      requires Valid()
      modifies this
      ensures Valid() && ok == Succeeds(course) && trail == old(trail) + Effect(MoveBy(dx, dy, course))
      ensures absolute == (old(absolute) && !course.detect.completes) && x == old(x) && y == old(y)
      ensures attempts == old(attempts) + Written(course, RelativeReport(MaskOf(HeldAt(old(Held(trail)), course)), dx, dy, 0))
      ensures Tells(old(attempts), attempts, course,
                    By(MaskOf(HeldAt(old(Held(trail)), course)), Clamp(dx, -127, 127), Clamp(dy, -127, 127), 0))
      ensures Held(trail) == if Resetting(course) then {} else old(Held(trail))
    {
      MotionIsRead(MaskOf(HeldAt(Held(trail), course)), dx, dy, 0);
      EffectParts(trail, MoveBy(dx, dy, course));
      ok := Sleep(course.detect);
      if ok {
        ghost var seen := trail;
        HeldAfterSend(trail, course.how);
        ok := MoveByKnown(dx, dy, course.how);
        assert trail == seen + [] + Resets(course.how.before) + Resets(course.how.after) by {
          assert seen + [] == seen;
        }
      }
    }

    method MouseScroll(wheel: int, course: Course) returns (ok: bool)
      requires Valid()
      modifies this
      ensures Valid() && ok == Succeeds(course) && trail == old(trail) + Effect(Scroll(wheel, course))
      ensures absolute == old(absolute) && x == old(x) && y == old(y)
      ensures attempts == old(attempts) + Written(course, ModeReport(absolute, MaskOf(HeldAt(old(Held(trail)), course)), x, y, wheel))
      ensures var mask, turns := MaskOf(HeldAt(old(Held(trail)), course)), Clamp(wheel, -127, 127);
              Tells(old(attempts), attempts, course, if absolute then At(mask, x, y, turns) else By(mask, 0, 0, turns))
      ensures Held(trail) == if Resetting(course) then {} else old(Held(trail))
    {
      ModeIsRead(absolute, MaskOf(HeldAt(Held(trail), course)), x, y, wheel);
      EffectParts(trail, Scroll(wheel, course));
      ok := Sleep(course.detect);
      if ok {
        ghost var seen := trail;
        HeldAfterSend(trail, course.how);
        ok := ScrollKnown(wheel, course.how);
        assert trail == seen + [] + Resets(course.how.before) + Resets(course.how.after) by {
          assert seen + [] == seen;
        }
      }
    }

    /**
     Press and release, after moving to the position if there is one. A press that was sent is always followed by a
     release, whatever becomes of the pause; without a sent press there is none. The release fails to let go only
     when it cannot detect the protocol.
     */
    method MouseClick(button: Button, position: Option<(int, int)>, move: Course, settle: Pause,
                      down: Course, pause: Pause, up: Course)
      returns (ok: bool)
      requires Valid()
      modifies this
      ensures Valid() && old(attempts) <= attempts
      ensures var moved := position.None? || (Succeeds(move) && settle.completes);
              && ok == (moved && Succeeds(down) && pause.completes && Succeeds(up))
              && (if moved && Succeeds(down) then
                    && (up.detect.completes ==> buttons == 0)
                    && (if position.Some? then absolute && x == Clamp(position.value.0, 0, 32767) && y == Clamp(position.value.1, 0, 32767)
                        else absolute == old(absolute) && x == old(x) && y == old(y))
                    && ClickIs(attempts[|old(attempts)|..], old(Held(trail)), position, move, settle, down, button, absolute, x, y, up)
                  else
                    forall i :: |old(attempts)| <= i < |attempts| && attempts[i].sent ==>
                      position.Some? && [attempts[i]] == MoveAttempt(old(Held(trail)), position.value, move))
    {
      ghost var start, held := attempts, Held(trail);
      if position.Some? {
        ok := MoveAndSettle(position.value, move, settle);
        if !ok {
          return;
        }
      }
      ghost var moved := attempts;
      ok := PressAndRelease(button, down, pause, up);
      Appended(start, moved[|start|..], attempts[|moved|..]);
      assert attempts == start + moved[|start|..] + attempts[|moved|..];
      if Succeeds(down) {
        ClickIsTold(attempts[|start|..], held, position, move, settle, down, button, absolute, x, y, up);
      }
    }

    method MoveAndSettle(position: (int, int), move: Course, settle: Pause) returns (ok: bool)
      requires Valid()
      modifies this
      ensures Valid() && ok == (Succeeds(move) && settle.completes)
      ensures attempts == old(attempts) + MoveAttempt(old(Held(trail)), position, move)
      ensures ok ==> absolute && x == Clamp(position.0, 0, 32767) && y == Clamp(position.1, 0, 32767)
      ensures ok ==> Held(trail) == if Resetting(move) || settle.resets > 0 then {} else old(Held(trail))
    {
      ok := MouseMoveAbs(position.0, position.1, move);
      if ok {
        ok := Sleep(settle);
      }
    }

    method PressAndRelease(button: Button, down: Course, pause: Pause, up: Course) returns (ok: bool)
      requires Valid()
      modifies this
      ensures Valid() && ok == (Succeeds(down) && pause.completes && Succeeds(up))
      ensures absolute == old(absolute) && x == old(x) && y == old(y)
      ensures Succeeds(down) ==>
                && (up.detect.completes ==> buttons == 0)
                && attempts == old(attempts) + ([Attempt([2] + ModeReport(absolute, MaskOf(HeldAt(old(Held(trail)), down) + {button}), x, y, 0), true)]
                                                + Written(up, ModeReport(absolute, 0, x, y, 0)))
      ensures !Succeeds(down) ==>
                old(attempts) <= attempts && forall i :: |old(attempts)| <= i < |attempts| ==> !attempts[i].sent
    {
      ok := MouseDown(button, down);
      if !ok {
        return;
      }
      ghost var pressed := attempts;
      var slept := Sleep(pause);
      var released := MouseUp(up);
      ok := slept && released;
      Assoc(old(attempts), pressed[|old(attempts)|..], attempts[|pressed|..]);
    }

    method Perform(call: Call)
      requires Valid()
      modifies this
      ensures Valid() && trail == old(trail) + Effect(call)
    {
      match call
      case Press(b, c) => var _ := MouseDown(b, c);
      case Release(c) => var _ := MouseUp(c);
      case MoveTo(newX, newY, c) => var _ := MouseMoveAbs(newX, newY, c);
      case MoveBy(dx, dy, c) => var _ := MouseMoveRel(dx, dy, c);
      case Scroll(wheel, c) => var _ := MouseScroll(wheel, c);
      case ClearSession =>
        HeldAfter(trail, SessionReset);
        SessionCleared();
    }
  }

  /** A client through any run of calls: its mask is the union of the presses sent exactly when none of them is missing. */
  method Run(calls: seq<Call>) returns (m: MouseController)
    ensures fresh(m) && m.Valid() && m.trail == TrailOf(calls)
    ensures m.buttons == MaskOf(Down(TrailOf(calls))) <==> forall i: nat, b :: !MissingFrom(calls, i, b)
  {
    m := new MouseController();
    assert calls[..0] == [];
    for i := 0 to |calls|
      invariant fresh(m) && m.Valid() && m.trail == TrailOf(calls[..i])
    {
      CutAt(calls, i);
      m.Perform(calls[i]);
    }
    TakeAll(calls);
    UnionUnlessStale(calls);
    MaskInjective(Held(TrailOf(calls)), Down(TrailOf(calls)));
  }

  /** The buttons held when the report is built, the protocol having been detected. */
  function HeldAt(held: set<Button>, c: Course): set<Button> {
    if c.detect.resets > 0 then {} else held
  }

  function Written(c: Course, report: seq<nat>): seq<Attempt> {
    if c.detect.completes then Attempts(report, c.how.fate) else []
  }

  /** A click told the device the position first, if it moved; then the press; then the release, if that was written. */
  predicate ClickTells(told: seq<Attempt>, moved: bool, before: nat, pressed: nat, absolute: bool, x: int, y: int, released: bool) {
    var press := if moved then 1 else 0;
    && |told| == press + (if released then 2 else 1)
    && (moved ==> told[0].sent && Read(told[0].message) == Some(At(before, x, y, 0)))
    && told[press].sent && Read(told[press].message) == Some(if absolute then At(pressed, x, y, 0) else By(pressed, 0, 0, 0))
    && (released ==> Read(told[press + 1].message) == Some(if absolute then At(0, x, y, 0) else By(0, 0, 0, 0)))
  }

  lemma Appended(start: seq<Attempt>, move: seq<Attempt>, rest: seq<Attempt>)
    ensures start <= start + move + rest && (start + move + rest)[|start|..] == move + rest
    ensures forall i :: |start| <= i < |start + move + rest| ==>
              (start + move + rest)[i] == if i < |start| + |move| then move[i - |start|] else rest[i - |start| - |move|]
  {
  }

  /** The attempts of a click whose press was sent, and what they told the device. */
  predicate ClickIs(told: seq<Attempt>, held: set<Button>, position: Option<(int, int)>, move: Course, settle: Pause,
                    down: Course, button: Button, absolute: bool, x: int, y: int, up: Course)
  {
    var pressed := MaskOf(HeldAt(Settled(held, position.Some?, move, settle), down) + {button});
    && told == ClickAttempts(held, position, move, pressed, absolute, x, y, up)
    && ClickTells(told, position.Some?, MaskOf(HeldAt(held, move)), pressed, absolute, x, y,
                  up.detect.completes && !up.how.fate.NotWritten?)
  }

  function ClickAttempts(held: set<Button>, position: Option<(int, int)>, move: Course, pressed: nat,
                         absolute: bool, x: int, y: int, up: Course): seq<Attempt>
  {
    (if position.None? then [] else MoveAttempt(held, position.value, move))
    + ([Attempt([2] + ModeReport(absolute, pressed, x, y, 0), true)] + Written(up, ModeReport(absolute, 0, x, y, 0)))
  }

  lemma ClickIsTold(told: seq<Attempt>, held: set<Button>, position: Option<(int, int)>, move: Course, settle: Pause,
                    down: Course, button: Button, absolute: bool, x: int, y: int, up: Course)
    requires 0 <= x <= 32767 && 0 <= y <= 32767
    requires position.Some? ==>
               Succeeds(move) && x == Clamp(position.value.0, 0, 32767) && y == Clamp(position.value.1, 0, 32767)
    requires told == ClickAttempts(held, position, move, MaskOf(HeldAt(Settled(held, position.Some?, move, settle), down) + {button}),
                                   absolute, x, y, up)
    ensures ClickIs(told, held, position, move, settle, down, button, absolute, x, y, up)
  {
    PositionIsRead(MaskOf(HeldAt(held, move)), x, y, 0);
    ModeIsRead(absolute, MaskOf(HeldAt(Settled(held, position.Some?, move, settle), down) + {button}), x, y, 0);
    ModeIsRead(absolute, 0, x, y, 0);
  }

  /** The buttons held after the move of a click, if it moves. */
  function Settled(held: set<Button>, moves: bool, move: Course, settle: Pause): set<Button> {
    if moves && (Resetting(move) || settle.resets > 0) then {} else held
  }

  function MoveAttempt(held: set<Button>, position: (int, int), c: Course): seq<Attempt> {
    Written(c, AbsoluteReport(MaskOf(HeldAt(held, c)), Clamp(position.0, 0, 32767), Clamp(position.1, 0, 32767), 0))
  }

  lemma ApartAfterCallOnce(trail: seq<Happening>, call: Call)
    ensures Held(trail) == Down(trail) && call.Press? ==>
              (Held(trail + Effect(call)) == Down(trail + Effect(call)) <==> !Stale(call.course))
  {
    if Held(trail) == Down(trail) {
      ApartAfterCall(trail, None, call);
    }
  }
}
