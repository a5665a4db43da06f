/** The line helpers of nanokvm/webrtc.py: media kinds, MIDs, BUNDLE and transport lines. */
module MediaLines {
  import opened Common
  import opened Text
  import opened Sdp

  datatype MediaKind = Audio | Video

  /** What the SDP functions raise. `BlankMediaLine` is the IndexError of an `m=` line with no media token. */
  datatype SdpError =
    | BlankMediaLine
    | NoAnswers
    | MissingAnswer(kind: MediaKind)
    | NoMediaSection(kind: MediaKind)

  const MID := "a=mid:"
  const BUNDLE := "a=group:BUNDLE"
  const BUNDLE_ZERO := "a=group:BUNDLE 0"
  const TRANSPORT: seq<string> :=
    ["a=ice-ufrag:", "a=ice-pwd:", "a=ice-options:", "a=fingerprint:", "a=setup:"]

  // ---------------------------------------------------------------- kinds

  function KindNamed(token: string): Option<MediaKind> {
    if token == "audio" then Some(Audio) else if token == "video" then Some(Video) else None
  }

  function MediaKindOf(lines: seq<Line>): Result<Option<MediaKind>, SdpError> {
    if lines == [] || !StartsWith(lines[0], "m=") then Ok(None)
    else
      match FirstToken(lines[0][2..])
      case None => Err(BlankMediaLine)
      case Some(token) => Ok(KindNamed(token))
  }

  predicate IsOfKind(lines: seq<Line>, kind: MediaKind) {
    MediaKindOf(lines) == Ok(Some(kind))
  }

  // -------------------------------------------------------- line selection

  function WithPrefix(ls: seq<Line>, prefix: string): seq<Line> {
    if ls == [] then []
    else if StartsWith(ls[0], prefix) then [ls[0]] + WithPrefix(ls[1..], prefix)
    else WithPrefix(ls[1..], prefix)
  }

  predicate StartsWithAny(l: Line, prefixes: seq<string>) {
    exists i :: 0 <= i < |prefixes| && StartsWith(l, prefixes[i])
  }

  lemma StartsWithOne(l: Line, prefix: string)
    ensures StartsWithAny(l, [prefix]) <==> StartsWith(l, prefix)
  {
    assert [prefix][0] == prefix;
  }

  /** The lines that start with none of the prefixes, in order. */
  function WithoutAny(ls: seq<Line>, prefixes: seq<string>): seq<Line> {
    if ls == [] then []
    else if StartsWithAny(ls[0], prefixes) then WithoutAny(ls[1..], prefixes)
    else [ls[0]] + WithoutAny(ls[1..], prefixes)
  }

  lemma {:induction false} WithPrefixAppend(a: seq<Line>, b: seq<Line>, prefix: string)
    ensures WithPrefix(a + b, prefix) == WithPrefix(a, prefix) + WithPrefix(b, prefix)
  {
    if a == [] {
      assert a + b == b;
    } else {
      WithPrefixAppend(a[1..], b, prefix);
      assert (a + b)[1..] == a[1..] + b && (a + b)[0] == a[0];
    }
  }

  lemma {:induction false} WithoutAnyAppend(a: seq<Line>, b: seq<Line>, prefixes: seq<string>)
    ensures WithoutAny(a + b, prefixes) == WithoutAny(a, prefixes) + WithoutAny(b, prefixes)
  {
    if a == [] {
      assert a + b == b;
    } else {
      WithoutAnyAppend(a[1..], b, prefixes);
      assert (a + b)[1..] == a[1..] + b && (a + b)[0] == a[0];
    }
  }

  lemma {:induction false} WithPrefixMembers(ls: seq<Line>, prefix: string)
    ensures forall l :: l in WithPrefix(ls, prefix) <==> l in ls && StartsWith(l, prefix)
    ensures |WithPrefix(ls, prefix)| <= |ls|
  {
    if ls != [] {
      WithPrefixMembers(ls[1..], prefix);
      assert ls == [ls[0]] + ls[1..];
    }
  }

  lemma {:induction false} WithoutAnyMembers(ls: seq<Line>, prefixes: seq<string>)
    ensures forall l :: l in WithoutAny(ls, prefixes) <==> l in ls && !StartsWithAny(l, prefixes)
  {
    if ls != [] {
      WithoutAnyMembers(ls[1..], prefixes);
      assert ls == [ls[0]] + ls[1..];
    }
  }

  // ----------------------------------------------------------------- MIDs

  predicate IsMid(l: Line) {
    StartsWith(l, MID)
  }

  predicate HasMid(lines: seq<Line>) {
    exists i :: 0 <= i < |lines| && IsMid(lines[i])
  }

  /** The first `a=mid:` value, or the fallback (section 4 of RFC 5888). */
  function MediaMid(lines: seq<Line>, fallback: string): string {
    if lines == [] then fallback
    else if IsMid(lines[0]) then lines[0][|MID|..]
    else MediaMid(lines[1..], fallback)
  }

  function MapMid(lines: seq<Line>, mid: string): (r: seq<Line>)
    ensures |r| == |lines|
    ensures forall i :: 0 <= i < |r| ==> r[i] == if IsMid(lines[i]) then MID + mid else lines[i]
  {
    if lines == [] then []
    else [if IsMid(lines[0]) then MID + mid else lines[0]] + MapMid(lines[1..], mid)
  }

  function ReplaceMid(lines: seq<Line>, mid: string): seq<Line> {
    if !HasMid(lines) then lines + [MID + mid] else MapMid(lines, mid)
  }

  lemma MidLine(mid: string)
    ensures IsMid(MID + mid) && (MID + mid)[|MID|..] == mid
    ensures !IsMediaLine(MID + mid)
    ensures !StartsWithAny(MID + mid, TRANSPORT)
    ensures !StartsWith(MID + mid, BUNDLE)
  {
    var l := MID + mid;
    assert l[0] == 'a' && l[2] == 'm' && l[..|MID|] == MID;
    assert "m="[0] == 'm';
    forall i | 0 <= i < |TRANSPORT|
      ensures !StartsWith(l, TRANSPORT[i])
    {
      assert TRANSPORT[i][2] != 'm';
    }
    assert BUNDLE[2] != 'm';
  }

  lemma {:induction false} MediaMidOf(lines: seq<Line>, mid: string, fallback: string)
    requires HasMid(lines)
    requires forall i :: 0 <= i < |lines| && IsMid(lines[i]) ==> lines[i] == MID + mid
    ensures MediaMid(lines, fallback) == mid
  {
    MidLine(mid);
    if !IsMid(lines[0]) {
      assert forall i :: 0 <= i < |lines[1..]| ==> lines[1..][i] == lines[i + 1];
      assert HasMid(lines[1..]) by {
        var i :| 0 <= i < |lines| && IsMid(lines[i]);
        assert lines[1..][i - 1] == lines[i];
      }
      MediaMidOf(lines[1..], mid, fallback);
    } else {
      assert lines[0] == MID + mid;
    }
  }

  lemma {:induction false} MapMidKeepsOthers(lines: seq<Line>, mid: string)
    ensures WithoutAny(MapMid(lines, mid), [MID]) == WithoutAny(lines, [MID])
  {
    if lines != [] {
      MapMidKeepsOthers(lines[1..], mid);
      MidLine(mid);
      var r := MapMid(lines, mid);
      assert r[1..] == MapMid(lines[1..], mid);
      assert [MID][0] == MID;
      assert StartsWithAny(r[0], [MID]) <==> StartsWithAny(lines[0], [MID]);
    }
  }

  /** After a replacement there is at least one MID, every MID is the new one, and nothing else changed. */
  lemma ReplaceMidExact(lines: seq<Line>, mid: string, fallback: string)
    ensures var r := ReplaceMid(lines, mid);
            && HasMid(r)
            && (forall i :: 0 <= i < |r| && IsMid(r[i]) ==> r[i] == MID + mid)
            && MediaMid(r, fallback) == mid
            && WithoutAny(r, [MID]) == WithoutAny(lines, [MID])
            && |r| == |lines| + (if HasMid(lines) then 0 else 1)
  {
    var r := ReplaceMid(lines, mid);
    if !HasMid(lines) {
      AddedMid(lines, mid);
    } else {
      MappedMid(lines, mid);
    }
    MediaMidOf(r, mid, fallback);
  }

  lemma AddedMid(lines: seq<Line>, mid: string)
    requires !HasMid(lines)
    ensures var r := lines + [MID + mid];
            && HasMid(r) && (forall i :: 0 <= i < |r| && IsMid(r[i]) ==> r[i] == MID + mid)
            && WithoutAny(r, [MID]) == WithoutAny(lines, [MID])
  {
    MidLine(mid);
    var r := lines + [MID + mid];
    assert r[|lines|] == MID + mid;
    WithoutAnyAppend(lines, [MID + mid], [MID]);
    assert StartsWithAny(MID + mid, [MID]) by {
      assert [MID][0] == MID;
    }
    assert WithoutAny([MID + mid], [MID]) == [];
  }

  lemma MappedMid(lines: seq<Line>, mid: string)
    requires HasMid(lines)
    ensures var r := MapMid(lines, mid);
            && HasMid(r) && (forall i :: 0 <= i < |r| && IsMid(r[i]) ==> r[i] == MID + mid)
            && WithoutAny(r, [MID]) == WithoutAny(lines, [MID])
  {
    MidLine(mid);
    var i :| 0 <= i < |lines| && IsMid(lines[i]);
    assert IsMid(MapMid(lines, mid)[i]);
    MapMidKeepsOthers(lines, mid);
  }

  lemma MapMidTwice(lines: seq<Line>, first: string, second: string)
    ensures MapMid(MapMid(lines, first), second) == MapMid(lines, second)
  {
    MidLine(first);
    var a, b := MapMid(MapMid(lines, first), second), MapMid(lines, second);
    assert forall i :: 0 <= i < |a| ==> a[i] == b[i];
  }

  /** Replacing twice keeps only the second MID. */
  lemma ReplaceMidTwice(lines: seq<Line>, first: string, second: string)
    ensures ReplaceMid(ReplaceMid(lines, first), second) == ReplaceMid(lines, second)
  {
    ReplaceMidExact(lines, first, "");
    if HasMid(lines) {
      MapMidTwice(lines, first, second);
    } else {
      MapAddedMid(lines, first, second);
    }
  }

  lemma MapAddedMid(lines: seq<Line>, first: string, second: string)
    requires !HasMid(lines)
    ensures MapMid(lines + [MID + first], second) == lines + [MID + second]
  {
    MidLine(first);
    var r := lines + [MID + first];
    var a, b := MapMid(r, second), lines + [MID + second];
    assert |a| == |b|;
    forall i | 0 <= i < |a|
      ensures a[i] == b[i]
    {
      assert i < |lines| ==> r[i] == lines[i] && !IsMid(lines[i]);
    }
  }

  /** The rewritten section is still a section of good lines, opened by the same `m=` line. */
  lemma ReplaceMidShape(lines: seq<Line>, mid: string)
    requires SectionShape(lines) && GoodLines(lines) && NewlineFree(mid)
    ensures SectionShape(ReplaceMid(lines, mid)) && GoodLines(ReplaceMid(lines, mid))
    ensures ReplaceMid(lines, mid)[0] == lines[0]
    ensures MediaKindOf(ReplaceMid(lines, mid)) == MediaKindOf(lines)
  {
    MidLine(mid);
    assert GoodLine(MID + mid) by {
      assert NewlineFree(MID);
    }
    assert !IsMid(lines[0]) by {
      assert lines[0][0] == 'm' && MID[0] == 'a';
    }
  }

  // --------------------------------------------------------- BUNDLE lines

  predicate IsBundle(l: Line) {
    StartsWith(l, BUNDLE)
  }

  function SingleMediaSession(ls: seq<Line>): seq<Line> {
    if ls == [] then []
    else
      var filtered, l := SingleMediaSession(ls[..|ls| - 1]), ls[|ls| - 1];
      if !IsBundle(l) then filtered + [l]
      else if BUNDLE_ZERO !in filtered then filtered + [BUNDLE_ZERO]
      else filtered
  }

  predicate HasBundle(ls: seq<Line>) {
    exists i :: 0 <= i < |ls| && IsBundle(ls[i])
  }

  /** Without a BUNDLE line the session part is unchanged. */
  lemma {:induction false} SingleMediaSessionUnbundled(ls: seq<Line>)
    requires !HasBundle(ls)
    ensures SingleMediaSession(ls) == ls
  {
    if ls != [] {
      var n := |ls| - 1;
      assert forall j :: 0 <= j < n ==> ls[..n][j] == ls[j];
      SingleMediaSessionUnbundled(ls[..n]);
      assert ls == ls[..n] + [ls[n]];
    }
  }

  /** With one, `a=group:BUNDLE 0` takes the place of the first and every other BUNDLE line is gone. */
  lemma {:induction false} SingleMediaSessionBundled(ls: seq<Line>, i: nat)
    requires i < |ls| && IsBundle(ls[i]) && !HasBundle(ls[..i])
    ensures SingleMediaSession(ls) == ls[..i] + [BUNDLE_ZERO] + WithoutAny(ls[i + 1..], [BUNDLE])
  {
    var n := |ls| - 1;
    var front, l := ls[..n], ls[n];
    if i == n {
      SingleMediaSessionUnbundled(front);
      assert IsBundle(BUNDLE_ZERO) && forall b :: b in front ==> !IsBundle(b);
      assert ls[i + 1..] == [] && front + [BUNDLE_ZERO] + [] == front + [BUNDLE_ZERO];
    } else {
      var tail := front[i + 1..];
      assert front[..i] == ls[..i] && ls[i + 1..] == tail + [l];
      SingleMediaSessionBundled(front, i);
      WithoutBundleLast(tail, l);
      var head := ls[..i] + [BUNDLE_ZERO];
      assert head[i] == BUNDLE_ZERO;
      assert BUNDLE_ZERO in head + WithoutAny(tail, [BUNDLE]);
      Assoc(head, WithoutAny(tail, [BUNDLE]), [l]);
    }
  }

  lemma WithoutBundleLast(tail: seq<Line>, l: Line)
    ensures WithoutAny(tail + [l], [BUNDLE])
         == if IsBundle(l) then WithoutAny(tail, [BUNDLE]) else WithoutAny(tail, [BUNDLE]) + [l]
  {
    WithoutAnyAppend(tail, [l], [BUNDLE]);
    StartsWithOne(l, BUNDLE);
    var kept := WithoutAny(tail, [BUNDLE]);
    assert WithoutAny([l], [BUNDLE]) == (if IsBundle(l) then [] else [l]) && kept + [] == kept;
  }

  lemma {:induction false} FirstBundle(ls: seq<Line>) returns (i: nat)
    requires HasBundle(ls)
    ensures i < |ls| && IsBundle(ls[i]) && !HasBundle(ls[..i])
  {
    i := 0;
    while !IsBundle(ls[i])
      invariant i < |ls| && !HasBundle(ls[..i])
      decreases |ls| - i
    {
      assert forall k :: 0 <= k < i ==> ls[..i][k] == ls[k];
      assert forall k :: 0 <= k < i + 1 ==> !IsBundle(ls[k]);
      assert forall k :: 0 <= k < i ==> ls[..i + 1][k] == ls[..i][k];
      i := i + 1;
    }
  }

  lemma BundleReplaced(head: seq<Line>, bundle: Line, tail: seq<Line>)
    requires IsBundle(bundle) && !HasBundle(head)
    ensures var r := head + [BUNDLE_ZERO] + WithoutAny(tail, [BUNDLE]);
            && WithPrefix(r, BUNDLE) == [BUNDLE_ZERO]
            && WithoutAny(r, [BUNDLE]) == WithoutAny(head + [bundle] + tail, [BUNDLE])
  {
    assert [BUNDLE][0] == BUNDLE;
    assert StartsWithAny(BUNDLE_ZERO, [BUNDLE]) && StartsWithAny(bundle, [BUNDLE]);
    var rest := WithoutAny(tail, [BUNDLE]);
    WithoutAnyAppend(head + [BUNDLE_ZERO], rest, [BUNDLE]);
    WithoutAnyAppend(head, [BUNDLE_ZERO], [BUNDLE]);
    WithoutAnyAppend(head + [bundle], tail, [BUNDLE]);
    WithoutAnyAppend(head, [bundle], [BUNDLE]);
    WithoutAnyTwice(tail, [BUNDLE]);
    WithPrefixAppend(head + [BUNDLE_ZERO], rest, BUNDLE);
    WithPrefixAppend(head, [BUNDLE_ZERO], BUNDLE);
    WithPrefixOfNone(head, BUNDLE);
    WithoutAnyMembers(tail, [BUNDLE]);
    forall k | 0 <= k < |rest|
      ensures !StartsWith(rest[k], BUNDLE)
    {
      assert rest[k] in rest;
      StartsWithOne(rest[k], BUNDLE);
    }
    WithPrefixOfNone(rest, BUNDLE);
    assert WithPrefix([BUNDLE_ZERO], BUNDLE) == [BUNDLE_ZERO];
  }

  /** The single-section session part has exactly one BUNDLE line when there was one, and keeps the rest. */
  lemma SingleMediaSessionKeeps(ls: seq<Line>)
    ensures WithPrefix(SingleMediaSession(ls), BUNDLE) == if HasBundle(ls) then [BUNDLE_ZERO] else []
    ensures WithoutAny(SingleMediaSession(ls), [BUNDLE]) == WithoutAny(ls, [BUNDLE])
    ensures forall l :: l in SingleMediaSession(ls) ==> l in ls || l == BUNDLE_ZERO
  {
    if HasBundle(ls) {
      var i := FirstBundle(ls);
      SingleMediaSessionBundled(ls, i);
      BundleReplaced(ls[..i], ls[i], ls[i + 1..]);
      assert ls == ls[..i] + [ls[i]] + ls[i + 1..];
      WithoutAnyMembers(ls[i + 1..], [BUNDLE]);
    } else {
      SingleMediaSessionUnbundled(ls);
      WithPrefixOfNone(ls, BUNDLE);
    }
  }

  lemma {:induction false} WithPrefixOfNone(ls: seq<Line>, prefix: string)
    requires forall i :: 0 <= i < |ls| ==> !StartsWith(ls[i], prefix)
    ensures WithPrefix(ls, prefix) == []
  {
    if ls != [] {
      WithPrefixOfNone(ls[1..], prefix);
    }
  }

  lemma {:induction false} WithoutAnyTwice(ls: seq<Line>, prefixes: seq<string>)
    ensures WithoutAny(WithoutAny(ls, prefixes), prefixes) == WithoutAny(ls, prefixes)
  {
    if ls != [] {
      WithoutAnyTwice(ls[1..], prefixes);
    }
  }

  // ------------------------------------------------------ transport lines

  /** `next((p for p in prefixes if line.startswith(p)), None)`. */
  function TransportPrefix(l: Line, prefixes: seq<string> := TRANSPORT): Option<string> {
    if prefixes == [] then None
    else if StartsWith(l, prefixes[0]) then Some(prefixes[0])
    else TransportPrefix(l, prefixes[1..])
  }

  lemma {:induction false} TransportPrefixFinds(l: Line, prefixes: seq<string>)
    ensures var r := TransportPrefix(l, prefixes);
            && (r.Some? <==> StartsWithAny(l, prefixes))
            && (r.Some? ==> r.value in prefixes && StartsWith(l, r.value))
  {
    if prefixes != [] {
      assert StartsWith(l, prefixes[0]) ==> StartsWithAny(l, prefixes);
      TransportPrefixFinds(l, prefixes[1..]);
      assert forall i :: 1 <= i < |prefixes| ==> prefixes[i] == prefixes[1..][i - 1];
    }
  }

  lemma TransportPrefixesDistinct(l: Line, i: nat, j: nat)
    requires i < |TRANSPORT| && j < |TRANSPORT|
    requires StartsWith(l, TRANSPORT[i]) && StartsWith(l, TRANSPORT[j])
    ensures i == j
  {
    var a, b := TRANSPORT[i], TRANSPORT[j];
    assert |a| > 6 && |b| > 6;
    assert a[2] == l[2] == b[2] && a[6] == l[6] == b[6];
    assert "a=ice-ufrag:"[6] == 'u' && "a=ice-pwd:"[6] == 'p' && "a=ice-options:"[6] == 'o';
    assert "a=fingerprint:"[2] == 'f' && "a=setup:"[2] == 's' && "a=ice-ufrag:"[2] == 'i';
    assert "a=ice-pwd:"[2] == 'i' && "a=ice-options:"[2] == 'i';
  }

  /** No transport prefix is a prefix of another, so a line carries at most one. */
  lemma TransportPrefixUnique(l: Line, p: string)
    ensures TransportPrefix(l) == Some(p) <==> p in TRANSPORT && StartsWith(l, p)
  {
    TransportPrefixFinds(l, TRANSPORT);
    if p in TRANSPORT && StartsWith(l, p) {
      var i :| 0 <= i < |TRANSPORT| && TRANSPORT[i] == p;
      assert StartsWithAny(l, TRANSPORT);
      var j :| 0 <= j < |TRANSPORT| && TRANSPORT[j] == TransportPrefix(l).value;
      TransportPrefixesDistinct(l, i, j);
    }
  }

  function SeenPrefixes(lines: seq<Line>): set<string> {
    set p | p in TRANSPORT && exists i :: 0 <= i < |lines| && StartsWith(lines[i], p)
  }

  /** The session-level lines that are moved: the first one of each prefix not seen yet. */
  function Moved(session: seq<Line>, seen: set<string>): seq<Line> {
    if session == [] then []
    else
      match TransportPrefix(session[0])
      case None => Moved(session[1..], seen)
      case Some(p) =>
        if p in seen then Moved(session[1..], seen)
        else [session[0]] + Moved(session[1..], seen + {p})
  }

  function WithTransport(media: seq<Line>, session: seq<Line>): seq<Line> {
    media + Moved(session, SeenPrefixes(media))
  }

  function FirstOf(ls: seq<Line>): seq<Line> {
    if ls == [] then [] else [ls[0]]
  }

  lemma {:induction false} MovedExact(session: seq<Line>, seen: set<string>, p: string)
    requires p in TRANSPORT
    ensures WithPrefix(Moved(session, seen), p) ==
            if p in seen then [] else FirstOf(WithPrefix(session, p))
  {
    if session != [] {
      var l := session[0];
      TransportPrefixUnique(l, p);
      match TransportPrefix(l)
      case None =>
        MovedExact(session[1..], seen, p);
      case Some(q) =>
        TransportPrefixUnique(l, q);
        if q in seen {
          MovedExact(session[1..], seen, p);
        } else {
          MovedExact(session[1..], seen + {q}, p);
          var rest := Moved(session[1..], seen + {q});
          WithPrefixAppend([l], rest, p);
          assert WithPrefix([l], p) == if StartsWith(l, p) then [l] else [];
        }
    }
  }

  lemma {:induction false} MovedMembers(session: seq<Line>, seen: set<string>)
    ensures forall l :: l in Moved(session, seen) ==> l in session && StartsWithAny(l, TRANSPORT)
  {
    if session != [] {
      match TransportPrefix(session[0])
      case None => MovedMembers(session[1..], seen);
      case Some(p) =>
        TransportPrefixUnique(session[0], p);
        MovedMembers(session[1..], seen);
        MovedMembers(session[1..], seen + {p});
        var i :| 0 <= i < |TRANSPORT| && TRANSPORT[i] == p;
        assert StartsWithAny(session[0], TRANSPORT);
    }
  }

  /**
   For each transport prefix, a section keeps its own lines when it has any; otherwise it gets the first
   session-level one and no more. Every other line of the section stays in place.
   */
  lemma WithTransportExact(media: seq<Line>, session: seq<Line>, p: string)
    requires p in TRANSPORT
    ensures WithPrefix(WithTransport(media, session), p) ==
            if WithPrefix(media, p) != [] then WithPrefix(media, p) else FirstOf(WithPrefix(session, p))
    ensures WithoutAny(WithTransport(media, session), TRANSPORT) == WithoutAny(media, TRANSPORT)
  {
    var seen := SeenPrefixes(media);
    MovedExact(session, seen, p);
    WithPrefixAppend(media, Moved(session, seen), p);
    WithPrefixMembers(media, p);
    if p in seen {
      var i :| 0 <= i < |media| && StartsWith(media[i], p);
      assert media[i] in WithPrefix(media, p);
    } else {
      WithPrefixOfNone(media, p);
    }
    MovedMembers(session, seen);
    WithoutAnyAppend(media, Moved(session, seen), TRANSPORT);
    WithoutAnyOfAll(Moved(session, seen), TRANSPORT);
  }

  lemma {:induction false} WithoutAnyOfAll(ls: seq<Line>, prefixes: seq<string>)
    requires forall l :: l in ls ==> StartsWithAny(l, prefixes)
    ensures WithoutAny(ls, prefixes) == []
  {
    if ls != [] {
      WithoutAnyOfAll(ls[1..], prefixes);
    }
  }

  /** Moving transport lines in keeps the section shape, its `m=` line and its MIDs. */
  lemma WithTransportShape(media: seq<Line>, session: seq<Line>, fallback: string)
    requires SectionShape(media) && GoodLines(media) && GoodLines(session)
    ensures SectionShape(WithTransport(media, session)) && GoodLines(WithTransport(media, session))
    ensures MediaKindOf(WithTransport(media, session)) == MediaKindOf(media)
    ensures HasMid(media) ==> MediaMid(WithTransport(media, session), fallback) == MediaMid(media, fallback)
  {
    var moved := Moved(session, SeenPrefixes(media));
    MovedMembers(session, SeenPrefixes(media));
    forall i | 0 <= i < |moved|
      ensures !IsMediaLine(moved[i]) && GoodLine(moved[i])
    {
      assert moved[i] in session;
      var j :| 0 <= j < |TRANSPORT| && StartsWith(moved[i], TRANSPORT[j]);
      assert moved[i][0] == TRANSPORT[j][0] == 'a';
    }
    if HasMid(media) {
      MediaMidPrefix(media, moved, fallback);
    }
  }

  lemma {:induction false} MediaMidPrefix(a: seq<Line>, b: seq<Line>, fallback: string)
    requires HasMid(a)
    ensures MediaMid(a + b, fallback) == MediaMid(a, fallback)
  {
    if !IsMid(a[0]) {
      assert HasMid(a[1..]) by {
        var i :| 0 <= i < |a| && IsMid(a[i]);
        assert a[1..][i - 1] == a[i];
      }
      MediaMidPrefix(a[1..], b, fallback);
      assert (a + b)[1..] == a[1..] + b;
    }
  }

  // -------------------------------------------------------------- methods

  method SingleMediaSessionLines(sessionLines: seq<Line>) returns (filtered: seq<Line>)
    ensures filtered == SingleMediaSession(sessionLines)
  {
    filtered := [];
    for i := 0 to |sessionLines|
      invariant filtered == SingleMediaSession(sessionLines[..i])
    {
      var line := sessionLines[i];
      assert sessionLines[..i + 1][..i] == sessionLines[..i];
      if !StartsWith(line, BUNDLE) {
        filtered := filtered + [line];
      } else if BUNDLE_ZERO !in filtered {
        filtered := filtered + [BUNDLE_ZERO];
      }
    }
    assert sessionLines[..|sessionLines|] == sessionLines;
  }

  method WithMediaTransportLines(mediaLines: seq<Line>, sessionLines: seq<Line>) returns (result: seq<Line>)
    ensures result == WithTransport(mediaLines, sessionLines)
  {
    var seen := SeenPrefixes(mediaLines);
    result := mediaLines;
    for i := 0 to |sessionLines|
      invariant result + Moved(sessionLines[i..], seen) == WithTransport(mediaLines, sessionLines)
    {
      var line := sessionLines[i];
      assert sessionLines[i..][1..] == sessionLines[i + 1..];
      var prefix := TransportPrefix(line);
      if prefix.Some? && prefix.value !in seen {
        assert result + ([line] + Moved(sessionLines[i + 1..], seen + {prefix.value}))
            == (result + [line]) + Moved(sessionLines[i + 1..], seen + {prefix.value});
        result := result + [line];
        seen := seen + {prefix.value};
      }
    }
    assert result + [] == result;
  }
}
