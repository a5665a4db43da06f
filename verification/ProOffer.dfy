/**
 The Pro offer of nanokvm/webrtc.py: splitting a combined offer into one offer per media kind, merging the
 per-kind answers back into one answer, and mapping ICE candidates both ways.
 */
module ProOffer {
  import opened Common
  import opened Text
  import opened Sdp
  import opened MediaLines

  /** A media section of the original combined offer. */
  datatype ProMediaSection = ProMediaSection(kind: MediaKind, mid: string, index: nat, lines: seq<Line>)

  datatype Offer = Offer(offers: map<MediaKind, string>, sections: seq<ProMediaSection>)

  // ------------------------------------------------------------ splitting

  function SectionAt(media: seq<seq<Line>>, index: nat, kind: MediaKind): ProMediaSection
    requires index < |media|
  {
    ProMediaSection(kind, MediaMid(media[index], NatToString(index)), index, media[index])
  }

  /** The single-section description sent to one Pro peer. */
  function PeerDescription(session: seq<Line>, lines: seq<Line>): Description {
    Description(SingleMediaSession(session), [ReplaceMid(lines, "0")])
  }

  /** The offer built from the first `n` media sections. */
  function SplitUpTo(d: Description, n: nat): Result<Offer, SdpError>
    requires n <= |d.media|
  {
    if n == 0 then Ok(Offer(map[], []))
    else
      match SplitUpTo(d, n - 1)
      case Err(e) => Err(e)
      case Ok(o) =>
        match MediaKindOf(d.media[n - 1])
        case Err(e) => Err(e)
        case Ok(None) => Ok(o)
        case Ok(Some(kind)) =>
          if kind in o.offers then Ok(o)
          else
            Ok(Offer(o.offers[kind := Print(PeerDescription(d.session, d.media[n - 1]))],
                     o.sections + [SectionAt(d.media, n - 1, kind)]))
  }

  function SplitOffer(sdp: string): Result<Offer, SdpError> {
    var d := Split(sdp);
    SplitUpTo(d, |d.media|)
  }

  /** Section `i` is the first of its supported kind. */
  ghost predicate FirstOfKind(media: seq<seq<Line>>, i: int, kind: MediaKind) {
    && 0 <= i < |media|
    && IsOfKind(media[i], kind)
    && forall j :: 0 <= j < i ==> !IsOfKind(media[j], kind)
  }

  predicate HasIndex(sections: seq<ProMediaSection>, i: int) {
    exists k :: 0 <= k < |sections| && sections[k].index == i
  }

  predicate HasKind(sections: seq<ProMediaSection>, kind: MediaKind) {
    exists k :: 0 <= k < |sections| && sections[k].kind == kind
  }

  /** Every kept section is the first of its kind among the first `n`, with its own lines and MID. */
  ghost predicate KeepsOnlyFirsts(d: Description, n: nat, sections: seq<ProMediaSection>) {
    forall k :: 0 <= k < |sections| ==>
      var s := sections[k];
      s.index < n && FirstOfKind(d.media, s.index, s.kind) && s == SectionAt(d.media, s.index, s.kind)
  }

  ghost predicate KeepsEveryFirst(d: Description, n: nat, sections: seq<ProMediaSection>) {
    forall i, kind :: 0 <= i < n && FirstOfKind(d.media, i, kind) ==> HasIndex(sections, i)
  }

  ghost predicate IncreasingIndices(sections: seq<ProMediaSection>) {
    forall k, l :: 0 <= k < l < |sections| ==> sections[k].index < sections[l].index
  }

  /** There is one offer per kept section: the print of its single-section description. */
  ghost predicate EmitsOnePerSection(d: Description, o: Offer) {
    && (forall kind :: kind in o.offers <==> HasKind(o.sections, kind))
    && (forall k :: 0 <= k < |o.sections| ==>
          && o.sections[k].kind in o.offers
          && o.offers[o.sections[k].kind] == Print(PeerDescription(d.session, o.sections[k].lines)))
  }

  /** What a split of the first `n` sections must be. */
  ghost predicate SplitSpec(d: Description, n: nat, o: Offer) {
    && KeepsOnlyFirsts(d, n, o.sections)
    && KeepsEveryFirst(d, n, o.sections)
    && IncreasingIndices(o.sections)
    && EmitsOnePerSection(d, o)
  }

  lemma FirstIndex(media: seq<seq<Line>>, i: nat, kind: MediaKind) returns (j: nat)
    requires i < |media| && IsOfKind(media[i], kind)
    ensures j <= i && FirstOfKind(media, j, kind)
  {
    j := 0;
    while !IsOfKind(media[j], kind)
      invariant j <= i && forall l :: 0 <= l < j ==> !IsOfKind(media[l], kind)
      decreases i - j
    {
      j := j + 1;
    }
  }

  lemma IndexGivesKind(d: Description, n: nat, sections: seq<ProMediaSection>, i: nat, kind: MediaKind)
    requires KeepsOnlyFirsts(d, n, sections) && HasIndex(sections, i)
    requires i < |d.media| && IsOfKind(d.media[i], kind)
    ensures HasKind(sections, kind)
  {
    var k :| 0 <= k < |sections| && sections[k].index == i;
    assert sections[k].kind == kind;
  }

  /** A section of a kind not offered yet is the first of that kind; one of an offered kind is not. */
  lemma OfferedKinds(d: Description, n: nat, o: Offer, kind: MediaKind)
    requires n < |d.media| && SplitSpec(d, n, o) && IsOfKind(d.media[n], kind)
    ensures FirstOfKind(d.media, n, kind) <==> kind !in o.offers
  {
    var j := FirstIndex(d.media, n, kind);
    if j < n {
      IndexGivesKind(d, n, o.sections, j, kind);
    }
  }

  lemma SectionsExtend(d: Description, n: nat, sections: seq<ProMediaSection>, kind: MediaKind)
    requires n < |d.media| && FirstOfKind(d.media, n, kind)
    requires KeepsOnlyFirsts(d, n, sections) && KeepsEveryFirst(d, n, sections) && IncreasingIndices(sections)
    ensures var r := sections + [SectionAt(d.media, n, kind)];
            KeepsOnlyFirsts(d, n + 1, r) && KeepsEveryFirst(d, n + 1, r) && IncreasingIndices(r)
  {
    var r := sections + [SectionAt(d.media, n, kind)];
    assert r[|sections|].index == n;
    assert forall k :: 0 <= k < |sections| ==> r[k] == sections[k];
    forall i, q | 0 <= i < n + 1 && FirstOfKind(d.media, i, q)
      ensures HasIndex(r, i)
    {
      if i < n {
        var k :| 0 <= k < |sections| && sections[k].index == i;
        assert r[k].index == i;
      }
    }
  }

  lemma EmitsExtend(d: Description, o: Offer, s: ProMediaSection)
    requires EmitsOnePerSection(d, o) && s.kind !in o.offers
    ensures EmitsOnePerSection(d, Offer(o.offers[s.kind := Print(PeerDescription(d.session, s.lines))],
                                        o.sections + [s]))
  {
    var r := Offer(o.offers[s.kind := Print(PeerDescription(d.session, s.lines))], o.sections + [s]);
    KindsExtend(o.sections, s);
    forall k | 0 <= k < |r.sections|
      ensures r.sections[k].kind in r.offers
      ensures r.offers[r.sections[k].kind] == Print(PeerDescription(d.session, r.sections[k].lines))
    {
      if k < |o.sections| {
        assert r.sections[k] == o.sections[k] && o.sections[k].kind in o.offers;
      }
    }
  }

  lemma KindsExtend(sections: seq<ProMediaSection>, s: ProMediaSection)
    ensures forall q :: HasKind(sections + [s], q) <==> q == s.kind || HasKind(sections, q)
  {
    var r := sections + [s];
    assert r[|sections|] == s;
    forall q
      ensures HasKind(r, q) <==> q == s.kind || HasKind(sections, q)
    {
      if HasKind(sections, q) {
        var k :| 0 <= k < |sections| && sections[k].kind == q;
        assert r[k].kind == q;
      }
    }
  }

  lemma NothingKept(d: Description, n: nat, o: Offer)
    requires n < |d.media| && SplitSpec(d, n, o) && forall kind :: !FirstOfKind(d.media, n, kind)
    ensures SplitSpec(d, n + 1, o)
  {
  }

  lemma SectionKept(d: Description, n: nat, o: Offer, kind: MediaKind)
    requires n < |d.media| && SplitSpec(d, n, o) && FirstOfKind(d.media, n, kind) && kind !in o.offers
    ensures SplitSpec(d, n + 1, Offer(o.offers[kind := Print(PeerDescription(d.session, d.media[n]))],
                                      o.sections + [SectionAt(d.media, n, kind)]))
  {
    SectionsExtend(d, n, o.sections, kind);
    EmitsExtend(d, o, SectionAt(d.media, n, kind));
  }

  lemma SplitStep(d: Description, n: nat)
    requires n < |d.media| && SplitUpTo(d, n).Ok? && SplitSpec(d, n, SplitUpTo(d, n).value)
    requires MediaKindOf(d.media[n]).Ok?
    ensures SplitUpTo(d, n + 1).Ok? && SplitSpec(d, n + 1, SplitUpTo(d, n + 1).value)
  {
    var o := SplitUpTo(d, n).value;
    match MediaKindOf(d.media[n]).value
    case None =>
      NothingKept(d, n, o);
    case Some(kind) =>
      OfferedKinds(d, n, o, kind);
      if kind in o.offers {
        NothingKept(d, n, o);
      } else {
        SectionKept(d, n, o, kind);
      }
  }

  lemma {:induction false} SplitUpToOk(d: Description, n: nat)
    requires n <= |d.media|
    ensures SplitUpTo(d, n).Ok? <==> forall i :: 0 <= i < n ==> MediaKindOf(d.media[i]).Ok?
  {
    if n > 0 {
      SplitUpToOk(d, n - 1);
      assert SplitUpTo(d, n).Ok? <==> SplitUpTo(d, n - 1).Ok? && MediaKindOf(d.media[n - 1]).Ok?;
    }
  }

  lemma {:induction false} SplitUpToMeetsSpec(d: Description, n: nat)
    requires n <= |d.media| && SplitUpTo(d, n).Ok?
    ensures SplitSpec(d, n, SplitUpTo(d, n).value)
  {
    if n > 0 {
      SplitUpToMeetsSpec(d, n - 1);
      SplitUpToOk(d, n);
      SplitStep(d, n - 1);
    }
  }

  /**
   Splitting raises exactly when some `m=` line has no media token. Otherwise the kept sections are exactly the
   first audio and the first video section, by increasing index, each with its own lines and MID, and there is
   one offer per kept section.
   */
  lemma SplitKeepsFirstOfEachKind(sdp: string)
    ensures var d := Split(sdp);
            && (SplitOffer(sdp).Ok? <==> forall i :: 0 <= i < |d.media| ==> MediaKindOf(d.media[i]).Ok?)
            && (SplitOffer(sdp).Ok? ==> SplitSpec(d, |d.media|, SplitOffer(sdp).value))
  {
    var d := Split(sdp);
    SplitUpToOk(d, |d.media|);
    if SplitOffer(sdp).Ok? {
      SplitUpToMeetsSpec(d, |d.media|);
    }
  }

  /** Each kind has at most one kept section. */
  ghost predicate DistinctKinds(o: Offer) {
    forall k, l :: 0 <= k < l < |o.sections| ==> o.sections[k].kind != o.sections[l].kind
  }

  lemma SplitKindsDistinct(d: Description, n: nat, o: Offer)
    requires SplitSpec(d, n, o)
    ensures DistinctKinds(o)
  {
    forall k, l | 0 <= k < l < |o.sections|
      ensures o.sections[k].kind != o.sections[l].kind
    {
      assert o.sections[k].index < o.sections[l].index;
      assert FirstOfKind(d.media, o.sections[l].index, o.sections[l].kind);
      assert FirstOfKind(d.media, o.sections[k].index, o.sections[k].kind);
    }
  }

  lemma PeerDescriptionWellFormed(d: Description, i: nat)
    requires WellFormed(d) && i < |d.media|
    ensures WellFormed(PeerDescription(d.session, d.media[i]))
  {
    ReplaceMidShape(d.media[i], "0");
    SingleMediaSessionKeeps(d.session);
    var s := SingleMediaSession(d.session);
    assert GoodLine(BUNDLE_ZERO) && !IsMediaLine(BUNDLE_ZERO) by {
      assert BUNDLE_ZERO[0] == 'a' && "m="[0] == 'm';
    }
    forall k | 0 <= k < |s|
      ensures GoodLine(s[k]) && !IsMediaLine(s[k])
    {
      assert s[k] in s;
    }
  }

  /**
   `p` is one section of the kind of `s`, opened by the original `m=` line. The section has at least one MID and
   only `0`; its other lines are the original's, in order. The session part has exactly one BUNDLE line,
   `a=group:BUNDLE 0`, when the original had one and none otherwise; its other lines are kept.
   */
  ghost predicate SingleSectionOf(p: Description, session: seq<Line>, s: ProMediaSection) {
    && |p.media| == 1
    && p.media[0] != [] && s.lines != [] && p.media[0][0] == s.lines[0]
    && IsOfKind(p.media[0], s.kind)
    && HasMid(p.media[0])
    && (forall i :: 0 <= i < |p.media[0]| && IsMid(p.media[0][i]) ==> p.media[0][i] == MID + "0")
    && WithoutAny(p.media[0], [MID]) == WithoutAny(s.lines, [MID])
    && WithPrefix(p.session, BUNDLE) == (if HasBundle(session) then [BUNDLE_ZERO] else [])
    && WithoutAny(p.session, [BUNDLE]) == WithoutAny(session, [BUNDLE])
  }

  lemma PeerDescriptionIsSingle(session: seq<Line>, s: ProMediaSection)
    requires SectionShape(s.lines) && GoodLines(s.lines) && IsOfKind(s.lines, s.kind)
    ensures SingleSectionOf(PeerDescription(session, s.lines), session, s)
  {
    ReplaceMidExact(s.lines, "0", "");
    ReplaceMidShape(s.lines, "0");
    SingleMediaSessionKeeps(session);
  }

  /** Each emitted offer parses to a single section of its kind. */
  lemma EmittedOfferReparses(sdp: string, k: nat)
    requires SplitOffer(sdp).Ok? && k < |SplitOffer(sdp).value.sections|
    ensures var o := SplitOffer(sdp).value;
            && o.sections[k].kind in o.offers
            && SingleSectionOf(Split(o.offers[o.sections[k].kind]), Split(sdp).session, o.sections[k])
  {
    var d := Split(sdp);
    SplitIsWellFormed(sdp);
    SplitKeepsFirstOfEachKind(sdp);
    var s := SplitOffer(sdp).value.sections[k];
    PeerDescriptionWellFormed(d, s.index);
    SplitPrint(PeerDescription(d.session, s.lines));
    PeerDescriptionIsSingle(d.session, s);
  }

  // -------------------------------------------------------------- merging

  /** One entry of the answers dictionary; the dictionary keeps insertion order. */
  datatype Answer = Answer(kind: MediaKind, sdp: string)

  function Lookup(answers: seq<Answer>, kind: MediaKind): Option<string> {
    if answers == [] then None
    else if answers[0].kind == kind then Some(answers[0].sdp)
    else Lookup(answers[1..], kind)
  }

  /** The first section of a kind, read from the left; a blank `m=` line before it raises. */
  function FindMedia(media: seq<seq<Line>>, kind: MediaKind): Result<Option<seq<Line>>, SdpError> {
    if media == [] then Ok(None)
    else
      match MediaKindOf(media[0])
      case Err(e) => Err(e)
      case Ok(found) => if found == Some(kind) then Ok(Some(media[0])) else FindMedia(media[1..], kind)
  }

  function MergedSection(section: ProMediaSection, answers: seq<Answer>): Result<seq<Line>, SdpError> {
    match Lookup(answers, section.kind)
    case None => Err(MissingAnswer(section.kind))
    case Some(sdp) =>
      var d := Split(sdp);
      match FindMedia(d.media, section.kind)
      case Err(e) => Err(e)
      case Ok(None) => Err(NoMediaSection(section.kind))
      case Ok(Some(media)) => Ok(WithTransport(ReplaceMid(media, section.mid), d.session))
  }

  function MergedSections(sections: seq<ProMediaSection>, answers: seq<Answer>): Result<seq<seq<Line>>, SdpError> {
    if sections == [] then Ok([])
    else
      var n := |sections| - 1;
      match MergedSections(sections[..n], answers)
      case Err(e) => Err(e)
      case Ok(before) =>
        match MergedSection(sections[n], answers)
        case Err(e) => Err(e)
        case Ok(lines) => Ok(before + [lines])
  }

  function MergedSession(session: seq<Line>): seq<Line> {
    WithoutAny(session, [BUNDLE] + TRANSPORT)
  }

  function Merge(o: Offer, answers: seq<Answer>): Result<string, SdpError> {
    if answers == [] then Err(NoAnswers)
    else
      match MergedSections(o.sections, answers)
      case Err(e) => Err(e)
      case Ok(media) => Ok(Print(Description(MergedSession(Split(answers[0].sdp).session), media)))
  }

  /** Section `i` is the first of its kind, and no blank `m=` line comes before it. */
  ghost predicate FoundAt(media: seq<seq<Line>>, kind: MediaKind, i: int) {
    FirstOfKind(media, i, kind) && forall j :: 0 <= j < i ==> MediaKindOf(media[j]).Ok?
  }

  lemma {:induction false} FindMediaSound(media: seq<seq<Line>>, kind: MediaKind) returns (i: nat)
    requires FindMedia(media, kind).Ok? && FindMedia(media, kind).value.Some?
    ensures FoundAt(media, kind, i) && FindMedia(media, kind) == Ok(Some(media[i]))
  {
    if IsOfKind(media[0], kind) {
      i := 0;
    } else {
      var rest := media[1..];
      var j := FindMediaSound(rest, kind);
      i := j + 1;
      assert forall l :: 1 <= l < |media| ==> media[l] == rest[l - 1];
    }
  }

  lemma {:induction false} FindMediaComplete(media: seq<seq<Line>>, kind: MediaKind, i: nat)
    requires FoundAt(media, kind, i)
    ensures FindMedia(media, kind) == Ok(Some(media[i]))
  {
    if i > 0 {
      var rest := media[1..];
      assert forall l :: 0 <= l < |rest| ==> rest[l] == media[l + 1];
      assert MediaKindOf(media[0]).Ok? && !IsOfKind(media[0], kind);
      FindMediaComplete(rest, kind, i - 1);
    }
  }

  /** Kind `kind` has an answer holding a section of that kind. */
  ghost predicate Answers(answers: seq<Answer>, kind: MediaKind) {
    && Lookup(answers, kind).Some?
    && exists i :: FoundAt(Split(Lookup(answers, kind).value).media, kind, i)
  }

  lemma {:induction false} MergedSectionsExact(sections: seq<ProMediaSection>, answers: seq<Answer>)
    ensures var r := MergedSections(sections, answers);
            && (r.Ok? <==> forall k :: 0 <= k < |sections| ==> MergedSection(sections[k], answers).Ok?)
            && (r.Ok? ==>
                 && |r.value| == |sections|
                 && forall k :: 0 <= k < |sections| ==> MergedSection(sections[k], answers) == Ok(r.value[k]))
  {
    if sections != [] {
      var n := |sections| - 1;
      var front, last := sections[..n], MergedSection(sections[n], answers);
      var before := MergedSections(front, answers);
      MergedSectionsExact(front, answers);
      if before.Ok? && last.Ok? {
        var r := before.value + [last.value];
        forall k | 0 <= k < |sections|
          ensures MergedSection(sections[k], answers) == Ok(r[k])
        {
          assert k < n ==> sections[k] == front[k];
        }
      } else if before.Err? {
        var k :| 0 <= k < n && MergedSection(front[k], answers).Err?;
        assert sections[k] == front[k];
      }
    }
  }

  lemma MergedSectionOk(section: ProMediaSection, answers: seq<Answer>)
    ensures MergedSection(section, answers).Ok? <==> Answers(answers, section.kind)
  {
    if Lookup(answers, section.kind).Some? {
      var media := Split(Lookup(answers, section.kind).value).media;
      if FindMedia(media, section.kind).Ok? && FindMedia(media, section.kind).value.Some? {
        var i := FindMediaSound(media, section.kind);
      }
      if i: nat :| FoundAt(media, section.kind, i) {
        FindMediaComplete(media, section.kind, i);
      }
    }
  }

  /** Merging succeeds exactly when there is an answer and every kept section's kind has its section answered. */
  lemma MergeSucceeds(o: Offer, answers: seq<Answer>)
    ensures Merge(o, answers).Ok? <==>
            answers != [] && forall k :: 0 <= k < |o.sections| ==> Answers(answers, o.sections[k].kind)
  {
    MergedSectionsExact(o.sections, answers);
    forall k | 0 <= k < |o.sections|
      ensures MergedSection(o.sections[k], answers).Ok? <==> Answers(answers, o.sections[k].kind)
    {
      MergedSectionOk(o.sections[k], answers);
    }
  }

  /** How one merged section relates to its offer section and to its own kind's answer. */
  ghost predicate MergedFrom(lines: seq<Line>, section: ProMediaSection, answer: Description, media: seq<Line>) {
    && IsOfKind(lines, section.kind)
    && lines != [] && media != [] && lines[0] == media[0]
    && MediaMid(lines, "") == section.mid && HasMid(lines)
    && (forall i :: 0 <= i < |lines| && IsMid(lines[i]) ==> lines[i] == MID + section.mid)
    && WithoutAny(lines, [MID] + TRANSPORT) == WithoutAny(media, [MID] + TRANSPORT)
    && (forall p :: p in TRANSPORT ==>
          WithPrefix(lines, p)
          == if WithPrefix(media, p) != [] then WithPrefix(media, p) else FirstOf(WithPrefix(answer.session, p)))
  }

  lemma {:induction false} WithoutMore(ls: seq<Line>, a: seq<string>, b: seq<string>)
    ensures WithoutAny(ls, a + b) == WithoutAny(WithoutAny(ls, a), b)
    ensures WithoutAny(ls, a + b) == WithoutAny(WithoutAny(ls, b), a)
  {
    if ls != [] {
      WithoutMore(ls[1..], a, b);
      var l := ls[0];
      assert StartsWithAny(l, a + b) <==> StartsWithAny(l, a) || StartsWithAny(l, b) by {
        if StartsWithAny(l, a) {
          var i :| 0 <= i < |a| && StartsWith(l, a[i]);
          assert (a + b)[i] == a[i];
        }
        if StartsWithAny(l, b) {
          var i :| 0 <= i < |b| && StartsWith(l, b[i]);
          assert (a + b)[|a| + i] == b[i];
        }
      }
    }
  }

  /** Replacing MIDs does not touch transport lines. */
  lemma {:induction false} MapMidKeepsTransport(lines: seq<Line>, mid: string, p: string)
    requires p in TRANSPORT
    ensures WithPrefix(MapMid(lines, mid), p) == WithPrefix(lines, p)
  {
    if lines != [] {
      MapMidKeepsTransport(lines[1..], mid, p);
      assert MapMid(lines, mid)[1..] == MapMid(lines[1..], mid);
      MidLine(mid);
      if IsMid(lines[0]) {
        var was := lines[0][|MID|..];
        MidLine(was);
        assert lines[0] == MID + was;
        assert exists i :: 0 <= i < |TRANSPORT| && TRANSPORT[i] == p;
      }
    }
  }

  lemma ReplaceMidKeepsTransport(lines: seq<Line>, mid: string, p: string)
    requires p in TRANSPORT
    ensures WithPrefix(ReplaceMid(lines, mid), p) == WithPrefix(lines, p)
  {
    if HasMid(lines) {
      MapMidKeepsTransport(lines, mid, p);
    } else {
      WithPrefixAppend(lines, [MID + mid], p);
      MidLine(mid);
      assert exists i :: 0 <= i < |TRANSPORT| && TRANSPORT[i] == p;
      WithPrefixOfNone([MID + mid], p);
    }
  }

  lemma IsMidNotTransport(l: Line)
    ensures !(IsMid(l) && StartsWithAny(l, TRANSPORT))
  {
    if IsMid(l) {
      MidLine(l[|MID|..]);
      assert l == MID + l[|MID|..];
    }
  }

  lemma MovedHasNoMid(session: seq<Line>, seen: set<string>)
    ensures forall l :: l in Moved(session, seen) ==> !IsMid(l)
  {
    MovedMembers(session, seen);
    forall l | l in Moved(session, seen)
      ensures !IsMid(l)
    {
      IsMidNotTransport(l);
    }
  }

  lemma MergedSectionIsFrom(section: ProMediaSection, answer: Description, media: seq<Line>)
    requires WellFormed(answer) && NewlineFree(section.mid) && media in answer.media && IsOfKind(media, section.kind)
    ensures var lines := WithTransport(ReplaceMid(media, section.mid), answer.session);
            && MergedFrom(lines, section, answer, media)
            && SectionShape(lines) && GoodLines(lines)
  {
    var r := ReplaceMid(media, section.mid);
    var lines := WithTransport(r, answer.session);
    ReplaceMidShape(media, section.mid);
    ReplaceMidExact(media, section.mid, "");
    WithTransportShape(r, answer.session, "");
    MovedHasNoMid(answer.session, SeenPrefixes(r));
    forall p | p in TRANSPORT
      ensures WithPrefix(lines, p)
           == if WithPrefix(media, p) != [] then WithPrefix(media, p) else FirstOf(WithPrefix(answer.session, p))
    {
      WithTransportExact(r, answer.session, p);
      ReplaceMidKeepsTransport(media, section.mid, p);
    }
    WithTransportExact(r, answer.session, TRANSPORT[0]);
    WithoutMore(lines, [MID], TRANSPORT);
    WithoutMore(r, [MID], TRANSPORT);
    WithoutMore(media, [MID], TRANSPORT);
    assert HasMid(lines) by {
      var i :| 0 <= i < |r| && IsMid(r[i]);
      assert lines[i] == r[i];
    }
    assert forall i :: 0 <= i < |r| ==> lines[i] == r[i];
    assert forall i :: |r| <= i < |lines| ==> lines[i] in Moved(answer.session, SeenPrefixes(r));
  }

  lemma {:induction false} MediaMidNewlineFree(lines: seq<Line>, fallback: string)
    requires GoodLines(lines) && NewlineFree(fallback)
    ensures NewlineFree(MediaMid(lines, fallback))
  {
    if lines != [] && !IsMid(lines[0]) {
      MediaMidNewlineFree(lines[1..], fallback);
    }
  }

  ghost predicate NewlineFreeMids(o: Offer) {
    forall k :: 0 <= k < |o.sections| ==> NewlineFree(o.sections[k].mid)
  }

  /** The MIDs of a split offer come from lines, or are decimal indices: no newline in either. */
  lemma SplitMidsNewlineFree(d: Description, n: nat, o: Offer)
    requires WellFormed(d) && SplitSpec(d, n, o)
    ensures NewlineFreeMids(o)
  {
    forall k | 0 <= k < |o.sections|
      ensures NewlineFree(o.sections[k].mid)
    {
      var i := o.sections[k].index;
      assert NewlineFree(NatToString(i));
      MediaMidNewlineFree(d.media[i], NatToString(i));
    }
  }

  /** The merged section comes from the first section of its kind in its own kind's answer. */
  ghost predicate MergedFromAnswer(lines: seq<Line>, section: ProMediaSection, answers: seq<Answer>) {
    && Lookup(answers, section.kind).Some?
    && var a := Split(Lookup(answers, section.kind).value);
    && exists i :: FoundAt(a.media, section.kind, i) && MergedFrom(lines, section, a, a.media[i])
  }

  lemma MergedSectionFromAnswer(section: ProMediaSection, answers: seq<Answer>)
    requires MergedSection(section, answers).Ok? && NewlineFree(section.mid)
    ensures var lines := MergedSection(section, answers).value;
            && MergedFromAnswer(lines, section, answers)
            && SectionShape(lines) && GoodLines(lines)
  {
    var sdp := Lookup(answers, section.kind).value;
    var a := Split(sdp);
    SplitIsWellFormed(sdp);
    var i := FindMediaSound(a.media, section.kind);
    MergedSectionIsFrom(section, a, a.media[i]);
  }

  lemma MergedSessionGood(session: seq<Line>)
    requires GoodLines(session) && forall i :: 0 <= i < |session| ==> !IsMediaLine(session[i])
    ensures var s := MergedSession(session); GoodLines(s) && forall i :: 0 <= i < |s| ==> !IsMediaLine(s[i])
  {
    WithoutAnyMembers(session, [BUNDLE] + TRANSPORT);
    var s := MergedSession(session);
    forall i | 0 <= i < |s|
      ensures GoodLine(s[i]) && !IsMediaLine(s[i])
    {
      assert s[i] in s;
    }
  }

  /** The merged text parses back to the merged session part and the merged sections. */
  lemma MergedReparses(o: Offer, answers: seq<Answer>)
    requires NewlineFreeMids(o) && Merge(o, answers).Ok?
    ensures Split(Merge(o, answers).value)
         == Description(MergedSession(Split(answers[0].sdp).session), MergedSections(o.sections, answers).value)
  {
    var media := MergedSections(o.sections, answers).value;
    var session := Split(answers[0].sdp).session;
    MergedIsWellFormed(o, answers);
    SplitPrint(Description(MergedSession(session), media));
  }

  lemma MergedIsWellFormed(o: Offer, answers: seq<Answer>)
    requires NewlineFreeMids(o) && answers != [] && MergedSections(o.sections, answers).Ok?
    ensures WellFormed(Description(MergedSession(Split(answers[0].sdp).session), MergedSections(o.sections, answers).value))
  {
    MergedSectionsExact(o.sections, answers);
    var media := MergedSections(o.sections, answers).value;
    forall k | 0 <= k < |media|
      ensures SectionShape(media[k]) && GoodLines(media[k])
    {
      MergedSectionFromAnswer(o.sections[k], answers);
    }
    SplitIsWellFormed(answers[0].sdp);
    MergedSessionGood(Split(answers[0].sdp).session);
  }

  /**
   The merged answer parses to exactly one section per kept offer section, in offer order, with that section's
   kind and MID; each comes from its own kind's answer, with that answer's transport lines. Its session part
   is the first answer's without BUNDLE and transport lines.
   */
  lemma MergePreservesOffer(o: Offer, answers: seq<Answer>)
    requires NewlineFreeMids(o) && Merge(o, answers).Ok?
    ensures answers != []
    ensures var d := Split(Merge(o, answers).value);
            && |d.media| == |o.sections|
            && d.session == WithoutAny(Split(answers[0].sdp).session, [BUNDLE] + TRANSPORT)
            && forall k :: 0 <= k < |o.sections| ==> MergedFromAnswer(d.media[k], o.sections[k], answers)
  {
    MergedReparses(o, answers);
    MergedSectionsExact(o.sections, answers);
    var media := MergedSections(o.sections, answers).value;
    forall k | 0 <= k < |media|
      ensures MergedFromAnswer(media[k], o.sections[k], answers)
    {
      assert MergedSection(o.sections[k], answers) == Ok(media[k]);
      MergedSectionFromAnswer(o.sections[k], answers);
    }
  }

  // ------------------------------------------------- split and merge composed

  /** The answers of peers that send their own offers back. */
  function Echo(o: Offer): seq<Answer>
    requires forall k :: 0 <= k < |o.sections| ==> o.sections[k].kind in o.offers
  {
    seq(|o.sections|, k requires 0 <= k < |o.sections| => Answer(o.sections[k].kind, o.offers[o.sections[k].kind]))
  }

  lemma {:induction false} LookupAt(answers: seq<Answer>, k: nat)
    requires k < |answers| && forall i, j :: 0 <= i < j < |answers| ==> answers[i].kind != answers[j].kind
    ensures Lookup(answers, answers[k].kind) == Some(answers[k].sdp)
  {
    if k > 0 {
      LookupAt(answers[1..], k - 1);
    }
  }

  lemma EchoedSection(d: Description, o: Offer, k: nat)
    requires WellFormed(d) && SplitSpec(d, |d.media|, o) && k < |o.sections|
    ensures var s := o.sections[k];
            MergedSection(s, Echo(o))
            == Ok(WithTransport(ReplaceMid(s.lines, s.mid), SingleMediaSession(d.session)))
  {
    var s := o.sections[k];
    SplitKindsDistinct(d, |d.media|, o);
    LookupAt(Echo(o), k);
    PeerFound(d, s);
    ReplaceMidTwice(s.lines, "0", s.mid);
  }

  /** An emitted offer parses to its description, whose one section is found under its kind. */
  lemma PeerFound(d: Description, s: ProMediaSection)
    requires WellFormed(d) && s.index < |d.media| && s.lines == d.media[s.index] && IsOfKind(s.lines, s.kind)
    ensures var p := PeerDescription(d.session, s.lines);
            Split(Print(p)) == p && FindMedia(p.media, s.kind) == Ok(Some(ReplaceMid(s.lines, "0")))
  {
    var p := PeerDescription(d.session, s.lines);
    PeerDescriptionWellFormed(d, s.index);
    SplitPrint(p);
    ReplaceMidShape(s.lines, "0");
    assert FoundAt(p.media, s.kind, 0);
    FindMediaComplete(p.media, s.kind, 0);
  }

  lemma MergedSessionOfSingle(session: seq<Line>)
    ensures MergedSession(SingleMediaSession(session)) == MergedSession(session)
  {
    SingleMediaSessionKeeps(session);
    WithoutMore(session, [BUNDLE], TRANSPORT);
    WithoutMore(SingleMediaSession(session), [BUNDLE], TRANSPORT);
  }

  /**
   Splitting an offer and merging the untouched single-section offers gives back every kept section, in order,
   under its own MID, with the session-level transport lines it lacked moved in.
   */
  lemma SplitThenMerge(sdp: string)
    requires SplitOffer(sdp).Ok? && SplitOffer(sdp).value.sections != []
    ensures var o, session := SplitOffer(sdp).value, Split(sdp).session;
            && (forall k :: 0 <= k < |o.sections| ==> o.sections[k].kind in o.offers)
            && Merge(o, Echo(o)).Ok?
            && var d := Split(Merge(o, Echo(o)).value);
            && d.session == WithoutAny(session, [BUNDLE] + TRANSPORT)
            && |d.media| == |o.sections|
            && forall k :: 0 <= k < |o.sections| ==>
                 d.media[k]
                 == WithTransport(ReplaceMid(o.sections[k].lines, o.sections[k].mid), SingleMediaSession(session))
  {
    SplitIsWellFormed(sdp);
    SplitKeepsFirstOfEachKind(sdp);
    EchoMerges(Split(sdp), SplitOffer(sdp).value);
  }

  lemma EchoMerges(d: Description, o: Offer)
    requires WellFormed(d) && SplitSpec(d, |d.media|, o) && o.sections != []
    ensures Merge(o, Echo(o)).Ok?
    ensures var r := Split(Merge(o, Echo(o)).value);
            && r.session == WithoutAny(d.session, [BUNDLE] + TRANSPORT)
            && |r.media| == |o.sections|
            && forall k :: 0 <= k < |o.sections| ==>
                 r.media[k] == WithTransport(ReplaceMid(o.sections[k].lines, o.sections[k].mid), SingleMediaSession(d.session))
  {
    EchoSections(d, o);
    EchoSessionLines(d, o);
    SplitMidsNewlineFree(d, |d.media|, o);
    MergedReparses(o, Echo(o));
  }

  lemma EchoSections(d: Description, o: Offer)
    requires WellFormed(d) && SplitSpec(d, |d.media|, o)
    ensures var r := MergedSections(o.sections, Echo(o));
            && r.Ok? && |r.value| == |o.sections|
            && forall k :: 0 <= k < |o.sections| ==>
                 r.value[k] == WithTransport(ReplaceMid(o.sections[k].lines, o.sections[k].mid), SingleMediaSession(d.session))
  {
    MergedSectionsExact(o.sections, Echo(o));
    forall k | 0 <= k < |o.sections|
      ensures MergedSection(o.sections[k], Echo(o))
           == Ok(WithTransport(ReplaceMid(o.sections[k].lines, o.sections[k].mid), SingleMediaSession(d.session)))
    {
      EchoedSection(d, o, k);
    }
  }

  lemma EchoSessionLines(d: Description, o: Offer)
    requires WellFormed(d) && SplitSpec(d, |d.media|, o) && o.sections != []
    ensures MergedSession(Split(Echo(o)[0].sdp).session) == MergedSession(d.session)
  {
    var s := o.sections[0];
    PeerDescriptionWellFormed(d, s.index);
    SplitPrint(PeerDescription(d.session, s.lines));
    MergedSessionOfSingle(d.session);
  }

  /** The section names itself, consistently, by one MID. */
  ghost predicate NamesItself(lines: seq<Line>, mid: string) {
    HasMid(lines) && forall i :: 0 <= i < |lines| && IsMid(lines[i]) ==> lines[i] == MID + mid
  }

  /** Replacing the MID changes nothing exactly when the section already names itself by it. */
  lemma ReplaceOwnMid(lines: seq<Line>, mid: string)
    ensures ReplaceMid(lines, mid) == lines <==> NamesItself(lines, mid)
  {
    if !HasMid(lines) {
      assert |ReplaceMid(lines, mid)| == |lines| + 1;
    } else if i: nat :| i < |lines| && IsMid(lines[i]) && lines[i] != MID + mid {
      assert MapMid(lines, mid)[i] != lines[i];
    } else {
      assert forall i :: 0 <= i < |lines| ==> MapMid(lines, mid)[i] == lines[i];
    }
  }

  /** Nothing is moved exactly when every session-level transport prefix has been seen. */
  lemma {:induction false} NothingMoved(session: seq<Line>, seen: set<string>)
    ensures Moved(session, seen) == [] <==>
            forall l, p :: l in session && p in TRANSPORT && StartsWith(l, p) ==> p in seen
  {
    if session != [] {
      var l := session[0];
      assert session == [l] + session[1..];
      match TransportPrefix(l)
      case None =>
        forall p | p in TRANSPORT && StartsWith(l, p)
          ensures false
        {
          TransportPrefixUnique(l, p);
        }
        NothingMoved(session[1..], seen);
      case Some(q) =>
        TransportPrefixUnique(l, q);
        forall p | p in TRANSPORT && StartsWith(l, p)
          ensures p == q
        {
          TransportPrefixUnique(l, p);
        }
        NothingMoved(session[1..], seen);
    }
  }

  /** The section has its own line for every transport prefix of the session part. */
  ghost predicate OwnTransport(session: seq<Line>, lines: seq<Line>) {
    forall l, p :: l in session && p in TRANSPORT && StartsWith(l, p) ==> p in SeenPrefixes(lines)
  }

  lemma TransportIsNotBundle(l: Line, p: string)
    requires p in TRANSPORT && StartsWith(l, p)
    ensures !StartsWithAny(l, [BUNDLE]) && l != BUNDLE_ZERO
  {
    var i :| 0 <= i < |TRANSPORT| && TRANSPORT[i] == p;
    assert l[2] == p[2] != 'g' && BUNDLE[2] == 'g' && BUNDLE_ZERO[2] == 'g';
  }

  /** Moving to a single-section session part adds and removes no transport line. */
  lemma SingleKeepsTransport(session: seq<Line>, l: Line, p: string)
    requires p in TRANSPORT && StartsWith(l, p)
    ensures l in SingleMediaSession(session) <==> l in session
  {
    TransportIsNotBundle(l, p);
    SingleMediaSessionKeeps(session);
    WithoutAnyMembers(session, [BUNDLE]);
    WithoutAnyMembers(SingleMediaSession(session), [BUNDLE]);
    assert l in WithoutAny(SingleMediaSession(session), [BUNDLE]) <==> l in WithoutAny(session, [BUNDLE]);
  }

  lemma SingleOwnTransport(session: seq<Line>, lines: seq<Line>)
    ensures OwnTransport(SingleMediaSession(session), lines) <==> OwnTransport(session, lines)
  {
    forall l, p | p in TRANSPORT && StartsWith(l, p)
      ensures l in SingleMediaSession(session) <==> l in session
    {
      SingleKeepsTransport(session, l, p);
    }
  }

  lemma RestoredSection(session: seq<Line>, s: ProMediaSection)
    ensures WithTransport(ReplaceMid(s.lines, s.mid), SingleMediaSession(session)) == s.lines <==>
            NamesItself(s.lines, s.mid) && OwnTransport(session, s.lines)
  {
    var r, single := ReplaceMid(s.lines, s.mid), SingleMediaSession(session);
    var moved := Moved(single, SeenPrefixes(r));
    ReplaceOwnMid(s.lines, s.mid);
    SingleOwnTransport(session, r);
    NothingMoved(single, SeenPrefixes(r));
    if r + moved == s.lines {
      assert |r| >= |s.lines|;
      assert moved == [] && r + [] == r;
    }
    if moved == [] {
      assert r + moved == r;
    }
  }

  /**
   Split then merge restores a kept section line for line exactly when it names itself by one MID and has its own
   line for every transport prefix of the session part.
   */
  lemma SplitThenMergeRestores(sdp: string, k: nat)
    requires SplitOffer(sdp).Ok? && k < |SplitOffer(sdp).value.sections|
    ensures var o := SplitOffer(sdp).value;
            && (forall j :: 0 <= j < |o.sections| ==> o.sections[j].kind in o.offers)
            && Merge(o, Echo(o)).Ok?
            && |Split(Merge(o, Echo(o)).value).media| == |o.sections|
            && o.sections[k].index < |Split(sdp).media|
            && (Split(Merge(o, Echo(o)).value).media[k] == Split(sdp).media[o.sections[k].index] <==>
                NamesItself(o.sections[k].lines, o.sections[k].mid) && OwnTransport(Split(sdp).session, o.sections[k].lines))
  {
    SplitThenMerge(sdp);
    SplitKeepsFirstOfEachKind(sdp);
    RestoredSection(Split(sdp).session, SplitOffer(sdp).value.sections[k]);
  }

  // -------------------------------------------------------------- methods

  lemma {:induction false} SplitErrorStays(d: Description, n: nat, m: nat)
    requires n <= m <= |d.media| && SplitUpTo(d, n).Err?
    ensures SplitUpTo(d, m) == SplitUpTo(d, n)
  {
    if n < m {
      SplitErrorStays(d, n, m - 1);
    }
  }

  method SplitProWebRtcOffer(offerSdp: string) returns (r: Result<Offer, SdpError>)
    ensures r == SplitOffer(offerSdp)
  {
    var d := SplitSdpSections(offerSdp);
    var sections: seq<ProMediaSection> := [];
    var offers: map<MediaKind, string> := map[];
    for index := 0 to |d.media|
      invariant SplitUpTo(d, index) == Ok(Offer(offers, sections))
    {
      var lines := d.media[index];
      var found := MediaKindOf(lines);
      if found.Err? {
        SplitErrorStays(d, index + 1, |d.media|);
        return Err(found.error);
      }
      if found.value.None? || found.value.value in offers {
        continue;
      }
      var kind := found.value.value;
      var section := ProMediaSection(kind, MediaMid(lines, NatToString(index)), index, lines);
      sections := sections + [section];
      var session := SingleMediaSessionLines(d.session);
      var text := JoinSdpSections(Description(session, [ReplaceMid(section.lines, "0")]));
      offers := offers[kind := text];
    }
    r := Ok(Offer(offers, sections));
  }

  lemma {:induction false} MergeErrorStays(sections: seq<ProMediaSection>, answers: seq<Answer>, n: nat)
    requires n <= |sections| && MergedSections(sections[..n], answers).Err?
    ensures MergedSections(sections, answers) == MergedSections(sections[..n], answers)
  {
    if n == |sections| {
      assert sections[..n] == sections;
    } else {
      var front := sections[..|sections| - 1];
      assert front[..n] == sections[..n];
      MergeErrorStays(front, answers, n);
    }
  }

  method MergeProWebRtcAnswers(offer: Offer, answers: seq<Answer>) returns (r: Result<string, SdpError>)
    ensures r == Merge(offer, answers)
  {
    if answers == [] {
      return Err(NoAnswers);
    }
    var first := SplitSdpSections(answers[0].sdp);
    var merged: seq<seq<Line>> := [];
    for k := 0 to |offer.sections|
      invariant MergedSections(offer.sections[..k], answers) == Ok(merged)
    {
      var section := offer.sections[k];
      CutAt(offer.sections, k);
      var sdp := Lookup(answers, section.kind);
      if sdp.None? {
        MergeErrorStays(offer.sections, answers, k + 1);
        return Err(MissingAnswer(section.kind));
      }
      var answer := SplitSdpSections(sdp.value);
      var media := FindMedia(answer.media, section.kind);
      if media.Err? {
        MergeErrorStays(offer.sections, answers, k + 1);
        return Err(media.error);
      }
      if media.value.None? {
        MergeErrorStays(offer.sections, answers, k + 1);
        return Err(NoMediaSection(section.kind));
      }
      var lines := WithMediaTransportLines(ReplaceMid(media.value.value, section.mid), answer.session);
      merged := merged + [lines];
    }
    TakeAll(offer.sections);
    var text := JoinSdpSections(Description(MergedSession(first.session), merged));
    r := Ok(text);
  }
}
