/** ICE candidate routing between the original offer and the single-section Pro peers (nanokvm/webrtc.py). */
module Candidates {
  import opened Common
  import opened Text
  import opened Sdp
  import opened MediaLines
  import opened ProOffer

  datatype IceCandidate = IceCandidate(
    candidate: string,
    sdpMid: Option<string>,
    sdpMLineIndex: Option<nat>,
    usernameFragment: Option<string>)

  function SectionForKind(sections: seq<ProMediaSection>, kind: MediaKind): Option<ProMediaSection> {
    if sections == [] then None
    else if sections[0].kind == kind then Some(sections[0])
    else SectionForKind(sections[1..], kind)
  }

  function SectionForMid(sections: seq<ProMediaSection>, mid: string): Option<ProMediaSection> {
    if sections == [] then None
    else if sections[0].mid == mid then Some(sections[0])
    else SectionForMid(sections[1..], mid)
  }

  function SectionForIndex(sections: seq<ProMediaSection>, index: nat): Option<ProMediaSection> {
    if sections == [] then None
    else if sections[0].index == index then Some(sections[0])
    else SectionForIndex(sections[1..], index)
  }

  function ExpectedKinds(sections: seq<ProMediaSection>): (r: seq<MediaKind>)
    ensures |r| == |sections|
    ensures forall k :: 0 <= k < |r| ==> r[k] == sections[k].kind
  {
    if sections == [] then [] else [sections[0].kind] + ExpectedKinds(sections[1..])
  }

  /** The Pro peers that should receive a browser candidate: by MID, else by index, else all of them. */
  function KindsForCandidate(sections: seq<ProMediaSection>, c: IceCandidate): seq<MediaKind> {
    var byMid := if c.sdpMid.Some? then SectionForMid(sections, c.sdpMid.value) else None;
    var byIndex := if c.sdpMLineIndex.Some? then SectionForIndex(sections, c.sdpMLineIndex.value) else None;
    if byMid.Some? then [byMid.value.kind]
    else if byIndex.Some? then [byIndex.value.kind]
    else ExpectedKinds(sections)
  }

  function UpstreamCandidate(sections: seq<ProMediaSection>, kind: MediaKind, c: IceCandidate): Option<IceCandidate> {
    if SectionForKind(sections, kind).None? then None
    else Some(c.(sdpMid := Some("0"), sdpMLineIndex := Some(0)))
  }

  function ClientCandidate(sections: seq<ProMediaSection>, kind: MediaKind, c: IceCandidate): Option<IceCandidate> {
    match SectionForKind(sections, kind)
    case None => None
    case Some(s) => Some(c.(sdpMid := Some(s.mid), sdpMLineIndex := Some(s.index)))
  }

  lemma {:induction false} SectionForKindAt(sections: seq<ProMediaSection>, k: nat)
    requires k < |sections| && forall i, j :: 0 <= i < j < |sections| ==> sections[i].kind != sections[j].kind
    ensures SectionForKind(sections, sections[k].kind) == Some(sections[k])
  {
    if k > 0 {
      SectionForKindAt(sections[1..], k - 1);
    }
  }

  lemma {:induction false} SectionForKindFinds(sections: seq<ProMediaSection>, kind: MediaKind)
    ensures SectionForKind(sections, kind).Some? <==> HasKind(sections, kind)
    ensures SectionForKind(sections, kind).Some? ==>
              SectionForKind(sections, kind).value in sections && SectionForKind(sections, kind).value.kind == kind
  {
    if sections != [] {
      assert sections[0].kind == kind ==> HasKind(sections, kind);
      SectionForKindFinds(sections[1..], kind);
      assert forall i :: 1 <= i < |sections| ==> sections[i] == sections[1..][i - 1];
      assert forall i :: 0 <= i < |sections| - 1 ==> sections[1..][i] == sections[i + 1];
    }
  }

  lemma {:induction false} SectionForMidFirst(sections: seq<ProMediaSection>, k: nat)
    requires k < |sections| && forall i :: 0 <= i < k ==> sections[i].mid != sections[k].mid
    ensures SectionForMid(sections, sections[k].mid) == Some(sections[k])
  {
    if k > 0 {
      SectionForMidFirst(sections[1..], k - 1);
    }
  }

  lemma {:induction false} SectionForMidLeast(sections: seq<ProMediaSection>, mid: string) returns (k: nat)
    requires exists i :: 0 <= i < |sections| && sections[i].mid == mid
    ensures k < |sections| && sections[k].mid == mid && SectionForMid(sections, mid) == Some(sections[k])
    ensures forall i :: 0 <= i < k ==> sections[i].mid != mid
  {
    if sections[0].mid == mid {
      k := 0;
    } else {
      assert forall i :: 1 <= i < |sections| ==> sections[i] == sections[1..][i - 1];
      var j := SectionForMidLeast(sections[1..], mid);
      k := j + 1;
    }
  }

  /** No earlier section has the MID of section `k`. */
  predicate FirstWithItsMid(sections: seq<ProMediaSection>, k: nat)
    requires k < |sections|
  {
    forall i :: 0 <= i < k ==> sections[i].mid != sections[k].mid
  }

  /**
   A Pro candidate mapped to its offer section routes back to its own peer exactly when no earlier kept section
   has the same MID. With distinct MIDs every candidate routes back.
   */
  lemma RoutesBack(o: Offer, k: nat, c: IceCandidate)
    requires DistinctKinds(o) && k < |o.sections|
    ensures var mapped := ClientCandidate(o.sections, o.sections[k].kind, c);
            mapped.Some?
            && (KindsForCandidate(o.sections, mapped.value) == [o.sections[k].kind] <==> FirstWithItsMid(o.sections, k))
  {
    SectionForKindAt(o.sections, k);
    if FirstWithItsMid(o.sections, k) {
      SectionForMidFirst(o.sections, k);
    } else {
      var j := SectionForMidLeast(o.sections, o.sections[k].mid);
      assert j < k;
      assert o.sections[j].kind != o.sections[k].kind;
    }
  }

  lemma {:induction false} SectionForIndexAt(sections: seq<ProMediaSection>, k: nat)
    requires k < |sections| && IncreasingIndices(sections)
    ensures SectionForIndex(sections, sections[k].index) == Some(sections[k])
  {
    if k > 0 {
      assert forall i, j :: 0 <= i < j < |sections| - 1 ==> sections[1..][i].index < sections[1..][j].index;
      SectionForIndexAt(sections[1..], k - 1);
    }
  }

  lemma {:induction false} NoSection(sections: seq<ProMediaSection>, mid: string, index: nat)
    ensures (forall k :: 0 <= k < |sections| ==> sections[k].mid != mid) ==> SectionForMid(sections, mid) == None
    ensures (forall k :: 0 <= k < |sections| ==> sections[k].index != index) ==> SectionForIndex(sections, index) == None
  {
    if sections != [] {
      NoSection(sections[1..], mid, index);
      assert forall k :: 0 <= k < |sections| - 1 ==> sections[1..][k] == sections[k + 1];
    }
  }

  /** A candidate whose MID names no kept section goes by its index, and to every peer when that names none either. */
  lemma RoutesByIndexThenAll(o: Offer, c: IceCandidate)
    requires IncreasingIndices(o.sections)
    requires c.sdpMid.Some? ==> forall k :: 0 <= k < |o.sections| ==> o.sections[k].mid != c.sdpMid.value
    ensures forall k :: 0 <= k < |o.sections| && c.sdpMLineIndex == Some(o.sections[k].index) ==>
              KindsForCandidate(o.sections, c) == [o.sections[k].kind]
    ensures (forall k :: 0 <= k < |o.sections| ==> c.sdpMLineIndex != Some(o.sections[k].index)) ==>
              |KindsForCandidate(o.sections, c)| == |o.sections|
              && forall k :: 0 <= k < |o.sections| ==> KindsForCandidate(o.sections, c)[k] == o.sections[k].kind
  {
    NoSection(o.sections, c.sdpMid.GetOr(""), c.sdpMLineIndex.GetOr(0));
    forall k | 0 <= k < |o.sections| && c.sdpMLineIndex == Some(o.sections[k].index)
      ensures KindsForCandidate(o.sections, c) == [o.sections[k].kind]
    {
      SectionForIndexAt(o.sections, k);
    }
  }

  /** Mapping upstream and back restores MID and index of the section and keeps text and username fragment. */
  lemma UpstreamThenClient(o: Offer, k: nat, c: IceCandidate)
    requires DistinctKinds(o) && k < |o.sections|
    ensures var s := o.sections[k];
            var up := UpstreamCandidate(o.sections, s.kind, c);
            && up == Some(IceCandidate(c.candidate, Some("0"), Some(0), c.usernameFragment))
            && ClientCandidate(o.sections, s.kind, up.value)
               == Some(IceCandidate(c.candidate, Some(s.mid), Some(s.index), c.usernameFragment))
            && (ClientCandidate(o.sections, s.kind, up.value) == Some(c) <==>
                c.sdpMid == Some(s.mid) && c.sdpMLineIndex == Some(s.index))
  {
    SectionForKindAt(o.sections, k);
  }

  lemma {:induction false} FoundSectionsBelong(sections: seq<ProMediaSection>, mid: string, index: nat)
    ensures SectionForMid(sections, mid).Some? ==> SectionForMid(sections, mid).value in sections
    ensures SectionForIndex(sections, index).Some? ==> SectionForIndex(sections, index).value in sections
  {
    if sections != [] {
      FoundSectionsBelong(sections[1..], mid, index);
    }
  }

  /** Every browser candidate is for at least one peer, and the mapping drops it for none of them. */
  lemma EveryCandidateIsDelivered(sections: seq<ProMediaSection>, c: IceCandidate)
    requires sections != []
    ensures KindsForCandidate(sections, c) != []
    ensures forall kind :: kind in KindsForCandidate(sections, c) ==> UpstreamCandidate(sections, kind, c).Some?
  {
    FoundSectionsBelong(sections, c.sdpMid.GetOr(""), c.sdpMLineIndex.GetOr(0));
    forall kind | kind in KindsForCandidate(sections, c)
      ensures UpstreamCandidate(sections, kind, c).Some?
    {
      assert exists s :: s in sections && s.kind == kind;
      SectionForKindFinds(sections, kind);
    }
  }

  // -------------------------------------------------- colliding MIDs exist

  lemma WordKind(w: string)
    requires w != "" && forall i :: 0 <= i < |w| ==> !IsSpace(w[i])
    ensures MediaKindOf(["m=" + w]) == Ok(KindNamed(w))
    ensures MediaKindOf(["m=" + w, "a=mid:1"]) == Ok(KindNamed(w))
  {
    FirstTokenExact("", w, "");
    assert "" + (w + "") == w;
    assert ("m=" + w)[2..] == w;
  }

  lemma AudioThenVideo(d: Description)
    requires |d.media| == 2 && IsOfKind(d.media[0], Audio) && IsOfKind(d.media[1], Video)
    ensures SplitUpTo(d, 2).Ok?
    ensures SplitUpTo(d, 2).value.sections == [SectionAt(d.media, 0, Audio), SectionAt(d.media, 1, Video)]
  {
    assert SplitUpTo(d, 0) == Ok(Offer(map[], []));
    var first := SplitUpTo(d, 1);
    assert first.Ok? && first.value.sections == [SectionAt(d.media, 0, Audio)] && first.value.offers.Keys == {Audio};
  }

  const CLASHING := Description([], [["m=audio", "a=mid:1"], ["m=video"]])

  lemma ClashingMids()
    ensures WellFormed(CLASHING)
    ensures SectionAt(CLASHING.media, 0, Audio).mid == "1"
    ensures SectionAt(CLASHING.media, 1, Video).mid == "1"
  {
    assert "a=mid:1"[0] == 'a' && "m=audio"[0] == 'm' && "m=video"[0] == 'm' && "m="[0] == 'm' && MID[0] == 'a';
    assert !IsMediaLine("a=mid:1") && !IsMid("m=audio") && !IsMid("m=video");
    assert "a=mid:1"[|MID|..] == "1" && "a=mid:1"[..|MID|] == MID;
    var audio := ["m=audio", "a=mid:1"];
    assert audio[1..] == ["a=mid:1"];
    assert MediaMid(audio, "0") == MediaMid(audio[1..], "0") == "1";
    assert MediaMid(["m=video"], NatToString(1)) == MediaMid([], NatToString(1)) == NatToString(1) == "1";
  }

  lemma ClashingKinds()
    ensures IsOfKind(CLASHING.media[0], Audio) && IsOfKind(CLASHING.media[1], Video)
  {
    assert "m=audio" == "m=" + "audio" && "m=video" == "m=" + "video";
    WordKind("audio");
    WordKind("video");
  }

  lemma SharedMidRoutesFirst(sections: seq<ProMediaSection>, c: IceCandidate)
    requires |sections| == 2 && sections[0].kind != sections[1].kind && sections[0].mid == sections[1].mid
    ensures var mapped := ClientCandidate(sections, sections[1].kind, c);
            mapped.Some? && KindsForCandidate(sections, mapped.value) == [sections[0].kind]
  {
    SectionForKindAt(sections, 1);
    SectionForMidFirst(sections, 0);
  }

  /**
   The kept MIDs of an accepted offer need not be distinct: an audio section named `1` before a video section
   without a MID, whose fallback is its index 1. A video candidate then routes to the audio peer.
   */
  lemma CollidingMids(sdp: string, c: IceCandidate)
    requires Split(sdp) == CLASHING
    ensures SplitOffer(sdp).Ok?
    ensures var sections := SplitOffer(sdp).value.sections;
            && ClientCandidate(sections, Video, c).Some?
            && KindsForCandidate(sections, ClientCandidate(sections, Video, c).value) == [Audio]
  {
    ClashingMids();
    ClashingKinds();
    AudioThenVideo(CLASHING);
    SharedMidRoutesFirst([SectionAt(CLASHING.media, 0, Audio), SectionAt(CLASHING.media, 1, Video)], c);
  }

  /** There is a text that parses to the clashing description. */
  lemma ClashingTextExists() returns (sdp: string)
    ensures Split(sdp) == CLASHING
  {
    ClashingMids();
    var d := CLASHING;
    SplitPrint(d);
    sdp := Print(d);
  }
}
