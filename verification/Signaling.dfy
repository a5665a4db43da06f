/**
 One WebRTC signaling session (nanokvm/webrtc.py): sending the offer and browser candidates, and the event loop
 that merges the Pro's answers and holds early candidates. Decoded fields of a message are its input here.
 */
module Signaling {
  import opened Common
  import opened Text
  import opened Sdp
  import opened MediaLines
  import opened ProOffer
  import opened Candidates

  /** The decoded payload: the `sdp` text, the validated candidate and the status code, where it has them. */
  datatype SignalData = SignalData(sdp: Option<string>, candidate: Option<IceCandidate>, code: Option<int>)

  /** A WebSocket message. `Noise` is any other frame, undecodable text, or a heartbeat. */
  datatype Incoming = Closed | Noise | Signal(event: string, data: SignalData)

  datatype Event = AnswerEvent(sdp: string) | CandidateEvent(candidate: IceCandidate)

  datatype End = SocketEnded | VideoModeError | MergeFailed(error: SdpError)

  const INCONSISTENT_MODE := -4

  function AnswerKind(event: string): Option<MediaKind> {
    if event == "video-answer" then Some(Video) else if event == "audio-answer" then Some(Audio) else None
  }

  function CandidateKind(event: string): Option<MediaKind> {
    if event == "video-candidate" then Some(Video) else if event == "audio-candidate" then Some(Audio) else None
  }

  predicate IsStatus(event: string) {
    event == "video-status" || event == "audio-status"
  }

  // ------------------------------------------- reading one message against an offer

  /** The answer a message contributes: a non-empty SDP of an offered kind. */
  function AnswerIn(o: Offer, msg: Incoming): Option<Answer> {
    if msg.Signal? && AnswerKind(msg.event).Some? && AnswerKind(msg.event).value in o.offers
       && msg.data.sdp.Some? && msg.data.sdp.value != ""
    then Some(Answer(AnswerKind(msg.event).value, msg.data.sdp.value))
    else None
  }

  /** A message's candidate with its kind, whether or not the kind was offered. */
  function CandidateIn(msg: Incoming): Option<(MediaKind, IceCandidate)> {
    if msg.Signal? && CandidateKind(msg.event).Some? && msg.data.candidate.Some?
    then Some((CandidateKind(msg.event).value, msg.data.candidate.value))
    else None
  }

  /** The candidate event a message is owed: valid, of an offered kind, and mapped to its offer section. */
  function OwedCandidate(o: Offer, msg: Incoming): seq<Event> {
    match CandidateIn(msg)
    case None => []
    case Some((kind, c)) =>
      match ClientCandidate(o.sections, kind, c)
      case None => []
      case Some(mapped) => [CandidateEvent(mapped)]
  }

  predicate Stops(pro: bool, msg: Incoming) {
    || msg.Closed?
    || (pro && msg.Signal? && msg.event == "video-status" && msg.data.code == Some(INCONSISTENT_MODE))
  }

  // ------------------------------------------------- the whole-conversation reference

  /** The messages before the socket ends or the Pro reports the wrong video mode. */
  function Live(pro: bool, msgs: seq<Incoming>): (r: seq<Incoming>)
    ensures r <= msgs
  {
    if msgs == [] || Stops(pro, msgs[0]) then []
    else [msgs[0]] + Live(pro, msgs[1..])
  }

  function EndOf(pro: bool, msgs: seq<Incoming>): End {
    var n := |Live(pro, msgs)|;
    if n < |msgs| && msgs[n].Signal? then VideoModeError else SocketEnded
  }

  /** The latest non-empty answer of a kind. */
  function LatestAnswer(o: Offer, msgs: seq<Incoming>, kind: MediaKind): Option<string> {
    if msgs == [] then None
    else
      var n := |msgs| - 1;
      var a := AnswerIn(o, msgs[n]);
      if a.Some? && a.value.kind == kind then Some(a.value.sdp) else LatestAnswer(o, msgs[..n], kind)
  }

  predicate AllAnswered(o: Offer, msgs: seq<Incoming>) {
    forall k :: 0 <= k < |o.sections| ==> LatestAnswer(o, msgs, o.sections[k].kind).Some?
  }

  /** The length of the shortest prefix in which every offered kind has answered. */
  function AnsweredAt(o: Offer, msgs: seq<Incoming>): (r: Option<nat>)
    ensures r.Some? ==> r.value <= |msgs|
  {
    if msgs == [] then None
    else
      var before := AnsweredAt(o, msgs[..|msgs| - 1]);
      if before.Some? then before
      else if AllAnswered(o, msgs) then Some(|msgs|)
      else None
  }

  /** `answers[kind] = sdp` on a dictionary that keeps insertion order. */
  function Put(answers: seq<Answer>, a: Answer): seq<Answer> {
    if answers == [] then [a]
    else if answers[0].kind == a.kind then [a] + answers[1..]
    else [answers[0]] + Put(answers[1..], a)
  }

  function AnswersOf(o: Offer, msgs: seq<Incoming>): seq<Answer> {
    if msgs == [] then []
    else
      var n := |msgs| - 1;
      var before := AnswersOf(o, msgs[..n]);
      if AnswerIn(o, msgs[n]).Some? then Put(before, AnswerIn(o, msgs[n]).value) else before
  }

  function OwedCandidates(o: Offer, msgs: seq<Incoming>): seq<Event> {
    if msgs == [] then []
    else OwedCandidates(o, msgs[..|msgs| - 1]) + OwedCandidate(o, msgs[|msgs| - 1])
  }

  /** What the Pro's live messages yield. */
  function Yielded(o: Offer, live: seq<Incoming>): seq<Event> {
    match AnsweredAt(o, live)
    case None => []
    case Some(n) => Released(Merge(o, AnswersOf(o, live[..n])), OwedCandidates(o, live))
  }

  /** The merged answer and the candidates after it, or nothing when the merge raised. */
  function Released(merged: Result<string, SdpError>, owed: seq<Event>): seq<Event> {
    match merged
    case Err(e) => []
    case Ok(sdp) => [AnswerEvent(sdp)] + owed
  }

  /** How the Pro's conversation ends: a merge that raises ends it early. */
  function ProEnd(o: Offer, msgs: seq<Incoming>): End {
    var live := Live(true, msgs);
    match AnsweredAt(o, live)
    case None => EndOf(true, msgs)
    case Some(n) =>
      match Merge(o, AnswersOf(o, live[..n]))
      case Err(e) => MergeFailed(e)
      case Ok(_) => EndOf(true, msgs)
  }

  /**
   What a Pro conversation yields: nothing until every offered kind has answered, then one merged answer, then
   every candidate owed since the start, in arrival order.
   */
  function ProOutput(o: Offer, msgs: seq<Incoming>): (seq<Event>, End) {
    (Yielded(o, Live(true, msgs)), ProEnd(o, msgs))
  }

  /** What the non-Pro yields for one message: its answer or its candidate, unchanged. */
  function PassedOn(msg: Incoming): seq<Event> {
    if !msg.Signal? then []
    else if msg.event == "video-answer" then
      if msg.data.sdp.Some? && msg.data.sdp.value != "" then [AnswerEvent(msg.data.sdp.value)] else []
    else if msg.event == "video-candidate" && msg.data.candidate.Some? then
      [CandidateEvent(msg.data.candidate.value)]
    else []
  }

  function NonProOutput(msgs: seq<Incoming>): seq<Event> {
    if msgs == [] then [] else NonProOutput(msgs[..|msgs| - 1]) + PassedOn(msgs[|msgs| - 1])
  }

  function Output(pro: bool, offer: Option<Offer>, msgs: seq<Incoming>): (seq<Event>, End) {
    if !pro then (NonProOutput(Live(false, msgs)), SocketEnded)
    else if offer.None? then ([], EndOf(true, msgs))
    else ProOutput(offer.value, msgs)
  }

  // -------------------------------------------------------- facts about the reference

  /** A video status of -4: the Pro is in the wrong video mode. */
  predicate ReportsWrongMode(msg: Incoming) {
    msg.Signal? && msg.event == "video-status" && msg.data.code == Some(-4)
  }

  /** The message ends the conversation. */
  predicate EndsIt(pro: bool, msg: Incoming) {
    msg.Closed? || (pro && ReportsWrongMode(msg))
  }

  /** The live messages are those before the first that ends the conversation, if any does. */
  lemma {:induction false} LiveUntilEnd(pro: bool, msgs: seq<Incoming>)
    ensures var n := |Live(pro, msgs)|;
            && Live(pro, msgs) == msgs[..n]
            && (forall i :: 0 <= i < n ==> !EndsIt(pro, msgs[i]))
            && (n < |msgs| ==> EndsIt(pro, msgs[n]))
  {
    if msgs != [] && !Stops(pro, msgs[0]) {
      LiveUntilEnd(pro, msgs[1..]);
      var n := |Live(pro, msgs[1..])|;
      assert msgs[..n + 1] == [msgs[0]] + msgs[1..][..n];
      forall i | 0 <= i < n + 1
        ensures !EndsIt(pro, msgs[i])
      {
        assert i > 0 ==> msgs[i] == msgs[1..][i - 1];
      }
    }
  }

  /** A conversation that is not cut short by a merge ends in a video-mode error exactly if a Pro reports it before the socket ends. */
  lemma WrongModeEndsIt(pro: bool, msgs: seq<Incoming>)
    ensures EndOf(pro, msgs) == VideoModeError <==>
              pro && exists n :: 0 <= n < |msgs| && ReportsWrongMode(msgs[n]) && forall i :: 0 <= i < n ==> !EndsIt(pro, msgs[i])
  {
    LiveUntilEnd(pro, msgs);
    var n := |Live(pro, msgs)|;
    if n < |msgs| && msgs[n].Signal? {
      assert pro && ReportsWrongMode(msgs[n]);
    }
  }

  /** A non-Pro message brings this event. */
  predicate Brings(msg: Incoming, e: Event) {
    && msg.Signal?
    && match e
       case AnswerEvent(sdp) => msg.event == "video-answer" && msg.data.sdp == Some(sdp) && sdp != ""
       case CandidateEvent(c) => msg.event == "video-candidate" && msg.data.candidate == Some(c)
  }

  /** `at[j]` is the message that brings event `j`; they are in order, and every message that brings one is among them. */
  ghost predicate PassesOn(msgs: seq<Incoming>, out: seq<Event>, at: seq<nat>) {
    && |at| == |out|
    && (forall j :: 0 <= j < |at| ==> at[j] < |msgs| && Brings(msgs[at[j]], out[j]))
    && (forall i, j :: 0 <= i < j < |at| ==> at[i] < at[j])
    && (forall i: nat, e :: i < |msgs| && Brings(msgs[i], e) ==> i in at)
  }

  lemma {:induction false} NonProPassesOn(msgs: seq<Incoming>) returns (at: seq<nat>)
    ensures PassesOn(msgs, NonProOutput(msgs), at)
  {
    at := [];
    if msgs != [] {
      var n := |msgs| - 1;
      at := NonProPassesOn(msgs[..n]);
      at := PassesOnNext(msgs[..n], NonProOutput(msgs[..n]), at, msgs[n]);
      assert msgs[..n] + [msgs[n]] == msgs;
    }
  }

  lemma PassesOnNext(msgs: seq<Incoming>, out: seq<Event>, at: seq<nat>, msg: Incoming) returns (at': seq<nat>)
    requires PassesOn(msgs, out, at)
    ensures PassesOn(msgs + [msg], out + PassedOn(msg), at')
  {
    var all := msgs + [msg];
    at' := at + if PassedOn(msg) == [] then [] else [|msgs|];
    assert PassedOn(msg) != [] ==> Brings(msg, PassedOn(msg)[0]);
    assert PassedOn(msg) == [] ==> forall e :: !Brings(msg, e);
    forall i: nat, e | i < |all| && Brings(all[i], e)
      ensures i in at'
    {
      if i == |msgs| {
        assert at'[|at|] == i;
      } else {
        assert msgs[i] == all[i];
      }
    }
  }

  /**
   A non-Pro conversation yields, before the socket ends, the text of every video answer that is not empty and every
   video candidate, unchanged and in order, and nothing else.
   */
  lemma NonProConversation(offer: Option<Offer>, msgs: seq<Incoming>) returns (at: seq<nat>)
    ensures var (out, end) := Output(false, offer, msgs);
            end == SocketEnded && PassesOn(Live(false, msgs), out, at)
    ensures var live := Live(false, msgs);
            && live == msgs[..|live|] && (forall i :: 0 <= i < |live| ==> !live[i].Closed?)
            && (|live| < |msgs| ==> msgs[|live|].Closed?)
  {
    LiveUntilEnd(false, msgs);
    at := NonProPassesOn(Live(false, msgs));
  }

  lemma {:induction false} LookupPut(answers: seq<Answer>, a: Answer, kind: MediaKind)
    ensures Lookup(Put(answers, a), kind) == if kind == a.kind then Some(a.sdp) else Lookup(answers, kind)
  {
    if answers != [] && answers[0].kind != a.kind {
      LookupPut(answers[1..], a, kind);
    }
  }

  /** The dictionary holds exactly the latest non-empty answer of each kind. */
  lemma {:induction false} AnswersAreLatest(o: Offer, msgs: seq<Incoming>, kind: MediaKind)
    ensures Lookup(AnswersOf(o, msgs), kind) == LatestAnswer(o, msgs, kind)
  {
    if msgs != [] {
      var n := |msgs| - 1;
      AnswersAreLatest(o, msgs[..n], kind);
      if AnswerIn(o, msgs[n]).Some? {
        LookupPut(AnswersOf(o, msgs[..n]), AnswerIn(o, msgs[n]).value, kind);
      }
    }
  }

  /** The dictionary's first entry belongs to the kind that answered first. */
  lemma {:induction false} FirstAnswerFirst(o: Offer, msgs: seq<Incoming>, i: nat)
    requires i < |msgs| && AnswerIn(o, msgs[i]).Some?
    requires forall j :: 0 <= j < i ==> AnswerIn(o, msgs[j]).None?
    ensures AnswersOf(o, msgs) != [] && AnswersOf(o, msgs)[0].kind == AnswerIn(o, msgs[i]).value.kind
  {
    var n := |msgs| - 1;
    if i == n {
      NoAnswersYet(o, msgs[..n]);
    } else {
      FirstAnswerFirst(o, msgs[..n], i);
    }
  }

  lemma {:induction false} NoAnswersYet(o: Offer, msgs: seq<Incoming>)
    requires forall j :: 0 <= j < |msgs| ==> AnswerIn(o, msgs[j]).None?
    ensures AnswersOf(o, msgs) == []
  {
    if msgs != [] {
      NoAnswersYet(o, msgs[..|msgs| - 1]);
    }
  }

  lemma {:induction false} LatestAnswerStays(o: Offer, msgs: seq<Incoming>, n: nat, kind: MediaKind)
    requires n <= |msgs|
    ensures LatestAnswer(o, msgs[..n], kind).Some? ==> LatestAnswer(o, msgs, kind).Some?
  {
    if n < |msgs| {
      var front := msgs[..|msgs| - 1];
      assert front[..n] == msgs[..n];
      LatestAnswerStays(o, front, n, kind);
    } else {
      assert msgs[..n] == msgs;
    }
  }

  /** The answered point is the least prefix, if any, in which every offered kind has answered. */
  lemma {:induction false} AnsweredAtIsLeast(o: Offer, msgs: seq<Incoming>)
    requires o.sections != []
    ensures AnsweredAt(o, msgs).Some? <==> AllAnswered(o, msgs)
    ensures AnsweredAt(o, msgs).Some? ==>
              var n := AnsweredAt(o, msgs).value;
              && 0 < n <= |msgs| && AllAnswered(o, msgs[..n])
              && forall m :: 0 <= m < n ==> !AllAnswered(o, msgs[..m])
  {
    if msgs == [] {
      assert LatestAnswer(o, msgs, o.sections[0].kind).None?;
    } else {
      var front := msgs[..|msgs| - 1];
      AnsweredAtIsLeast(o, front);
      assert forall m :: 0 <= m <= |front| ==> front[..m] == msgs[..m];
      assert msgs[..|msgs|] == msgs;
      if AnsweredAt(o, front).Some? {
        forall k | 0 <= k < |o.sections|
          ensures LatestAnswer(o, msgs, o.sections[k].kind).Some?
        {
          LatestAnswerStays(o, msgs, |front|, o.sections[k].kind);
        }
      } else {
        forall m | 0 <= m < |msgs|
          ensures !AllAnswered(o, msgs[..m])
        {
          if AllAnswered(o, msgs[..m]) {
            forall k | 0 <= k < |o.sections|
              ensures LatestAnswer(o, front, o.sections[k].kind).Some?
            {
              LatestAnswerStays(o, front, m, o.sections[k].kind);
            }
          }
        }
      }
    }
  }

  lemma {:induction false} OwedCandidatesAppend(o: Offer, a: seq<Incoming>, b: seq<Incoming>)
    ensures OwedCandidates(o, a + b) == OwedCandidates(o, a) + OwedCandidates(o, b)
  {
    if b == [] {
      assert a + b == a;
    } else {
      var front, last := b[..|b| - 1], b[|b| - 1];
      OwedCandidatesAppend(o, a, front);
      OwedNext(o, a, front, last);
      assert b == front + [last];
    }
  }

  lemma OwedNext(o: Offer, a: seq<Incoming>, front: seq<Incoming>, last: Incoming)
    requires OwedCandidates(o, a + front) == OwedCandidates(o, a) + OwedCandidates(o, front)
    ensures OwedCandidates(o, a + (front + [last])) == OwedCandidates(o, a) + OwedCandidates(o, front + [last])
  {
    OwedLast(o, a + front, last);
    OwedLast(o, front, last);
    Assoc(a, front, [last]);
    Assoc(OwedCandidates(o, a), OwedCandidates(o, front), OwedCandidate(o, last));
  }

  lemma OwedLast(o: Offer, seen: seq<Incoming>, msg: Incoming)
    ensures OwedCandidates(o, seen + [msg]) == OwedCandidates(o, seen) + OwedCandidate(o, msg)
  {
    assert (seen + [msg])[..|seen|] == seen;
  }

  /** The candidates owed before message `i`, for it, and after it make up all that are owed. */
  lemma OwedSplits(o: Offer, msgs: seq<Incoming>, i: nat)
    requires i < |msgs|
    ensures OwedCandidates(o, msgs)
         == OwedCandidates(o, msgs[..i]) + OwedCandidate(o, msgs[i]) + OwedCandidates(o, msgs[i + 1..])
    ensures OwedCandidates(o, msgs[..i + 1]) == OwedCandidates(o, msgs[..i]) + OwedCandidate(o, msgs[i])
  {
    CutAt(msgs, i);
    OwedCandidatesAppend(o, msgs[..i + 1], msgs[i + 1..]);
    OwedLast(o, msgs[..i], msgs[i]);
  }

  lemma Middle(a: seq<Event>, b: seq<Event>, c: seq<Event>)
    ensures |a + b + c| >= |a| + |b| && (a + b + c)[|a|..|a| + |b|] == b
  {
  }

  lemma MiddleAfter(head: seq<Event>, a: seq<Event>, b: seq<Event>, c: seq<Event>)
    ensures |head + (a + b + c)| >= |head| + |a| + |b|
    ensures (head + (a + b + c))[|head| + |a|..|head| + |a| + |b|] == b
  {
  }

  /** The candidate owed for message `i` stands in the output right after those owed for the earlier messages. */
  lemma OwedInPlace(o: Offer, msgs: seq<Incoming>, i: nat)
    requires i < |msgs|
    ensures var at := |OwedCandidates(o, msgs[..i])|;
            var here := OwedCandidate(o, msgs[i]);
            && at + |here| <= |OwedCandidates(o, msgs)|
            && OwedCandidates(o, msgs)[at..at + |here|] == here
            && at + |here| == |OwedCandidates(o, msgs[..i + 1])|
  {
    OwedSplits(o, msgs, i);
    Middle(OwedCandidates(o, msgs[..i]), OwedCandidate(o, msgs[i]), OwedCandidates(o, msgs[i + 1..]));
  }

  lemma {:induction false} OnlyCandidatesOwed(o: Offer, msgs: seq<Incoming>)
    ensures forall i :: 0 <= i < |OwedCandidates(o, msgs)| ==> OwedCandidates(o, msgs)[i].CandidateEvent?
  {
    if msgs != [] {
      OnlyCandidatesOwed(o, msgs[..|msgs| - 1]);
    }
  }

  /** The candidate owed for live message `i` stands in its place after the answer. */
  ghost predicate StandsInPlace(o: Offer, live: seq<Incoming>, out: seq<Event>, i: nat)
    requires i < |live|
  {
    var at := 1 + |OwedCandidates(o, live[..i])|;
    var here := OwedCandidate(o, live[i]);
    && at + |here| == 1 + |OwedCandidates(o, live[..i + 1])| <= |out|
    && out[at..at + |here|] == here
  }

  /** Every live message's owed candidate is in the output, in its place after the answer, and nothing else is. */
  ghost predicate CandidatesInOrder(o: Offer, live: seq<Incoming>, out: seq<Event>) {
    && |out| == 1 + |OwedCandidates(o, live)|
    && (forall i :: 1 <= i < |out| ==> out[i].CandidateEvent?)
    && forall i: nat :: i < |live| ==> StandsInPlace(o, live, out, i)
  }

  lemma OwedStandsInPlace(o: Offer, live: seq<Incoming>, answer: Event, i: nat)
    requires i < |live|
    ensures StandsInPlace(o, live, [answer] + OwedCandidates(o, live), i)
  {
    OwedSplits(o, live, i);
    var a, b, c := OwedCandidates(o, live[..i]), OwedCandidate(o, live[i]), OwedCandidates(o, live[i + 1..]);
    MiddleAfter([answer], a, b, c);
  }

  lemma OwedAreInOrder(o: Offer, live: seq<Incoming>, answer: Event)
    ensures CandidatesInOrder(o, live, [answer] + OwedCandidates(o, live))
  {
    OnlyCandidatesOwed(o, live);
    forall i: nat | i < |live|
      ensures StandsInPlace(o, live, [answer] + OwedCandidates(o, live), i)
    {
      OwedStandsInPlace(o, live, answer, i);
    }
  }

  /** The merge sees, for each kind, the latest non-empty answer before the point where all had answered. */
  ghost predicate MergesLatest(o: Offer, seen: seq<Incoming>, answers: seq<Answer>) {
    forall kind :: Lookup(answers, kind) == LatestAnswer(o, seen, kind)
  }

  /** The kind that answered first. */
  function FirstKind(o: Offer, msgs: seq<Incoming>): Option<MediaKind> {
    if msgs == [] then None
    else if AnswerIn(o, msgs[0]).Some? then Some(AnswerIn(o, msgs[0]).value.kind)
    else FirstKind(o, msgs[1..])
  }

  /** The dictionary's first entry, whose session part the merge uses, is the kind that answered first. */
  lemma {:induction false} FirstKindFirst(o: Offer, msgs: seq<Incoming>, rest: seq<Incoming>)
    requires forall j :: 0 <= j < |msgs| ==> AnswerIn(o, msgs[j]).None?
    ensures var answers := AnswersOf(o, msgs + rest);
            if answers == [] then FirstKind(o, rest) == None else FirstKind(o, rest) == Some(answers[0].kind)
    decreases |rest|
  {
    if rest == [] {
      assert msgs + rest == msgs;
      NoAnswersYet(o, msgs);
    } else if AnswerIn(o, rest[0]).Some? {
      FirstAnswerFirst(o, msgs + rest, |msgs|);
    } else {
      assert msgs + rest == (msgs + [rest[0]]) + rest[1..];
      FirstKindFirst(o, msgs + [rest[0]], rest[1..]);
    }
  }

  /**
   `n` messages are the least that answer every offered kind; `answers` holds the latest non-empty answer of each
   by then, that of the kind that answered first coming first.
   */
  ghost predicate MergePoint(o: Offer, live: seq<Incoming>, n: nat, answers: seq<Answer>) {
    && 0 < n <= |live|
    && AllAnswered(o, live[..n]) && (forall m :: 0 <= m < n ==> !AllAnswered(o, live[..m]))
    && MergesLatest(o, live[..n], answers)
    && answers != [] && FirstKind(o, live[..n]) == Some(answers[0].kind)
  }

  lemma MergePointExists(o: Offer, live: seq<Incoming>) returns (n: nat, answers: seq<Answer>)
    requires o.sections != [] && AllAnswered(o, live)
    ensures MergePoint(o, live, n, answers)
    ensures AnsweredAt(o, live) == Some(n) && answers == AnswersOf(o, live[..n])
  {
    AnsweredAtIsLeast(o, live);
    n := AnsweredAt(o, live).value;
    answers := AnswersOf(o, live[..n]);
    forall kind
      ensures Lookup(answers, kind) == LatestAnswer(o, live[..n], kind)
    {
      AnswersAreLatest(o, live[..n], kind);
    }
    FirstKindFirst(o, [], live[..n]);
    assert [] + live[..n] == live[..n];
    assert Lookup(answers, o.sections[0].kind).Some?;
  }

  /**
   The output is empty until every offered kind has answered. Then comes exactly one answer, the merge of the
   latest non-empty SDP of each kind with the session part of the kind that answered first, followed by the
   candidates owed since the start, in order, each once. If the merge raises there is no output.
   */
  lemma ProConversation(o: Offer, msgs: seq<Incoming>)
    requires o.sections != []
    ensures var live := Live(true, msgs);
            var (out, end) := ProOutput(o, msgs);
            if !AllAnswered(o, live) then out == [] && end == EndOf(true, msgs)
            else
              exists n: nat, answers: seq<Answer> ::
                && MergePoint(o, live, n, answers)
                && match Merge(o, answers) {
                     case Err(e) => out == [] && end == MergeFailed(e)
                     case Ok(sdp) => CandidatesInOrder(o, live, out) && out[0] == AnswerEvent(sdp) && end == EndOf(true, msgs)
                   }
  {
    var live := Live(true, msgs);
    if AllAnswered(o, live) {
      var n, answers := MergePointExists(o, live);
      if Merge(o, answers).Ok? {
        OwedAreInOrder(o, live, AnswerEvent(Merge(o, answers).value));
      }
    } else {
      AnsweredAtIsLeast(o, live);
    }
  }

  /**
   For a split offer the one answer yielded parses to exactly the offer's kept sections, in order, each from the
   latest answer of its kind; the session part is that of the kind that answered first.
   */
  lemma AnswerMatchesOffer(sdp: string, msgs: seq<Incoming>)
    requires SplitOffer(sdp).Ok? && SplitOffer(sdp).value.sections != []
    requires ProOutput(SplitOffer(sdp).value, msgs).0 != []
    ensures var o := SplitOffer(sdp).value;
            var out := ProOutput(o, msgs).0;
            out[0].AnswerEvent? && Answered(o, Live(true, msgs), Split(out[0].sdp))
  {
    SplitIsWellFormed(sdp);
    SplitKeepsFirstOfEachKind(sdp);
    SplitMidsNewlineFree(Split(sdp), |Split(sdp).media|, SplitOffer(sdp).value);
    AnswerMatches(SplitOffer(sdp).value, msgs);
  }

  /** `d` is the description merged at the merge point, section by section. */
  ghost predicate Answered(o: Offer, live: seq<Incoming>, d: Description) {
    && |d.media| == |o.sections|
    && exists n: nat, answers: seq<Answer> ::
         && MergePoint(o, live, n, answers)
         && d.session == WithoutAny(Split(answers[0].sdp).session, [BUNDLE] + TRANSPORT)
         && forall k :: 0 <= k < |o.sections| ==> MergedFromAnswer(d.media[k], o.sections[k], answers)
  }

  lemma AnswerMatches(o: Offer, msgs: seq<Incoming>)
    requires o.sections != [] && NewlineFreeMids(o) && ProOutput(o, msgs).0 != []
    ensures var out := ProOutput(o, msgs).0;
            out[0].AnswerEvent? && Answered(o, Live(true, msgs), Split(out[0].sdp))
  {
    var live := Live(true, msgs);
    AnsweredAtIsLeast(o, live);
    var n, answers := MergePointExists(o, live);
    assert ProOutput(o, msgs).0[0] == AnswerEvent(Merge(o, answers).value);
    MergePreservesOffer(o, answers);
  }

  /** The event names of a kind. */
  function AnswerName(kind: MediaKind): string {
    if kind == Video then "video-answer" else "audio-answer"
  }

  function CandidateName(kind: MediaKind): string {
    if kind == Video then "video-candidate" else "audio-candidate"
  }

  /** A message answers exactly when it is the answer event of an offered kind with a text that is not empty. */
  lemma AnswerInExact(o: Offer, msg: Incoming, kind: MediaKind, sdp: string)
    ensures AnswerIn(o, msg) == Some(Answer(kind, sdp)) <==>
              msg.Signal? && msg.event == AnswerName(kind) && kind in o.offers && msg.data.sdp == Some(sdp) && sdp != ""
  {
  }

  /** A message is owed a candidate event exactly when it is the candidate event of a kind that has a section. */
  lemma OwedCandidateExact(o: Offer, msg: Incoming, c: IceCandidate)
    ensures OwedCandidate(o, msg) == [CandidateEvent(c)] <==>
              exists kind :: msg.Signal? && msg.event == CandidateName(kind) && msg.data.candidate.Some?
                             && ClientCandidate(o.sections, kind, msg.data.candidate.value) == Some(c)
  {
    if OwedCandidate(o, msg) == [CandidateEvent(c)] {
      assert msg.event == CandidateName(CandidateIn(msg).value.0);
    }
  }

  /** What appending one message does to the answers. */
  lemma AnswersLast(o: Offer, seen: seq<Incoming>, msg: Incoming)
    ensures var next := seen + [msg];
            && AnswersOf(o, next) == (if AnswerIn(o, msg).Some? then Put(AnswersOf(o, seen), AnswerIn(o, msg).value) else AnswersOf(o, seen))
            && forall kind :: LatestAnswer(o, next, kind)
                              == if AnswerIn(o, msg).Some? && AnswerIn(o, msg).value.kind == kind then Some(AnswerIn(o, msg).value.sdp)
                                 else LatestAnswer(o, seen, kind)
  {
    assert (seen + [msg])[..|seen|] == seen;
  }

  /** A candidate and a misplaced answer, then an answer of `kind` with `sdp`, then a candidate of each kind. */
  function Conversation(kind: MediaKind, other: MediaKind, sdp: string, c: IceCandidate, d: IceCandidate): seq<Incoming> {
    [Signal(CandidateName(kind), SignalData(None, Some(c), None)), Signal(AnswerName(other), SignalData(Some(sdp), None, None))]
    + [Signal(AnswerName(kind), SignalData(Some(sdp), None, None))]
    + [Signal(CandidateName(kind), SignalData(None, Some(d), None))]
    + [Signal(CandidateName(other), SignalData(None, Some(d), None))]
  }

  predicate OffersOnly(o: Offer, kind: MediaKind) {
    |o.sections| == 1 && o.sections[0].kind == kind && forall k :: k in o.offers <==> k == kind
  }

  lemma OneKindAnswer(o: Offer, kind: MediaKind, other: MediaKind, sdp: string, c: IceCandidate, d: IceCandidate)
    requires OffersOnly(o, kind) && other != kind && sdp != ""
    ensures var msgs := Conversation(kind, other, sdp, c, d);
            && !AllAnswered(o, msgs[..2]) && AllAnswered(o, msgs[..3]) && AnswersOf(o, msgs[..3]) == [Answer(kind, sdp)]
  {
    var msgs := Conversation(kind, other, sdp, c, d);
    var m0, m1, m2 := msgs[0], msgs[1], msgs[2];
    assert msgs[..2] == [m0] + [m1] && msgs[..3] == [m0] + [m1] + [m2] && [] + [m0] == [m0];
    AnswersLast(o, [], m0);
    AnswersLast(o, [m0], m1);
    AnswersLast(o, [m0] + [m1], m2);
    assert LatestAnswer(o, [m0] + [m1], o.sections[0].kind).None?;
  }

  lemma NamedCandidate(o: Offer, kind: MediaKind, c: IceCandidate)
    ensures OwedCandidate(o, Signal(CandidateName(kind), SignalData(None, Some(c), None)))
         == var s := SectionForKind(o.sections, kind);
            if s.None? then [] else [CandidateEvent(c.(sdpMid := Some(s.value.mid), sdpMLineIndex := Some(s.value.index)))]
  {
  }

  lemma NamedAnswer(o: Offer, kind: MediaKind, sdp: string)
    ensures OwedCandidate(o, Signal(AnswerName(kind), SignalData(Some(sdp), None, None))) == []
  {
  }

  lemma TwoOfFive(x: Event, y: Event)
    ensures [] + [x] + [] + [] + [y] + [] == [x, y]
  {
  }

  lemma OneKindCandidates(o: Offer, kind: MediaKind, other: MediaKind, sdp: string, c: IceCandidate, d: IceCandidate)
    requires OffersOnly(o, kind) && other != kind
    ensures OwedCandidates(o, Conversation(kind, other, sdp, c, d))
         == [CandidateEvent(c.(sdpMid := Some(o.sections[0].mid), sdpMLineIndex := Some(o.sections[0].index))),
             CandidateEvent(d.(sdpMid := Some(o.sections[0].mid), sdpMLineIndex := Some(o.sections[0].index)))]
  {
    var msgs := Conversation(kind, other, sdp, c, d);
    var m0, m1, m2, m3, m4 := msgs[0], msgs[1], msgs[2], msgs[3], msgs[4];
    SectionForKindAt(o.sections, 0);
    NamedCandidate(o, kind, c);
    NamedCandidate(o, kind, d);
    NamedCandidate(o, other, d);
    NamedAnswer(o, kind, sdp);
    NamedAnswer(o, other, sdp);
    assert msgs == [m0] + [m1] + [m2] + [m3] + [m4] && [] + [m0] == [m0];
    TwoOfFive(OwedCandidate(o, m0)[0], OwedCandidate(o, m3)[0]);
    OwedLast(o, [], m0);
    OwedLast(o, [m0], m1);
    OwedLast(o, [m0] + [m1], m2);
    OwedLast(o, [m0] + [m1] + [m2], m3);
    OwedLast(o, [m0] + [m1] + [m2] + [m3], m4);
  }

  /**
   One kind offered, and candidates of that kind on both sides of its answer: both are owed, in order. The same
   messages under the other kind's names count for nothing.
   */
  lemma OneKindConversation(o: Offer, kind: MediaKind, other: MediaKind, sdp: string, c: IceCandidate, d: IceCandidate)
    requires OffersOnly(o, kind) && other != kind && sdp != ""
    ensures var msgs := Conversation(kind, other, sdp, c, d);
            && !AllAnswered(o, msgs[..2]) && AllAnswered(o, msgs[..3]) && AnswersOf(o, msgs[..3]) == [Answer(kind, sdp)]
            && OwedCandidates(o, msgs)
               == [CandidateEvent(c.(sdpMid := Some(o.sections[0].mid), sdpMLineIndex := Some(o.sections[0].index))),
                   CandidateEvent(d.(sdpMid := Some(o.sections[0].mid), sdpMLineIndex := Some(o.sections[0].index)))]
  {
    OneKindAnswer(o, kind, other, sdp, c, d);
    OneKindCandidates(o, kind, other, sdp, c, d);
  }

  lemma {:induction false} LivePrefix(pro: bool, msgs: seq<Incoming>, n: nat)
    requires n <= |msgs|
    ensures Live(pro, msgs[..n]) == if n <= |Live(pro, msgs)| then msgs[..n] else Live(pro, msgs)
  {
    if n > 0 && !Stops(pro, msgs[0]) {
      LivePrefix(pro, msgs[1..], n - 1);
      assert msgs[..n][1..] == msgs[1..][..n - 1];
      assert msgs[..n] == [msgs[0]] + msgs[1..][..n - 1];
    }
  }

  lemma {:induction false} AnsweredAtStays(o: Offer, msgs: seq<Incoming>, n: nat)
    requires n <= |msgs| && AnsweredAt(o, msgs[..n]).Some?
    ensures AnsweredAt(o, msgs) == AnsweredAt(o, msgs[..n])
  {
    if n == |msgs| {
      assert msgs[..n] == msgs;
    } else {
      var front := msgs[..|msgs| - 1];
      assert front[..n] == msgs[..n];
      AnsweredAtStays(o, front, n);
    }
  }

  lemma ReleasedGrows(merged: Result<string, SdpError>, owed: seq<Event>, more: seq<Event>)
    ensures Released(merged, owed) <= Released(merged, owed + more)
    ensures merged.Ok? ==> Released(merged, owed + more) == Released(merged, owed) + more
  {
  }

  lemma YieldedGrows(o: Offer, live: seq<Incoming>, more: seq<Incoming>)
    ensures Yielded(o, live) <= Yielded(o, live + more)
  {
    if AnsweredAt(o, live).Some? {
      var all := live + more;
      var n := AnsweredAt(o, live).value;
      assert all[..|live|] == live;
      AnsweredAtStays(o, all, |live|);
      assert all[..n] == live[..n];
      OwedCandidatesAppend(o, live, more);
      ReleasedGrows(Merge(o, AnswersOf(o, live[..n])), OwedCandidates(o, live), OwedCandidates(o, more));
    }
  }

  /** The loop never takes an event back: what it yields for a prefix of the messages is a prefix of what it yields. */
  lemma OutputIsOnline(o: Offer, msgs: seq<Incoming>, n: nat)
    requires n <= |msgs|
    ensures ProOutput(o, msgs[..n]).0 <= ProOutput(o, msgs).0
  {
    var more := LiveGrows(true, msgs, n);
    YieldedGrows(o, Live(true, msgs[..n]), more);
  }

  lemma LiveGrows(pro: bool, msgs: seq<Incoming>, n: nat) returns (more: seq<Incoming>)
    requires n <= |msgs|
    ensures Live(pro, msgs) == Live(pro, msgs[..n]) + more
  {
    var all, live := Live(pro, msgs), Live(pro, msgs[..n]);
    LivePrefix(pro, msgs, n);
    assert live == all[..|live|];
    more := all[|live|..];
  }

  // ------------------------------------------------------------- the event loop

  /** The events owed for held candidates, once there is an answer to follow. */
  function HeldEvents(o: Offer, early: seq<(MediaKind, IceCandidate)>): seq<Event> {
    if early == [] then []
    else
      var n := |early| - 1;
      var mapped := ClientCandidate(o.sections, early[n].0, early[n].1);
      HeldEvents(o, early[..n]) + if mapped.Some? then [CandidateEvent(mapped.value)] else []
  }

  /** The loop's variables after the live messages `seen`. */
  ghost predicate LoopState(o: Offer, seen: seq<Incoming>, answers: seq<Answer>,
                            early: seq<(MediaKind, IceCandidate)>, answered: bool, out: seq<Event>)
  {
    && (answered <==> AnsweredAt(o, seen).Some?)
    && out == Yielded(o, seen)
    && (answered ==> out != [])
    && (!answered ==> answers == AnswersOf(o, seen) && HeldEvents(o, early) == OwedCandidates(o, seen))
  }

  /** A message without an answer leaves the answered point and the answers alone. */
  lemma NoAnswerIn(o: Offer, seen: seq<Incoming>, msg: Incoming)
    requires o.sections != [] && (AnswerIn(o, msg).None? || AnsweredAt(o, seen).Some?)
    ensures AnsweredAt(o, seen + [msg]) == AnsweredAt(o, seen)
    ensures AnswerIn(o, msg).None? ==> AnswersOf(o, seen + [msg]) == AnswersOf(o, seen)
    ensures OwedCandidates(o, seen + [msg]) == OwedCandidates(o, seen) + OwedCandidate(o, msg)
  {
    var next := seen + [msg];
    assert next[..|next| - 1] == seen;
    if AnsweredAt(o, seen).None? {
      AnsweredAtIsLeast(o, seen);
      var k :| 0 <= k < |o.sections| && LatestAnswer(o, seen, o.sections[k].kind).None?;
      assert LatestAnswer(o, next, o.sections[k].kind).None?;
    }
  }

  /** After the answer, a message adds the candidate it is owed. */
  lemma YieldedNext(o: Offer, seen: seq<Incoming>, msg: Incoming)
    requires o.sections != [] && Yielded(o, seen) != []
    ensures AnsweredAt(o, seen + [msg]) == AnsweredAt(o, seen)
    ensures Yielded(o, seen + [msg]) == Yielded(o, seen) + OwedCandidate(o, msg)
  {
    NoAnswerIn(o, seen, msg);
    var n := AnsweredAt(o, seen).value;
    TakeBefore(seen, msg, n);
    ReleasedGrows(Merge(o, AnswersOf(o, seen[..n])), OwedCandidates(o, seen), OwedCandidate(o, msg));
  }

  /** A message that changes nothing but the count of messages. */
  predicate Ignored(o: Offer, msg: Incoming, answered: bool) {
    (AnswerIn(o, msg).None? || answered) && OwedCandidate(o, msg) == []
  }

  /** Which messages each branch of the loop ignores. */
  lemma IgnoredMessages(o: Offer, msg: Incoming, answered: bool)
    ensures !msg.Signal? || IsStatus(msg.event) ==> Ignored(o, msg, answered)
    ensures msg.Signal? && AnswerKind(msg.event).Some? && (answered || AnswerIn(o, msg).None?) ==> Ignored(o, msg, answered)
    ensures msg.Signal? && AnswerKind(msg.event).None? && CandidateIn(msg).None? ==> Ignored(o, msg, answered)
    ensures CandidateIn(msg).Some? ==> AnswerIn(o, msg).None?
  {
  }

  lemma LoopSkip(o: Offer, seen: seq<Incoming>, msg: Incoming, answers: seq<Answer>,
                 early: seq<(MediaKind, IceCandidate)>, answered: bool, out: seq<Event>)
    requires o.sections != [] && LoopState(o, seen, answers, early, answered, out)
    requires Ignored(o, msg, answered)
    ensures LoopState(o, seen + [msg], answers, early, answered, out + [])
  {
    assert out + [] == out;
    if answered {
      YieldedNext(o, seen, msg);
    } else {
      NoAnswerIn(o, seen, msg);
      assert OwedCandidates(o, seen) + [] == OwedCandidates(o, seen);
    }
  }

  lemma LoopHold(o: Offer, seen: seq<Incoming>, msg: Incoming, answers: seq<Answer>,
                 early: seq<(MediaKind, IceCandidate)>, out: seq<Event>)
    requires o.sections != [] && LoopState(o, seen, answers, early, false, out)
    requires CandidateIn(msg).Some? && AnswerIn(o, msg).None?
    ensures LoopState(o, seen + [msg], answers, early + [CandidateIn(msg).value], false, out)
  {
    NoAnswerIn(o, seen, msg);
    var held := early + [CandidateIn(msg).value];
    assert held[..|held| - 1] == early;
  }

  lemma LoopYield(o: Offer, seen: seq<Incoming>, msg: Incoming, answers: seq<Answer>,
                  early: seq<(MediaKind, IceCandidate)>, out: seq<Event>)
    requires o.sections != [] && LoopState(o, seen, answers, early, true, out)
    requires AnswerIn(o, msg).None?
    ensures LoopState(o, seen + [msg], answers, early, true, out + OwedCandidate(o, msg))
  {
    YieldedNext(o, seen, msg);
  }

  /** Storing an answer: either some kind is still missing, or this message is the answered point. */
  lemma LoopAnswer(o: Offer, seen: seq<Incoming>, msg: Incoming, answers: seq<Answer>,
                   early: seq<(MediaKind, IceCandidate)>)
    requires o.sections != [] && LoopState(o, seen, answers, early, false, [])
    requires AnswerIn(o, msg).Some?
    ensures var stored := Put(answers, AnswerIn(o, msg).value);
            var next := seen + [msg];
            && stored == AnswersOf(o, next)
            && HeldEvents(o, early) == OwedCandidates(o, next)
            && ((forall k :: 0 <= k < |o.sections| ==> Lookup(stored, o.sections[k].kind).Some?) <==>
                AnsweredAt(o, next) == Some(|next|))
            && (AnsweredAt(o, next) == Some(|next|) || LoopState(o, next, stored, early, false, []))
  {
    var next := seen + [msg];
    var stored := Put(answers, AnswerIn(o, msg).value);
    assert next[..|next| - 1] == seen;
    assert OwedCandidate(o, msg) == [];
    assert OwedCandidates(o, next) == OwedCandidates(o, seen);
    forall k | 0 <= k < |o.sections|
      ensures Lookup(stored, o.sections[k].kind) == LatestAnswer(o, next, o.sections[k].kind)
    {
      AnswersAreLatest(o, next, o.sections[k].kind);
    }
  }

  lemma LoopAnswered(o: Offer, next: seq<Incoming>, answers: seq<Answer>, sdp: string)
    requires AnsweredAt(o, next) == Some(|next|) && Merge(o, AnswersOf(o, next)) == Ok(sdp)
    ensures LoopState(o, next, answers, [], true, [AnswerEvent(sdp)] + OwedCandidates(o, next))
  {
    assert next[..|next|] == next;
  }

  /** A merge that raises ends the whole conversation with no output, whatever follows. */
  lemma MergeRaises(o: Offer, msgs: seq<Incoming>, n: nat)
    requires n <= |msgs| && Live(true, msgs[..n]) == msgs[..n]
    requires AnsweredAt(o, msgs[..n]) == Some(n) && Merge(o, AnswersOf(o, msgs[..n])).Err?
    ensures ProOutput(o, msgs) == ([], MergeFailed(Merge(o, AnswersOf(o, msgs[..n])).error))
  {
    LivePrefix(true, msgs, n);
    var live := Live(true, msgs);
    assert live[..n] == msgs[..n];
    AnsweredAtStays(o, live, n);
  }

  /** The loop's output so far is the reference's output for the live messages. */
  lemma LoopOutput(o: Offer, msgs: seq<Incoming>, n: nat, answers: seq<Answer>,
                   early: seq<(MediaKind, IceCandidate)>, answered: bool, out: seq<Event>)
    requires n <= |msgs| && Live(true, msgs) == msgs[..n]
    requires LoopState(o, msgs[..n], answers, early, answered, out)
    ensures ProOutput(o, msgs) == (out, EndOf(true, msgs))
  {
  }

  lemma {:induction false} LiveStep(pro: bool, msgs: seq<Incoming>, i: nat)
    requires i < |msgs| && Live(pro, msgs[..i]) == msgs[..i]
    ensures if Stops(pro, msgs[i]) then Live(pro, msgs) == msgs[..i] else Live(pro, msgs[..i + 1]) == msgs[..i + 1]
  {
    if i > 0 {
      assert msgs[..i] == [msgs[0]] + msgs[1..][..i - 1];
      assert msgs[..i][1..] == msgs[1..][..i - 1];
      assert !Stops(pro, msgs[0]);
      LiveStep(pro, msgs[1..], i - 1);
      assert msgs[..i + 1][1..] == msgs[1..][..i];
      assert msgs[..i + 1] == [msgs[0]] + msgs[1..][..i];
    }
  }

  // ------------------------------------------------------------- the session

  lemma OffersMatchSections(d: Description, o: Offer)
    requires EmitsOnePerSection(d, o)
    ensures o.offers == map[] <==> o.sections == []
  {
    if o.sections != [] {
      assert o.sections[0].kind in o.offers;
    } else {
      assert forall kind :: kind !in o.offers;
    }
  }

  lemma SplitOffersMatch(sdp: string)
    requires SplitOffer(sdp).Ok?
    ensures var o := SplitOffer(sdp).value;
            && (o.offers == map[] <==> o.sections == [])
            && forall kind :: kind in o.offers <==> HasKind(o.sections, kind)
  {
    SplitKeepsFirstOfEachKind(sdp);
    OffersMatchSections(Split(sdp), SplitOffer(sdp).value);
  }

  /** A message sent on the WebSocket. */
  datatype Outgoing =
    | OfferSent(kind: MediaKind, sdp: string)
    | CandidateSent(kind: MediaKind, candidate: IceCandidate)

  datatype SendError = BadSdp(error: SdpError) | NoMedia | NoOfferYet | SendRaised

  function OfferMessages(o: Offer): seq<Outgoing> {
    (if Video in o.offers then [OfferSent(Video, o.offers[Video])] else [])
    + (if Audio in o.offers then [OfferSent(Audio, o.offers[Audio])] else [])
  }

  /** One message per kept section, video first: an offer of its kind that parses to that section alone. */
  ghost predicate OffersEachSection(sdp: string, sections: seq<ProMediaSection>, messages: seq<Outgoing>) {
    && |messages| == |sections|
    && (forall i :: 0 <= i < |messages| ==> messages[i].OfferSent? && OffersOne(sdp, sections, messages[i]))
    && (forall i, j :: 0 <= i < j < |messages| ==> messages[i].kind != messages[j].kind)
    && (HasKind(sections, Video) ==> messages[0].kind == Video)
  }

  ghost predicate OffersOne(sdp: string, sections: seq<ProMediaSection>, message: Outgoing)
    requires message.OfferSent?
  {
    exists k :: 0 <= k < |sections| && sections[k].kind == message.kind
                && SingleSectionOf(Split(message.sdp), Split(sdp).session, sections[k])
  }

  /** At most one kept section is audio, and one video. */
  lemma KindsAreDistinct(sdp: string)
    requires SplitOffer(sdp).Ok?
    ensures var sections := SplitOffer(sdp).value.sections;
            && (forall k, l :: 0 <= k < l < |sections| ==> sections[k].kind != sections[l].kind)
            && |sections| == (if HasKind(sections, Video) then 1 else 0) + (if HasKind(sections, Audio) then 1 else 0)
  {
    SplitKeepsFirstOfEachKind(sdp);
    DistinctKinds(Split(sdp), SplitOffer(sdp).value.sections);
  }

  lemma DistinctKinds(d: Description, sections: seq<ProMediaSection>)
    requires KeepsOnlyFirsts(d, |d.media|, sections) && IncreasingIndices(sections)
    ensures forall k, l :: 0 <= k < l < |sections| ==> sections[k].kind != sections[l].kind
    ensures |sections| == (if HasKind(sections, Video) then 1 else 0) + (if HasKind(sections, Audio) then 1 else 0)
  {
    forall k, l | 0 <= k < l < |sections|
      ensures sections[k].kind != sections[l].kind
    {
      assert sections[k].index < sections[l].index;
      assert FirstOfKind(d.media, sections[k].index, sections[k].kind) && FirstOfKind(d.media, sections[l].index, sections[l].kind);
    }
    CountKinds(sections);
  }

  lemma {:induction false} CountKinds(sections: seq<ProMediaSection>)
    requires forall k, l :: 0 <= k < l < |sections| ==> sections[k].kind != sections[l].kind
    ensures |sections| == (if HasKind(sections, Video) then 1 else 0) + (if HasKind(sections, Audio) then 1 else 0)
  {
    if sections != [] {
      var front, last := sections[..|sections| - 1], sections[|sections| - 1];
      CountKinds(front);
      KindsExtend(front, last);
      assert sections == front + [last];
      assert !HasKind(front, last.kind);
    }
  }

  lemma OfferedOne(sdp: string, kind: MediaKind)
    requires SplitOffer(sdp).Ok? && HasKind(SplitOffer(sdp).value.sections, kind)
    ensures var o := SplitOffer(sdp).value;
            kind in o.offers && OffersOne(sdp, o.sections, OfferSent(kind, o.offers[kind]))
  {
    var o := SplitOffer(sdp).value;
    var k :| 0 <= k < |o.sections| && o.sections[k].kind == kind;
    EmittedOfferReparses(sdp, k);
  }

  lemma OneMessageEach(o: Offer)
    ensures var messages := OfferMessages(o);
            && |messages| == (if Video in o.offers then 1 else 0) + (if Audio in o.offers then 1 else 0)
            && (forall i :: 0 <= i < |messages| ==>
                  messages[i].OfferSent? && messages[i].kind in o.offers && messages[i].sdp == o.offers[messages[i].kind])
            && (forall i, j :: 0 <= i < j < |messages| ==> messages[i].kind != messages[j].kind)
            && (Video in o.offers ==> messages[0].kind == Video)
  {
  }

  /** The messages of a Pro offer are one for each kept section and no other, video first. */
  lemma OfferMessagesExact(sdp: string)
    requires SplitOffer(sdp).Ok?
    ensures OffersEachSection(sdp, SplitOffer(sdp).value.sections, OfferMessages(SplitOffer(sdp).value))
  {
    var o := SplitOffer(sdp).value;
    SplitOffersMatch(sdp);
    KindsAreDistinct(sdp);
    OneMessageEach(o);
    forall i | 0 <= i < |OfferMessages(o)|
      ensures OffersOne(sdp, o.sections, OfferMessages(o)[i])
    {
      OfferedOne(sdp, OfferMessages(o)[i].kind);
    }
  }

  function CandidateMessages(o: Offer, kinds: seq<MediaKind>, c: IceCandidate): seq<Outgoing> {
    if kinds == [] then []
    else
      var n := |kinds| - 1;
      var mapped := UpstreamCandidate(o.sections, kinds[n], c);
      CandidateMessages(o, kinds[..n], c) + if mapped.Some? then [CandidateSent(kinds[n], mapped.value)] else []
  }

  lemma {:induction false} OneMessagePerKind(o: Offer, kinds: seq<MediaKind>, c: IceCandidate)
    requires forall kind :: kind in kinds ==> UpstreamCandidate(o.sections, kind, c).Some?
    ensures |CandidateMessages(o, kinds, c)| == |kinds|
    ensures forall i :: 0 <= i < |kinds| ==>
              CandidateMessages(o, kinds, c)[i]
              == CandidateSent(kinds[i], IceCandidate(c.candidate, Some("0"), Some(0), c.usernameFragment))
  {
    if kinds != [] {
      OneMessagePerKind(o, kinds[..|kinds| - 1], c);
    }
  }

  /** A browser candidate is sent, as candidate of section 0, to each of its peers, at least one, and to no other. */
  lemma CandidateReachesItsPeers(o: Offer, c: IceCandidate)
    requires o.sections != []
    ensures var kinds := KindsForCandidate(o.sections, c);
            var sent := CandidateMessages(o, kinds, c);
            && |sent| == |kinds| >= 1
            && forall i :: 0 <= i < |sent| ==>
                 sent[i] == CandidateSent(kinds[i], IceCandidate(c.candidate, Some("0"), Some(0), c.usernameFragment))
  {
    EveryCandidateIsDelivered(o.sections, c);
    OneMessagePerKind(o, KindsForCandidate(o.sections, c), c);
  }

  /** Merging the answers and releasing the held candidates after the merged one. */
  method AnswerThenHeld(o: Offer, answers: seq<Answer>, early: seq<(MediaKind, IceCandidate)>)
    returns (r: Result<seq<Event>, SdpError>)
    ensures match Merge(o, answers)
            case Err(e) => r == Err(e)
            case Ok(sdp) => r == Ok([AnswerEvent(sdp)] + HeldEvents(o, early))
  {
    var merged := MergeProWebRtcAnswers(o, answers);
    if merged.Err? {
      return Err(merged.error);
    }
    var out := [AnswerEvent(merged.value)];
    for j := 0 to |early|
      invariant out == [AnswerEvent(merged.value)] + HeldEvents(o, early[..j])
    {
      assert early[..j + 1][..j] == early[..j];
      var mapped := ClientCandidate(o.sections, early[j].0, early[j].1);
      if mapped.Some? {
        out := out + [CandidateEvent(mapped.value)];
      }
    }
    assert early[..|early|] == early;
    r := Ok(out);
  }

  /** The non-Pro branch of the event loop, for one signal. */
  method NonProMessage(msg: Incoming) returns (events: seq<Event>)
    requires msg.Signal?
    ensures events == PassedOn(msg)
  {
    events := [];
    if msg.event == "video-answer" {
      if msg.data.sdp.Some? && msg.data.sdp.value != "" {
        events := [AnswerEvent(msg.data.sdp.value)];
      }
    } else if msg.event == "video-candidate" {
      if msg.data.candidate.Some? {
        events := [CandidateEvent(msg.data.candidate.value)];
      }
    }
  }

  /** Storing a new answer, and releasing the merged one when it was the last missing. */
  method StoreAnswer(o: Offer, ghost seen: seq<Incoming>, msg: Incoming, answers0: seq<Answer>,
                     early0: seq<(MediaKind, IceCandidate)>)
    returns (answers: seq<Answer>, early: seq<(MediaKind, IceCandidate)>, answered: bool,
             events: seq<Event>, failure: Option<SdpError>)
    requires o.sections != [] && LoopState(o, seen, answers0, early0, false, [])
    requires AnswerIn(o, msg).Some?
    ensures failure.None? ==> LoopState(o, seen + [msg], answers, early, answered, events)
    ensures failure.Some? ==>
              && events == [] && AnsweredAt(o, seen + [msg]) == Some(|seen| + 1)
              && Merge(o, AnswersOf(o, seen + [msg])) == Err(failure.value)
  {
    early, answered, events, failure := early0, false, [], None;
    LoopAnswer(o, seen, msg, answers0, early0);
    answers := Put(answers0, AnswerIn(o, msg).value);
    if forall k :: 0 <= k < |o.sections| ==> Lookup(answers, o.sections[k].kind).Some? {
      answered := true;
      var released := AnswerThenHeld(o, answers, early);
      if released.Err? {
        failure := Some(released.error);
        return;
      }
      events := released.value;
      early := [];
      LoopAnswered(o, seen + [msg], answers, Merge(o, answers).value);
    }
  }

  /** Holding an early candidate, or passing it on after the answer. */
  method TakeCandidate(o: Offer, ghost seen: seq<Incoming>, msg: Incoming, answers: seq<Answer>,
                       early0: seq<(MediaKind, IceCandidate)>, answered: bool, ghost out: seq<Event>)
    returns (early: seq<(MediaKind, IceCandidate)>, events: seq<Event>)
    requires o.sections != [] && LoopState(o, seen, answers, early0, answered, out)
    requires CandidateIn(msg).Some? && AnswerIn(o, msg).None?
    ensures LoopState(o, seen + [msg], answers, early, answered, out + events)
  {
    early, events := early0, [];
    var kind, candidate := CandidateIn(msg).value.0, CandidateIn(msg).value.1;
    if !answered {
      LoopHold(o, seen, msg, answers, early, out);
      early := early + [(kind, candidate)];
      assert events == [] && out + [] == out;
    } else {
      LoopYield(o, seen, msg, answers, early, out);
      var mapped := ClientCandidate(o.sections, kind, candidate);
      if mapped.Some? {
        events := [CandidateEvent(mapped.value)];
      }
    }
  }

  /** The Pro branch of the event loop, for one message: the loop's variables afterwards and the events it yields. */
  method ProMessage(o: Offer, ghost seen: seq<Incoming>, msg: Incoming, answers0: seq<Answer>,
                    early0: seq<(MediaKind, IceCandidate)>, answered0: bool, ghost out: seq<Event>)
    returns (answers: seq<Answer>, early: seq<(MediaKind, IceCandidate)>, answered: bool,
             events: seq<Event>, failure: Option<SdpError>)
    requires o.sections != [] && LoopState(o, seen, answers0, early0, answered0, out)
    ensures failure.None? ==> LoopState(o, seen + [msg], answers, early, answered, out + events)
    ensures failure.Some? ==>
              && out == [] == events
              && AnsweredAt(o, seen + [msg]) == Some(|seen| + 1)
              && Merge(o, AnswersOf(o, seen + [msg])) == Err(failure.value)
  {
    answers, early, answered, events, failure := answers0, early0, answered0, [], None;
    IgnoredMessages(o, msg, answered);
    if msg.Noise? || msg.Closed? || IsStatus(msg.event) {
      LoopSkip(o, seen, msg, answers, early, answered, out);
    } else if AnswerKind(msg.event).Some? {
      if answered || AnswerKind(msg.event).value !in o.offers || msg.data.sdp.None? || msg.data.sdp.value == "" {
        LoopSkip(o, seen, msg, answers, early, answered, out);
      } else {
        answers, early, answered, events, failure := StoreAnswer(o, seen, msg, answers, early);
      }
    } else if CandidateKind(msg.event).Some? {
      if msg.data.candidate.None? {
        LoopSkip(o, seen, msg, answers, early, answered, out);
      } else {
        early, events := TakeCandidate(o, seen, msg, answers, early, answered, out);
      }
    } else {
      LoopSkip(o, seen, msg, answers, early, answered, out);
    }
  }

  /** What has gone out of `messages` when their sending ended: all of them, or those before the one that raised. */
  predicate Went(before: seq<Outgoing>, after: seq<Outgoing>, messages: seq<Outgoing>, ok: bool) {
    if ok then after == before + messages else exists n :: 0 <= n < |messages| && after == before + messages[..n]
  }

  class WebRtcSignaling {
    const pro: bool
    /** Whether the send of a given number succeeds. */
    const sends: nat -> bool
    var offer: Option<Offer>
    var attempts: nat
    var sent: seq<Outgoing>

    ghost predicate Valid()
      reads this
    {
      offer.Some? ==> offer.value.sections != [] && forall kind :: kind in offer.value.offers <==> HasKind(offer.value.sections, kind)
    }

    /** No send raises. */
    ghost predicate Reliable() {
      forall n :: sends(n)
    }

    constructor (pro: bool, sends: nat -> bool)
      ensures Valid() && this.pro == pro && this.sends == sends && offer == None && sent == []
    {
      this.pro, this.sends := pro, sends;
      offer := None;
      attempts, sent := 0, [];
    }

    method Send(message: Outgoing) returns (ok: bool)
      modifies this`sent, this`attempts
      ensures ok == sends(old(attempts)) && sent == old(sent) + if ok then [message] else []
    {
      ok := sends(attempts);
      attempts := attempts + 1;
      if ok {
        sent := sent + [message];
      }
    }

    method SendAll(messages: seq<Outgoing>) returns (ok: bool)
      modifies this`sent, this`attempts
      ensures Went(old(sent), sent, messages, ok) && (Reliable() ==> ok)
    {
      for i := 0 to |messages|
        invariant sent == old(sent) + messages[..i]
      {
        CutAt(messages, i);
        ok := Send(messages[i]);
        if !ok {
          assert sent == old(sent) + messages[..i];
          return;
        }
      }
      TakeAll(messages);
      ok := true;
    }

    /**
     A Pro offer is stored before its parts are sent, video first; when a send raises, the parts before it have gone
     out. Without media, or with an unreadable section, nothing changes.
     */
    method SendOffer(sdp: string) returns (r: Result<(), SendError>)
      requires Valid()
      modifies this
      ensures Valid()
      ensures !pro ==> offer == old(offer) && Went(old(sent), sent, [OfferSent(Video, sdp)], r.Ok?) && (r.Ok? || r == Err(SendRaised))
      ensures pro && SplitOffer(sdp).Err? ==>
                r == Err(BadSdp(SplitOffer(sdp).error)) && offer == old(offer) && sent == old(sent)
      ensures pro && SplitOffer(sdp).Ok? && SplitOffer(sdp).value.sections == [] ==>
                r == Err(NoMedia) && offer == old(offer) && sent == old(sent)
      ensures pro && SplitOffer(sdp).Ok? && SplitOffer(sdp).value.sections != [] ==>
                && offer == Some(SplitOffer(sdp).value) && (r.Ok? || r == Err(SendRaised))
                && Went(old(sent), sent, OfferMessages(offer.value), r.Ok?)
      ensures pro && r.Ok? ==>
                && SplitOffer(sdp).Ok? && old(sent) <= sent
                && OffersEachSection(sdp, SplitOffer(sdp).value.sections, sent[|old(sent)|..])
      ensures Reliable() ==> r != Err(SendRaised)
    {
      if !pro {
        var ok := SendAll([OfferSent(Video, sdp)]);
        return if ok then Ok(()) else Err(SendRaised);
      }
      var split := SplitProWebRtcOffer(sdp);
      if split.Err? {
        return Err(BadSdp(split.error));
      }
      var o := split.value;
      SplitOffersMatch(sdp);
      if o.offers == map[] {
        return Err(NoMedia);
      }
      offer := Some(o);
      var messages := [];
      if Video in o.offers {
        messages := messages + [OfferSent(Video, o.offers[Video])];
      }
      if Audio in o.offers {
        messages := messages + [OfferSent(Audio, o.offers[Audio])];
      }
      assert messages == OfferMessages(o);
      OfferMessagesExact(sdp);
      var ok := SendAll(messages);
      r := if ok then Ok(()) else Err(SendRaised);
    }

    method SendCandidate(c: IceCandidate) returns (r: Result<(), SendError>)
      requires Valid()
      modifies this
      ensures Valid() && offer == old(offer)
      ensures pro && offer.None? ==> r == Err(NoOfferYet) && sent == old(sent)
      ensures !pro ==> (r.Ok? || r == Err(SendRaised)) && Went(old(sent), sent, [CandidateSent(Video, c)], r.Ok?)
      ensures pro && offer.Some? ==>
                && (r.Ok? || r == Err(SendRaised))
                && Went(old(sent), sent, CandidateMessages(offer.value, KindsForCandidate(offer.value.sections, c), c), r.Ok?)
      ensures Reliable() ==> r != Err(SendRaised)
    {
      if !pro {
        var ok := SendAll([CandidateSent(Video, c)]);
        return if ok then Ok(()) else Err(SendRaised);
      }
      if offer.None? {
        return Err(NoOfferYet);
      }
      var o := offer.value;
      var kinds := KindsForCandidate(o.sections, c);
      var messages := [];
      for i := 0 to |kinds|
        modifies {}
        invariant messages == CandidateMessages(o, kinds[..i], c)
      {
        CutAt(kinds, i);
        var mapped := UpstreamCandidate(o.sections, kinds[i], c);
        if mapped.Some? {
          messages := messages + [CandidateSent(kinds[i], mapped.value)];
        }
      }
      TakeAll(kinds);
      var ok := SendAll(messages);
      r := if ok then Ok(()) else Err(SendRaised);
    }

    /** The event loop's variables after the messages `seen`, none of which stopped it. */
    ghost predicate Looping(seen: seq<Incoming>, answers: seq<Answer>, early: seq<(MediaKind, IceCandidate)>,
                            answered: bool, out: seq<Event>)
      reads this
    {
      if !pro then out == NonProOutput(seen)
      else if offer.None? then out == []
      else LoopState(offer.value, seen, answers, early, answered, out)
    }

    /** The body of the event loop, for a message that does not stop it. */
    method OneMessage(ghost seen: seq<Incoming>, msg: Incoming, answers0: seq<Answer>,
                      early0: seq<(MediaKind, IceCandidate)>, answered0: bool, ghost out: seq<Event>)
      returns (answers: seq<Answer>, early: seq<(MediaKind, IceCandidate)>, answered: bool,
               events: seq<Event>, failure: Option<SdpError>)
      requires Valid() && Looping(seen, answers0, early0, answered0, out)
      ensures failure.None? ==> Looping(seen + [msg], answers, early, answered, out + events)
      ensures failure.Some? ==>
                && pro && offer.Some? && out == []
                && AnsweredAt(offer.value, seen + [msg]) == Some(|seen| + 1)
                && Merge(offer.value, AnswersOf(offer.value, seen + [msg])) == Err(failure.value)
    {
      answers, early, answered, events, failure := answers0, early0, answered0, [], None;
      assert out + [] == out && (seen + [msg])[..|seen|] == seen;
      if !pro {
        if msg.Signal? {
          events := NonProMessage(msg);
        }
      } else if offer.Some? {
        answers, early, answered, events, failure :=
          ProMessage(offer.value, seen, msg, answers, early, answered, out);
      }
    }

    /** The event loop over the messages received, with the offer set before it starts. */
    method Events(msgs: seq<Incoming>) returns (out: seq<Event>, end: End)
      requires Valid()
      ensures (out, end) == Output(pro, offer, msgs)
    {
      out := [];
      var answers: seq<Answer> := [];
      var early: seq<(MediaKind, IceCandidate)> := [];
      var answered := false;
      assert msgs[..0] == [];
      for i := 0 to |msgs|
        invariant Live(pro, msgs[..i]) == msgs[..i]
        invariant Looping(msgs[..i], answers, early, answered, out)
      {
        var msg := msgs[i];
        LiveStep(pro, msgs, i);
        if msg.Closed? {
          LoopingOutput(msgs, i, answers, early, answered, out);
          end := SocketEnded;
          return;
        }
        if pro && msg.Signal? && msg.event == "video-status" && msg.data.code == Some(INCONSISTENT_MODE) {
          LoopingOutput(msgs, i, answers, early, answered, out);
          end := VideoModeError;
          return;
        }
        var events, failure;
        answers, early, answered, events, failure := OneMessage(msgs[..i], msg, answers, early, answered, out);
        CutAt(msgs, i);
        if failure.Some? {
          FailedOutput(msgs, i + 1);
          end := MergeFailed(failure.value);
          return;
        }
        out := out + events;
      }
      TakeAll(msgs);
      LoopingOutput(msgs, |msgs|, answers, early, answered, out);
      end := SocketEnded;
    }

    lemma FailedOutput(msgs: seq<Incoming>, n: nat)
      requires pro && offer.Some? && n <= |msgs| && Live(true, msgs[..n]) == msgs[..n]
      requires AnsweredAt(offer.value, msgs[..n]) == Some(n) && Merge(offer.value, AnswersOf(offer.value, msgs[..n])).Err?
      ensures Output(pro, offer, msgs) == ([], MergeFailed(Merge(offer.value, AnswersOf(offer.value, msgs[..n])).error))
    {
      MergeRaises(offer.value, msgs, n);
    }

    /** When the loop stops, what it has yielded is the reference's output. */
    lemma LoopingOutput(msgs: seq<Incoming>, n: nat, answers: seq<Answer>, early: seq<(MediaKind, IceCandidate)>,
                        answered: bool, out: seq<Event>)
      requires n <= |msgs| && Live(pro, msgs) == msgs[..n] && Looping(msgs[..n], answers, early, answered, out)
      ensures Output(pro, offer, msgs) == (out, if pro then EndOf(true, msgs) else SocketEnded)
    {
      if pro && offer.Some? {
        LoopOutput(offer.value, msgs, n, answers, early, answered, out);
      }
    }
  }
}
