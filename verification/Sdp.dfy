/**
 The SDP line parser and printer of nanokvm/webrtc.py. A description is a list of lines; every line that
 starts with `m=` opens a media section (section 5.14 of RFC 8866).
 */
module Sdp {
  import opened Common
  import opened Text

  type Line = string

  datatype Description = Description(session: seq<Line>, media: seq<seq<Line>>)

  predicate IsNewline(c: char) {
    c == '\r' || c == '\n'
  }

  predicate NewlineFree(s: string) {
    forall i :: 0 <= i < |s| ==> !IsNewline(s[i])
  }

  predicate GoodLine(l: Line) {
    l != "" && NewlineFree(l)
  }

  predicate IsMediaLine(l: Line) {
    StartsWith(l, "m=")
  }

  /** The section shape: it opens with, and only with, an `m=` line. */
  predicate SectionShape(section: seq<Line>) {
    section != [] && IsMediaLine(section[0]) && forall i :: 1 <= i < |section| ==> !IsMediaLine(section[i])
  }

  ghost predicate Shaped(d: Description) {
    && (forall i :: 0 <= i < |d.session| ==> !IsMediaLine(d.session[i]))
    && (forall i :: 0 <= i < |d.media| ==> SectionShape(d.media[i]))
  }

  predicate GoodLines(ls: seq<Line>) {
    forall i :: 0 <= i < |ls| ==> GoodLine(ls[i])
  }

  /** Non-empty, newline-free lines in sections that start with, and only with, an `m=` line. */
  ghost predicate WellFormed(d: Description) {
    && Shaped(d)
    && GoodLines(d.session)
    && (forall i :: 0 <= i < |d.media| ==> GoodLines(d.media[i]))
  }

  // ---------------------------------------------------------------- lines

  /** `s.replace("\r\n", "\n")`. */
  function ReplaceCrLf(s: string): string {
    if s == "" then ""
    else if |s| >= 2 && s[0] == '\r' && s[1] == '\n' then "\n" + ReplaceCrLf(s[2..])
    else [s[0]] + ReplaceCrLf(s[1..])
  }

  /** `s.replace("\r", "\n")`. */
  function ReplaceCr(s: string): string {
    if s == "" then ""
    else [if s[0] == '\r' then '\n' else s[0]] + ReplaceCr(s[1..])
  }

  function NonEmpty(parts: seq<string>): seq<string> {
    if parts == [] then []
    else if parts[0] == "" then NonEmpty(parts[1..])
    else [parts[0]] + NonEmpty(parts[1..])
  }

  function RawLines(sdp: string): seq<string> {
    SplitOn(ReplaceCr(ReplaceCrLf(sdp)), '\n')
  }

  /** The lines the parser sees: line endings normalised, split, empty lines skipped. */
  function Lines(sdp: string): seq<Line> {
    NonEmpty(RawLines(sdp))
  }

  lemma {:induction false} NonEmptyAppend(a: seq<string>, b: seq<string>)
    ensures NonEmpty(a + b) == NonEmpty(a) + NonEmpty(b)
  {
    if a == [] {
      assert a + b == b;
    } else {
      NonEmptyAppend(a[1..], b);
      assert (a + b)[1..] == a[1..] + b && (a + b)[0] == a[0];
    }
  }

  /** The length of the longest prefix without a newline character. */
  function RunLength(s: string): (n: nat)
    ensures n <= |s|
    ensures NewlineFree(s[..n])
    ensures n < |s| ==> IsNewline(s[n])
  {
    if s == "" || IsNewline(s[0]) then 0 else 1 + RunLength(s[1..])
  }

  /** The reference: the maximal runs of characters that are neither CR nor LF, in order. */
  function Runs(s: string): seq<string>
    decreases |s|
  {
    if s == "" then []
    else if IsNewline(s[0]) then Runs(s[1..])
    else [s[..RunLength(s)]] + Runs(s[RunLength(s)..])
  }

  lemma {:induction false} ReplaceRun(l: string, rest: string)
    requires NewlineFree(l)
    ensures ReplaceCrLf(l + rest) == l + ReplaceCrLf(rest)
    ensures ReplaceCr(l + rest) == l + ReplaceCr(rest)
  {
    if l == "" {
      assert l + rest == rest;
      assert l + ReplaceCrLf(rest) == ReplaceCrLf(rest);
      assert l + ReplaceCr(rest) == ReplaceCr(rest);
    } else {
      var c, tail := l[0], l[1..];
      ReplaceRun(tail, rest);
      assert !IsNewline(c);
      ReplaceOne(c, tail + rest);
      assert l == [c] + tail;
      assert l + rest == [c] + (tail + rest);
      assert [c] + (tail + ReplaceCrLf(rest)) == l + ReplaceCrLf(rest);
      assert [c] + (tail + ReplaceCr(rest)) == l + ReplaceCr(rest);
    }
  }

  lemma ReplaceOne(c: char, rest: string)
    requires !IsNewline(c)
    ensures ReplaceCrLf([c] + rest) == [c] + ReplaceCrLf(rest)
    ensures ReplaceCr([c] + rest) == [c] + ReplaceCr(rest)
  {
    assert ([c] + rest)[1..] == rest;
  }

  /** Prefixing a newline-free run to text that starts with a newline (or is empty) adds one line. */
  lemma {:induction false} RunThenLines(l: string, rest: string)
    requires GoodLine(l) && (rest == "" || IsNewline(rest[0]))
    ensures Lines(l + rest) == [l] + Lines(rest)
  {
    ReplaceRun(l, rest);
    var r := ReplaceCrLf(rest);
    ReplaceRun(l, r);
    var t := ReplaceCr(r);
    assert '\n' !in l by {
      assert forall i :: 0 <= i < |l| ==> !IsNewline(l[i]);
    }
    if rest == "" {
      assert l + t == l;
      SplitOnWhole(l, '\n');
      assert RawLines(l + rest) == [l];
      assert NonEmpty([l]) == [l];
    } else {
      assert t != "" && t[0] == '\n';
      assert l + t == l + ['\n'] + t[1..];
      SplitOnAppend(l, t[1..], '\n');
      assert SplitOn(t, '\n') == [""] + SplitOn(t[1..], '\n');
      NonEmptyAppend([l], SplitOn(t[1..], '\n'));
      NonEmptyAppend([""], SplitOn(t[1..], '\n'));
      assert NonEmpty([l]) == [l];
    }
  }

  lemma NewlineThenLines(s: string)
    requires s != "" && IsNewline(s[0])
    ensures Lines(s) == if StartsWith(s, "\r\n") then Lines(s[2..]) else Lines(s[1..])
  {
    var rest := if StartsWith(s, "\r\n") then s[2..] else s[1..];
    var t := ReplaceCr(ReplaceCrLf(rest));
    assert ReplaceCr(ReplaceCrLf(s)) == ['\n'] + t;
    assert SplitOn(['\n'] + t, '\n') == [""] + SplitOn(t, '\n');
    NonEmptyAppend([""], SplitOn(t, '\n'));
  }

  /** CRLF, CR and LF endings are all normalised: the parser's lines are the maximal newline-free runs. */
  lemma {:induction false} LinesAreRuns(s: string)
    ensures Lines(s) == Runs(s)
    decreases |s|
  {
    if s == "" {
      assert RawLines(s) == [""];
    } else if IsNewline(s[0]) {
      NewlineThenLines(s);
      if StartsWith(s, "\r\n") {
        LinesAreRuns(s[2..]);
        assert Runs(s[1..]) == Runs(s[2..]) by {
          assert s[1..][1..] == s[2..];
        }
      } else {
        LinesAreRuns(s[1..]);
      }
    } else {
      var n := RunLength(s);
      LinesAreRuns(s[n..]);
      RunThenLines(s[..n], s[n..]);
      assert s[..n] + s[n..] == s;
    }
  }

  lemma {:induction false} RunsAreGood(s: string)
    ensures GoodLines(Runs(s))
    decreases |s|
  {
    if s != "" {
      if IsNewline(s[0]) {
        RunsAreGood(s[1..]);
      } else {
        RunsAreGood(s[RunLength(s)..]);
      }
    }
  }

  // ------------------------------------------------------------- sections

  /** What one non-empty line does to the parser's two lists. */
  function AddLine(d: Description, l: Line): Description {
    if IsMediaLine(l) then d.(media := d.media + [[l]])
    else if d.media != [] then
      d.(media := d.media[..|d.media| - 1] + [d.media[|d.media| - 1] + [l]])
    else d.(session := d.session + [l])
  }

  function Sections(ls: seq<Line>): Description {
    if ls == [] then Description([], [])
    else AddLine(Sections(ls[..|ls| - 1]), ls[|ls| - 1])
  }

  function Concat(sections: seq<seq<Line>>): seq<Line> {
    if sections == [] then [] else Concat(sections[..|sections| - 1]) + sections[|sections| - 1]
  }

  function Flatten(d: Description): seq<Line> {
    d.session + Concat(d.media)
  }

  function Split(sdp: string): Description {
    Sections(Lines(sdp))
  }

  function Print(d: Description): string {
    Join("\r\n", Flatten(d)) + "\r\n"
  }

  lemma AddLineFlattens(d: Description, l: Line)
    requires Shaped(d)
    ensures Shaped(AddLine(d, l)) && Flatten(AddLine(d, l)) == Flatten(d) + [l]
  {
    var e := AddLine(d, l);
    if IsMediaLine(l) {
      assert e.media[..|d.media|] == d.media;
      Assoc(d.session, Concat(d.media), [l]);
    } else if d.media != [] {
      var k := |d.media| - 1;
      var front, last := d.media[..k], d.media[k];
      assert e.media[..k] == front;
      Assoc(Concat(front), last, [l]);
      Assoc(d.session, Concat(d.media), [l]);
    } else {
      assert d.session + [] == d.session && e.session + [] == e.session;
    }
  }

  lemma {:induction false} SectionsShaped(ls: seq<Line>)
    ensures Shaped(Sections(ls)) && Flatten(Sections(ls)) == ls
  {
    if ls != [] {
      var front, l := ls[..|ls| - 1], ls[|ls| - 1];
      SectionsShaped(front);
      AddLineFlattens(Sections(front), l);
      assert front + [l] == ls;
    }
  }

  /** The last line of a description taken away, with its section when that was all of it. */
  function DropLine(d: Description): Description
    requires d.media != [] ==> d.media[|d.media| - 1] != []
  {
    if d.media == [] then d.(session := if d.session == [] then [] else d.session[..|d.session| - 1])
    else
      var k := |d.media| - 1;
      var last := d.media[k];
      d.(media := d.media[..k] + if |last| == 1 then [] else [last[..|last| - 1]])
  }

  lemma DropLineShaped(d: Description)
    requires Shaped(d) && d.media != []
    ensures Shaped(DropLine(d))
  {
    var k := |d.media| - 1;
    assert SectionShape(d.media[k]);
    var e := DropLine(d);
    forall i | 0 <= i < |e.media|
      ensures SectionShape(e.media[i])
    {
      assert i < k ==> e.media[i] == d.media[i];
    }
  }

  lemma DropLineThenAdd(d: Description)
    requires Shaped(d) && Flatten(d) != []
    ensures Shaped(DropLine(d))
    ensures Flatten(d) == Flatten(DropLine(d)) + [Flatten(d)[|Flatten(d)| - 1]]
    ensures AddLine(DropLine(d), Flatten(d)[|Flatten(d)| - 1]) == d
  {
    var e := DropLine(d);
    if d.media != [] {
      DropLineShaped(d);
      var k := |d.media| - 1;
      var front, last := d.media[..k], d.media[k];
      assert SectionShape(last);
      var init, l := last[..|last| - 1], last[|last| - 1];
      assert last == init + [l] && d.media == front + [last];
      Assoc(Concat(front), init, [l]);
      Assoc(d.session, Concat(front) + init, [l]);
      if |last| == 1 {
        assert e.media == front && Concat(front) + init == Concat(front);
      } else {
        assert e.media[..k] == front && e.media[k] == init;
      }
    }
  }

  /** A shaped description is the only one its lines parse to. */
  lemma {:induction false} SectionsOfFlatten(d: Description)
    requires Shaped(d)
    ensures Sections(Flatten(d)) == d
    decreases |Flatten(d)|
  {
    assert d.media != [] ==> SectionShape(d.media[|d.media| - 1]);
    if Flatten(d) != [] {
      DropLineThenAdd(d);
      SectionsOfFlatten(DropLine(d));
      assert Flatten(d)[..|Flatten(d)| - 1] == Flatten(DropLine(d));
    }
  }

  // ----------------------------------------------------------- round trip

  lemma {:induction false} LinesOfPrinted(ls: seq<Line>)
    requires GoodLines(ls)
    ensures Lines(Join("\r\n", ls) + "\r\n") == ls
  {
    if ls == [] {
      assert Join("\r\n", ls) + "\r\n" == "\r\n";
      NewlineThenLines("\r\n");
      assert "\r\n"[2..] == "";
      LinesAreRuns("");
    } else {
      var rest := if |ls| == 1 then "" else Join("\r\n", ls[1..]) + "\r\n";
      var s := "\r\n" + rest;
      assert Join("\r\n", ls) + "\r\n" == ls[0] + s;
      RunThenLines(ls[0], s);
      NewlineThenLines(s);
      assert s[2..] == rest;
      if |ls| == 1 {
        LinesAreRuns("");
      } else {
        LinesOfPrinted(ls[1..]);
      }
      assert [ls[0]] + ls[1..] == ls;
    }
  }

  lemma {:induction false} ConcatGood(sections: seq<seq<Line>>)
    ensures GoodLines(Concat(sections)) <==> forall i :: 0 <= i < |sections| ==> GoodLines(sections[i])
  {
    if sections != [] {
      var k := |sections| - 1;
      var front, last, all := Concat(sections[..k]), sections[k], Concat(sections);
      ConcatGood(sections[..k]);
      assert forall i :: 0 <= i < |front| ==> all[i] == front[i];
      assert forall i :: 0 <= i < |last| ==> all[|front| + i] == last[i];
      assert forall i :: 0 <= i < k ==> sections[..k][i] == sections[i];
    }
  }

  lemma SplitIsWellFormed(sdp: string)
    ensures WellFormed(Split(sdp))
  {
    var ls := Lines(sdp);
    LinesAreRuns(sdp);
    RunsAreGood(sdp);
    SectionsShaped(ls);
    var d := Sections(ls);
    assert forall i :: 0 <= i < |d.session| ==> ls[i] == d.session[i];
    assert Concat(d.media) == ls[|d.session|..];
    ConcatGood(d.media);
  }

  /** Printing then parsing is the identity on exactly the well-formed descriptions. */
  lemma SplitPrint(d: Description)
    ensures Split(Print(d)) == d <==> WellFormed(d)
  {
    if WellFormed(d) {
      ConcatGood(d.media);
      assert GoodLines(Flatten(d));
      LinesOfPrinted(Flatten(d));
      SectionsOfFlatten(d);
    } else {
      SplitIsWellFormed(Print(d));
    }
  }

  /** For every text, parsing survives one round of printing and parsing again. */
  lemma SplitPrintSplit(sdp: string)
    ensures Split(Print(Split(sdp))) == Split(sdp)
  {
    SplitIsWellFormed(sdp);
    SplitPrint(Split(sdp));
  }

  // -------------------------------------------------------------- methods

  /** What reading raw line `i` does to the sections read so far. */
  lemma LineRead(raw: seq<string>, i: nat)
    requires i < |raw|
    ensures var before := Sections(NonEmpty(raw[..i]));
            Sections(NonEmpty(raw[..i + 1])) == if raw[i] == "" then before else AddLine(before, raw[i])
  {
    CutAt(raw, i);
    NonEmptyAppend(raw[..i], [raw[i]]);
    var ls := NonEmpty(raw[..i]);
    if raw[i] == "" {
      assert NonEmpty([raw[i]]) == [] && ls + [] == ls;
    } else {
      assert NonEmpty([raw[i]]) == [raw[i]];
      assert (ls + [raw[i]])[..|ls|] == ls;
    }
  }

  method SplitSdpSections(sdp: string) returns (d: Description)
    ensures d == Split(sdp)
  {
    var raw := RawLines(sdp);
    var sessionLines: seq<Line> := [];
    var mediaSections: seq<seq<Line>> := [];
    for i := 0 to |raw|
      invariant Description(sessionLines, mediaSections) == Sections(NonEmpty(raw[..i]))
    {
      var line := raw[i];
      LineRead(raw, i);
      if line == "" {
        continue;
      }
      if StartsWith(line, "m=") {
        mediaSections := mediaSections + [[line]];
      } else if mediaSections != [] {
        var k := |mediaSections| - 1;
        mediaSections := mediaSections[..k] + [mediaSections[k] + [line]];
      } else {
        sessionLines := sessionLines + [line];
      }
    }
    TakeAll(raw);
    d := Description(sessionLines, mediaSections);
  }

  method JoinSdpSections(d: Description) returns (sdp: string)
    ensures sdp == Print(d)
  {
    var lines := d.session;
    for i := 0 to |d.media|
      invariant lines == d.session + Concat(d.media[..i])
    {
      assert d.media[..i + 1][..i] == d.media[..i];
      lines := lines + d.media[i];
    }
    assert d.media[..|d.media|] == d.media;
    sdp := Join("\r\n", lines) + "\r\n";
  }
}
