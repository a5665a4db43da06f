/** Version parsing and the two version comparisons of the source (nanokvm/compatibility.py). */
module Version {
  import opened Common
  import opened Text

  type Components = seq<nat>

  /** Dot-separated runs of digits, as `\d+(?:\.\d+)*` accepts. */
  predicate NumericParts(parts: seq<string>) {
    forall i :: 0 <= i < |parts| ==> parts[i] != "" && AllDigits(parts[i])
  }

  function ParseParts(parts: seq<string>): (r: Components)
    requires NumericParts(parts)
    ensures |r| == |parts|
  {
    if parts == [] then [] else [ParseNat(parts[0])] + ParseParts(parts[1..])
  }

  /** `_parse_version`: None for a custom or development build. */
  function ParseVersion(version: string): Option<Components> {
    var s := Strip(version);
    var body := if s != "" && s[0] == 'v' then s[1..] else s;
    var parts := SplitOn(body, '.');
    if NumericParts(parts) then Some(ParseParts(parts)) else None
  }

  /** Python's `>=` on tuples: lexicographic, a proper prefix being smaller. */
  predicate TupleAtLeast(a: Components, b: Components) {
    if b == [] then true
    else if a == [] then false
    else if a[0] != b[0] then a[0] > b[0]
    else TupleAtLeast(a[1..], b[1..])
  }

  function Zeros(n: nat): (r: Components)
    ensures |r| == n && forall i :: 0 <= i < n ==> r[i] == 0
  {
    if n == 0 then [] else [0] + Zeros(n - 1)
  }

  function Max(a: nat, b: nat): nat {
    if a > b then a else b
  }

  /** Both tuples padded with zeros to the same length, then compared. */
  predicate PaddedAtLeast(version: Components, minimum: Components) {
    var length := Max(|version|, |minimum|);
    TupleAtLeast(version + Zeros(length - |version|), minimum + Zeros(length - |minimum|))
  }

  predicate VersionAtLeast(version: string, minimum: string) {
    var v, m := ParseVersion(version), ParseVersion(minimum);
    v.None? || m.None? || PaddedAtLeast(v.value, m.value)
  }

  // ------------------------------------------------------------- the meaning

  /** Component `i` of a version, missing components being zero. */
  function At(v: Components, i: nat): nat {
    if i < |v| then v[i] else 0
  }

  /** `a` is the same version as `b`, or larger at the first component where they differ. */
  ghost predicate NotOlder(a: Components, b: Components) {
    || (forall i: nat :: At(a, i) == At(b, i))
    || exists i: nat :: At(a, i) > At(b, i) && forall j: nat :: j < i ==> At(a, j) == At(b, j)
  }

  /** For tuples of one length, the tuple order is decided at the first difference. */
  lemma {:induction false} TupleOrder(a: Components, b: Components)
    requires |a| == |b|
    ensures TupleAtLeast(a, b) <==> a == b || exists i: nat :: i < |a| && a[i] > b[i] && a[..i] == b[..i]
  {
    if a != [] {
      TupleOrder(a[1..], b[1..]);
      if a[0] > b[0] {
        assert a[..0] == b[..0];
      }
      if i: nat :| i < |a| && a[i] > b[i] && a[..i] == b[..i] {
        if i > 0 {
          assert a[0] == a[..i][0] == b[..i][0] == b[0];
          assert a[1..][..i - 1] == a[..i][1..] == b[1..][..i - 1];
        }
      }
      if i: nat :| i < |a[1..]| && a[1..][i] > b[1..][i] && a[1..][..i] == b[1..][..i] {
        if a[0] == b[0] {
          assert a[..i + 1] == [a[0]] + a[1..][..i] == b[..i + 1];
        }
      }
      assert a == b <==> a[0] == b[0] && a[1..] == b[1..] by {
        assert a == [a[0]] + a[1..] && b == [b[0]] + b[1..];
      }
    }
  }

  /** The padded comparison means: the first differing component decides, missing components being zero. */
  lemma PaddedMeans(a: Components, b: Components)
    ensures PaddedAtLeast(a, b) <==> NotOlder(a, b)
  {
    var n := Max(|a|, |b|);
    var x, y := a + Zeros(n - |a|), b + Zeros(n - |b|);
    assert forall i: nat :: At(x, i) == At(a, i) && At(y, i) == At(b, i);
    TupleOrder(x, y);
    SameLengthNotOlder(x, y);
    NotOlderCongruent(x, y, a, b);
  }

  lemma SameLengthNotOlder(x: Components, y: Components)
    requires |x| == |y|
    ensures NotOlder(x, y) <==> x == y || exists i: nat :: i < |x| && x[i] > y[i] && x[..i] == y[..i]
  {
    if i: nat :| i < |x| && x[i] > y[i] && x[..i] == y[..i] {
      assert forall j: nat :: j < i ==> x[j] == x[..i][j] && y[j] == y[..i][j];
      assert At(x, i) > At(y, i) && forall j: nat :: j < i ==> At(x, j) == At(y, j);
    }
    if i: nat :| At(x, i) > At(y, i) && forall j: nat :: j < i ==> At(x, j) == At(y, j) {
      assert forall j: nat :: j < i ==> x[j] == At(x, j) && y[j] == At(y, j);
      assert x[..i] == y[..i];
    }
    if forall i: nat :: At(x, i) == At(y, i) {
      assert forall i: nat :: i < |x| ==> x[i] == At(x, i) && y[i] == At(y, i);
      assert x == y;
    }
  }

  lemma FirstDifference(a: Components, b: Components) returns (i: nat)
    requires exists k: nat :: At(a, k) != At(b, k)
    ensures At(a, i) != At(b, i) && forall j: nat :: j < i ==> At(a, j) == At(b, j)
  {
    ghost var k: nat :| At(a, k) != At(b, k);
    i := 0;
    while At(a, i) == At(b, i)
      invariant i <= k && forall j: nat :: j < i ==> At(a, j) == At(b, j)
      decreases k - i
    {
      i := i + 1;
    }
  }

  lemma FirstDifferenceDecides(a: Components, b: Components, i: nat)
    requires At(a, i) > At(b, i) && forall j: nat :: j < i ==> At(a, j) == At(b, j)
    ensures NotOlder(a, b) && !NotOlder(b, a)
  {
  }

  /** On parseable versions `at least` is total. */
  lemma AtLeastTotal(a: Components, b: Components)
    ensures PaddedAtLeast(a, b) || PaddedAtLeast(b, a)
  {
    PaddedMeans(a, b);
    PaddedMeans(b, a);
    if exists k: nat :: At(a, k) != At(b, k) {
      var i := FirstDifference(a, b);
      if At(a, i) > At(b, i) {
        FirstDifferenceDecides(a, b, i);
      } else {
        FirstDifferenceDecides(b, a, i);
      }
    }
  }

  lemma NotOlderTransitive(a: Components, b: Components, c: Components)
    requires NotOlder(a, b) && NotOlder(b, c)
    ensures NotOlder(a, c)
  {
    if forall i: nat :: At(a, i) == At(b, i) {
      NotOlderCongruent(b, c, a, c);
    } else if forall i: nat :: At(b, i) == At(c, i) {
      NotOlderCongruent(a, b, a, c);
    } else {
      var i: nat :| At(a, i) > At(b, i) && forall j: nat :: j < i ==> At(a, j) == At(b, j);
      var k: nat :| At(b, k) > At(c, k) && forall j: nat :: j < k ==> At(b, j) == At(c, j);
      var m := if i < k then i else k;
      assert At(a, m) > At(c, m) && forall j: nat :: j < m ==> At(a, j) == At(c, j);
    }
  }

  /** On parseable versions `at least` is transitive. */
  lemma AtLeastTransitive(a: Components, b: Components, c: Components)
    requires PaddedAtLeast(a, b) && PaddedAtLeast(b, c)
    ensures PaddedAtLeast(a, c)
  {
    PaddedMeans(a, b);
    PaddedMeans(b, c);
    PaddedMeans(a, c);
    NotOlderTransitive(a, b, c);
  }

  /** Two parseable versions are each at least the other exactly when they agree up to trailing zeros. */
  lemma EqualUpToZeros(a: Components, b: Components)
    ensures PaddedAtLeast(a, b) && PaddedAtLeast(b, a) <==> forall i: nat :: At(a, i) == At(b, i)
  {
    PaddedMeans(a, b);
    PaddedMeans(b, a);
    if exists i: nat :: At(a, i) != At(b, i) {
      var i := FirstDifference(a, b);
      if At(a, i) > At(b, i) {
        FirstDifferenceDecides(a, b, i);
      } else {
        FirstDifferenceDecides(b, a, i);
      }
    }
  }

  lemma NotOlderCongruent(a: Components, b: Components, x: Components, y: Components)
    requires forall i: nat :: At(x, i) == At(a, i)
    requires forall i: nat :: At(y, i) == At(b, i)
    ensures NotOlder(a, b) ==> NotOlder(x, y)
  {
    if i: nat :| At(a, i) > At(b, i) && forall j: nat :: j < i ==> At(a, j) == At(b, j) {
      assert At(x, i) > At(y, i) && forall j: nat :: j < i ==> At(x, j) == At(y, j);
    }
  }

  lemma PaddedCongruent(a: Components, b: Components, x: Components, y: Components)
    requires forall i: nat :: At(x, i) == At(a, i)
    requires forall i: nat :: At(y, i) == At(b, i)
    ensures PaddedAtLeast(x, y) <==> PaddedAtLeast(a, b)
  {
    PaddedMeans(a, b);
    PaddedMeans(x, y);
    NotOlderCongruent(a, b, x, y);
    NotOlderCongruent(x, y, a, b);
  }

  lemma AtAppendedZero(a: Components, m: nat, i: nat)
    ensures At(a + Zeros(m), i) == At(a, i)
  {
  }

  /** Trailing zero components change no comparison, on either side. */
  lemma BlindToTrailingZeros(a: Components, b: Components, m: nat, n: nat)
    ensures PaddedAtLeast(a + Zeros(m), b + Zeros(n)) <==> PaddedAtLeast(a, b)
  {
    forall i: nat
      ensures At(a + Zeros(m), i) == At(a, i) && At(b + Zeros(n), i) == At(b, i)
    {
      AtAppendedZero(a, m, i);
      AtAppendedZero(b, n, i);
    }
    PaddedCongruent(a, b, a + Zeros(m), b + Zeros(n));
  }

  /** `_version_at_least` is a total preorder on parseable versions. */
  lemma VersionOrder(u: string, v: string, w: string)
    requires ParseVersion(u).Some? && ParseVersion(v).Some? && ParseVersion(w).Some?
    ensures VersionAtLeast(u, u)
    ensures VersionAtLeast(u, v) || VersionAtLeast(v, u)
    ensures VersionAtLeast(u, v) && VersionAtLeast(v, w) ==> VersionAtLeast(u, w)
  {
    var a, b, c := ParseVersion(u).value, ParseVersion(v).value, ParseVersion(w).value;
    AtLeastTotal(a, a);
    AtLeastTotal(a, b);
    if PaddedAtLeast(a, b) && PaddedAtLeast(b, c) {
      AtLeastTransitive(a, b, c);
    }
  }

  // ------------------------------------------------------ parse and print

  function Format(v: Components): string {
    Join(".", PrintedParts(v))
  }

  function PrintedParts(v: Components): (r: seq<string>)
    ensures |r| == |v| && NumericParts(r)
  {
    if v == [] then [] else [NatToString(v[0])] + PrintedParts(v[1..])
  }

  lemma {:induction false} ParsePrintedParts(v: Components)
    ensures ParseParts(PrintedParts(v)) == v
  {
    if v != [] {
      ParsePrintedNat(v[0]);
      ParsePrintedParts(v[1..]);
      assert [v[0]] + v[1..] == v;
    }
  }

  lemma {:induction false} SplitJoined(parts: seq<string>)
    requires parts != [] && NumericParts(parts)
    ensures SplitOn(Join(".", parts), '.') == parts
    ensures Join(".", parts) != ""
    ensures forall i :: 0 <= i < |Join(".", parts)| ==> IsDigit(Join(".", parts)[i]) || Join(".", parts)[i] == '.'
  {
    assert AllDigits(parts[0]);
    assert '.' !in parts[0];
    if |parts| == 1 {
      SplitOnWhole(parts[0], '.');
      assert parts == [parts[0]];
    } else {
      SplitJoined(parts[1..]);
      SplitOnAppend(parts[0], Join(".", parts[1..]), '.');
      assert parts == [parts[0]] + parts[1..];
    }
  }

  /** A version printed with dots parses back, with or without a `v` and surrounding spaces. */
  lemma ParseFormat(v: Components, prefix: string, left: string, right: string)
    requires v != [] && prefix in ["", "v"] && AllSpace(left) && AllSpace(right)
    ensures ParseVersion(left + (prefix + Format(v)) + right) == Some(v)
  {
    var body := Format(v);
    var s := prefix + body;
    SplitJoined(PrintedParts(v));
    ParsePrintedParts(v);
    assert !IsSpace(s[0]) && !IsSpace(s[|s| - 1]);
    StripSurrounded(left, s, right);
    if prefix == "" {
      assert s == body && s[0] != 'v';
    } else {
      assert s[1..] == body;
    }
  }

  lemma JoinThree(x: string, y: string, z: string)
    ensures Join(".", [x, y, z]) == x + "." + y + "." + z
  {
    assert [x, y, z][1..] == [y, z] && [y, z][1..] == [z];
    assert Join(".", [y, z]) == y + "." + z;
    Assoc(x + ".", y + ".", z);
    Assoc(x + ".", y, ".");
  }

  lemma PrintThree(a: nat, b: nat, c: nat)
    ensures PrintedParts([a, b, c]) == [NatToString(a), NatToString(b), NatToString(c)]
  {
    assert [a, b, c][1..] == [b, c] && [b, c][1..] == [c] && [c][1..] == [];
    assert PrintedParts([c]) == [NatToString(c)] + [];
    assert PrintedParts([b, c]) == [NatToString(b)] + [NatToString(c)];
  }

  /** A version of three components, as it is written. */
  lemma PlainVersion(a: nat, b: nat, c: nat, text: string)
    requires text == NatToString(a) + "." + NatToString(b) + "." + NatToString(c)
    ensures ParseVersion(text) == Some([a, b, c])
  {
    PrintThree(a, b, c);
    JoinThree(NatToString(a), NatToString(b), NatToString(c));
    ParseFormat([a, b, c], "", "", "");
    assert "" + ("" + text) + "" == text;
  }

  lemma LetterVersion()
    ensures ParseVersion("dev").None?
  {
    StripSurrounded("", "dev", "");
    assert "" + "dev" + "" == "dev";
    SplitOnWhole("dev", '.');
    assert !IsDigit("dev"[0]) && ["dev"][0] == "dev";
  }

  /**
   An unknown version breaks transitivity on all texts: some text is at least a development build, which is at
   least another text, and the first is not at least the last.
   */
  lemma UnknownIsNotTransitive() returns (one: string, two: string)
    ensures VersionAtLeast(one, "dev") && VersionAtLeast("dev", two) && !VersionAtLeast(one, two)
    ensures ParseVersion(one) == Some([1]) && ParseVersion(two) == Some([2])
  {
    LetterVersion();
    one, two := Format([1]), Format([2]);
    ParseFormat([1], "", "", "");
    ParseFormat([2], "", "", "");
    assert "" + ("" + one) + "" == one && "" + ("" + two) + "" == two;
    assert [1] + Zeros(0) == [1] && [2] + Zeros(0) == [2];
  }

  // --------------------------------------------- the unpadded comparison

  lemma AnyAtLeastNothing(a: Components)
    ensures PaddedAtLeast(a, [])
  {
    AtLeastTotal(a, []);
    PaddedMeans(a, []);
    PaddedMeans([], a);
    assert NotOlder([], a) ==> forall i: nat :: At(a, i) == At([], i);
  }

  /** The padded comparison, one component at a time. */
  lemma PaddedStep(a: Components, b: Components)
    ensures b == [] ==> PaddedAtLeast(a, b)
    ensures a != [] && b != [] ==>
              (PaddedAtLeast(a, b) <==> a[0] > b[0] || (a[0] == b[0] && PaddedAtLeast(a[1..], b[1..])))
  {
    if b == [] {
      AnyAtLeastNothing(a);
    } else if a != [] {
      var n := Max(|a|, |b|);
      TailOfSum(a, Zeros(n - |a|));
      TailOfSum(b, Zeros(n - |b|));
    }
  }

  lemma TailOfSum(a: Components, b: Components)
    requires a != []
    ensures (a + b)[0] == a[0] && (a + b)[1..] == a[1..] + b
  {
  }

  lemma {:induction false} TupleAgreesNonZero(v: Components, m: Components)
    requires m == [] || m[|m| - 1] != 0
    ensures TupleAtLeast(v, m) == PaddedAtLeast(v, m)
  {
    PaddedStep(v, m);
    if m != [] {
      if v == [] {
        PaddedMeans(v, m);
        assert At(m, |m| - 1) != At(v, |m| - 1);
        assert forall i: nat :: At(v, i) == 0;
      } else {
        TupleAgreesNonZero(v[1..], m[1..]);
      }
    }
  }

  lemma {:induction false} ProperPrefixIsSmaller(m: Components)
    requires m != []
    ensures !TupleAtLeast(m[..|m| - 1], m)
  {
    if |m| > 1 {
      ProperPrefixIsSmaller(m[1..]);
      assert m[..|m| - 1][1..] == m[1..][..|m| - 2];
    }
  }

  lemma TupleAgreesSingle(v: Components, m: Components)
    requires v != [] && |m| == 1
    ensures TupleAtLeast(v, m) == PaddedAtLeast(v, m)
  {
    PaddedStep(v, m);
    PaddedStep(v[1..], m[1..]);
  }

  lemma TupleDisagreesZero(m: Components)
    requires |m| > 1 && m[|m| - 1] == 0
    ensures !TupleAtLeast(m[..|m| - 1], m) && PaddedAtLeast(m[..|m| - 1], m)
  {
    var v := m[..|m| - 1];
    ProperPrefixIsSmaller(m);
    assert forall i: nat :: At(v, i) == At(m, i);
    PaddedMeans(v, m);
  }

  /** For every version, the unpadded comparison against `m` agrees with the padded one. */
  ghost predicate TupleAgrees(m: Components) {
    forall v: Components :: v != [] ==> TupleAtLeast(v, m) == PaddedAtLeast(v, m)
  }

  /**
   The unpadded comparison agrees with the padded one for every version exactly when the minimum does not end in
   a zero component, or is the single component 0.
   */
  lemma TupleAgreement(m: Components)
    requires m != []
    ensures TupleAgrees(m) <==> m[|m| - 1] != 0 || |m| == 1
  {
    if |m| > 1 && m[|m| - 1] == 0 {
      TupleDisagreesZero(m);
    } else {
      forall v: Components | v != []
        ensures TupleAtLeast(v, m) == PaddedAtLeast(v, m)
      {
        if |m| == 1 {
          TupleAgreesSingle(v, m);
        } else {
          TupleAgreesNonZero(v, m);
        }
      }
    }
  }

  // ------------------------------------------- the password contract's minimum

  const CURRENT_PASSWORD_MIN: Components := [2, 5, 1]

  /** The version test of the password contract: None for a version that cannot be identified. */
  function UsesCurrentPassword(version: string): Option<bool> {
    match ParseVersion(version)
    case None => None
    case Some(v) => Some(TupleAtLeast(v, CURRENT_PASSWORD_MIN))
  }

  /** For an identified version the password contract's test is the padded `at least 2.5.1`. */
  lemma PasswordContractIsAtLeast(version: string)
    ensures UsesCurrentPassword(version).Some? <==> ParseVersion(version).Some?
    ensures UsesCurrentPassword(version) == Some(true) ==> VersionAtLeast(version, Format([2, 5, 1]))
    ensures UsesCurrentPassword(version) == Some(false) ==> !VersionAtLeast(version, Format([2, 5, 1]))
  {
    ParseFormat([2, 5, 1], "", "", "");
    assert "" + ("" + Format([2, 5, 1])) + "" == Format([2, 5, 1]);
    if ParseVersion(version).Some? {
      TupleAgreesNonZero(ParseVersion(version).value, CURRENT_PASSWORD_MIN);
    }
  }
}
