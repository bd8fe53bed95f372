/**
Version precedence (internal/update/update.go) against section 11 of Semantic
Versioning 2.0.0.
*/
module Semver {
  import opened Common

  // ----- Comparators -----

  function Sign(n: int): int { if n < 0 then -1 else if n > 0 then 1 else 0 }

  /** The results are -1, 0 and 1, turned round by swapping, and "not above" is transitive. */
  ghost predicate Good<T(!new)>(cmp: (T, T) -> int) {
    && (forall a, b :: cmp(a, b) in {-1, 0, 1} && cmp(b, a) == -cmp(a, b))
    && (forall a, b, c {:trigger cmp(a, b), cmp(b, c)} :: cmp(a, b) <= 0 && cmp(b, c) <= 0 ==> cmp(a, c) <= 0)
  }

  /** Left to right; the first difference decides, then length. */
  function CompareSeq<T>(xs: seq<T>, ys: seq<T>, cmp: (T, T) -> int): int {
    if xs == [] || ys == [] then Sign(|xs| - |ys|)
    else if cmp(xs[0], ys[0]) != 0 then cmp(xs[0], ys[0])
    else CompareSeq(xs[1..], ys[1..], cmp)
  }

  lemma {:induction false} SeqTurns<T(!new)>(xs: seq<T>, ys: seq<T>, cmp: (T, T) -> int)
    requires Good(cmp)
    ensures CompareSeq(xs, ys, cmp) in {-1, 0, 1} && CompareSeq(ys, xs, cmp) == -CompareSeq(xs, ys, cmp)
    decreases |xs|
  {
    if xs != [] && ys != [] {
      assert cmp(ys[0], xs[0]) == -cmp(xs[0], ys[0]);
      SeqTurns(xs[1..], ys[1..], cmp);
    }
  }

  lemma EqualThrough<T(!new)>(cmp: (T, T) -> int, a: T, b: T, c: T)
    requires Good(cmp) && cmp(a, b) <= 0 && cmp(b, c) <= 0
    ensures cmp(a, c) <= 0 && (cmp(a, c) == 0 <==> cmp(a, b) == 0 && cmp(b, c) == 0)
  {
    assert cmp(c, a) == -cmp(a, c) && cmp(b, a) == -cmp(a, b) && cmp(c, b) == -cmp(b, c);
    if cmp(a, c) == 0 {
      assert cmp(b, c) <= 0 && cmp(c, a) <= 0;
      assert cmp(c, a) <= 0 && cmp(a, b) <= 0;
    }
    if cmp(a, b) == 0 && cmp(b, c) == 0 {
      assert cmp(c, b) <= 0 && cmp(b, a) <= 0;
    }
  }

  lemma {:induction false} SeqTransitive<T(!new)>(xs: seq<T>, ys: seq<T>, zs: seq<T>, cmp: (T, T) -> int)
    requires Good(cmp) && CompareSeq(xs, ys, cmp) <= 0 && CompareSeq(ys, zs, cmp) <= 0
    ensures CompareSeq(xs, zs, cmp) <= 0
    decreases |xs|
  {
    if xs != [] && ys != [] && zs != [] {
      EqualThrough(cmp, xs[0], ys[0], zs[0]);
      if cmp(xs[0], zs[0]) == 0 { SeqTransitive(xs[1..], ys[1..], zs[1..], cmp); }
    }
  }

  lemma SeqGood<T(!new)>(cmp: (T, T) -> int)
    requires Good(cmp)
    ensures Good((xs: seq<T>, ys: seq<T>) => CompareSeq(xs, ys, cmp))
  {
    forall xs: seq<T>, ys: seq<T>
      ensures CompareSeq(xs, ys, cmp) in {-1, 0, 1} && CompareSeq(ys, xs, cmp) == -CompareSeq(xs, ys, cmp)
    {
      SeqTurns(xs, ys, cmp);
    }
    forall xs: seq<T>, ys: seq<T>, zs: seq<T> | CompareSeq(xs, ys, cmp) <= 0 && CompareSeq(ys, zs, cmp) <= 0
      ensures CompareSeq(xs, zs, cmp) <= 0
    {
      SeqTransitive(xs, ys, zs, cmp);
    }
  }

  // ----- Strings and digit strings -----

  function CompareChar(a: char, b: char): int { Sign(a as int - b as int) }

  /** strings.Compare */
  function CompareText(a: string, b: string): int { CompareSeq(a, b, CompareChar) }

  predicate IsDigit(c: char) { '0' <= c <= '9' }

  /** isNumericIdentifier */
  predicate IsNumeric(s: string) { s != "" && forall i :: 0 <= i < |s| ==> IsDigit(s[i]) }

  predicate Digits(s: string) { forall i :: 0 <= i < |s| ==> IsDigit(s[i]) }

  function Power10(n: nat): nat { if n == 0 then 1 else 10 * Power10(n - 1) }

  /** The number a digit string spells. */
  function Numeral(s: string): nat
    requires Digits(s)
  {
    if s == "" then 0 else (s[0] as int - '0' as int) * Power10(|s| - 1) + Numeral(s[1..])
  }

  function TrimZeros(s: string): string {
    if s != "" && s[0] == '0' then TrimZeros(s[1..]) else s
  }

  /** compareNumericIdentifier */
  function CompareNumeric(a: string, b: string): int {
    var a', b' := TrimZeros(a), TrimZeros(b);
    var x, y := if a' == "" then "0" else a', if b' == "" then "0" else b';
    if |x| < |y| then -1 else if |x| > |y| then 1 else CompareText(x, y)
  }

  lemma DigitTimes(d: nat, p: nat)
    requires d <= 9
    ensures d * p <= 9 * p && (d > 0 ==> d * p >= p)
  {}

  lemma {:induction false} NumeralBelow(s: string)
    requires Digits(s)
    ensures Numeral(s) < Power10(|s|)
  {
    if s != "" {
      NumeralBelow(s[1..]);
      DigitTimes(s[0] as int - '0' as int, Power10(|s| - 1));
    }
  }

  lemma {:induction false} TrimKeepsNumeral(s: string)
    requires Digits(s)
    ensures Digits(TrimZeros(s)) && Numeral(TrimZeros(s)) == Numeral(s)
    ensures TrimZeros(s) != "" ==> Power10(|TrimZeros(s)| - 1) <= Numeral(s)
  {
    if s != "" && s[0] == '0' {
      TrimKeepsNumeral(s[1..]);
    } else if s != "" {
      DigitTimes(s[0] as int - '0' as int, Power10(|s| - 1));
    }
  }

  lemma {:induction false} Power10Grows(n: nat, m: nat)
    requires n <= m
    ensures Power10(n) <= Power10(m)
    decreases m
  {
    if n < m { Power10Grows(n, m - 1); }
  }

  lemma {:induction false} NextMultiple(d: nat, e: nat, p: nat)
    requires d < e
    ensures d * p + p <= e * p
    decreases e
  {
    if d + 1 < e { NextMultiple(d, e - 1, p); }
    assert e * p == (e - 1) * p + p;
  }

  lemma LeadingDigit(d: nat, e: nat, p: nat, x: nat, y: nat)
    requires x < p && y < p
    ensures Sign((d * p + x) - (e * p + y)) == if d != e then Sign(d - e) else Sign(x - y)
  {
    if d < e { NextMultiple(d, e, p); }
    if e < d { NextMultiple(e, d, p); }
  }

  lemma {:induction false} SameLength(a: string, b: string)
    requires Digits(a) && Digits(b) && |a| == |b|
    ensures CompareText(a, b) == Sign(Numeral(a) - Numeral(b))
  {
    if a != "" {
      NumeralBelow(a[1..]);
      NumeralBelow(b[1..]);
      SameLength(a[1..], b[1..]);
      var x, y := a[0] as int - '0' as int, b[0] as int - '0' as int;
      LeadingDigit(x, y, Power10(|a| - 1), Numeral(a[1..]), Numeral(b[1..]));
    }
  }

  /** Without leading zeros, so that the length bounds the number on both sides. */
  predicate Significant(x: string) {
    Digits(x) && x != "" && (|x| > 1 ==> Power10(|x| - 1) <= Numeral(x)) && Numeral(x) < Power10(|x|)
  }

  function Stripped(a: string): string { if TrimZeros(a) == "" then "0" else TrimZeros(a) }

  lemma StrippedIsSignificant(a: string)
    requires Digits(a)
    ensures Significant(Stripped(a)) && Numeral(Stripped(a)) == Numeral(a)
  {
    TrimKeepsNumeral(a);
    assert Numeral("0") == 0 by { assert Numeral("0"[1..]) == 0; }
    NumeralBelow(Stripped(a));
  }

  lemma ShorterIsSmaller(x: string, y: string)
    requires Significant(x) && Significant(y) && |x| < |y|
    ensures Numeral(x) < Numeral(y)
  {
    Power10Grows(|x|, |y| - 1);
  }

  /** Digit strings of any length are compared as the numbers they spell. */
  lemma NumericIsInteger(a: string, b: string)
    requires Digits(a) && Digits(b)
    ensures CompareNumeric(a, b) == Sign(Numeral(a) - Numeral(b))
  {
    var x, y := Stripped(a), Stripped(b);
    StrippedIsSignificant(a);
    StrippedIsSignificant(b);
    if |x| < |y| {
      ShorterIsSmaller(x, y);
    } else if |y| < |x| {
      ShorterIsSmaller(y, x);
    } else {
      SameLength(x, y);
    }
  }

  // ----- Identifiers and versions -----

  /** comparePrereleaseIdentifier */
  function CompareIdentifier(a: string, b: string): int {
    if IsNumeric(a) && IsNumeric(b) then CompareNumeric(a, b)
    else if IsNumeric(a) then -1
    else if IsNumeric(b) then 1
    else CompareText(a, b)
  }

  lemma CharsGood()
    ensures Good(CompareChar)
  {}

  lemma TextGood()
    ensures Good(CompareText)
  {
    CharsGood();
    forall a: string, b: string ensures CompareText(a, b) in {-1, 0, 1} && CompareText(b, a) == -CompareText(a, b) {
      SeqTurns(a, b, CompareChar);
    }
    forall a: string, b: string, c: string | CompareText(a, b) <= 0 && CompareText(b, c) <= 0
      ensures CompareText(a, c) <= 0
    {
      SeqTransitive(a, b, c, CompareChar);
    }
  }

  lemma IdentifiersGood()
    ensures Good(CompareIdentifier)
  {
    TextGood();
    forall a: string, b: string | IsNumeric(a) && IsNumeric(b)
      ensures CompareIdentifier(a, b) == Sign(Numeral(a) - Numeral(b))
    {
      NumericIsInteger(a, b);
    }
  }

  /** The numeric parts of a version. */
  type Number = s: string | IsNumeric(s) witness "0"

  function CompareNumbers(a: Number, b: Number): int { CompareNumeric(a, b) }

  lemma NumbersGood()
    ensures Good(CompareNumbers)
  {
    forall a: Number, b: Number ensures CompareNumbers(a, b) == Sign(Numeral(a) - Numeral(b)) {
      NumericIsInteger(a, b);
    }
  }

  datatype Version = Version(core: seq<Number>, prerelease: seq<string>)

  /** compareSemver on parsed versions. */
  function CompareVersions(a: Version, b: Version): int {
    var c := CompareSeq(a.core, b.core, CompareNumbers);
    if c != 0 then c
    else if a.prerelease == [] && b.prerelease == [] then 0
    else if a.prerelease == [] then 1
    else if b.prerelease == [] then -1
    else CompareSeq(a.prerelease, b.prerelease, CompareIdentifier)
  }

  lemma VersionsTurn(a: Version, b: Version)
    ensures CompareVersions(a, b) in {-1, 0, 1} && CompareVersions(b, a) == -CompareVersions(a, b)
  {
    NumbersGood();
    IdentifiersGood();
    SeqTurns(a.core, b.core, CompareNumbers);
    SeqTurns(a.prerelease, b.prerelease, CompareIdentifier);
  }

  lemma VersionsTransitive(a: Version, b: Version, c: Version)
    requires CompareVersions(a, b) <= 0 && CompareVersions(b, c) <= 0
    ensures CompareVersions(a, c) <= 0
  {
    NumbersGood();
    IdentifiersGood();
    SeqGood(CompareNumbers);
    EqualThrough((xs: seq<Number>, ys: seq<Number>) => CompareSeq(xs, ys, CompareNumbers), a.core, b.core, c.core);
    var prereleases := a.prerelease != [] && b.prerelease != [] && c.prerelease != [];
    if prereleases && CompareSeq(a.core, c.core, CompareNumbers) == 0 {
      SeqTransitive(a.prerelease, b.prerelease, c.prerelease, CompareIdentifier);
    }
  }

  /** Precedence is a total preorder. */
  lemma PrecedenceIsTotalPreorder()
    ensures Good(CompareVersions)
  {
    forall a: Version, b: Version
      ensures CompareVersions(a, b) in {-1, 0, 1} && CompareVersions(b, a) == -CompareVersions(a, b)
    {
      VersionsTurn(a, b);
    }
    forall a: Version, b: Version, c: Version | CompareVersions(a, b) <= 0 && CompareVersions(b, c) <= 0
      ensures CompareVersions(a, c) <= 0
    {
      VersionsTransitive(a, b, c);
    }
  }

  // ----- Section 11 of the standard, stated by first differences -----

  /** An identifier as the standard sees it. */
  datatype Identifier = Numeric(n: nat) | Alphanumeric(s: string)

  function Read(s: string): Identifier { if IsNumeric(s) then Numeric(Numeral(s)) else Alphanumeric(s) }

  /** a comes before b in ASCII order. */
  ghost predicate TextBefore(a: string, b: string) {
    exists i :: 0 <= i <= |a| && i < |b| && (forall j :: 0 <= j < i ==> a[j] == b[j]) && (i == |a| || a[i] < b[i])
  }

  /** Sections 11.4.1 to 11.4.3. */
  ghost predicate IdentifierBefore(a: Identifier, b: Identifier) {
    match (a, b)
    case (Numeric(n), Numeric(m)) => n < m
    case (Alphanumeric(s), Alphanumeric(t)) => TextBefore(s, t)
    case (Numeric(_), Alphanumeric(_)) => true
    case (Alphanumeric(_), Numeric(_)) => false
  }

  /** Section 11.4.4 and the left-to-right rule of 11.4. */
  ghost predicate PrereleaseBefore(a: seq<string>, b: seq<string>) {
    exists i :: 0 <= i <= |a| && i < |b| && (forall j :: 0 <= j < i ==> Read(a[j]) == Read(b[j]))
             && (i == |a| || IdentifierBefore(Read(a[i]), Read(b[i])))
  }

  ghost predicate SamePrerelease(a: seq<string>, b: seq<string>) {
    |a| == |b| && forall j :: 0 <= j < |a| ==> Read(a[j]) == Read(b[j])
  }

  /** Section 11.2: the first of major, minor and patch that differs decides. */
  ghost predicate CoreBefore(a: Version, b: Version) {
    exists i :: 0 <= i < |a.core| && i < |b.core|
      && (forall j :: 0 <= j < i ==> Numeral(a.core[j]) == Numeral(b.core[j]))
             && Numeral(a.core[i]) < Numeral(b.core[i])
  }

  ghost predicate SameCore(a: Version, b: Version) {
    |a.core| == |b.core| && forall j :: 0 <= j < |a.core| ==> Numeral(a.core[j]) == Numeral(b.core[j])
  }

  /** Sections 11.2 to 11.4: a has lower precedence than b; without a prerelease is higher than with one. */
  ghost predicate LowerPrecedence(a: Version, b: Version) {
    || CoreBefore(a, b)
    || (SameCore(a, b) && a.prerelease != [] && (b.prerelease == [] || PrereleaseBefore(a.prerelease, b.prerelease)))
  }

  // ----- The comparison implements it -----

  ghost predicate DiffersAt<T(!new)>(a: seq<T>, b: seq<T>, cmp: (T, T) -> int, i: int) {
    0 <= i <= |a| && i < |b| && (forall j :: 0 <= j < i ==> cmp(a[j], b[j]) == 0) && (i == |a| || cmp(a[i], b[i]) < 0)
  }

  lemma {:induction false} FirstDifference<T(!new)>(a: seq<T>, b: seq<T>, cmp: (T, T) -> int)
    ensures CompareSeq(a, b, cmp) == 0 <==> |a| == |b| && forall j :: 0 <= j < |a| ==> cmp(a[j], b[j]) == 0
    ensures CompareSeq(a, b, cmp) < 0 <==> exists i :: DiffersAt(a, b, cmp, i)
    decreases |a|
  {
    if a == [] || b == [] {
      if a == [] && b != [] { assert DiffersAt(a, b, cmp, 0); }
    } else {
      var a', b' := a[1..], b[1..];
      FirstDifference(a', b', cmp);
      if cmp(a[0], b[0]) < 0 { assert DiffersAt(a, b, cmp, 0); }
      if cmp(a[0], b[0]) == 0 {
        forall i | DiffersAt(a', b', cmp, i) ensures DiffersAt(a, b, cmp, i + 1) {
          forall j | 0 <= j < i + 1
            ensures cmp(a[j], b[j]) == 0
          {
            assert j > 0 ==> a[j] == a'[j - 1] && b[j] == b'[j - 1];
          }
        }
        forall i | DiffersAt(a, b, cmp, i) && i > 0 ensures DiffersAt(a', b', cmp, i - 1) {
          forall j | 0 <= j < i - 1 ensures cmp(a'[j], b'[j]) == 0 { assert a'[j] == a[j + 1] && b'[j] == b[j + 1]; }
        }
        assert forall j :: 1 <= j < |a| && |a| == |b| ==> a[j] == a'[j - 1] && b[j] == b'[j - 1];
      }
    }
  }

  lemma TextFollowsStandard(a: string, b: string)
    ensures CompareText(a, b) == 0 <==> a == b
    ensures CompareText(a, b) < 0 <==> TextBefore(a, b)
  {
    FirstDifference(a, b, CompareChar);
    if CompareText(a, b) < 0 {
      var i :| DiffersAt(a, b, CompareChar, i);
    }
    if TextBefore(a, b) {
      var i :| 0 <= i <= |a| && i < |b| && (forall j :: 0 <= j < i ==> a[j] == b[j]) && (i == |a| || a[i] < b[i]);
      assert DiffersAt(a, b, CompareChar, i);
    }
  }

  lemma IdentifierFollowsStandard(a: string, b: string)
    ensures CompareIdentifier(a, b) == 0 <==> Read(a) == Read(b)
    ensures CompareIdentifier(a, b) < 0 <==> IdentifierBefore(Read(a), Read(b))
  {
    if IsNumeric(a) && IsNumeric(b) { NumericIsInteger(a, b); }
    TextFollowsStandard(a, b);
  }

  lemma PrereleaseFollowsStandard(a: seq<string>, b: seq<string>)
    ensures CompareSeq(a, b, CompareIdentifier) == 0 <==> SamePrerelease(a, b)
    ensures CompareSeq(a, b, CompareIdentifier) < 0 <==> PrereleaseBefore(a, b)
  {
    FirstDifference(a, b, CompareIdentifier);
    forall x, y
      ensures CompareIdentifier(x, y) == 0 <==> Read(x) == Read(y)
      ensures CompareIdentifier(x, y) < 0 <==> IdentifierBefore(Read(x), Read(y))
    {
      IdentifierFollowsStandard(x, y);
    }
    if CompareSeq(a, b, CompareIdentifier) < 0 {
      var i :| DiffersAt(a, b, CompareIdentifier, i);
    }
    if PrereleaseBefore(a, b) {
      var i :| 0 <= i <= |a| && i < |b| && (forall j :: 0 <= j < i ==> Read(a[j]) == Read(b[j]))
        && (i == |a| || IdentifierBefore(Read(a[i]), Read(b[i])));
      assert DiffersAt(a, b, CompareIdentifier, i);
    }
  }

  lemma NumbersAreIntegers()
    ensures forall x: Number, y: Number :: CompareNumbers(x, y) == Sign(Numeral(x) - Numeral(y))
  {
    forall x: Number, y: Number
      ensures CompareNumbers(x, y) == Sign(Numeral(x) - Numeral(y))
    {
      NumericIsInteger(x, y);
    }
  }

  lemma CoreBeforeIsDifference(a: Version, b: Version, i: int)
    requires |a.core| == |b.core|
    ensures DiffersAt(a.core, b.core, CompareNumbers, i) <==>
      0 <= i < |a.core| && (forall j :: 0 <= j < i ==> Numeral(a.core[j]) == Numeral(b.core[j]))
        && Numeral(a.core[i]) < Numeral(b.core[i])
  {
    NumbersAreIntegers();
  }

  lemma CoreFollowsStandard(a: Version, b: Version)
    requires |a.core| == |b.core|
    ensures CompareSeq(a.core, b.core, CompareNumbers) == 0 <==> SameCore(a, b)
    ensures CompareSeq(a.core, b.core, CompareNumbers) < 0 <==> CoreBefore(a, b)
  {
    FirstDifference(a.core, b.core, CompareNumbers);
    NumbersAreIntegers();
    if CompareSeq(a.core, b.core, CompareNumbers) < 0 {
      var i :| DiffersAt(a.core, b.core, CompareNumbers, i);
      CoreBeforeIsDifference(a, b, i);
    }
    if CoreBefore(a, b) {
      var i :| 0 <= i < |a.core| && i < |b.core|
        && (forall j :: 0 <= j < i ==> Numeral(a.core[j]) == Numeral(b.core[j]))
        && Numeral(a.core[i]) < Numeral(b.core[i]);
      CoreBeforeIsDifference(a, b, i);
    }
  }

  /** compareSemver decides exactly the precedence the standard defines. */
  lemma ComparesByStandard(a: Version, b: Version)
    requires |a.core| == 3 == |b.core|
    ensures CompareVersions(a, b) < 0 <==> LowerPrecedence(a, b)
    ensures CompareVersions(a, b) > 0 <==> LowerPrecedence(b, a)
    ensures CompareVersions(a, b) == 0 <==> SameCore(a, b) && SamePrerelease(a.prerelease, b.prerelease)
  {
    CoreFollowsStandard(a, b);
    CoreFollowsStandard(b, a);
    PrereleaseFollowsStandard(a.prerelease, b.prerelease);
    PrereleaseFollowsStandard(b.prerelease, a.prerelease);
    VersionsTurn(a, b);
    NumbersGood();
    SeqTurns(a.core, b.core, CompareNumbers);
  }

  // ----- Texts -----

  function Split(s: string, c: char): (parts: seq<string>)
    ensures |parts| > 0
  {
    if s == "" then [""]
    else if s[0] == c then [""] + Split(s[1..], c)
    else var rest := Split(s[1..], c); [[s[0]] + rest[0]] + rest[1..]
  }

  function Join(parts: seq<string>, c: char): string
    requires |parts| > 0
  {
    if |parts| == 1 then parts[0] else parts[0] + [c] + Join(parts[1..], c)
  }

  /** strings.Cut, and strings.SplitN with a limit of two. */
  function Cut(s: string, c: char): (string, Option<string>) {
    if s == "" then ("", None)
    else if s[0] == c then ("", Some(s[1..]))
    else var (before, after) := Cut(s[1..], c); ([s[0]] + before, after)
  }

  lemma {:induction false} CutAtFirst(before: string, c: char, after: string)
    requires c !in before
    ensures Cut(before, c) == (before, None) && Cut(before + [c] + after, c) == (before, Some(after))
  {
    if before == "" {
      assert (before + [c] + after)[1..] == after;
    } else {
      CutAtFirst(before[1..], c, after);
      assert (before + [c] + after)[1..] == before[1..] + [c] + after;
      assert before == [before[0]] + before[1..];
    }
  }

  lemma {:induction false} SplitOne(part: string, c: char, rest: string)
    requires c !in part
    ensures Split(part, c) == [part] && Split(part + [c] + rest, c) == [part] + Split(rest, c)
  {
    if part == "" {
      assert (part + [c] + rest)[1..] == rest;
    } else {
      SplitOne(part[1..], c, rest);
      assert (part + [c] + rest)[1..] == part[1..] + [c] + rest;
      assert part == [part[0]] + part[1..];
    }
  }

  lemma {:induction false} SplitJoin(parts: seq<string>, c: char)
    requires |parts| > 0 && forall p :: p in parts ==> c !in p
    ensures Split(Join(parts, c), c) == parts
  {
    if |parts| == 1 {
      SplitOne(parts[0], c, "");
    } else {
      SplitOne(parts[0], c, Join(parts[1..], c));
      SplitJoin(parts[1..], c);
      assert parts == [parts[0]] + parts[1..];
    }
  }

  lemma {:induction false} JoinHas(parts: seq<string>, c: char, x: char)
    requires |parts| > 0 && x != c && forall p :: p in parts ==> x !in p
    ensures x !in Join(parts, c)
  {
    if |parts| > 1 { JoinHas(parts[1..], c, x); }
  }

  predicate IdentifierChar(c: char) { IsDigit(c) || 'a' <= c <= 'z' || 'A' <= c <= 'Z' || c == '-' }

  predicate IsIdentifier(s: string) { s != "" && forall i :: 0 <= i < |s| ==> IdentifierChar(s[i]) }

  /** (0|[1-9][0-9]*) */
  predicate IsCoreNumber(s: string) { IsNumeric(s) && (s == "0" || s[0] != '0') }

  /** A text the program's pattern matches, by its parts; a prerelease number may have leading zeros. */
  datatype Source = Source(core: seq<string>, prerelease: seq<string>, build: seq<string>) {
    predicate WellFormed() {
      && |core| == 3 && (forall p :: p in core ==> IsCoreNumber(p))
      && (forall p :: p in prerelease ==> IsIdentifier(p)) && (forall p :: p in build ==> IsIdentifier(p))
    }
    function Text(): string
      requires |core| == 3
    {
      Join(core, '.') + (if prerelease == [] then "" else "-" + Join(prerelease, '.'))
      + (if build == [] then "" else "+" + Join(build, '.'))
    }
  }

  ghost predicate Matches(s: string) {
    exists v: Source :: v.WellFormed() && v.Text() == s
  }

  /** parseSemverValue on a text the pattern matches. */
  function Parts(s: string): (seq<string>, seq<string>) {
    var (core, prerelease) := Cut(Cut(s, '+').0, '-');
    (Split(core, '.'), match prerelease case None => [] case Some(p) => Split(p, '.'))
  }

  lemma BuildCutOff(v: Source, front: string)
    requires v.WellFormed() && '+' !in front
    requires v.Text() == front + (if v.build == [] then "" else "+" + Join(v.build, '.'))
    ensures Cut(v.Text(), '+').0 == front
  {
    if v.build == [] {
      CutAtFirst(front, '+', "");
      assert v.Text() == front;
    } else {
      CutAtFirst(front, '+', Join(v.build, '.'));
      assert v.Text() == front + ['+'] + Join(v.build, '.');
    }
  }

  lemma PrereleaseCutOff(core: string, prerelease: seq<string>)
    requires '-' !in core && '+' !in core && forall p :: p in prerelease ==> IsIdentifier(p)
    ensures var front := core + (if prerelease == [] then "" else "-" + Join(prerelease, '.'));
      '+' !in front && Cut(front, '-') == (core, if prerelease == [] then None else Some(Join(prerelease, '.')))
  {
    if prerelease == [] {
      CutAtFirst(core, '-', "");
      assert core + "" == core;
    } else {
      JoinHas(prerelease, '.', '+');
      CutAtFirst(core, '-', Join(prerelease, '.'));
      assert core + ("-" + Join(prerelease, '.')) == core + ['-'] + Join(prerelease, '.');
    }
  }

  /** Parsing finds the parts a matching text was put together from. */
  lemma ParseFindsParts(v: Source)
    requires v.WellFormed()
    ensures Parts(v.Text()) == (v.core, v.prerelease)
  {
    var core := Join(v.core, '.');
    JoinHas(v.core, '.', '-');
    JoinHas(v.core, '.', '+');
    SplitJoin(v.core, '.');
    PrereleaseCutOff(core, v.prerelease);
    BuildCutOff(v, core + (if v.prerelease == [] then "" else "-" + Join(v.prerelease, '.')));
    if v.prerelease != [] { SplitJoin(v.prerelease, '.'); }
  }

  ghost function Parse(s: string): (v: Option<Version>)
    ensures v.Some? <==> Matches(s)
    ensures v.Some? ==> |v.value.core| == 3
  {
    if Matches(s) then
      var src: Source :| src.WellFormed() && src.Text() == s;
      ParseFindsParts(src);
      assert forall i :: 0 <= i < 3 ==> Parts(s).0[i] in src.core;
      Some(Version([Parts(s).0[0], Parts(s).0[1], Parts(s).0[2]], Parts(s).1))
    else None
  }

  ghost function CompareSemver(a: string, b: string): (r: Option<int>)
    ensures r.Some? <==> Matches(a) && Matches(b)
  {
    match (Parse(a), Parse(b))
    case (Some(v), Some(w)) => Some(CompareVersions(v, w))
    case _ => None
  }

  /** ensureMinimumVersion reports no error. */
  ghost predicate MinimumMet(version: string, minimum: string) {
    CompareSemver(version, minimum).Some? && CompareSemver(version, minimum).value >= 0
  }

  /** The version a well-formed text stands for. */
  function VersionOf(v: Source): Version
    requires v.WellFormed()
  {
    assert forall i :: 0 <= i < 3 ==> v.core[i] in v.core;
    Version([v.core[0], v.core[1], v.core[2]], v.prerelease)
  }

  /** Parsing a text the pattern matches gives its own parts, each in its place. */
  lemma ParseIsExact(v: Source)
    requires v.WellFormed()
    ensures Parse(v.Text()) == Some(VersionOf(v)) && VersionOf(v).core == v.core
    ensures VersionOf(v).prerelease == v.prerelease
  {
    assert Matches(v.Text());
    ParseFindsParts(v);
  }

  /**
  compareSemver on texts decides precedence as the standard defines it, and fails
  exactly on texts that do not match.
  */
  lemma ComparesTexts(v: Source, w: Source)
    requires v.WellFormed() && w.WellFormed()
    ensures CompareSemver(v.Text(), w.Text()) == Some(-1) <==> LowerPrecedence(VersionOf(v), VersionOf(w))
    ensures CompareSemver(v.Text(), w.Text()) == Some(1) <==> LowerPrecedence(VersionOf(w), VersionOf(v))
    ensures CompareSemver(v.Text(), w.Text()) == Some(0) <==>
      SameCore(VersionOf(v), VersionOf(w)) && SamePrerelease(v.prerelease, w.prerelease)
    ensures CompareSemver(v.Text(), w.Text()) in {Some(-1), Some(0), Some(1)}
  {
    hide CompareVersions, LowerPrecedence, SameCore, SamePrerelease, Source.Text, Parse, VersionOf;
    ParseIsExact(v);
    ParseIsExact(w);
    ComparesByStandard(VersionOf(v), VersionOf(w));
    VersionsTurn(VersionOf(v), VersionOf(w));
  }

  /** A release meets a minimum exactly if it does not precede it. */
  lemma MinimumMetIff(v: Source, w: Source)
    requires v.WellFormed() && w.WellFormed()
    ensures MinimumMet(v.Text(), w.Text()) <==> !LowerPrecedence(VersionOf(v), VersionOf(w))
  {
    hide LowerPrecedence, SameCore, SamePrerelease, Source.Text, VersionOf, CompareSemver;
    ComparesTexts(v, w);
  }

  /** What meets a minimum is upward closed, and a higher minimum admits less. */
  lemma MinimumUpwardClosed(version: string, newer: string, minimum: string, lower: string)
    requires MinimumMet(version, minimum) && MinimumMet(newer, version) && MinimumMet(minimum, lower)
    ensures MinimumMet(newer, minimum) && MinimumMet(version, lower)
  {
    var v, n, m, l := Parse(version).value, Parse(newer).value, Parse(minimum).value, Parse(lower).value;
    VersionsTurn(v, m);
    VersionsTurn(n, v);
    VersionsTurn(m, l);
    VersionsTransitive(m, v, n);
    VersionsTransitive(l, m, v);
    VersionsTurn(n, m);
    VersionsTurn(v, l);
  }

  /** The build part never matters. */
  lemma BuildIsIgnored(v: Source, w: Source)
    requires v.WellFormed() && w.WellFormed() && v.core == w.core && v.prerelease == w.prerelease
    ensures Parse(v.Text()) == Parse(w.Text()) && CompareSemver(v.Text(), w.Text()) == Some(0)
  {
    ParseFindsParts(v);
    ParseFindsParts(w);
    assert Matches(v.Text()) && Matches(w.Text());
    VersionsTurn(Parse(v.Text()).value, Parse(w.Text()).value);
  }

  // ----- Against the grammar of the standard (Semantic Versioning 2.0.0, sections 2, 9 and 10) -----

  /** A prerelease identifier that is a number is written without leading zeros. */
  predicate IsStandardIdentifier(p: string) { IsIdentifier(p) && (IsNumeric(p) ==> p == "0" || p[0] != '0') }

  ghost predicate StandardVersion(s: string) {
    exists v: Source :: v.WellFormed() && (forall p :: p in v.prerelease ==> IsStandardIdentifier(p)) && v.Text() == s
  }

  predicate LeadingZero(p: string) { |p| > 1 && IsNumeric(p) && p[0] == '0' }

  /**
  The program accepts every version of the standard, and of the texts it accepts
  exactly those are versions whose parsed prerelease holds no number with a leading
  zero.
  */
  lemma StandardIff(s: string)
    ensures StandardVersion(s) <==> Matches(s) && forall p :: p in Parts(s).1 ==> !LeadingZero(p)
  {
    if Matches(s) {
      var v: Source :| v.WellFormed() && v.Text() == s;
      ParseFindsParts(v);
      assert forall p :: p in v.prerelease ==> (IsStandardIdentifier(p) <==> !LeadingZero(p));
    }
    if StandardVersion(s) {
      var v: Source :| v.WellFormed() && (forall p :: p in v.prerelease ==> IsStandardIdentifier(p)) && v.Text() == s;
      ParseFindsParts(v);
    }
  }

  /** Whatever has a number with a leading zero in its prerelease is accepted all the same. */
  lemma LeadingZeroAccepted(v: Source, i: nat)
    requires v.WellFormed() && i < |v.prerelease| && LeadingZero(v.prerelease[i])
    ensures Matches(v.Text()) && !StandardVersion(v.Text())
  {
    ParseFindsParts(v);
    StandardIff(v.Text());
    assert v.prerelease[i] in v.prerelease;
  }

  const LEADING_ZERO := Source(["1", "2", "0"], ["01"], [])

  lemma LeadingZeroText()
    ensures LEADING_ZERO.WellFormed() && LEADING_ZERO.Text() == "1.2.0-01"
  {
    var v := LEADING_ZERO;
    assert Join(["2", "0"], '.') == "2.0" by { assert ["2", "0"][1..] == ["0"]; }
    assert Join(v.core, '.') == "1.2.0" by { assert v.core[1..] == ["2", "0"]; }
  }

  /** One of them. */
  lemma LeadingZeroExample()
    ensures Matches("1.2.0-01") && !StandardVersion("1.2.0-01")
  {
    hide Split, Parts, StandardVersion, Cut, Join;
    LeadingZeroText();
    LeadingZeroAccepted(LEADING_ZERO, 0);
  }
}
