/** Patroni versions (model/version.go): precedence in the manner of section 11 of
    Semantic Versioning 2.0.0, and version ranges. */
module Version {
  import opened Text
  import opened Decimal

  datatype Version = Version(major: int, minor: int, patch: int, suffix: string)

  // ---- the code ----

  function CompareInts(a: int, b: int): int { if a < b then -1 else if a > b then 1 else 0 }

  function CompareStrings(a: string, b: string): int { if Less(a, b) then -1 else if Less(b, a) then 1 else 0 }

  /** strings.TrimLeft(s, ".-"). */
  function TrimMarks(s: string): string {
    if s != "" && (s[0] == '.' || s[0] == '-') then TrimMarks(s[1..]) else s
  }

  /** numericIdentifier: the digits without leading zeros, or None. */
  function NumericIdentifier(value: string): Option<string> {
    if value == "" || !AllDigits(value) then None
    else Some(if TrimLeft(value, '0') == "" then "0" else TrimLeft(value, '0'))
  }

  /** The switch of comparePrerelease on one pair of identifiers. */
  function CompareIdentifiers(left: string, right: string): int {
    match (NumericIdentifier(left), NumericIdentifier(right))
    case (Some(l), Some(r)) =>
      if |l| < |r| || (|l| == |r| && Less(l, r)) then -1
      else if |l| > |r| || (|l| == |r| && Less(r, l)) then 1
      else 0
    case (Some(_), None) => -1
    case (None, Some(_)) => 1
    case (None, None) => CompareStrings(left, right)
  }

  function CompareParts(left: seq<string>, right: seq<string>): int {
    if left == [] || right == [] then CompareInts(|left|, |right|)
    else if CompareIdentifiers(left[0], right[0]) != 0 then CompareIdentifiers(left[0], right[0])
    else CompareParts(left[1..], right[1..])
  }

  function ComparePrerelease(left: string, right: string): int {
    var l, r := TrimMarks(left), TrimMarks(right);
    if l == "" && r == "" then 0
    else if l == "" then 1
    else if r == "" then -1
    else CompareParts(Split(l, '.'), Split(r, '.'))
  }

  /** The loop of comparePrerelease over the dot-separated identifiers. */
  method ComparePartsLoop(left: seq<string>, right: seq<string>) returns (order: int)
    ensures order == CompareParts(left, right)
  {
    hide CompareIdentifiers;
    var index := 0;
    while index < |left| && index < |right|
      invariant index <= |left| && index <= |right|
      invariant CompareParts(left, right) == CompareParts(left[index..], right[index..])
    {
      var here := CompareIdentifiers(left[index], right[index]);
      if here != 0 {
        return here;
      }
      assert left[index..][1..] == left[index + 1..] && right[index..][1..] == right[index + 1..];
      index := index + 1;
    }
    return CompareInts(|left|, |right|);
  }

  /** compareNumericCore. */
  function CompareCore(a: Version, b: Version): int {
    if a.major != b.major then CompareInts(a.major, b.major)
    else if a.minor != b.minor then CompareInts(a.minor, b.minor)
    else CompareInts(a.patch, b.patch)
  }

  function Compare(a: Version, b: Version): int {
    if CompareCore(a, b) != 0 then CompareCore(a, b) else ComparePrerelease(a.suffix, b.suffix)
  }

  // ---- the reference: identifiers as integers or text ----

  datatype Identifier = Numeric(value: nat) | Alphanumeric(text: string)

  function IdentifierOf(text: string): Identifier {
    if text != "" && AllDigits(text) then Numeric(DigitsValue(text)) else Alphanumeric(text)
  }

  /** Numeric identifiers by value, text by bytes, numbers before text. */
  function Precedence(a: Identifier, b: Identifier): int {
    match (a, b)
    case (Numeric(x), Numeric(y)) => CompareInts(x, y)
    case (Numeric(_), Alphanumeric(_)) => -1
    case (Alphanumeric(_), Numeric(_)) => 1
    case (Alphanumeric(x), Alphanumeric(y)) => CompareStrings(x, y)
  }

  function Power10(n: nat): nat { if n == 0 then 1 else 10 * Power10(n - 1) }

  lemma {:induction false} ValueFromFront(c: char, rest: string)
    requires IsDigit(c) && forall i :: 0 <= i < |rest| ==> IsDigit(rest[i])
    ensures DigitsValue([c] + rest) == DigitValue(c) * Power10(|rest|) + DigitsValue(rest)
  {
    var s := [c] + rest;
    if rest == [] {
      assert s[..|s| - 1] == "";
    } else {
      var n := |rest| - 1;
      ValueFromFront(c, rest[..n]);
      assert s[..|s| - 1] == [c] + rest[..n];
      assert 10 * (DigitValue(c) * Power10(n)) == DigitValue(c) * Power10(n + 1);
    }
  }

  lemma {:induction false} ValueBelowPower(s: string)
    requires forall i :: 0 <= i < |s| ==> IsDigit(s[i])
    ensures DigitsValue(s) < Power10(|s|)
  {
    if s != "" {
      ValueBelowPower(s[..|s| - 1]);
    }
  }

  lemma PowerMonotone(a: nat, b: nat)
    requires a <= b
    ensures Power10(a) <= Power10(b)
  {
    if a < b {
      PowerMonotone(a, b - 1);
    }
  }

  lemma HigherDigitWins(x: nat, y: nat, p: nat, u: nat, v: nat)
    requires x < y && u < p
    ensures x * p + u < y * p + v
  {
    assert (x + 1) * p <= y * p;
    assert (x + 1) * p == x * p + p;
  }

  /** Equally long digit strings are ordered like their values. */
  lemma {:induction false} EqualLengthOrder(a: string, b: string)
    requires |a| == |b| && Less(a, b)
    requires forall i :: 0 <= i < |a| ==> IsDigit(a[i]) && IsDigit(b[i])
    ensures DigitsValue(a) < DigitsValue(b)
  {
    hide Power10, DigitsValue;
    assert a == [a[0]] + a[1..] && b == [b[0]] + b[1..];
    ValueFromFront(a[0], a[1..]);
    ValueFromFront(b[0], b[1..]);
    ValueBelowPower(a[1..]);
    if a[0] == b[0] {
      EqualLengthOrder(a[1..], b[1..]);
    } else {
      HigherDigitWins(DigitValue(a[0]), DigitValue(b[0]), Power10(|a| - 1), DigitsValue(a[1..]), DigitsValue(b[1..]));
    }
  }

  /** A longer number without leading zeros is greater. */
  lemma LongerIsGreater(a: string, b: string)
    requires |a| < |b| && b[0] != '0'
    requires (forall i :: 0 <= i < |a| ==> IsDigit(a[i])) && (forall i :: 0 <= i < |b| ==> IsDigit(b[i]))
    ensures DigitsValue(a) < DigitsValue(b)
  {
    hide Power10, DigitsValue, Less;
    assert b == [b[0]] + b[1..];
    ValueFromFront(b[0], b[1..]);
    ValueBelowPower(a);
    PowerMonotone(|a|, |b| - 1);
    HigherDigitWins(0, DigitValue(b[0]), Power10(|b| - 1), DigitsValue(a), DigitsValue(b[1..]));
  }

  lemma {:induction false} LeadingZeros(s: string)
    requires forall i :: 0 <= i < |s| ==> IsDigit(s[i])
    ensures var t := TrimLeft(s, '0');
            && (forall i :: 0 <= i < |t| ==> IsDigit(t[i]))
            && (t != "" ==> t[0] != '0')
            && DigitsValue(t) == DigitsValue(s)
  {
    if s != "" && s[0] == '0' {
      LeadingZeros(s[1..]);
      ValueFromFront(s[0], s[1..]);
      assert s == [s[0]] + s[1..];
    }
  }

  /** The normalized digits: same value, no leading zero unless it is zero. */
  lemma Normalized(value: string)
    requires value != "" && AllDigits(value)
    ensures var n := NumericIdentifier(value);
            && n.Some? && n.value != ""
            && (forall i :: 0 <= i < |n.value| ==> IsDigit(n.value[i]))
            && (n.value[0] == '0' ==> n.value == "0")
            && DigitsValue(n.value) == DigitsValue(value)
  {
    LeadingZeros(value);
  }

  /** Comparing digit strings by length and then by text is comparing integers,
      however long they are. */
  lemma IdentifiersByValue(left: string, right: string)
    ensures CompareIdentifiers(left, right) == Precedence(IdentifierOf(left), IdentifierOf(right))
  {
    if left != "" && AllDigits(left) {
      Normalized(left);
    }
    if right != "" && AllDigits(right) {
      Normalized(right);
    }
    if left != "" && AllDigits(left) && right != "" && AllDigits(right) {
      NumbersByValue(NumericIdentifier(left).value, NumericIdentifier(right).value);
    }
  }

  lemma NumbersByValue(l: string, r: string)
    requires l != "" && r != ""
    requires (forall i :: 0 <= i < |l| ==> IsDigit(l[i])) && (forall i :: 0 <= i < |r| ==> IsDigit(r[i]))
    requires (l[0] == '0' ==> l == "0") && (r[0] == '0' ==> r == "0")
    ensures (if |l| < |r| || (|l| == |r| && Less(l, r)) then -1 else if |l| > |r| || (|l| == |r| && Less(r, l)) then 1
             else 0)
            == CompareInts(DigitsValue(l), DigitsValue(r))
  {
    if |l| < |r| {
      LongerIsGreater(l, r);
    } else if |l| > |r| {
      LongerIsGreater(r, l);
    } else {
      LessTotal(l, r);
      if Less(l, r) {
        EqualLengthOrder(l, r);
      } else if Less(r, l) {
        EqualLengthOrder(r, l);
      }
    }
  }

  function Identifiers(parts: seq<string>): seq<Identifier> {
    if parts == [] then [] else [IdentifierOf(parts[0])] + Identifiers(parts[1..])
  }

  /** Field by field, and more fields after equal ones win. */
  function ListPrecedence(a: seq<Identifier>, b: seq<Identifier>): int {
    if a == [] || b == [] then CompareInts(|a|, |b|)
    else if Precedence(a[0], b[0]) != 0 then Precedence(a[0], b[0])
    else ListPrecedence(a[1..], b[1..])
  }

  lemma {:induction false} PartsByPrecedence(left: seq<string>, right: seq<string>)
    ensures CompareParts(left, right) == ListPrecedence(Identifiers(left), Identifiers(right))
  {
    hide CompareIdentifiers, Precedence, IdentifierOf;
    IdentifiersLength(left);
    IdentifiersLength(right);
    if left != [] && right != [] {
      IdentifiersByValue(left[0], right[0]);
      PartsByPrecedence(left[1..], right[1..]);
      assert Identifiers(left)[1..] == Identifiers(left[1..]) && Identifiers(right)[1..] == Identifiers(right[1..]);
    }
  }

  lemma IdentifiersLength(parts: seq<string>)
    ensures |Identifiers(parts)| == |parts|
  {
  }

  /** A release, or a pre-release with its identifiers. */
  datatype Stage = Release | Prerelease(identifiers: seq<Identifier>)

  function StageOf(suffix: string): Stage {
    var s := TrimMarks(suffix);
    if s == "" then Release else Prerelease(Identifiers(Split(s, '.')))
  }

  function StagePrecedence(a: Stage, b: Stage): int {
    match (a, b)
    case (Release, Release) => 0
    case (Release, Prerelease(_)) => 1
    case (Prerelease(_), Release) => -1
    case (Prerelease(x), Prerelease(y)) => ListPrecedence(x, y)
  }

  lemma PrereleaseByPrecedence(left: string, right: string)
    ensures ComparePrerelease(left, right) == StagePrecedence(StageOf(left), StageOf(right))
  {
    hide CompareParts, ListPrecedence, Identifiers;
    var l, r := TrimMarks(left), TrimMarks(right);
    if l != "" && r != "" {
      PartsByPrecedence(Split(l, '.'), Split(r, '.'));
    }
  }

  // ---- precedence is a total preorder ----

  lemma PrecedenceLaws(a: Identifier, b: Identifier, c: Identifier)
    ensures Precedence(a, b) == -Precedence(b, a)
    ensures Precedence(a, b) == 0 <==> a == b
    ensures Precedence(a, b) <= 0 && Precedence(b, c) <= 0 ==> Precedence(a, c) <= 0
    ensures Precedence(a, b) <= 0 && Precedence(b, c) <= 0 && Precedence(a, c) == 0 ==> a == b == c
  {
    if a.Alphanumeric? && b.Alphanumeric? {
      StringLaws(a.text, b.text);
    }
    if a.Alphanumeric? && b.Alphanumeric? && c.Alphanumeric? {
      StringLaws(b.text, c.text);
      StringLaws(a.text, c.text);
      if Less(a.text, b.text) && Less(b.text, c.text) {
        LessTransitive(a.text, b.text, c.text);
      }
    }
  }

  lemma StringLaws(a: string, b: string)
    ensures CompareStrings(a, b) == -CompareStrings(b, a)
    ensures CompareStrings(a, b) == 0 <==> a == b
    ensures Less(a, b) ==> !Less(b, a)
  {
    LessTotal(a, b);
    LessIrreflexive(a);
    if Less(a, b) {
      LessAsymmetric(a, b);
    }
  }

  lemma {:induction false} ListAntisymmetric(a: seq<Identifier>, b: seq<Identifier>)
    ensures ListPrecedence(a, b) == -ListPrecedence(b, a)
    ensures ListPrecedence(a, b) == 0 <==> a == b
  {
    hide Precedence;
    if a != [] && b != [] {
      PrecedenceLaws(a[0], b[0], b[0]);
      ListAntisymmetric(a[1..], b[1..]);
      assert a == [a[0]] + a[1..] && b == [b[0]] + b[1..];
    }
  }

  lemma {:induction false} ListTransitive(a: seq<Identifier>, b: seq<Identifier>, c: seq<Identifier>)
    requires ListPrecedence(a, b) <= 0 && ListPrecedence(b, c) <= 0
    ensures ListPrecedence(a, c) <= 0
  {
    hide Precedence;
    if a != [] && b != [] && c != [] {
      PrecedenceLaws(a[0], b[0], c[0]);
      PrecedenceLaws(a[0], c[0], b[0]);
      PrecedenceLaws(b[0], c[0], a[0]);
      if a[0] == b[0] == c[0] {
        ListTransitive(a[1..], b[1..], c[1..]);
      }
    }
  }

  lemma StageLaws(a: Stage, b: Stage, c: Stage)
    ensures StagePrecedence(a, b) == -StagePrecedence(b, a)
    ensures StagePrecedence(a, b) == 0 <==> a == b
    ensures StagePrecedence(a, b) <= 0 && StagePrecedence(b, c) <= 0 ==> StagePrecedence(a, c) <= 0
  {
    hide ListPrecedence;
    if a.Prerelease? && b.Prerelease? {
      ListAntisymmetric(a.identifiers, b.identifiers);
      if c.Prerelease? && StagePrecedence(a, b) <= 0 && StagePrecedence(b, c) <= 0 {
        ListTransitive(a.identifiers, b.identifiers, c.identifiers);
      }
    }
  }

  /** Compare is antisymmetric in sign and transitive, and equates exactly the
      versions of the same core and the same identifiers. */
  lemma CompareIsTotalPreorder(a: Version, b: Version, c: Version)
    ensures Compare(a, b) == -Compare(b, a)
    ensures Compare(a, b) <= 0 && Compare(b, c) <= 0 ==> Compare(a, c) <= 0
    ensures Compare(a, b) == 0 <==> CompareCore(a, b) == 0 && StageOf(a.suffix) == StageOf(b.suffix)
  {
    hide ComparePrerelease, StageOf, StagePrecedence;
    PrereleaseByPrecedence(a.suffix, b.suffix);
    PrereleaseByPrecedence(b.suffix, a.suffix);
    PrereleaseByPrecedence(b.suffix, c.suffix);
    PrereleaseByPrecedence(a.suffix, c.suffix);
    StageLaws(StageOf(a.suffix), StageOf(b.suffix), StageOf(c.suffix));
  }

  // ---- ranges ----

  datatype VersionRange = VersionRange(min: Version, max: Version)

  const AUDITED := VersionRange(Version(3, 0, 0, ""), Version(5, 0, 0, ""))

  /** Contains: a pre-release of the upper bound is outside. */
  predicate Contains(r: VersionRange, version: Version) {
    Compare(version, r.min) >= 0 && CompareCore(version, r.max) < 0
  }

  /** VersionRange.Validate. */
  predicate ValidRange(r: VersionRange) {
    Compare(r.min, r.max) < 0 && Compare(r.min, AUDITED.min) >= 0 && Compare(r.max, AUDITED.max) <= 0
  }

  /** A validated range holds only versions of the audited range. */
  lemma ValidRangeIsAudited(r: VersionRange, version: Version)
    requires ValidRange(r) && Contains(r, version)
    ensures Contains(AUDITED, version)
    ensures version.major >= 3 && (version.minor >= 0 && version.patch >= 0 ==> version.major < 5)
  {
    hide ComparePrerelease;
    CompareIsTotalPreorder(version, r.min, r.min);
    CompareIsTotalPreorder(AUDITED.min, r.min, version);
    CompareIsTotalPreorder(AUDITED.min, version, version);
    assert Compare(version, AUDITED.min) >= 0;
  }

  /** A validated range can be empty after all: it holds a version exactly when
      the numeric cores of its bounds increase. */
  lemma RangeIsInhabited(r: VersionRange)
    requires ValidRange(r)
    ensures (exists version :: Contains(r, version)) <==> CompareCore(r.min, r.max) < 0
  {
    hide ComparePrerelease;
    CompareIsTotalPreorder(r.min, r.min, r.min);
    if CompareCore(r.min, r.max) < 0 {
      assert Contains(r, r.min);
    }
  }

  /** Such a range: from a release candidate to its release. */
  lemma EmptyRangeExists()
    ensures ValidRange(VersionRange(Version(4, 0, 0, "-rc"), Version(4, 0, 0, "")))
    ensures forall version :: !Contains(VersionRange(Version(4, 0, 0, "-rc"), Version(4, 0, 0, "")), version)
  {
    var r := VersionRange(Version(4, 0, 0, "-rc"), Version(4, 0, 0, ""));
    assert "-rc"[1..] == "rc";
    assert TrimMarks("-rc") == "rc" && TrimMarks("") == "";
    assert Compare(r.min, r.max) == -1;
    assert ValidRange(r);
    RangeIsInhabited(r);
  }
}
