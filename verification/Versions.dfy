/** Version comparison and the chain of accepted updates. */
module Versions {
  import opened Text

  // strconv.Atoi on a 64-bit platform

  const MAX_INT := 0x7fff_ffff_ffff_ffff
  const MIN_INT := -0x8000_0000_0000_0000
  const MAX_UINT := 0xffff_ffff_ffff_ffff

  datatype Parsed = Value(n: nat) | Syntax | TooLarge

  predicate IsDigit(c: char) {
    '0' <= c <= '9'
  }

  function DigitValue(c: char): nat
    requires IsDigit(c)
  {
    (c as int) - ('0' as int)
  }

  /** ParseUint in base 10: stops at the first character that is no digit or
      that takes the value out of 64 bits, whichever comes first. */
  function ParseDigits(s: string, n: nat): Parsed {
    if s == "" then Value(n)
    else if !IsDigit(s[0]) then Syntax
    else
      var next := 10 * n + DigitValue(s[0]);
      if next > MAX_UINT then TooLarge else ParseDigits(s[1..], next)
  }

  /** The number compareVersions works with: Atoi's value, its error ignored. A
      syntax error yields 0, a range error the nearest representable integer. */
  function Atoi(s: string): int {
    var signed := s != "" && (s[0] == '+' || s[0] == '-');
    var digits := if signed then s[1..] else s;
    if digits == "" then 0
    else
      match ParseDigits(digits, 0)
      case Syntax => 0
      case TooLarge => if s[0] == '-' then MIN_INT else MAX_INT
      case Value(n) =>
        var v: int := n;
        if s[0] == '-' then (if -v < MIN_INT then MIN_INT else -v)
        else (if v > MAX_INT then MAX_INT else v)
  }

  // Comparison

  function TrimV(s: string): string {
    if HasPrefix(s, "v") then s[1..] else s
  }

  function Numbers(parts: seq<string>): (r: seq<int>)
    ensures |r| == |parts| && forall i :: 0 <= i < |r| ==> r[i] == Atoi(parts[i])
  {
    seq(|parts|, i requires 0 <= i < |parts| => Atoi(parts[i]))
  }

  function Components(version: string): seq<int> {
    Numbers(Split(TrimV(version), '.'))
  }

  /** Component i of a vector padded with zeros. */
  function PadAt(v: seq<int>, i: nat): int {
    if i < |v| then v[i] else 0
  }

  /** `a` precedes `b` lexicographically: at the first difference it is smaller. */
  ghost predicate Precedes(a: seq<int>, b: seq<int>) {
    exists i: nat :: FirstDifference(a, b, i) && PadAt(a, i) < PadAt(b, i)
  }

  ghost predicate FirstDifference(a: seq<int>, b: seq<int>, i: nat) {
    PadAt(a, i) != PadAt(b, i) && forall j: nat :: j < i ==> PadAt(a, j) == PadAt(b, j)
  }

  ghost predicate SamePrecedence(a: seq<int>, b: seq<int>) {
    forall i: nat :: PadAt(a, i) == PadAt(b, i)
  }

  /** The result compareVersions promises: three-way lexicographic order. */
  ghost predicate IsOrder(a: seq<int>, b: seq<int>, r: int) {
    && -1 <= r <= 1
    && (r == 0 <==> SamePrecedence(a, b))
    && (r == -1 <==> Precedes(a, b))
    && (r == 1 <==> Precedes(b, a))
  }

  function CompareFrom(a: seq<int>, b: seq<int>, i: nat): int
    decreases if |a| > |b| then |a| - i else |b| - i
  {
    if i >= |a| && i >= |b| then 0
    else if PadAt(a, i) > PadAt(b, i) then 1
    else if PadAt(a, i) < PadAt(b, i) then -1
    else CompareFrom(a, b, i + 1)
  }

  /** The value compareVersions returns. */
  function Compare(a: string, b: string): int {
    CompareFrom(Components(a), Components(b), 0)
  }

  /** compareVersions, after trimming and splitting. */
  method CompareParts(aParts: seq<string>, bParts: seq<string>) returns (r: int)
    ensures r == CompareFrom(Numbers(aParts), Numbers(bParts), 0)
  {
    ghost var a, b := Numbers(aParts), Numbers(bParts);
    var maxLen := if |aParts| > |bParts| then |aParts| else |bParts|;
    var i := 0;
    while i < maxLen
      invariant 0 <= i <= maxLen
      invariant CompareFrom(a, b, i) == CompareFrom(a, b, 0)
    {
      var aNum, bNum := 0, 0;
      if i < |aParts| { aNum := Atoi(aParts[i]); }
      if i < |bParts| { bNum := Atoi(bParts[i]); }
      if aNum > bNum { return 1; }
      if aNum < bNum { return -1; }
      i := i + 1;
    }
    return 0;
  }

  method CompareVersions(a: string, b: string) returns (r: int)
    ensures r == Compare(a, b)
    ensures IsOrder(Components(a), Components(b), r)
  {
    r := CompareParts(Split(TrimV(a), '.'), Split(TrimV(b), '.'));
    OrderCorrect(Components(a), Components(b));
  }

  lemma {:induction false} OrderFrom(a: seq<int>, b: seq<int>, i: nat)
    requires forall j: nat :: j < i ==> PadAt(a, j) == PadAt(b, j)
    ensures IsOrder(a, b, CompareFrom(a, b, i))
    decreases if |a| > |b| then |a| - i else |b| - i
  {
    if i >= |a| && i >= |b| {
      assert SamePrecedence(a, b);
    } else if PadAt(a, i) == PadAt(b, i) {
      OrderFrom(a, b, i + 1);
    } else {
      assert FirstDifference(a, b, i) && FirstDifference(b, a, i);
    }
  }

  lemma OrderCorrect(a: seq<int>, b: seq<int>)
    ensures IsOrder(a, b, CompareFrom(a, b, 0))
  {
    OrderFrom(a, b, 0);
  }

  /** Swapping the arguments flips the sign; so every version equals itself. */
  lemma CompareAntisymmetric(a: string, b: string)
    ensures Compare(a, b) == -Compare(b, a)
    ensures Compare(a, a) == 0
  {
    OrderCorrect(Components(a), Components(b));
    OrderCorrect(Components(b), Components(a));
    OrderCorrect(Components(a), Components(a));
  }

  /** Any two versions are comparable and the order is transitive, strictly so
      where one of the two links is strict. */
  lemma CompareTransitive(a: string, b: string, c: string)
    requires Compare(a, b) >= 0 && Compare(b, c) >= 0
    ensures Compare(a, c) >= 0
    ensures Compare(a, b) > 0 || Compare(b, c) > 0 ==> Compare(a, c) > 0
  {
    var x, y, z := Components(a), Components(b), Components(c);
    OrderCorrect(x, y);
    OrderCorrect(y, z);
    OrderCorrect(x, z);
    if Precedes(y, x) && Precedes(z, y) {
      var i: nat :| FirstDifference(y, x, i) && PadAt(y, i) < PadAt(x, i);
      var k: nat :| FirstDifference(z, y, k) && PadAt(z, k) < PadAt(y, k);
      assert FirstDifference(z, x, if i < k then i else k);
    } else if Precedes(y, x) {
      var i: nat :| FirstDifference(y, x, i) && PadAt(y, i) < PadAt(x, i);
      assert FirstDifference(z, x, i);
    } else if Precedes(z, y) {
      var k: nat :| FirstDifference(z, y, k) && PadAt(z, k) < PadAt(y, k);
      assert FirstDifference(z, x, k);
    } else {
      assert SamePrecedence(x, z);
    }
  }

  // Agreement with Semantic Versioning

  /** A plain version of Semantic Versioning 2.0.0. */
  datatype SemVer = SemVer(major: nat, minor: nat, patch: nat)

  /** Precedence of plain versions, section 11 of Semantic Versioning 2.0.0. */
  function Precedence(v: SemVer, w: SemVer): int {
    if v.major != w.major then (if v.major < w.major then -1 else 1)
    else if v.minor != w.minor then (if v.minor < w.minor then -1 else 1)
    else if v.patch != w.patch then (if v.patch < w.patch then -1 else 1)
    else 0
  }

  function Digit(d: nat): char
    requires d < 10
  {
    ['0', '1', '2', '3', '4', '5', '6', '7', '8', '9'][d]
  }

  function Decimal(n: nat): (s: string)
    ensures s != ""
  {
    if n < 10 then [Digit(n)] else Decimal(n / 10) + [Digit(n % 10)]
  }

  function Render(v: SemVer): string {
    Decimal(v.major) + "." + (Decimal(v.minor) + "." + Decimal(v.patch))
  }

  /** A component beyond a 64-bit int is read as the largest int. */
  function Clamp(n: nat): nat {
    if n > MAX_INT then MAX_INT else n
  }

  function Clamped(v: SemVer): SemVer {
    SemVer(Clamp(v.major), Clamp(v.minor), Clamp(v.patch))
  }

  lemma {:induction false} ParseAppend(s: string, c: char, n: nat)
    ensures ParseDigits(s + [c], n) ==
            match ParseDigits(s, n)
            case Value(m) => ParseDigits([c], m)
            case Syntax => Syntax
            case TooLarge => TooLarge
  {
    if s == "" {
      assert s + [c] == [c];
    } else {
      assert (s + [c])[1..] == s[1..] + [c];
      if IsDigit(s[0]) {
        ParseAppend(s[1..], c, 10 * n + DigitValue(s[0]));
      }
    }
  }

  lemma ParseOne(d: nat, n: nat)
    requires d < 10
    ensures IsDigit(Digit(d)) && DigitValue(Digit(d)) == d
    ensures ParseDigits([Digit(d)], n) == if 10 * n + d > MAX_UINT then TooLarge else Value(10 * n + d)
  {
    assert [Digit(d)][1..] == "";
  }

  lemma {:induction false} ParseDecimal(n: nat)
    ensures ParseDigits(Decimal(n), 0) == if n <= MAX_UINT then Value(n) else TooLarge
  {
    ParseOne(n % 10, n / 10);
    if n < 10 {
      ParseOne(n, 0);
    } else {
      ParseDecimal(n / 10);
      ParseAppend(Decimal(n / 10), Digit(n % 10), 0);
    }
  }

  lemma {:induction false} DecimalDigits(n: nat)
    ensures forall i :: 0 <= i < |Decimal(n)| ==> IsDigit(Decimal(n)[i])
  {
    ParseOne(n % 10, 0);
    if n >= 10 {
      DecimalDigits(n / 10);
    }
  }

  lemma AtoiDecimal(n: nat)
    ensures Atoi(Decimal(n)) == Clamp(n)
  {
    ParseDecimal(n);
    DecimalDigits(n);
    assert IsDigit(Decimal(n)[0]);
  }

  lemma SplitRender(v: SemVer)
    ensures Split(Render(v), '.') == [Decimal(v.major), Decimal(v.minor), Decimal(v.patch)]
  {
    DecimalDigits(v.major);
    DecimalDigits(v.minor);
    DecimalDigits(v.patch);
    SplitClean(Decimal(v.major), '.');
    SplitClean(Decimal(v.minor), '.');
    SplitClean(Decimal(v.patch), '.');
    SplitConcat(Decimal(v.minor), Decimal(v.patch), '.');
    SplitConcat(Decimal(v.major), Decimal(v.minor) + "." + Decimal(v.patch), '.');
  }

  lemma TrimRender(v: SemVer)
    ensures TrimV(Render(v)) == Render(v) && TrimV("v" + Render(v)) == Render(v)
  {
    DecimalDigits(v.major);
    assert Render(v)[0] == Decimal(v.major)[0];
    assert ("v" + Render(v))[1..] == Render(v);
  }

  lemma ComponentsOfRender(v: SemVer)
    ensures Components(Render(v)) == [Clamp(v.major), Clamp(v.minor), Clamp(v.patch)]
    ensures Components("v" + Render(v)) == Components(Render(v))
  {
    TrimRender(v);
    SplitRender(v);
    AtoiDecimal(v.major);
    AtoiDecimal(v.minor);
    AtoiDecimal(v.patch);
  }

  /** On plain numeric versions, with or without the leading "v", the code orders
      by semantic-version precedence after clamping each component to 64 bits. */
  lemma CompareRendered(v: SemVer, w: SemVer)
    ensures Compare(Render(v), Render(w)) == Precedence(Clamped(v), Clamped(w))
    ensures Compare("v" + Render(v), Render(w)) == Compare(Render(v), Render(w))
  {
    ComponentsOfRender(v);
    ComponentsOfRender(w);
    var a: seq<int> := [Clamp(v.major), Clamp(v.minor), Clamp(v.patch)];
    var b: seq<int> := [Clamp(w.major), Clamp(w.minor), Clamp(w.patch)];
    assert CompareFrom(a, b, 3) == 0;
    assert CompareFrom(a, b, 2) == if a[2] > b[2] then 1 else if a[2] < b[2] then -1 else 0;
    assert CompareFrom(a, b, 1) == if a[1] > b[1] then 1 else if a[1] < b[1] then -1 else CompareFrom(a, b, 2);
  }

  ghost predicate OrderedCorrectly(v: SemVer) {
    forall w: SemVer :: Compare(Render(v), Render(w)) == Precedence(v, w)
  }

  predicate Fits(v: SemVer) {
    v.major < MAX_INT && v.minor < MAX_INT && v.patch < MAX_INT
  }

  /** A version is ordered correctly against every other exactly when all its
      components are below the largest 64-bit int. */
  lemma OrderedCorrectlyIff(v: SemVer)
    ensures OrderedCorrectly(v) <==> Fits(v)
  {
    if Fits(v) {
      forall w: SemVer
        ensures Compare(Render(v), Render(w)) == Precedence(v, w)
      {
        CompareRendered(v, w);
      }
    } else {
      var w := if v.major >= MAX_INT then v.(major := v.major + 1)
               else if v.minor >= MAX_INT then v.(minor := v.minor + 1)
               else v.(patch := v.patch + 1);
      CompareRendered(v, w);
      assert Compare(Render(v), Render(w)) != Precedence(v, w);
    }
  }

  // Updates

  /** The release check: a tag is offered only when it is not empty and strictly
      newer than the running version. */
  predicate Accepts(tag: string, running: string) {
    tag != "" && Compare(tag, running) > 0
  }

  /** One cycle of checkAndUpdate or of a self_update job: the release found, and
      whether the swap and the restart both succeeded, so that the daemon comes
      back as that release. */
  datatype Cycle = NoRelease | Found(tag: string, applied: bool)

  /** The version that runs after one cycle. */
  function Adopted(current: string, c: Cycle): string {
    if c.Found? && Accepts(c.tag, current) && c.applied then c.tag else current
  }

  /** The version running after each cycle, the current one first. */
  function Running(current: string, cycles: seq<Cycle>): (r: seq<string>)
    ensures |r| == |cycles| + 1 && r[0] == current
    decreases cycles
  {
    if cycles == [] then [current] else [current] + Running(Adopted(current, cycles[0]), cycles[1..])
  }

  /** `later` is `earlier` itself or strictly newer. */
  predicate NoOlder(later: string, earlier: string) {
    later == earlier || Compare(later, earlier) > 0
  }

  lemma NoOlderChain(a: string, b: string, c: string)
    requires NoOlder(a, b) && NoOlder(b, c)
    ensures NoOlder(a, c)
  {
    if Compare(a, b) > 0 && Compare(b, c) > 0 {
      CompareTransitive(a, b, c);
    }
  }

  lemma {:induction false} NoOlderThanStart(current: string, cycles: seq<Cycle>, k: nat)
    requires k <= |cycles|
    ensures NoOlder(Running(current, cycles)[k], current)
    decreases cycles
  {
    if k > 0 {
      var next := Adopted(current, cycles[0]);
      var later := Running(next, cycles[1..])[k - 1];
      assert Running(current, cycles)[k] == later;
      NoOlderThanStart(next, cycles[1..], k - 1);
      NoOlderChain(later, next, current);
    }
  }

  /** Along any history the running version never goes back: it is unchanged, or
      strictly newer than every version that ran before it. */
  lemma {:induction false} VersionsOnlyIncrease(current: string, cycles: seq<Cycle>, i: nat, k: nat)
    requires i <= k <= |cycles|
    ensures NoOlder(Running(current, cycles)[k], Running(current, cycles)[i])
    decreases cycles
  {
    if i == 0 {
      NoOlderThanStart(current, cycles, k);
    } else {
      VersionsOnlyIncrease(Adopted(current, cycles[0]), cycles[1..], i - 1, k - 1);
    }
  }
}
