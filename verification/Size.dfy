/**
 Byte quantities in the configuration: printing in the largest exact binary unit, parsing with
 binary and decimal suffixes.
 */
module Size {
  import opened Wrappers
  import opened Text

  const MaxInt64 := 0x7fff_ffff_ffff_ffff
  const Limit := 0x4000_0000_0000_0000

  const KiB := 0x400
  const MiB := 0x10_0000
  const GiB := 0x4000_0000
  const TiB := 0x100_0000_0000

  datatype Unit = Unit(suffix: string, mult: nat)

  const Units: seq<Unit> := [
    Unit("TiB", TiB), Unit("GiB", GiB), Unit("MiB", MiB), Unit("KiB", KiB),
    Unit("TB", 1_000_000_000_000), Unit("GB", 1_000_000_000), Unit("MB", 1_000_000), Unit("kB", 1_000),
    Unit("B", 1)]

  /******* Decimal integers *******/

  function DigitValue(c: char): (d: nat)
    requires IsDigit(c)
    ensures d < 10
  {
    (c as int) - ('0' as int)
  }

  function Value(s: string): nat
    requires AllDigits(s)
  {
    if s == "" then 0 else Value(s[..|s| - 1]) * 10 + DigitValue(s[|s| - 1])
  }

  function Digit(d: nat): (c: char)
    requires d < 10
    ensures IsDigit(c) && DigitValue(c) == d
  {
    ('0' as int + d) as char
  }

  // strconv.FormatInt of a non-negative integer.
  function Format(n: nat): (s: string)
    ensures s != "" && AllDigits(s) && Value(s) == n
  {
    if n < 10 then
      assert [Digit(n)][..0] == "";
      [Digit(n)]
    else
      var s := Format(n / 10) + [Digit(n % 10)];
      assert s[..|s| - 1] == Format(n / 10);
      s
  }

  // strconv.ParseInt in base 10 with 64 bits.
  function ParseInt(s: string): Option<int> {
    var negative := s != "" && s[0] == '-';
    var digits := if s != "" && (s[0] == '-' || s[0] == '+') then s[1..] else s;
    if digits == "" || !AllDigits(digits) then None
    else
      var v := (if negative then -1 else 1) * Value(digits);
      if -MaxInt64 - 1 <= v <= MaxInt64 then Some(v) else None
  }

  /******* Parsing *******/

  predicate IsSpace(c: char) {
    c == ' ' || '\t' <= c <= '\r' || c == '\U{0085}' || c == '\U{00A0}'
  }

  function TrimSpace(s: string): (t: string)
    decreases |s|
  {
    if s == "" then s
    else if IsSpace(s[0]) then TrimSpace(s[1..])
    else if IsSpace(s[|s| - 1]) then TrimSpace(s[..|s| - 1])
    else s
  }

  predicate EqualFold(a: string, b: string) {
    |a| == |b| && forall i | 0 <= i < |a| :: Lower(a[i]) == Lower(b[i])
  }

  predicate HasSuffixFold(s: string, suffix: string) {
    |suffix| <= |s| && EqualFold(s[|s| - |suffix|..], suffix)
  }

  // The first unit of the table whose suffix the text carries.
  function FindUnit(units: seq<Unit>, raw: string): Option<Unit> {
    if units == [] then None
    else if HasSuffixFold(raw, units[0].suffix) then Some(units[0])
    else FindUnit(units[1..], raw)
  }

  function ParseWith(raw: string, u: Unit): Option<nat>
    requires |u.suffix| <= |raw| && u.mult > 0
  {
    var n := ParseInt(TrimSpace(raw[..|raw| - |u.suffix|]));
    if n.None? || n.value < 0 || n.value > Limit / u.mult then None
    else Some(n.value * u.mult)
  }

  function ParseSize(s: string): Option<nat> {
    var raw := TrimSpace(s);
    if raw == "" then None else
    var unit := FindUnit(Units, raw);
    if unit.Some? then
      UnitIsListed(Units, raw);
      ParseWith(raw, unit.value)
    else
      var n := ParseInt(raw);
      if n.None? || n.value < 0 then None else Some(n.value)
  }

  lemma UnitIsListed(units: seq<Unit>, raw: string)
    ensures FindUnit(units, raw).Some? ==>
              FindUnit(units, raw).value in units && HasSuffixFold(raw, FindUnit(units, raw).value.suffix)
  {
  }

  // What the parser accepts never leaves 64 bits, and stays within 2^62 under a suffix.
  lemma ParseStaysInRange(s: string)
    ensures ParseSize(s).Some? ==> ParseSize(s).value <= MaxInt64
    ensures ParseSize(s).Some? && FindUnit(Units, TrimSpace(s)).Some? ==> ParseSize(s).value <= Limit
  {
    var raw := TrimSpace(s);
    UnitIsListed(Units, raw);
    var unit := FindUnit(Units, raw);
    if ParseSize(s).Some? && unit.Some? {
      var n := ParseInt(TrimSpace(raw[..|raw| - |unit.value.suffix|])).value;
      QuotientBound(n, unit.value.mult);
    }
  }

  lemma QuotientBound(n: nat, m: nat)
    requires m > 0
    ensures n <= Limit / m <==> n * m <= Limit
  {
    var q := Limit / m;
    assert q * m <= Limit < (q + 1) * m;
    if n <= q {
      assert n * m <= q * m;
    } else {
      assert n * m >= (q + 1) * m;
    }
  }

  /******* Printing *******/

  const Binary: seq<Unit> := [Unit("TiB", TiB), Unit("GiB", GiB), Unit("MiB", MiB), Unit("KiB", KiB)]

  function ExactUnit(units: seq<Unit>, n: nat): (u: Unit)
    requires forall i | 0 <= i < |units| :: units[i].mult > 0
    ensures u.mult > 0
  {
    if units == [] then Unit("B", 1)
    else if n % units[0].mult == 0 then units[0]
    else ExactUnit(units[1..], n)
  }

  function Print(n: nat): string {
    if n == 0 then "0B" else
    var u := ExactUnit(Binary, n);
    Format(n / u.mult) + u.suffix
  }

  lemma {:induction false} FindUnitAt(units: seq<Unit>, raw: string, k: nat)
    requires k < |units| && HasSuffixFold(raw, units[k].suffix)
    requires forall j | 0 <= j < k :: !HasSuffixFold(raw, units[j].suffix)
    ensures FindUnit(units, raw) == Some(units[k])
  {
    if k > 0 {
      FindUnitAt(units[1..], raw, k - 1);
    }
  }

  // A number with one of the suffixes, in any case, carries that suffix and no other one before it.
  lemma SuffixedUnit(digits: string, k: nat, suffix: string)
    requires digits != "" && AllDigits(digits) && k < 9 && EqualFold(suffix, Units[k].suffix)
    ensures FindUnit(Units, digits + suffix) == Some(Units[k])
  {
    var raw := digits + suffix;
    assert raw[|digits|..] == suffix && raw[|raw| - |suffix|..] == suffix;
    forall j | 0 <= j < k ensures !HasSuffixFold(raw, Units[j].suffix) {
      OtherSuffix(digits, k, suffix, j);
    }
    FindUnitAt(Units, raw, k);
  }

  lemma OtherSuffix(digits: string, k: nat, suffix: string, j: nat)
    requires digits != "" && AllDigits(digits) && j < k < 9 && EqualFold(suffix, Units[k].suffix)
    ensures !HasSuffixFold(digits + suffix, Units[j].suffix)
  {
    var raw, other := digits + suffix, Units[j].suffix;
    if |other| <= |raw| {
      var tail := raw[|raw| - |other|..];
      if k < 4 || (4 <= j && k < 8) {
        assert tail[0] == suffix[0];
        assert Lower(tail[0]) != Lower(other[0]);
      } else if k < 8 {
        assert tail[1] == suffix[0];
        assert Lower(tail[1]) != Lower(other[1]);
      } else {
        assert tail[|other| - 2] == raw[|digits| - 1] && IsDigit(digits[|digits| - 1]);
        assert Lower(tail[|other| - 2]) != Lower(other[|other| - 2]);
      }
    }
  }

  lemma TrimKeeps(s: string)
    requires s != "" && !IsSpace(s[0]) && !IsSpace(s[|s| - 1])
    ensures TrimSpace(s) == s
  {
  }

  lemma ParseDigits(m: nat, u: Unit, suffix: string)
    requires m <= MaxInt64 && u.mult > 0 && |suffix| == |u.suffix|
    ensures ParseWith(Format(m) + suffix, u) == if m <= Limit / u.mult then Some(m * u.mult) else None
  {
    var digits := Format(m);
    var raw := digits + suffix;
    assert raw[..|raw| - |u.suffix|] == digits;
    assert IsDigit(digits[0]) && IsDigit(digits[|digits| - 1]);
    TrimKeeps(digits);
  }

  lemma ParseSuffixed(m: nat, k: nat, suffix: string)
    requires k < 9 && m <= MaxInt64 && EqualFold(suffix, Units[k].suffix)
    ensures ParseSize(Format(m) + suffix) == if m <= Limit / Units[k].mult then Some(m * Units[k].mult) else None
  {
    var digits := Format(m);
    var raw := digits + suffix;
    assert raw[0] == digits[0] && IsDigit(digits[0]);
    assert raw[|raw| - 1] == suffix[|suffix| - 1] && Lower(suffix[|suffix| - 1]) == 'b';
    TrimKeeps(raw);
    SuffixedUnit(digits, k, suffix);
    ParseDigits(m, Units[k], suffix);
  }

  // What a number with a suffix is worth, as long as it stays within 2^62.
  function Worth(m: nat, mult: nat): Option<nat> {
    if m * mult <= 0x4000_0000_0000_0000 then Some(m * mult) else None
  }

  // The nine suffixes.
  lemma SuffixValues(m: nat)
    requires m <= MaxInt64
    ensures ParseSize(Format(m) + "B") == Worth(m, 1)
    ensures ParseSize(Format(m) + "KiB") == Worth(m, 1024) && ParseSize(Format(m) + "kB") == Worth(m, 1000)
    ensures ParseSize(Format(m) + "MiB") == Worth(m, 1024 * 1024) && ParseSize(Format(m) + "MB") == Worth(m, 1000 * 1000)
    ensures ParseSize(Format(m) + "GiB") == Worth(m, 1024 * 1024 * 1024) && ParseSize(Format(m) + "GB") == Worth(m, 1000 * 1000 * 1000)
    ensures ParseSize(Format(m) + "TiB") == Worth(m, 1024 * 1024 * 1024 * 1024) && ParseSize(Format(m) + "TB") == Worth(m, 1000 * 1000 * 1000 * 1000)
  {
    var suffixes := ["TiB", "GiB", "MiB", "KiB", "TB", "GB", "MB", "kB", "B"];
    forall k | 0 <= k < 9 ensures ParseSize(Format(m) + suffixes[k]) == Worth(m, Units[k].mult) {
      assert suffixes[k] == Units[k].suffix;
      ParseSuffixed(m, k, suffixes[k]);
      QuotientBound(m, Units[k].mult);
    }
    assert suffixes[0] == "TiB" && suffixes[1] == "GiB" && suffixes[2] == "MiB" && suffixes[3] == "KiB" && suffixes[4] == "TB";
    assert suffixes[5] == "GB" && suffixes[6] == "MB" && suffixes[7] == "kB" && suffixes[8] == "B";
  }

  // A number without one is in bytes.
  lemma PlainValue(m: nat)
    requires m <= MaxInt64
    ensures ParseSize(Format(m)) == Some(m)
  {
    var digits := Format(m);
    assert IsDigit(digits[0]) && IsDigit(digits[|digits| - 1]);
    TrimKeeps(digits);
    NoUnit(Units, digits);
  }

  lemma {:induction false} NoUnit(units: seq<Unit>, digits: string)
    requires digits != "" && AllDigits(digits)
    requires forall i | 0 <= i < |units| :: units[i].suffix != "" && Lower(units[i].suffix[|units[i].suffix| - 1]) == 'b'
    ensures FindUnit(units, digits) == None
  {
    if units != [] {
      var suffix := units[0].suffix;
      if |suffix| <= |digits| {
        assert digits[|digits| - |suffix|..][|suffix| - 1] == digits[|digits| - 1];
        assert IsDigit(digits[|digits| - 1]);
      }
      NoUnit(units[1..], digits);
    }
  }

  lemma ExactUnitIs(n: nat) returns (k: nat)
    ensures (k < 4 || k == 8) && ExactUnit(Binary, n) == Units[k] && n % Units[k].mult == 0
  {
    var b1, b2, b3 := Binary[1..], Binary[2..], Binary[3..];
    assert b1[1..] == b2 && b2[1..] == b3 && b3[1..] == [];
    assert ExactUnit([], n) == Units[8];
    assert ExactUnit(b3, n) == if n % KiB == 0 then Units[3] else Units[8];
    assert ExactUnit(b2, n) == if n % MiB == 0 then Units[2] else ExactUnit(b3, n);
    assert ExactUnit(b1, n) == if n % GiB == 0 then Units[1] else ExactUnit(b2, n);
    k := if n % TiB == 0 then 0 else if n % GiB == 0 then 1
         else if n % MiB == 0 then 2 else if n % KiB == 0 then 3 else 8;
  }

  // A printed quantity parses back to itself exactly up to 2^62; beyond it is refused.
  lemma SizeRoundTrip(n: nat)
    requires n <= MaxInt64
    ensures ParseSize(Print(n)) == if n <= Limit then Some(n) else None
  {
    if n == 0 {
      assert Format(0) == "0";
      ParseSuffixed(0, 8, "B");
      assert Print(0) == Format(0) + Units[8].suffix;
    } else {
      var k := ExactUnitIs(n);
      var mult := Units[k].mult;
      var m := n / mult;
      assert m * mult == n;
      assert m <= n;
      ParseSuffixed(m, k, Units[k].suffix);
      QuotientBound(m, mult);
    }
  }
}
