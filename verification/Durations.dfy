// Duration text: "90s", "2h", "1y". Durations are 64-bit counts of nanoseconds.
module Durations {
  import opened Wrappers
  import opened Decimal

  const LIMIT := 0x8000_0000_0000_0000
  const MILLISECOND := 1_000_000

  predicate IsInt64(x: int) { -LIMIT <= x < LIMIT }

  // Two's complement wrap-around of 64-bit arithmetic.
  function Wrap(x: int): (w: int)
    ensures IsInt64(w)
    ensures IsInt64(x) ==> w == x
  {
    (x + LIMIT) % (2 * LIMIT) - LIMIT
  }

  // Integer division and remainder that truncate toward zero.
  function Quot(a: int, b: int): int
    requires b > 0
  {
    if a >= 0 then a / b else -(-a / b)
  }

  function Rem(a: int, b: int): int
    requires b > 0
  {
    a - Quot(a, b) * b
  }

  datatype TimeUnit = TimeUnit(name: string, millis: int)

  const UNITS: seq<TimeUnit> := [
    TimeUnit("y", 31_536_000_000), TimeUnit("w", 604_800_000), TimeUnit("d", 86_400_000), TimeUnit("h", 3_600_000),
    TimeUnit("m", 60_000), TimeUnit("s", 1_000), TimeUnit("ms", 1)
  ]

  // --- Reading ---

  function DigitPrefix(s: string): (k: nat)
    ensures k <= |s| && AllDigits(s[..k])
    ensures k < |s| ==> !IsDigit(s[k])
  {
    if s == "" || !IsDigit(s[0]) then 0
    else
      var k := DigitPrefix(s[1..]);
      assert forall i :: 1 <= i < k + 1 ==> s[i] == s[1..][i - 1];
      k + 1
  }

  // strconv.Atoi: a number too large for 64 bits reads as the largest one, and
  // the error that comes with it is not looked at.
  function Atoi(digits: string): int
    requires AllDigits(digits)
  {
    if Value(digits) < LIMIT then Value(digits) else LIMIT - 1
  }

  function UnitNamed(name: string, k: nat): Option<TimeUnit>
    requires k <= |UNITS|
    decreases |UNITS| - k
  {
    if k == |UNITS| then None else if UNITS[k].name == name then Some(UNITS[k]) else UnitNamed(name, k + 1)
  }

  // The text must be digits followed by a unit; the product may wrap around.
  function Parse(s: string): Result<int, string> {
    var k := DigitPrefix(s);
    var unit := UnitNamed(s[k..], 0);
    if k == 0 || unit.None? then Err("not a valid duration string")
    else Ok(Wrap(Wrap(Atoi(s[..k]) * MILLISECOND) * unit.value.millis))
  }

  // --- Writing ---

  // The first unit, from k on, that divides ms.
  function FirstUnit(ms: int, k: nat): TimeUnit
    requires k < |UNITS|
    decreases |UNITS| - k
  {
    if k == |UNITS| - 1 || Rem(ms, UNITS[k].millis) == 0 then UNITS[k] else FirstUnit(ms, k + 1)
  }

  function PrintInt(n: int): string { if n < 0 then "-" + Print(-n) else Print(n) }

  function Format(d: int): string {
    var ms := Quot(d, MILLISECOND);
    if ms == 0 then "0s"
    else
      var unit := FirstUnit(ms, 0);
      PrintInt(Quot(ms, unit.millis)) + unit.name
  }

  // --- What reading does ---

  lemma DigitPrefixOf(digits: string, name: string)
    requires AllDigits(digits) && (name != "" ==> !IsDigit(name[0]))
    ensures DigitPrefix(digits + name) == |digits|
  {
    if digits != "" {
      assert (digits + name)[1..] == digits[1..] + name;
      DigitPrefixOf(digits[1..], name);
    } else {
      assert digits + name == name;
    }
  }

  lemma UnitAt(k: nat)
    requires k < |UNITS|
    ensures UNITS[k].name != "" && !IsDigit(UNITS[k].name[0]) && 1 <= UNITS[k].millis
    ensures UnitNamed(UNITS[k].name, 0) == Some(UNITS[k])
  {
    assert UnitNamed("y", 0) == Some(UNITS[0]);
    assert UnitNamed("w", 1) == Some(UNITS[1]);
    assert UnitNamed("d", 2) == Some(UNITS[2]);
    assert UnitNamed("h", 3) == Some(UNITS[3]);
    assert UnitNamed("m", 4) == Some(UNITS[4]);
    assert UnitNamed("s", 5) == Some(UNITS[5]);
    assert UnitNamed("ms", 6) == Some(UNITS[6]);
    SkipUnits(k, 0);
  }

  lemma SkipUnits(k: nat, j: nat)
    requires j <= k < |UNITS| && UnitNamed(UNITS[k].name, k) == Some(UNITS[k])
    ensures UnitNamed(UNITS[k].name, j) == Some(UNITS[k])
    decreases k - j
  {
    if j < k {
      SkipUnits(k, j + 1);
      UnitNamesDiffer(j, k);
    }
  }

  lemma UnitNamesDiffer(j: nat, k: nat)
    requires j < k < |UNITS|
    ensures UNITS[j].name != UNITS[k].name
  {
    var initials := "ywdhms";
    assert j < 6 && UNITS[j].name == [initials[j]];
    if k < 6 { assert UNITS[k].name[0] == initials[k]; } else { assert |UNITS[k].name| == 2; }
  }

  lemma ParseText(digits: string, k: nat)
    requires AllDigits(digits) && digits != "" && k < |UNITS|
    ensures Parse(digits + UNITS[k].name) == Ok(Wrap(Wrap(Atoi(digits) * MILLISECOND) * UNITS[k].millis))
  {
    UnitAt(k);
    var s := digits + UNITS[k].name;
    DigitPrefixOf(digits, UNITS[k].name);
    assert s[..|digits|] == digits && s[|digits|..] == UNITS[k].name;
  }

  lemma Bigger(n: int, a: int, b: int)
    requires 0 <= n && 1 <= a && 1 <= b
    ensures n <= n * a <= n * a * b
  {
    assert n * a >= n && (n * a) * b >= n * a by { Grows(n, a); Grows(n * a, b); }
  }

  lemma Grows(n: int, a: int)
    requires 0 <= n && 1 <= a
    ensures n <= n * a
  {
    assert n * a == n + n * (a - 1);
    assert n * (a - 1) >= 0;
  }

  // A text is read as what it says exactly when that fits into 64 bits.
  lemma ParseExactIffFits(digits: string, k: nat)
    requires AllDigits(digits) && digits != "" && k < |UNITS|
    ensures Parse(digits + UNITS[k].name) == Ok(Value(digits) * MILLISECOND * UNITS[k].millis)
       <==> Value(digits) * MILLISECOND * UNITS[k].millis < LIMIT
  {
    ParseText(digits, k);
    UnitAt(k);
    Bigger(Value(digits), MILLISECOND, UNITS[k].millis);
  }

  // A number of 2^63 or more reads as minus one of its unit, whatever it is.
  lemma TooLargeIsMinusOne(digits: string, k: nat)
    requires AllDigits(digits) && k < |UNITS| && Value(digits) >= 0x8000_0000_0000_0000
    ensures digits != "" && Parse(digits + UNITS[k].name) == Ok(-1_000_000 * UNITS[k].millis)
  {
    assert Value("") == 0;
    ParseText(digits, k);
    LargestWraps();
    UnitBounds(k);
    MinusOneFits(UNITS[k].millis);
    hide Parse, Value, Wrap, UNITS;
  }

  lemma LargestWraps()
    ensures Wrap((LIMIT - 1) * MILLISECOND) == -1_000_000
  {
    assert (LIMIT - 1) * MILLISECOND + LIMIT == 500_000 * (2 * LIMIT) + (LIMIT - 1_000_000);
  }

  lemma UnitBounds(k: nat)
    requires k < |UNITS|
    ensures 1 <= UNITS[k].millis <= 31_536_000_000
  {
  }

  lemma MinusOneFits(millis: int)
    requires 1 <= millis <= 31_536_000_000
    ensures Wrap(-1_000_000 * millis) == -1_000_000 * millis
  {
    assert IsInt64(-1_000_000 * millis);
    hide Wrap;
  }

  // The units and their lengths: years of 365 days, weeks, days, hours, minutes,
  // seconds, milliseconds.
  lemma UnitLengths(digits: string)
    requires AllDigits(digits) && digits != ""
    ensures var (n, fits) := (Value(digits) * 1_000_000, 0x8000_0000_0000_0000);
      && (n * 31_536_000_000 < fits ==> Parse(digits + "y") == Ok(n * 31_536_000_000))
      && (n * 604_800_000 < fits ==> Parse(digits + "w") == Ok(n * 604_800_000))
      && (n * 86_400_000 < fits ==> Parse(digits + "d") == Ok(n * 86_400_000))
      && (n * 3_600_000 < fits ==> Parse(digits + "h") == Ok(n * 3_600_000))
      && (n * 60_000 < fits ==> Parse(digits + "m") == Ok(n * 60_000))
      && (n * 1_000 < fits ==> Parse(digits + "s") == Ok(n * 1_000))
      && (n < fits ==> Parse(digits + "ms") == Ok(n))
  {
    hide Parse, Value;
    ParseExactIffFits(digits, 0);
    ParseExactIffFits(digits, 1);
    ParseExactIffFits(digits, 2);
    ParseExactIffFits(digits, 3);
    ParseExactIffFits(digits, 4);
    ParseExactIffFits(digits, 5);
    ParseExactIffFits(digits, 6);
  }

  predicate IsUnit(name: string) { name in ["y", "w", "d", "h", "m", "s", "ms"] }

  lemma UnitNamedIff(name: string)
    ensures UnitNamed(name, 0).Some? <==> IsUnit(name)
  {
    assert UnitNamed(name, 7) == None;
    assert UnitNamed(name, 6).Some? <==> name == "ms";
    assert UnitNamed(name, 5).Some? <==> name in ["s", "ms"];
    assert UnitNamed(name, 4).Some? <==> name in ["m", "s", "ms"];
    assert UnitNamed(name, 3).Some? <==> name in ["h", "m", "s", "ms"];
    assert UnitNamed(name, 2).Some? <==> name in ["d", "h", "m", "s", "ms"];
    assert UnitNamed(name, 1).Some? <==> name in ["w", "d", "h", "m", "s", "ms"];
  }

  predicate ReadsAs(s: string, digits: string, name: string) {
    s == digits + name && digits != "" && AllDigits(digits) && IsUnit(name)
  }

  // A text is accepted exactly if it is digits followed by one of the units.
  lemma AcceptedIff(s: string)
    ensures Parse(s).Ok? <==> exists digits, name :: ReadsAs(s, digits, name)
  {
    var k := DigitPrefix(s);
    UnitNamedIff(s[k..]);
    assert s == s[..k] + s[k..];
    if Parse(s).Ok? { assert ReadsAs(s, s[..k], s[k..]); }
    if digits, name :| ReadsAs(s, digits, name) {
      DigitPrefixOf(digits, name);
      assert s[|digits|..] == name;
      UnitNamedIff(name);
    }
  }

  // --- What writing does ---

  lemma {:induction false} FirstUnitDivides(ms: int, k: nat) returns (j: nat)
    requires k < |UNITS|
    ensures k <= j < |UNITS| && FirstUnit(ms, k) == UNITS[j] && Rem(ms, UNITS[j].millis) == 0
    ensures forall i :: k <= i < j ==> Rem(ms, UNITS[i].millis) != 0
    decreases |UNITS| - k
  {
    if k == |UNITS| - 1 || Rem(ms, UNITS[k].millis) == 0 {
      j := k;
    } else {
      j := FirstUnitDivides(ms, k + 1);
    }
  }

  // The text names the first unit, in the order y, w, d, h, m, s, ms, of which
  // the whole milliseconds are a multiple.
  lemma FormatPicksFirst(d: int) returns (j: nat)
    requires Quot(d, MILLISECOND) != 0
    ensures j < |UNITS| && Rem(Quot(d, MILLISECOND), UNITS[j].millis) == 0
    ensures forall i :: 0 <= i < j ==> Rem(Quot(d, MILLISECOND), UNITS[i].millis) != 0
    ensures Format(d) == PrintInt(Quot(Quot(d, MILLISECOND), UNITS[j].millis)) + UNITS[j].name
  {
    j := FirstUnitDivides(Quot(d, MILLISECOND), 0);
  }

  // The text of a duration of some milliseconds, unit by unit.
  lemma FormatUnits(ms: nat)
    requires 0 < ms
    ensures Format(ms * 1_000_000) ==
      if ms % 31_536_000_000 == 0 then Print(ms / 31_536_000_000) + "y"
      else if ms % 604_800_000 == 0 then Print(ms / 604_800_000) + "w"
      else if ms % 86_400_000 == 0 then Print(ms / 86_400_000) + "d"
      else if ms % 3_600_000 == 0 then Print(ms / 3_600_000) + "h"
      else if ms % 60_000 == 0 then Print(ms / 60_000) + "m"
      else if ms % 1_000 == 0 then Print(ms / 1_000) + "s"
      else Print(ms) + "ms"
  {
    hide Print;
    assert Quot(ms * 1_000_000, MILLISECOND) == ms;
    FirstUnitIs(ms);
    assert ms / 1 == ms;
    hide FirstUnit;
  }

  lemma FirstUnitIs(ms: nat)
    ensures FirstUnit(ms, 0) ==
      UNITS[if ms % 31_536_000_000 == 0 then 0 else if ms % 604_800_000 == 0 then 1 else if ms % 86_400_000 == 0 then 2
            else if ms % 3_600_000 == 0 then 3 else if ms % 60_000 == 0 then 4 else if ms % 1_000 == 0 then 5 else 6]
  {
    forall m | m in {31_536_000_000, 604_800_000, 86_400_000, 3_600_000, 60_000, 1_000}
      ensures Rem(ms, m) == ms % m
    {
    }
    assert FirstUnit(ms, 6) == UNITS[6];
    assert FirstUnit(ms, 5) == if ms % 1_000 == 0 then UNITS[5] else UNITS[6];
    assert FirstUnit(ms, 4) == if ms % 60_000 == 0 then UNITS[4] else FirstUnit(ms, 5);
    assert FirstUnit(ms, 3) == if ms % 3_600_000 == 0 then UNITS[3] else FirstUnit(ms, 4);
    assert FirstUnit(ms, 2) == if ms % 86_400_000 == 0 then UNITS[2] else FirstUnit(ms, 3);
    assert FirstUnit(ms, 1) == if ms % 604_800_000 == 0 then UNITS[1] else FirstUnit(ms, 2);
    assert FirstUnit(ms, 0) == if ms % 31_536_000_000 == 0 then UNITS[0] else FirstUnit(ms, 1);
    hide FirstUnit, Rem;
  }

  lemma Reorder(q: int, m: int, ms: int)
    requires q * m == ms
    ensures q * MILLISECOND * m == ms * MILLISECOND
  {
  }

  lemma ReadBack(q: nat, j: nat, ms: int)
    requires j < |UNITS| && q * UNITS[j].millis == ms && ms * MILLISECOND < LIMIT
    ensures Parse(Print(q) + UNITS[j].name) == Ok(ms * MILLISECOND)
  {
    PrintThenValue(q);
    Reorder(q, UNITS[j].millis, ms);
    ParseExactIffFits(Print(q), j);
  }

  // Writing and reading back a non-negative duration drops what is below a
  // millisecond and nothing else.
  lemma RoundTrip(d: int)
    requires 0 <= d < LIMIT
    ensures Parse(Format(d)) == Ok(d - d % MILLISECOND)
  {
    hide Parse, Print, FirstUnit;
    var ms := d / MILLISECOND;
    assert ms * MILLISECOND == d - d % MILLISECOND;
    if ms == 0 {
      ReadBack(0, 5, 0);
      assert Print(0) == "0" by { PrintZero(); }
      assert Format(d) == Print(0) + UNITS[5].name;
    } else {
      var j := FormatPicksFirst(d);
      ReadBack(ms / UNITS[j].millis, j, ms);
    }
  }

  lemma PrintZero()
    ensures Print(0) == "0"
  {
  }

  lemma NegativeText(d: int)
    requires Quot(d, MILLISECOND) < 0
    ensures Format(d) != "" && Format(d)[0] == '-'
  {
    hide FirstUnit, Print, Parse;
    var j := FormatPicksFirst(d);
    var ms := Quot(d, MILLISECOND);
    assert Quot(ms, UNITS[j].millis) * UNITS[j].millis == ms;
    NegativeFactor(Quot(ms, UNITS[j].millis), UNITS[j].millis);
  }

  lemma NegativeFactor(q: int, m: int)
    requires q * m < 0 && 1 <= m
    ensures q < 0
  {
  }

  lemma MinusIsNoDigit(s: string)
    requires s != "" && s[0] == '-'
    ensures Parse(s).Err?
  {
    hide UnitNamed;
    assert DigitPrefix(s) == 0;
  }

  // What is written can be read back exactly when it is not negative.
  lemma ReadableIffNotNegative(d: int)
    requires IsInt64(d)
    ensures Parse(Format(d)).Ok? <==> -MILLISECOND < d
  {
    hide Parse, FirstUnit, Print;
    if 0 <= d {
      RoundTrip(d);
    } else if -MILLISECOND < d {
      RoundTrip(0);
      assert Format(d) == Format(0);
    } else {
      NegativeText(d);
      MinusIsNoDigit(Format(d));
    }
  }
}
