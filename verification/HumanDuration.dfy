/** humanDuration (tink/agent/agent.go:442-483): a duration printed as its first
    `precision` non-zero units out of h, m, s, ms, us and ns. */
module HumanDuration {
  import opened Prelude
  import opened Decimal

  datatype Unit = Unit(size: nat, name: string)

  const HOUR := Unit(3_600_000_000_000, "h")
  const MINUTE := Unit(60_000_000_000, "m")
  const SECOND := Unit(1_000_000_000, "s")
  const MILLI := Unit(1_000_000, "ms")
  const MICRO := Unit(1_000, "us")
  const NANO := Unit(1, "ns")
  const UNITS: seq<Unit> := [HOUR, MINUTE, SECOND, MILLI, MICRO, NANO]

  /** One printed part: a count of a unit. */
  datatype Part = Part(count: nat, unit: Unit)

  predicate Positive(units: seq<Unit>) { forall k :: 0 <= k < |units| ==> units[k].size > 0 }

  /** The parts of d in the given units, largest first: the first `precision`
      non-zero digits of its mixed-radix expansion. */
  function Parts(d: nat, units: seq<Unit>, precision: nat): seq<Part>
    requires Positive(units)
    decreases |units|
  {
    if units == [] || precision == 0 then []
    else
      var q, r := d / units[0].size, d % units[0].size;
      if q > 0 then [Part(q, units[0])] + Parts(r, units[1..], precision - 1)
      else Parts(r, units[1..], precision)
  }

  /** The duration a list of parts stands for. */
  function Value(parts: seq<Part>): nat {
    if parts == [] then 0 else parts[0].count * parts[0].unit.size + Value(parts[1..])
  }

  lemma ValueCons(p: Part, rest: seq<Part>)
    ensures Value([p] + rest) == p.count * p.unit.size + Value(rest)
  {
    assert ([p] + rest)[1..] == rest;
  }

  /** One unit of the expansion: d is a multiple m of the unit plus a remainder
      r, and the remaining parts are those of r. */
  lemma Expand(d: nat, units: seq<Unit>, precision: nat) returns (q: nat, m: nat, r: nat, left: nat)
    requires Positive(units) && units != [] && precision > 0
    ensures q == d / units[0].size && d == m + r && r < units[0].size && m == q * units[0].size
    ensures r == d % units[0].size
    ensures (q == 0 <==> m == 0) && (q > 0 ==> m >= units[0].size)
    ensures left == if q > 0 then precision - 1 else precision
    ensures Positive(units[1..])
    ensures Parts(d, units, precision)
         == (if q > 0 then [Part(q, units[0])] else []) + Parts(r, units[1..], left)
    ensures Value(Parts(d, units, precision)) == m + Value(Parts(r, units[1..], left))
  {
    q, r := d / units[0].size, d % units[0].size;
    m := q * units[0].size;
    Multiple(q, units[0].size);
    left := if q > 0 then precision - 1 else precision;
    ValueCons(Part(q, units[0]), Parts(r, units[1..], left));
  }

  lemma Multiple(q: nat, s: nat)
    requires s > 0
    ensures (q == 0 <==> q * s == 0) && (q > 0 ==> q * s >= s)
  {
  }

  /** The kept value never exceeds the duration. */
  lemma {:induction false} KeptAtMost(d: nat, units: seq<Unit>, precision: nat)
    requires Positive(units)
    ensures Value(Parts(d, units, precision)) <= d
    decreases |units|
  {
    if units != [] && precision > 0 {
      var q, m, r, left := Expand(d, units, precision);
      KeptAtMost(r, units[1..], left);
    }
  }

  /** At most `precision` parts print, each of them non-zero. */
  lemma {:induction false} PartsShape(d: nat, units: seq<Unit>, precision: nat)
    requires Positive(units)
    ensures |Parts(d, units, precision)| <= precision
    ensures forall k :: 0 <= k < |Parts(d, units, precision)| ==>
      Parts(d, units, precision)[k].count > 0 && Parts(d, units, precision)[k].unit in units
    decreases |units|
  {
    if units != [] && precision > 0 {
      var q, m, r, left := Expand(d, units, precision);
      PartsShape(r, units[1..], left);
    }
  }

  /** What was dropped is less than the last printed unit. */
  lemma {:induction false} KeptError(d: nat, units: seq<Unit>, precision: nat)
    requires Positive(units) && Parts(d, units, precision) != []
    ensures var parts := Parts(d, units, precision);
      d - Value(parts) < parts[|parts| - 1].unit.size
    decreases |units|
  {
    var q, m, r, left := Expand(d, units, precision);
    if Parts(r, units[1..], left) != [] { KeptError(r, units[1..], left); }
  }

  predicate EndsInOne(units: seq<Unit>) { units != [] && units[|units| - 1].size == 1 }

  /** When fewer than `precision` parts print, nothing was dropped. */
  lemma {:induction false} KeptExact(d: nat, units: seq<Unit>, precision: nat)
    requires Positive(units) && EndsInOne(units) && |Parts(d, units, precision)| < precision
    ensures Value(Parts(d, units, precision)) == d
    decreases |units|
  {
    var q, m, r, left := Expand(d, units, precision);
    if |units| > 1 { KeptExact(r, units[1..], left); }
  }

  /** A longer duration never prints as a smaller kept value. */
  lemma {:induction false} KeptMonotone(d: nat, e: nat, units: seq<Unit>, precision: nat)
    requires Positive(units) && d <= e
    ensures Value(Parts(d, units, precision)) <= Value(Parts(e, units, precision))
    decreases |units|
  {
    if units != [] && precision > 0 {
      var q1, m1, r1, left1 := Expand(d, units, precision);
      var q2, m2, r2, left2 := Expand(e, units, precision);
      QuotientsOrdered(d, e, units[0].size);
      if q1 == q2 {
        KeptMonotone(r1, r2, units[1..], left1);
      } else {
        KeptAtMost(d, units, precision);
      }
    }
  }

  lemma QuotientsOrdered(d: nat, e: nat, s: nat)
    requires s > 0 && d <= e
    ensures d / s <= e / s && (d / s == e / s ==> d % s <= e % s) && (d / s < e / s ==> d < (e / s) * s)
  {
    var q1, q2 := d / s, e / s;
    assert d == q1 * s + d % s && e == q2 * s + e % s;
    if q2 < q1 { MultiplesApart(q2, q1, s); }
    if q1 < q2 { MultiplesApart(q1, q2, s); }
  }

  lemma MultiplesApart(a: nat, b: nat, s: nat)
    requires a < b && s > 0
    ensures a * s + s <= b * s
    decreases b
  {
    if a + 1 < b { MultiplesApart(a, b - 1, s); }
    assert b * s == (b - 1) * s + s;
  }

  /** Printing the kept value gives the same parts again. */
  lemma {:induction false} KeptPrintsTheSame(d: nat, units: seq<Unit>, precision: nat)
    requires Positive(units)
    ensures Parts(Value(Parts(d, units, precision)), units, precision) == Parts(d, units, precision)
    decreases |units|
  {
    if units != [] && precision > 0 {
      var q, m, r, left := Expand(d, units, precision);
      var rest := Value(Parts(r, units[1..], left));
      KeptAtMost(r, units[1..], left);
      SameQuotient(q, units[0].size, rest);
      var q2, m2, r2, left2 := Expand(m + rest, units, precision);
      KeptPrintsTheSame(r, units[1..], left);
    }
  }

  lemma SameQuotient(q: nat, s: nat, r: nat)
    requires r < s
    ensures (q * s + r) / s == q && (q * s + r) % s == r
  {
    var x := q * s + r;
    assert x == (x / s) * s + x % s;
    if x / s < q { MultiplesApart(x / s, q, s); }
    if q < x / s { MultiplesApart(q, x / s, s); }
  }

  /** A cut-off at `precision` is a prefix of the full expansion. */
  lemma {:induction false} PartsArePrefix(d: nat, units: seq<Unit>, precision: nat)
    requires Positive(units)
    ensures Parts(d, units, precision) <= Parts(d, units, |units|)
    ensures |Parts(d, units, precision)| < precision ==> Parts(d, units, precision) == Parts(d, units, |units|)
    decreases |units|
  {
    if units != [] && precision > 0 {
      var q, m, r, left := Expand(d, units, precision);
      var q2, m2, r2, left2 := Expand(d, units, |units|);
      PartsArePrefix(r, units[1..], left);
      PartsArePrefix(r, units[1..], left2);
      FullIsFull(r, units[1..], left2);
    }
  }

  /** More precision than units changes nothing. */
  lemma {:induction false} FullIsFull(d: nat, units: seq<Unit>, precision: nat)
    requires Positive(units) && precision >= |units|
    ensures Parts(d, units, precision) == Parts(d, units, |units|)
    decreases |units|
  {
    if units != [] {
      var q, m, r, left := Expand(d, units, precision);
      var q2, m2, r2, left2 := Expand(d, units, |units|);
      FullIsFull(r, units[1..], left);
      FullIsFull(r, units[1..], left2);
    }
  }

  // ----- the text and its parser -----

  function Text(parts: seq<Part>): string {
    if parts == [] then "" else Dec(parts[0].count) + parts[0].unit.name + Text(parts[1..])
  }

  /** Length of the longest prefix of digits (or of non-digits). */
  function Run(s: string, digits: bool): (n: nat)
    ensures n <= |s|
  {
    if s == [] || IsDigit(s[0]) != digits then 0 else 1 + Run(s[1..], digits)
  }

  lemma {:induction false} RunIs(a: string, b: string, digits: bool)
    requires forall k :: 0 <= k < |a| ==> IsDigit(a[k]) == digits
    requires b == [] || IsDigit(b[0]) != digits
    ensures Run(a + b, digits) == |a|
  {
    if a == [] {
      assert a + b == b;
    } else {
      assert (a + b)[1..] == a[1..] + b;
      RunIs(a[1..], b, digits);
    }
  }

  function FindUnit(units: seq<Unit>, name: string): Option<Unit> {
    if units == [] then None else if units[0].name == name then Some(units[0]) else FindUnit(units[1..], name)
  }

  /** What a digit run and a unit name stand for. */
  function ParsePart(digits: string, name: string, units: seq<Unit>): Option<Part> {
    if digits == [] || !AllDigits(digits) || FindUnit(units, name).None? then None
    else Some(Part(Number(digits), FindUnit(units, name).value))
  }

  /** Reads pairs of a maximal digit run and a maximal unit name. */
  function ParseDuration(s: string, units: seq<Unit>): Option<seq<Part>>
    decreases |s|
  {
    if s == "" then Some([])
    else
      var n := Run(s, true);
      var m := Run(s[n..], false);
      if n == 0 then None
      else
        match (ParsePart(s[..n], s[n..n + m], units), ParseDuration(s[n + m..], units))
        case (Some(p), Some(rest)) => Some([p] + rest)
        case _ => None
  }

  predicate IsName(name: string) {
    name != [] && forall k :: 0 <= k < |name| ==> !IsDigit(name[k])
  }

  /** Unit names are told apart and hold no digits. */
  ghost predicate Readable(units: seq<Unit>) {
    && (forall k :: 0 <= k < |units| ==> IsName(units[k].name))
    && (forall j, k :: 0 <= j < k < |units| ==> units[j].name != units[k].name)
  }

  lemma UnitsAreReadable()
    ensures Readable(UNITS) && Positive(UNITS) && EndsInOne(UNITS)
  {
    assert "h"[0] != "m"[0] && "h"[0] != "s"[0] && "m"[0] != "s"[0];
    assert "ms"[0] != "us"[0] && "ms"[0] != "ns"[0] && "us"[0] != "ns"[0];
  }

  lemma {:induction false} FindUnitAt(units: seq<Unit>, k: nat)
    requires Readable(units) && k < |units|
    ensures FindUnit(units, units[k].name) == Some(units[k])
  {
    if k > 0 { FindUnitAt(units[1..], k - 1); }
  }

  ghost predicate PartsIn(parts: seq<Part>, units: seq<Unit>) {
    forall k :: 0 <= k < |parts| ==> parts[k].unit in units
  }

  lemma ParsePair(digits: string, name: string, rest: string, units: seq<Unit>)
    requires digits != [] && AllDigits(digits) && IsName(name)
    requires rest == [] || IsDigit(rest[0])
    requires ParsePart(digits, name, units).Some? && ParseDuration(rest, units).Some?
    ensures ParseDuration(digits + name + rest, units)
         == Some([ParsePart(digits, name, units).value] + ParseDuration(rest, units).value)
  {
    var s, n, m := digits + name + rest, |digits|, |name|;
    ThreePieces(digits, name, rest);
    RunIs(digits, name + rest, true);
    RunIs(name, rest, false);
  }

  lemma ThreePieces(a: string, b: string, c: string)
    ensures var s := a + b + c;
      && s == a + (b + c) && s[..|a|] == a && s[|a|..] == b + c
      && s[|a|..|a| + |b|] == b && s[|a| + |b|..] == c
  {
  }

  lemma ParsePartOf(p: Part, units: seq<Unit>)
    requires Readable(units) && p.unit in units
    ensures ParsePart(Dec(p.count), p.unit.name, units) == Some(p)
    ensures IsName(p.unit.name) && Dec(p.count) != [] && AllDigits(Dec(p.count))
  {
    DecNumber(p.count);
    var k :| 0 <= k < |units| && units[k] == p.unit;
    FindUnitAt(units, k);
  }

  lemma TextStart(parts: seq<Part>)
    ensures Text(parts) == [] || IsDigit(Text(parts)[0])
  {
    if parts != [] { DecNumber(parts[0].count); }
  }

  /** The text is unambiguous: the parser recovers the parts, so a minute is
      never taken for a millisecond. */
  lemma {:induction false} ParseText(parts: seq<Part>, units: seq<Unit>)
    requires Readable(units) && PartsIn(parts, units)
    ensures ParseDuration(Text(parts), units) == Some(parts)
    decreases |parts|
  {
    if parts != [] {
      ParseText(parts[1..], units);
      ParseFirst(parts, units);
    }
  }

  lemma {:induction false} ParseFirst(parts: seq<Part>, units: seq<Unit>)
    requires parts != [] && Readable(units) && parts[0].unit in units
    requires ParseDuration(Text(parts[1..]), units) == Some(parts[1..])
    ensures ParseDuration(Text(parts), units) == Some(parts)
  {
    var p, rest := parts[0], parts[1..];
    ParsePartOf(p, units);
    TextStart(rest);
    ParsePair(Dec(p.count), p.unit.name, Text(rest), units);
    assert [p] + rest == parts;
  }

  // ----- the function itself -----

  function Div(a: nat, b: nat): (q: int)
    requires b > 0
    ensures q >= 0
  {
    a / b
  }

  function Mod(a: nat, b: nat): (r: int)
    requires b > 0
    ensures r >= 0
  {
    a % b
  }

  /** Go's integer division and remainder, which truncate toward zero. */
  function Quo(a: int, b: nat): int
    requires b > 0
  {
    if a >= 0 then Div(a, b) else -Div(-a, b)
  }

  function Rem(a: int, b: nat): int
    requires b > 0
  {
    if a >= 0 then Mod(a, b) else -Mod(-a, b)
  }

  /** What humanDuration prints. */
  function Human(d: int, precision: int): string {
    if d <= 0 || precision <= 0 then "" else Text(Parts(d, UNITS, precision))
  }

  /** The parts joined without a separator. */
  function Join(parts: seq<string>): string {
    if parts == [] then "" else parts[0] + Join(parts[1..])
  }

  lemma {:induction false} JoinAppend(parts: seq<string>, s: string)
    ensures Join(parts + [s]) == Join(parts) + s
  {
    if parts == [] {
      assert parts + [s] == [s];
      assert Join([s]) == s + Join([s][1..]);
    } else {
      assert (parts + [s])[1..] == parts[1..] + [s];
      JoinAppend(parts[1..], s);
    }
  }

  /** The finished text when `parts` are printed and d is still to be expanded. */
  ghost function Finished(parts: seq<string>, d: int, units: seq<Unit>, precision: int): string
    requires Positive(units)
  {
    Join(parts) + if d <= 0 || precision <= |parts| then "" else Text(Parts(d, units, precision - |parts|))
  }

  /** One `if` of the source: a positive count is printed while there is room. */
  function Add(parts: seq<string>, count: int, name: string, precision: int): seq<string> {
    if count > 0 && |parts| < precision then parts + [Dec(count) + name] else parts
  }

  /** What Go's quotient and remainder of d satisfy. */
  predicate Divides(d: int, size: nat, q: int, r: int)
    requires size > 0
  {
    if d > 0 then q == Div(d, size) && r == Mod(d, size) else q <= 0 && r <= 0
  }

  lemma Stage(parts: seq<string>, d: int, q: int, r: int, units: seq<Unit>, precision: int)
    requires Positive(units) && units != [] && Divides(d, units[0].size, q, r)
    ensures Finished(Add(parts, q, units[0].name, precision), r, units[1..], precision)
         == Finished(parts, d, units, precision)
  {
    if d > 0 && |parts| < precision {
      JoinAppend(parts, Dec(q) + units[0].name);
      StageParts(d, units, precision - |parts|);
    }
  }

  lemma StageParts(d: nat, units: seq<Unit>, precision: nat)
    requires Positive(units) && units != [] && precision > 0
    ensures var q, r := d / units[0].size, d % units[0].size;
      var left := if q > 0 then precision - 1 else precision;
      Text(Parts(d, units, precision))
      == (if q > 0 then Dec(q) + units[0].name else "")
        + (if r <= 0 || left <= 0 then "" else Text(Parts(r, units[1..], left)))
  {
    var q, m, r, left := Expand(d, units, precision);
    StageText(r, q, units, left);
    NothingLeft(units[1..], left);
  }

  lemma StageText(r: nat, q: nat, units: seq<Unit>, left: nat)
    requires Positive(units) && units != []
    ensures Text([Part(q, units[0])] + Parts(r, units[1..], left)) == Dec(q) + units[0].name
      + Text(Parts(r, units[1..], left))
  {
    assert ([Part(q, units[0])] + Parts(r, units[1..], left))[1..] == Parts(r, units[1..], left);
  }

  lemma {:induction false} NothingLeft(units: seq<Unit>, precision: nat)
    requires Positive(units)
    ensures Parts(0, units, precision) == []
    decreases |units|
  {
    if units != [] && precision > 0 { NothingLeft(units[1..], precision); }
  }

  /** One division of lines 449-458. */
  method DivMod(d: int, size: nat) returns (q: int, r: int)
    requires size > 0
    ensures Divides(d, size, q, r)
  {
    q, r := Quo(d, size), Rem(d, size);
  }

  /** Stage for the k-th unit of the source. */
  lemma StageAt(parts: seq<string>, d: int, q: int, r: int, k: nat, precision: int)
    requires k < |UNITS| && Divides(d, UNITS[k].size, q, r)
    ensures Finished(Add(parts, q, UNITS[k].name, precision), r, UNITS[k + 1..], precision)
         == Finished(parts, d, UNITS[k..], precision)
  {
    assert UNITS[k..][0] == UNITS[k] && UNITS[k..][1..] == UNITS[k + 1..];
    Stage(parts, d, q, r, UNITS[k..], precision);
  }

  lemma ThreeStages(parts: seq<string>, k: nat, d: int, q0: int, r0: int, q1: int, r1: int, q2: int, r2: int, p: int)
    requires k + 3 <= |UNITS| && Divides(d, UNITS[k].size, q0, r0)
    requires Divides(r0, UNITS[k + 1].size, q1, r1) && Divides(r1, UNITS[k + 2].size, q2, r2)
    ensures var larger := Add(Add(parts, q0, UNITS[k].name, p), q1, UNITS[k + 1].name, p);
      Finished(Add(larger, q2, UNITS[k + 2].name, p), r2, UNITS[k + 3..], p) == Finished(parts, d, UNITS[k..], p)
  {
    var one := Add(parts, q0, UNITS[k].name, p);
    StageAt(parts, d, q0, r0, k, p);
    StageAt(one, r0, q1, r1, k + 1, p);
    StageAt(Add(one, q1, UNITS[k + 1].name, p), r1, q2, r2, k + 2, p);
  }

  lemma AllStages(parts: seq<string>, d: int, precision: int)
    ensures Finished([], d, UNITS[0..], precision) == Human(d, precision)
    ensures Finished(parts, 0, UNITS[6..], precision) == Join(parts)
  {
    assert UNITS[0..] == UNITS;
  }

  method HumanDuration(d: int, precision: int) returns (text: string)
    ensures text == Human(d, precision)
  {
    var hours, afterHours := DivMod(d, HOUR.size);
    var minutes, afterMinutes := DivMod(afterHours, MINUTE.size);
    var seconds, afterSeconds := DivMod(afterMinutes, SECOND.size);
    var milliseconds, afterMillis := DivMod(afterSeconds, MILLI.size);
    var microseconds, nanoseconds := DivMod(afterMillis, MICRO.size);

    var parts := Add([], hours, "h", precision);
    parts := Add(parts, minutes, "m", precision);
    parts := Add(parts, seconds, "s", precision);
    ThreeStages([], 0, d, hours, afterHours, minutes, afterMinutes, seconds, afterSeconds, precision);
    ghost var larger := parts;
    parts := Add(parts, milliseconds, "ms", precision);
    parts := Add(parts, microseconds, "us", precision);
    parts := Add(parts, nanoseconds, "ns", precision);
    ThreeStages(larger, 3, afterSeconds, milliseconds, afterMillis, microseconds, nanoseconds, nanoseconds, 0,
      precision);
    text := Join(parts);
    AllStages(parts, d, precision);
  }

  /** The kept duration: what the printed text stands for. */
  function Kept(d: nat, precision: nat): nat {
    Value(Parts(d, UNITS, precision))
  }

  /** For every positive duration and precision: the text parses back to the
      kept duration, which is at most d, off by less than the last printed unit,
      exact when fewer than `precision` units print, and prints the same again. */
  lemma HumanDurationLaws(d: nat, precision: nat)
    requires d > 0 && precision > 0
    ensures var parts, kept := Parts(d, UNITS, precision), Kept(d, precision);
      && 1 <= |parts| <= precision
      && ParseDuration(Human(d, precision), UNITS) == Some(parts)
      && 0 < kept <= d && d - kept < parts[|parts| - 1].unit.size
      && (|parts| < precision ==> kept == d)
      && Human(kept, precision) == Human(d, precision)
  {
    UnitsAreReadable();
    LawsFor(d, UNITS, precision);
  }

  lemma LawsFor(d: nat, units: seq<Unit>, precision: nat)
    requires d > 0 && precision > 0 && Readable(units) && Positive(units) && EndsInOne(units)
    ensures var parts, kept := Parts(d, units, precision), Value(Parts(d, units, precision));
      && 1 <= |parts| <= precision
      && ParseDuration(Text(parts), units) == Some(parts)
      && 0 < kept <= d && d - kept < parts[|parts| - 1].unit.size
      && (|parts| < precision ==> kept == d)
      && Parts(kept, units, precision) == parts
  {
    var parts := Parts(d, units, precision);
    PartsShape(d, units, precision);
    ParseText(parts, units);
    KeptAtMost(d, units, precision);
    if |parts| < precision { KeptExact(d, units, precision); }
    SomethingKept(parts);
    KeptError(d, units, precision);
    KeptPrintsTheSame(d, units, precision);
  }

  lemma SomethingKept(parts: seq<Part>)
    ensures parts != [] && parts[0].count > 0 && parts[0].unit.size > 0 ==> Value(parts) > 0
  {
    if parts != [] && parts[0].unit.size > 0 { Multiple(parts[0].count, parts[0].unit.size); }
  }

  // ----- the text in digits -----

  /** What counts of units, written with the given digits, are worth. */
  function Amount(counts: seq<nat>, units: seq<Unit>): nat
    requires |counts| == |units|
  {
    if counts == [] then 0 else counts[0] * units[0].size + Amount(counts[1..], units[1..])
  }

  /** Every count leaves less than one of the next larger unit behind it. */
  predicate InRange(counts: seq<nat>, units: seq<Unit>) {
    |counts| == |units|
    && (counts != [] ==> Amount(counts[1..], units[1..]) < units[0].size && InRange(counts[1..], units[1..]))
  }

  /** The first `room` non-zero counts, each as its digits and its name. */
  function Listing(counts: seq<nat>, digits: seq<string>, names: seq<string>, room: int): string
    requires |counts| == |digits| == |names|
  {
    if counts == [] || room <= 0 then ""
    else if counts[0] == 0 then Listing(counts[1..], digits[1..], names[1..], room)
    else digits[0] + names[0] + Listing(counts[1..], digits[1..], names[1..], room - 1)
  }

  lemma {:induction false} ListingIs(counts: seq<nat>, digits: seq<string>, names: seq<string>, units: seq<Unit>,
    room: nat)
    requires Positive(units) && InRange(counts, units) && |counts| == |digits| == |names|
    requires forall k :: 0 <= k < |counts| ==> Canonical(digits[k], counts[k]) && names[k] == units[k].name
    ensures Text(Parts(Amount(counts, units), units, room)) == Listing(counts, digits, names, room)
    decreases |counts|
  {
    if counts != [] && room > 0 {
      var d, rest := Amount(counts, units), Amount(counts[1..], units[1..]);
      SameQuotient(counts[0], units[0].size, rest);
      var q, m, r, left := Expand(d, units, room);
      DecIsCanonical(digits[0], counts[0]);
      ListingIs(counts[1..], digits[1..], names[1..], units[1..], left);
      StageText(rest, q, units, left);
    }
  }

  /** The amounts of the units of the source, in nanoseconds. */
  lemma AmountIs(h: nat, m: nat, s: nat, ms: nat, us: nat, ns: nat)
    requires m < 60 && s < 60 && ms < 1000 && us < 1000 && ns < 1000
    ensures InRange([h, m, s, ms, us, ns], UNITS)
    ensures Amount([h, m, s, ms, us, ns], UNITS)
         == h * 3_600_000_000_000 + m * 60_000_000_000 + s * 1_000_000_000 + ms * 1_000_000 + us * 1_000 + ns
  {
    TailIs(ns, [], NANO, []);
    TailIs(us, [ns], MICRO, [NANO]);
    TailIs(ms, [us, ns], MILLI, [MICRO, NANO]);
    TailIs(s, [ms, us, ns], SECOND, [MILLI, MICRO, NANO]);
    TailIs(m, [s, ms, us, ns], MINUTE, [SECOND, MILLI, MICRO, NANO]);
    TailIs(h, [m, s, ms, us, ns], HOUR, [MINUTE, SECOND, MILLI, MICRO, NANO]);
    Tails(h, m, s, ms, us, ns);
  }

  lemma TailIs(c: nat, counts: seq<nat>, u: Unit, units: seq<Unit>)
    requires |counts| == |units|
    ensures Amount([c] + counts, [u] + units) == c * u.size + Amount(counts, units)
    ensures InRange([c] + counts, [u] + units) <==> Amount(counts, units) < u.size && InRange(counts, units)
  {
    assert ([c] + counts)[1..] == counts && ([u] + units)[1..] == units;
  }

  lemma Tails(h: nat, m: nat, s: nat, ms: nat, us: nat, ns: nat)
    ensures [ns] + [] == [ns] && [us] + [ns] == [us, ns] && [ms] + [us, ns] == [ms, us, ns]
    ensures [s] + [ms, us, ns] == [s, ms, us, ns] && [m] + [s, ms, us, ns] == [m, s, ms, us, ns]
    ensures [h] + [m, s, ms, us, ns] == [h, m, s, ms, us, ns]
    ensures [NANO] + [] == [NANO] && [MICRO] + [NANO] == [MICRO, NANO]
    ensures [MILLI] + [MICRO, NANO] == [MILLI, MICRO, NANO]
    ensures [SECOND] + [MILLI, MICRO, NANO] == [SECOND, MILLI, MICRO, NANO]
    ensures [MINUTE] + [SECOND, MILLI, MICRO, NANO] == [MINUTE, SECOND, MILLI, MICRO, NANO]
    ensures [HOUR] + [MINUTE, SECOND, MILLI, MICRO, NANO] == UNITS
  {
  }

  /** The printed text, in numbers and characters: for every number of hours,
      minutes, seconds, milli-, micro- and nanoseconds in range, the first
      `precision` of them that are not zero, each in canonical decimal notation
      followed by its unit. */
  lemma PrintedText(h: nat, m: nat, s: nat, ms: nat, us: nat, ns: nat, digits: seq<string>, precision: int)
    requires m < 60 && s < 60 && ms < 1000 && us < 1000 && ns < 1000 && |digits| == 6
    requires Canonical(digits[0], h) && Canonical(digits[1], m) && Canonical(digits[2], s)
    requires Canonical(digits[3], ms) && Canonical(digits[4], us) && Canonical(digits[5], ns)
    ensures Human(h * 3_600_000_000_000 + m * 60_000_000_000 + s * 1_000_000_000 + ms * 1_000_000 + us * 1_000 + ns,
                  precision)
         == Listing([h, m, s, ms, us, ns], digits, ["h", "m", "s", "ms", "us", "ns"], precision)
  {
    var counts := [h, m, s, ms, us, ns];
    AmountIs(h, m, s, ms, us, ns);
    UnitsAreReadable();
    if precision > 0 {
      ListingIs(counts, digits, ["h", "m", "s", "ms", "us", "ns"], UNITS, precision);
      NothingLeft(UNITS, precision);
    }
  }

  /** Nothing is printed exactly for durations that are not positive (and for
      precisions that allow no part). */
  lemma EmptyText(d: int, precision: int)
    ensures Human(d, precision) == "" <==> d <= 0 || precision <= 0
  {
    if d > 0 && precision > 0 { HumanDurationLaws(d, precision); }
  }

  lemma HumanDurationMonotone(d: nat, e: nat, precision: nat)
    requires d <= e
    ensures Kept(d, precision) <= Kept(e, precision)
  {
    KeptMonotone(d, e, UNITS, precision);
  }
}
