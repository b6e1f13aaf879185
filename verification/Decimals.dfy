/**
  * Money read from, moved along, rounded on and printed as digit strings
  * (frontend/src/api.ts, formatting section).
  */
module Decimals {
  import opened Prelude
  import opened Digits

  /** A sign, integer digits without leading zeros, and fraction digits. */
  datatype Dec = Dec(neg: bool, whole: string, frac: string)

  ghost predicate Valid(d: Dec) {
    AllDigits(d.whole) && AllDigits(d.frac) && Canonical(d.whole)
  }

  /** The digits read as one integer. */
  function Units(d: Dec): nat
  {
    Num(d.whole + d.frac)
  }

  /** x * 10^n and x / 10^n. */
  function ScaleUp(x: real, n: nat): real {
    if n == 0 then x else 10.0 * ScaleUp(x, n - 1)
  }

  function ScaleDown(x: real, n: nat): real {
    if n == 0 then x else ScaleDown(x, n - 1) / 10.0
  }

  ghost function Magnitude(d: Dec): real
  {
    ScaleDown(Units(d) as real, |d.frac|)
  }

  ghost function Value(d: Dec): real
  {
    if d.neg then -Magnitude(d) else Magnitude(d)
  }

  // ---- Reading --------------------------------------------------------------------------------

  /** The characters JavaScript's `trim` removes. */
  predicate IsSpace(c: char) {
    c == '\t' || c == '\n' || c == '\U{B}' || c == '\U{C}' || c == '\r' || c == ' ' || c == '\U{A0}' || c == '\U{1680}'
    || '\U{2000}' <= c <= '\U{200A}' || c == '\U{2028}' || c == '\U{2029}' || c == '\U{202F}' || c == '\U{205F}'
    || c == '\U{3000}' || c == '\U{FEFF}'
  }

  /** By code point: the ASCII and no-break spaces, the line and paragraph separators, and the other space separators. */
  lemma SpacesByNumber(c: char)
    ensures IsSpace(c) <==> c as int in {9, 10, 11, 12, 13, 32, 160, 0x1680, 0x2028, 0x2029, 0x202F, 0x205F, 0x3000, 0xFEFF}
                            || 0x2000 <= c as int <= 0x200A
  {
  }

  function TrimStart(s: string): string {
    if s != "" && IsSpace(s[0]) then TrimStart(s[1..]) else s
  }

  function TrimEnd(s: string): string {
    if s != "" && IsSpace(s[|s| - 1]) then TrimEnd(s[..|s| - 1]) else s
  }

  function Trim(s: string): string {
    TrimEnd(TrimStart(s))
  }

  function Unsigned(s: string): string {
    if s != "" && (s[0] == '+' || s[0] == '-') then s[1..] else s
  }

  function DotAt(s: string): (i: nat)
    ensures i <= |s|
    ensures forall k :: 0 <= k < i ==> s[k] != '.'
    ensures i < |s| ==> s[i] == '.'
  {
    if s == "" || s[0] == '.' then 0 else 1 + DotAt(s[1..])
  }

  /** Digits, or digits around one point with at least one digit in all. */
  predicate PlainBody(body: string) {
    var dot := DotAt(body);
    if dot == |body| then body != "" && AllDigits(body)
    else AllDigits(body[..dot]) && AllDigits(body[dot + 1..]) && |body| > 1
  }

  function WholePart(body: string): string {
    body[..DotAt(body)]
  }

  function FracPart(body: string): string {
    var dot := DotAt(body);
    if dot == |body| then "" else body[dot + 1..]
  }

  predicate PlainDecimal(s: string) {
    PlainBody(Unsigned(s))
  }

  function ParseDec(raw: string): Option<Dec> {
    var s := Trim(raw);
    if !PlainDecimal(s) then None
    else
      var body := Unsigned(s);
      assert body[..|body|] == body;
      Some(Dec(s[0] == '-', StripOrZero(WholePart(body)), FracPart(body)))
  }

  const FALLBACK_DP := 8

  /** The nearest integer to a magnitude, the larger of two. */
  function Nearest(y: real): nat {
    if y < 0.0 then 0 else (y + 0.5).Floor
  }

  /** The sign, at least one digit, a point, and `dp` digits. */
  function FixedText(x: real, dp: nat): string {
    var digits := PadStart(NatDigits(Nearest(ScaleUp(AbsR(x), dp))), dp + 1);
    (if x < 0.0 then "-" else "") + (digits[..|digits| - dp] + "." + digits[|digits| - dp..])
  }

  /** `toFixed`; a number of 10^21 or more prints with an exponent instead, which the parser refuses. */
  function ToFixed(x: real, dp: nat): Option<string> {
    if AbsR(x) >= 1_000_000_000_000_000_000_000.0 then None else Some(FixedText(x, dp))
  }

  /** `number` is what `Number` makes of a text, when that is finite. */
  function ToDec(raw: string, number: string -> Option<real>): Option<Dec> {
    match ParseDec(raw)
    case Some(d) => Some(d)
    case None =>
      match number(raw)
      case None => None
      case Some(x) =>
        match ToFixed(x, FALLBACK_DP)
        case None => None
        case Some(text) => ParseDec(text)
  }

  predicate IsZero(d: Dec) {
    forall i :: 0 <= i < |d.whole + d.frac| ==> !('1' <= (d.whole + d.frac)[i] <= '9')
  }

  lemma ZeroHasNoUnits(d: Dec)
    requires AllDigits(d.whole) && AllDigits(d.frac)
    ensures IsZero(d) <==> Units(d) == 0
  {
    var s := d.whole + d.frac;
    NumOfZeros(s);
    assert forall i :: 0 <= i < |s| ==> IsDigit(s[i]);
  }

  // ---- Moving the point ---------------------------------------------------------------------------

  function Shift(d: Dec, places: int): Dec
  {
    var point := |d.whole| - places;
    var bare := d.whole + d.frac;
    var digits := if point > |bare| then bare + Zeros(point - |bare|) else bare;
    var whole := if point > 0 then digits[..point] else "0";
    var frac := if point > 0 then digits[point..] else Zeros(-point) + digits;
    Dec(d.neg, StripOrZero(whole), frac)
  }

  // ---- Rounding -------------------------------------------------------------------------------------

  /** The digits left after dropping those past `dp`, bumped when the first dropped one is 5 or more. */
  function Rounded(d: Dec, dp: nat): (r: string)
    requires |d.frac| > dp
    ensures |r| >= |d.whole| + dp
    ensures AllDigits(d.whole) && AllDigits(d.frac) ==> AllDigits(r)
  {
    var kept := d.whole + d.frac[..dp];
    if d.frac[dp] >= '5' then Bump(kept) else kept
  }

  function PointBefore(neg: bool, digits: string, dp: nat): Dec
    requires |digits| >= dp
  {
    Dec(neg, digits[..|digits| - dp], digits[|digits| - dp..])
  }

  /** Half-up on the magnitude, to exactly `dp` fraction digits. */
  function Round(d: Dec, dp: nat): Dec
  {
    if |d.frac| <= dp then Dec(d.neg, d.whole, d.frac + Zeros(dp - |d.frac|))
    else PointBefore(d.neg, Rounded(d, dp), dp)
  }

  // ---- Printing -------------------------------------------------------------------------------------

  function Body(r: Dec, dp: nat): string {
    if dp > 0 then r.whole + "." + r.frac else r.whole
  }

  /** No "-0.00". */
  function Render(d: Dec, dp: nat): string
  {
    var r := Round(d, dp);
    if r.neg && !IsZero(r) then "-" + Body(r, dp) else Body(r, dp)
  }

  predicate TooSmall(d: Dec, maxDp: nat)
  {
    !IsZero(d) && IsZero(Round(d, maxDp))
  }

  // ---- What rounding means ------------------------------------------------------------------------

  lemma PointBeforeKeeps(neg: bool, digits: string, dp: nat)
    requires AllDigits(digits) && |digits| >= dp
    ensures var r := PointBefore(neg, digits, dp);
      AllDigits(r.whole) && AllDigits(r.frac) && |r.frac| == dp && r.whole + r.frac == digits
  {
  }

  lemma RoundedLeads(d: Dec, dp: nat)
    requires Valid(d) && |d.frac| > dp
    ensures var r := Rounded(d, dp); |r| > dp && Canonical(r[..|r| - dp])
  {
    var kept := d.whole + d.frac[..dp];
    BumpLeads(kept);
    assert kept[0] == d.whole[0];
    assert kept[..|d.whole|] == d.whole;
  }

  lemma RoundKeepsForm(d: Dec, dp: nat)
    requires Valid(d)
    ensures var r := Round(d, dp); Valid(r) && |r.frac| == dp && r.neg == d.neg
  {
    if |d.frac| > dp {
      RoundedLeads(d, dp);
      PointBeforeKeeps(d.neg, Rounded(d, dp), dp);
    }
  }

  lemma {:induction false} FirstDigit(tail: string, rest: string)
    requires AllDigits(tail) && tail != "" && rest == tail[1..]
    ensures AllDigits(rest) && Num(tail) == TimesPow10(DigitValue(tail[0]), |rest|) + Num(rest)
  {
    var first := [tail[0]];
    assert tail == first + rest;
    NumConcat(first, rest);
    assert first[..0] == "" && Num("") == 0;
    assert Num(first) == DigitValue(tail[0]);
  }

  /** Dropping `tail` from `kept + tail`: the first dropped digit says which side of the middle we are. */
  lemma {:induction false} FirstDropped(kept: string, tail: string)
    requires AllDigits(kept) && AllDigits(tail) && tail != ""
    ensures AllDigits(kept + tail) && Num(kept + tail) == TimesPow10(Num(kept), |tail|) + Num(tail)
    ensures tail[0] >= '5' <==> 2 * Num(tail) >= Pow10(|tail|)
    ensures Num(tail) < Pow10(|tail|)
  {
    NumConcat(kept, tail);
    NumBelowPow(tail);
    var rest := tail[1..];
    FirstDigit(tail, rest);
    NumBelowPow(rest);
    MiddleOf(DigitValue(tail[0]), Num(rest), |rest|);
  }

  lemma {:induction false} MiddleOf(c: nat, rest: nat, n: nat)
    requires c <= 9 && rest < Pow10(n)
    ensures c >= 5 <==> 2 * (TimesPow10(c, n) + rest) >= Pow10(n + 1)
  {
    FiveTimes(n);
    TimesOrder(4, c, n);
    TimesOrder(5, c, n);
    TimesOrder(c, 4, n);
    TimesAdds(4, 1, n);
  }

  lemma {:induction false} FiveTimes(n: nat)
    ensures 2 * TimesPow10(5, n) == Pow10(n + 1)
  {
    if n > 0 { FiveTimes(n - 1); }
  }

  /** The integer nearest to units / 10^m, ties going up. */
  ghost predicate HalfUp(rounded: nat, units: nat, m: nat) {
    2 * TimesPow10(rounded, m) <= 2 * units + Pow10(m) < 2 * TimesPow10(rounded + 1, m)
  }

  lemma {:induction false} NearestHalf(kept: nat, rest: nat, m: nat, rounded: nat, units: nat)
    requires rest < Pow10(m) && units == TimesPow10(kept, m) + rest
    requires rounded == kept + if 2 * rest >= Pow10(m) then 1 else 0
    ensures HalfUp(rounded, units, m)
  {
    TimesAdds(kept, 1, m);
    TimesAdds(kept + 1, 1, m);
  }

  lemma {:induction false} PaddedUnits(d: Dec, dp: nat)
    requires Valid(d) && |d.frac| <= dp
    ensures Valid(Round(d, dp)) && Units(Round(d, dp)) == TimesPow10(Units(d), dp - |d.frac|)
  {
    RoundKeepsForm(d, dp);
    var r, z := Round(d, dp), Zeros(dp - |d.frac|);
    assert r.whole + r.frac == d.whole + d.frac + z;
    NumConcat(d.whole + d.frac, z);
    NumOfZeros(z);
  }

  lemma {:induction false} CutShape(d: Dec, dp: nat, kept: string, tail: string)
    requires Valid(d) && |d.frac| > dp && kept == d.whole + d.frac[..dp] && tail == d.frac[dp..]
    ensures AllDigits(kept) && AllDigits(tail) && tail != "" && d.whole + d.frac == kept + tail
    ensures Round(d, dp).whole + Round(d, dp).frac == if tail[0] >= '5' then Bump(kept) else kept
  {
    PointBeforeKeeps(d.neg, Rounded(d, dp), dp);
  }

  lemma {:induction false} CutUnits(d: Dec, dp: nat, kept: string, tail: string)
    requires Valid(d) && |d.frac| > dp && kept == d.whole + d.frac[..dp] && tail == d.frac[dp..]
    ensures Units(d) == TimesPow10(Num(kept), |tail|) + Num(tail)
    ensures Units(Round(d, dp)) == Num(kept) + if 2 * Num(tail) >= Pow10(|tail|) then 1 else 0
    ensures Num(tail) < Pow10(|tail|)
  {
    CutShape(d, dp, kept, tail);
    FirstDropped(kept, tail);
    BumpAddsOne(kept);
  }

  lemma RoundUnits(d: Dec, dp: nat, m: nat)
    requires Valid(d) && m > 0 && |d.frac| == dp + m
    ensures HalfUp(Units(Round(d, dp)), Units(d), m)
  {
    var kept, tail := d.whole + d.frac[..dp], d.frac[dp..];
    CutUnits(d, dp, kept, tail);
    NearestHalf(Num(kept), Num(tail), m, Units(Round(d, dp)), Units(d));
  }

  // ---- The same, as amounts -----------------------------------------------------------------------

  lemma {:induction false} ScaleTen(x: real, n: nat)
    ensures ScaleUp(10.0 * x, n) == 10.0 * ScaleUp(x, n)
  {
    if n > 0 { ScaleTen(x, n - 1); }
  }

  lemma {:induction false} ScaleInverse(x: real, n: nat)
    ensures ScaleUp(ScaleDown(x, n), n) == x
  {
    if n > 0 {
      var y := ScaleDown(x, n - 1) / 10.0;
      ScaleInverse(x, n - 1);
      ScaleTen(y, n - 1);
      assert 10.0 * y == ScaleDown(x, n - 1);
    }
  }

  lemma {:induction false} ScaleAdds(x: real, y: real, n: nat)
    ensures ScaleUp(x + y, n) == ScaleUp(x, n) + ScaleUp(y, n)
  {
    if n > 0 { ScaleAdds(x, y, n - 1); }
  }

  lemma {:induction false} ScaleTwice(x: real, a: nat, b: nat)
    ensures ScaleUp(ScaleUp(x, a), b) == ScaleUp(x, a + b)
    decreases b
  {
    if b > 0 { ScaleTwice(x, a, b - 1); }
  }

  lemma {:induction false} ScaleOrder(x: real, y: real, n: nat)
    ensures x < y <==> ScaleUp(x, n) < ScaleUp(y, n)
  {
    if n > 0 { ScaleOrder(x, y, n - 1); }
  }

  lemma {:induction false} ScaleWhole(u: nat, n: nat)
    ensures ScaleUp(u as real, n) == TimesPow10(u, n) as real
  {
    if n > 0 { ScaleWhole(u, n - 1); }
  }

  /** Units are the magnitude in steps of the last digit. */
  lemma MagnitudeUnits(d: Dec)
    ensures ScaleUp(Magnitude(d), |d.frac|) == Units(d) as real
  {
    ScaleInverse(Units(d) as real, |d.frac|);
  }

  lemma MagnitudeSign(d: Dec)
    requires Valid(d)
    ensures Magnitude(d) >= 0.0
    ensures Magnitude(d) == 0.0 <==> IsZero(d)
  {
    var n := |d.frac|;
    MagnitudeUnits(d);
    ZeroHasNoUnits(d);
    ScaleWhole(0, n);
    TimesZero(n);
    ScaleOrder(Magnitude(d), 0.0, n);
    ScaleOrder(0.0, Magnitude(d), n);
  }

  lemma {:induction false} MagnitudeUnique(d: Dec, x: real)
    requires Valid(d) && ScaleUp(x, |d.frac|) == Units(d) as real
    ensures x == Magnitude(d)
  {
    MagnitudeUnits(d);
    ScaleOrder(x, Magnitude(d), |d.frac|);
    ScaleOrder(Magnitude(d), x, |d.frac|);
  }

  lemma {:induction false} NearestScaled(r: nat, u: nat, m: nat, x: real)
    requires HalfUp(r, u, m) && ScaleUp(x, m) == u as real
    ensures r as real <= x + 0.5 < r as real + 1.0
  {
    ScaleWhole(r, m);
    ScaleWhole(r + 1, m);
    ScaleWhole(1, m);
    assert 1.0 == 1 as real && (r + 1) as real == r as real + 1.0;
    ScaleAdds(0.5, 0.5, m);
    ScaleAdds(x, 0.5, m);
    ScaleOrder(x + 0.5, r as real, m);
    ScaleOrder(x + 0.5, r as real + 1.0, m);
  }

  lemma CutBounds(r: nat, u: nat, dp: nat, m: nat, x: real)
    requires HalfUp(r, u, m) && ScaleUp(x, dp + m) == u as real
    ensures r as real <= ScaleUp(x, dp) + 0.5 < r as real + 1.0
  {
    ScaleTwice(x, dp, m);
    NearestScaled(r, u, m, ScaleUp(x, dp));
  }

  lemma CutFacts(d: Dec, dp: nat, m: nat, n: nat) returns (r: nat, u: nat)
    requires Valid(d) && n == |d.frac| == dp + m && m > 0
    ensures r == Units(Round(d, dp)) && HalfUp(r, u, m) && ScaleUp(Magnitude(d), n) == u as real
  {
    MagnitudeUnits(d);
    RoundUnits(d, dp, m);
    r, u := Units(Round(d, dp)), Units(d);
  }

  /** Rounding is half-up on the magnitude: to the nearest multiple of 10^-dp, a tie going up. */
  lemma {:induction false} RoundIsHalfUp(d: Dec, dp: nat)
    requires Valid(d)
    ensures Valid(Round(d, dp)) && |Round(d, dp).frac| == dp && Round(d, dp).neg == d.neg
    ensures Units(Round(d, dp)) as real <= ScaleUp(Magnitude(d), dp) + 0.5 < Units(Round(d, dp)) as real + 1.0
    ensures |d.frac| <= dp ==> Magnitude(Round(d, dp)) == Magnitude(d)
  {
    RoundKeepsForm(d, dp);
    if |d.frac| > dp {
      var m := |d.frac| - dp;
      var r, u := CutFacts(d, dp, m, dp + m);
      CutBounds(r, u, dp, m, Magnitude(d));
    } else {
      PaddingIsExact(d, dp);
    }
  }

  lemma {:induction false} PaddingIsExact(d: Dec, dp: nat)
    requires Valid(d) && |d.frac| <= dp
    ensures Valid(Round(d, dp)) && Magnitude(Round(d, dp)) == Magnitude(d)
    ensures Units(Round(d, dp)) as real == ScaleUp(Magnitude(d), dp)
  {
    var m := dp - |d.frac|;
    RoundKeepsForm(d, dp);
    PaddedUnits(d, dp);
    MagnitudeUnits(d);
    ScaleWhole(Units(d), m);
    ScaleTwice(Magnitude(d), |d.frac|, m);
    MagnitudeUnique(Round(d, dp), Magnitude(d));
  }

  /** An amount reads as zero at `dp` exactly when it is under half a unit of that precision. */
  lemma {:induction false} ZeroWhenUnderHalf(d: Dec, dp: nat)
    requires Valid(d)
    ensures Valid(Round(d, dp))
    ensures IsZero(Round(d, dp)) <==> ScaleUp(Magnitude(d), dp) < 0.5
  {
    RoundIsHalfUp(d, dp);
    ZeroHasNoUnits(Round(d, dp));
  }

  lemma ShiftPadsShape(d: Dec, places: int, all: string)
    requires Valid(d) && |d.frac| + places < 0 && all == d.whole + d.frac + Zeros(-(|d.frac| + places))
    ensures AllDigits(all) && Shift(d, places) == Dec(d.neg, StripOrZero(all), "")
  {
    assert all[..|d.whole| - places] == all;
  }

  lemma {:induction false} ShiftPads(d: Dec, places: int)
    requires Valid(d) && |d.frac| + places < 0
    ensures Valid(Shift(d, places)) && Shift(d, places).frac == ""
    ensures Units(Shift(d, places)) == TimesPow10(Units(d), -(|d.frac| + places))
  {
    var bare, z := d.whole + d.frac, Zeros(-(|d.frac| + places));
    var all := bare + z;
    ShiftPadsShape(d, places, all);
    NumConcat(bare, z);
    NumOfZeros(z);
    StripAlone(all);
    assert StripOrZero(all) + "" == StripOrZero(all);
  }

  lemma {:induction false} StripAlone(s: string)
    requires AllDigits(s)
    ensures Canonical(StripOrZero(s)) && Num(StripOrZero(s)) == Num(s)
  {
    StripKeepsNumber(s, "");
    assert StripOrZero(s) + "" == StripOrZero(s) && s + "" == s;
  }

  lemma ShiftSplitsShape(d: Dec, places: int, head: string, tail: string)
    requires |d.frac| + places >= 0 && |d.whole| - places > 0
    requires head == (d.whole + d.frac)[..|d.whole| - places] && tail == (d.whole + d.frac)[|d.whole| - places..]
    ensures Shift(d, places) == Dec(d.neg, StripOrZero(head), tail)
    ensures head + tail == d.whole + d.frac
  {
  }

  lemma SplitUnits(d: Dec, head: string, tail: string)
    requires Valid(d) && head + tail == d.whole + d.frac
    ensures Valid(Dec(d.neg, StripOrZero(head), tail)) && Units(Dec(d.neg, StripOrZero(head), tail)) == Units(d)
  {
    PartsAreDigits(d.whole, d.frac, head, tail);
    StripKeepsNumber(head, tail);
  }

  lemma PartsAreDigits(a: string, b: string, head: string, tail: string)
    requires AllDigits(a) && AllDigits(b) && head + tail == a + b
    ensures AllDigits(head) && AllDigits(tail)
  {
    var all := a + b;
    assert AllDigits(all);
    forall i | 0 <= i < |head| ensures IsDigit(head[i]) {
      assert head[i] == all[i];
    }
    forall i | 0 <= i < |tail| ensures IsDigit(tail[i]) {
      assert tail[i] == all[|head| + i];
    }
  }

  lemma ShiftSplits(d: Dec, places: int)
    requires Valid(d) && |d.frac| + places >= 0 && |d.whole| - places > 0
    ensures Valid(Shift(d, places)) && |Shift(d, places).frac| == |d.frac| + places
    ensures Units(Shift(d, places)) == Units(d)
  {
    var bare, point := d.whole + d.frac, |d.whole| - places;
    ShiftSplitsShape(d, places, bare[..point], bare[point..]);
    SplitUnits(d, bare[..point], bare[point..]);
  }

  lemma ShiftBelowOne(d: Dec, places: int)
    requires Valid(d) && |d.whole| - places <= 0
    ensures Valid(Shift(d, places)) && |Shift(d, places).frac| == |d.frac| + places
    ensures Units(Shift(d, places)) == Units(d)
  {
    var bare, z := d.whole + d.frac, Zeros(places - |d.whole|);
    NumConcat(z, bare);
    NumOfZeros(z);
    TimesZero(|bare|);
    LeadingZero(z + bare);
    assert StripOrZero("0") == "0";
    assert Shift(d, places) == Dec(d.neg, "0", z + bare);
  }

  lemma ShiftCuts(d: Dec, places: int)
    requires Valid(d) && |d.frac| + places >= 0
    ensures Valid(Shift(d, places)) && |Shift(d, places).frac| == |d.frac| + places
    ensures Units(Shift(d, places)) == Units(d)
  {
    if |d.whole| - places > 0 { ShiftSplits(d, places); } else { ShiftBelowOne(d, places); }
  }

  lemma ShiftKeepsForm(d: Dec, places: int)
    requires Valid(d)
    ensures Valid(Shift(d, places)) && Shift(d, places).neg == d.neg
  {
    if |d.frac| + places < 0 { ShiftPads(d, places); } else { ShiftCuts(d, places); }
  }

  /** Moving the point left by `places` divides by 10^places. */
  lemma {:induction false} ShiftDivides(d: Dec, places: nat)
    requires Valid(d)
    ensures Valid(Shift(d, places)) && Shift(d, places).neg == d.neg
    ensures ScaleUp(Magnitude(Shift(d, places)), places) == Magnitude(d)
  {
    ShiftCuts(d, places);
    var e := Shift(d, places);
    MagnitudeUnits(e);
    ScaleTwice(Magnitude(e), places, |d.frac|);
    MagnitudeUnique(d, ScaleUp(Magnitude(e), places));
  }

  /** Moving it right by `places` multiplies by 10^places. */
  lemma {:induction false} ShiftMultiplies(d: Dec, places: nat)
    requires Valid(d)
    ensures Valid(Shift(d, 0 - places)) && Shift(d, 0 - places).neg == d.neg
    ensures Magnitude(Shift(d, 0 - places)) == ScaleUp(Magnitude(d), places)
  {
    ShiftKeepsForm(d, 0 - places);
    var e, x := Shift(d, 0 - places), ScaleUp(Magnitude(d), places);
    if |d.frac| >= places {
      ShiftRightCut(d, places, x);
    } else {
      ShiftRightPad(d, places, x);
    }
    MagnitudeUnique(e, x);
  }

  lemma ShiftRightCut(d: Dec, places: nat, x: real)
    requires Valid(d) && |d.frac| >= places && x == ScaleUp(Magnitude(d), places)
    ensures Valid(Shift(d, 0 - places))
    ensures ScaleUp(x, |Shift(d, 0 - places).frac|) == Units(Shift(d, 0 - places)) as real
  {
    MagnitudeUnits(d);
    ShiftCuts(d, 0 - places);
    ScaleTwice(Magnitude(d), places, |d.frac| - places);
  }

  lemma {:induction false} ShiftRightPad(d: Dec, places: nat, x: real)
    requires Valid(d) && |d.frac| < places && x == ScaleUp(Magnitude(d), places)
    ensures Valid(Shift(d, 0 - places)) && |Shift(d, 0 - places).frac| == 0
    ensures x == Units(Shift(d, 0 - places)) as real
  {
    var f := |d.frac|;
    MagnitudeUnits(d);
    ShiftPads(d, 0 - places);
    ScaleWhole(Units(d), places - f);
    ScaleTwice(Magnitude(d), f, places - f);
  }
}
