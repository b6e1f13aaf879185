/**
  * The money formatters: what they accept, what they print, and that what is printed reads
  * back as the amount (frontend/src/api.ts, formatting section).
  */
module MoneyText {
  import opened Prelude
  import opened Digits
  import opened Decimals

  // ---- The texts that denote an amount --------------------------------------------------------

  datatype Spelling = Spelling(lead: string, sign: string, whole: string, dotted: bool, frac: string, trail: string)

  ghost predicate AllSpaces(s: string) {
    forall i :: 0 <= i < |s| ==> IsSpace(s[i])
  }

  /** Spaces, an optional sign, digits with at most one point and at least one digit, spaces. */
  ghost predicate WellSpelled(p: Spelling) {
    && AllSpaces(p.lead) && AllSpaces(p.trail)
    && (p.sign == "" || p.sign == "+" || p.sign == "-")
    && AllDigits(p.whole) && AllDigits(p.frac) && p.whole + p.frac != ""
    && (!p.dotted ==> p.frac == "")
  }

  function BodyOf(p: Spelling): string {
    if p.dotted then p.whole + "." + p.frac else p.whole
  }

  function TextOf(p: Spelling): string {
    p.lead + (p.sign + BodyOf(p)) + p.trail
  }

  ghost function Reading(p: Spelling): Dec
  {
    Dec(p.sign == "-", StripOrZero(p.whole), p.frac)
  }

  lemma {:induction false} TrimStartSkips(lead: string, s: string)
    requires AllSpaces(lead)
    ensures TrimStart(lead + s) == TrimStart(s)
  {
    if lead == "" {
      assert lead + s == s;
    } else {
      assert (lead + s)[1..] == lead[1..] + s;
      TrimStartSkips(lead[1..], s);
    }
  }

  lemma {:induction false} TrimEndSkips(s: string, trail: string)
    requires AllSpaces(trail)
    ensures TrimEnd(s + trail) == TrimEnd(s)
    decreases |trail|
  {
    var n := |trail| - 1;
    if trail == "" {
      assert s + trail == s;
    } else {
      assert (s + trail)[..|s + trail| - 1] == s + trail[..n];
      assert (s + trail)[|s + trail| - 1] == trail[n];
      TrimEndSkips(s, trail[..n]);
    }
  }

  lemma TrimsTo(lead: string, core: string, trail: string)
    requires AllSpaces(lead) && AllSpaces(trail)
    requires core != "" && !IsSpace(core[0]) && !IsSpace(core[|core| - 1])
    ensures Trim(lead + core + trail) == core
  {
    assert lead + core + trail == lead + (core + trail);
    TrimStartSkips(lead, core + trail);
    assert TrimStart(core + trail) == core + trail;
    TrimEndSkips(core, trail);
  }

  lemma {:induction false} TrimStartSplits(s: string) returns (lead: string)
    ensures AllSpaces(lead) && s == lead + TrimStart(s)
  {
    if s != "" && IsSpace(s[0]) {
      var rest := TrimStartSplits(s[1..]);
      lead := [s[0]] + rest;
    } else {
      lead := "";
    }
  }

  lemma {:induction false} TrimEndSplits(s: string) returns (trail: string)
    ensures AllSpaces(trail) && s == TrimEnd(s) + trail
    decreases |s|
  {
    if s != "" && IsSpace(s[|s| - 1]) {
      var rest := TrimEndSplits(s[..|s| - 1]);
      trail := rest + [s[|s| - 1]];
    } else {
      trail := "";
    }
  }

  lemma {:induction false} DotFound(whole: string, tail: string)
    requires AllDigits(whole) && (tail == "" || tail[0] == '.')
    ensures DotAt(whole + tail) == |whole|
  {
    var b := whole + tail;
    forall k | 0 <= k < |whole| ensures b[k] != '.' {
      assert IsDigit(whole[k]);
    }
    assert tail != "" ==> b[|whole|] == '.';
  }

  lemma BodyFacts(p: Spelling, b: string)
    requires WellSpelled(p) && b == BodyOf(p)
    ensures PlainBody(b) && WholePart(b) == p.whole && FracPart(b) == p.frac
  {
    var tail := if p.dotted then "." + p.frac else "";
    assert b == p.whole + tail;
    DotFound(p.whole, tail);
    assert b[..|p.whole|] == p.whole;
    if p.dotted {
      assert b[|p.whole| + 1..] == p.frac;
    } else {
      assert b == p.whole;
    }
  }

  lemma BodyEnds(p: Spelling, b: string)
    requires WellSpelled(p) && b == BodyOf(p)
    ensures b != "" && !IsSpace(b[0]) && !IsSpace(b[|b| - 1]) && b[0] != '+' && b[0] != '-'
  {
    if p.dotted {
      assert b[0] == if p.whole == "" then '.' else p.whole[0];
      assert b[|b| - 1] == if p.frac == "" then '.' else p.frac[|p.frac| - 1];
    }
  }

  lemma SignedEnds(sign: string, b: string, core: string)
    requires b != "" && !IsSpace(b[0]) && !IsSpace(b[|b| - 1]) && b[0] != '+' && b[0] != '-'
    requires core == sign + b && (sign == "" || sign == "+" || sign == "-")
    ensures core != "" && !IsSpace(core[0]) && !IsSpace(core[|core| - 1])
    ensures Unsigned(core) == b && (core[0] == '-' <==> sign == "-")
  {
    assert core[|core| - 1] == b[|b| - 1];
    if sign == "" {
      assert core == b;
    } else {
      assert core[1..] == b && core[0] == sign[0];
    }
  }

  /** Every well-spelled text is read as its sign, its integer digits stripped of zeros, and its fraction. */
  lemma ParseReads(p: Spelling)
    requires WellSpelled(p)
    ensures ParseDec(TextOf(p)) == Some(Reading(p))
    ensures Valid(Reading(p)) && Units(Reading(p)) == Num(p.whole + p.frac)
  {
    var b := BodyOf(p);
    var core := p.sign + b;
    BodyFacts(p, b);
    BodyEnds(p, b);
    SignedEnds(p.sign, b, core);
    TrimsTo(p.lead, core, p.trail);
    StripKeepsNumber(p.whole, p.frac);
  }

  lemma BodySpelling(lead: string, sign: string, body: string, trail: string) returns (p: Spelling)
    requires AllSpaces(lead) && AllSpaces(trail) && (sign == "" || sign == "+" || sign == "-") && PlainBody(body)
    ensures WellSpelled(p) && p.lead == lead && p.sign == sign && p.trail == trail && BodyOf(p) == body
  {
    var dot := DotAt(body);
    if dot == |body| {
      p := Spelling(lead, sign, body, false, "", trail);
      assert body + "" == body;
    } else {
      p := Spelling(lead, sign, body[..dot], true, body[dot + 1..], trail);
      assert body == body[..dot] + "." + body[dot + 1..];
      assert |p.whole + p.frac| == |body| - 1;
    }
  }

  lemma TrimSplits(raw: string) returns (lead: string, trail: string)
    ensures AllSpaces(lead) && AllSpaces(trail) && raw == lead + Trim(raw) + trail
  {
    lead := TrimStartSplits(raw);
    trail := TrimEndSplits(TrimStart(raw));
    assert lead + Trim(raw) + trail == lead + (Trim(raw) + trail);
  }

  lemma UnsignedSplits(core: string) returns (sign: string)
    ensures (sign == "" || sign == "+" || sign == "-") && core == sign + Unsigned(core)
  {
    if core != "" && (core[0] == '+' || core[0] == '-') {
      sign := [core[0]];
    } else {
      sign := "";
    }
  }

  /** And nothing else is read. */
  lemma ParseOnly(raw: string)
    requires ParseDec(raw).Some?
    ensures exists p :: WellSpelled(p) && TextOf(p) == raw && ParseDec(raw) == Some(Reading(p))
  {
    var lead, trail := TrimSplits(raw);
    var sign := UnsignedSplits(Trim(raw));
    var p := BodySpelling(lead, sign, Unsigned(Trim(raw)), trail);
    assert TextOf(p) == raw;
    ParseReads(p);
  }

  /** Parsing is exact, both ways. */
  lemma ParseIsExact(raw: string, d: Dec)
    ensures ParseDec(raw) == Some(d) <==> exists p :: WellSpelled(p) && TextOf(p) == raw && d == Reading(p)
    ensures ParseDec(raw) == Some(d) ==> Valid(d)
  {
    if ParseDec(raw) == Some(d) {
      ParseOnly(raw);
      var p :| WellSpelled(p) && TextOf(p) == raw && ParseDec(raw) == Some(Reading(p));
      ParseReads(p);
    }
    if exists p :: WellSpelled(p) && TextOf(p) == raw && d == Reading(p) {
      var p :| WellSpelled(p) && TextOf(p) == raw && d == Reading(p);
      ParseReads(p);
    }
  }

  lemma NearestIsHalfUp(y: real)
    requires y >= 0.0
    ensures Nearest(y) as real <= y + 0.5 < Nearest(y) as real + 1.0
    ensures Nearest(y) == 0 <==> y < 0.5
  {
  }

  lemma FixedDigits(n: nat, dp: nat) returns (head: string, tail: string)
    ensures head + tail == PadStart(NatDigits(n), dp + 1) && |tail| == dp && head != ""
    ensures AllDigits(head) && AllDigits(tail) && Num(head + tail) == n
  {
    var digits := PadStart(NatDigits(n), dp + 1);
    head, tail := digits[..|digits| - dp], digits[|digits| - dp..];
    NatDigitsRead(n);
    PadStartReads(NatDigits(n), dp + 1);
    assert digits == head + tail;
  }

  /** A number printed to `dp` places reads back as its magnitude to the nearest unit of the last, with its sign. */
  lemma FixedReads(x: real, dp: nat) returns (d: Dec)
    ensures ParseDec(FixedText(x, dp)) == Some(d) && Valid(d)
    ensures d.neg == (x < 0.0) && |d.frac| == dp && Units(d) == Nearest(ScaleUp(AbsR(x), dp))
  {
    var head, tail := FixedDigits(Nearest(ScaleUp(AbsR(x), dp)), dp);
    var p := Spelling("", if x < 0.0 then "-" else "", head, true, tail, "");
    FixedIsSpelled(x, dp, p);
    ParseReads(p);
    d := Reading(p);
  }

  lemma {:induction false} FixedIsSpelled(x: real, dp: nat, p: Spelling)
    requires p.lead == "" && p.trail == "" && p.sign == (if x < 0.0 then "-" else "") && p.dotted && |p.frac| == dp
    requires p.whole + p.frac == PadStart(NatDigits(Nearest(ScaleUp(AbsR(x), dp))), dp + 1)
    ensures TextOf(p) == FixedText(x, dp)
  {
    var digits := p.whole + p.frac;
    CutBack(p.whole, p.frac, digits);
    EmptyEnds(p.sign + BodyOf(p));
  }

  lemma CutBack(head: string, tail: string, all: string)
    requires all == head + tail
    ensures all[..|all| - |tail|] == head && all[|all| - |tail|..] == tail
  {
  }

  lemma EmptyEnds(s: string)
    ensures "" + s + "" == s
  {
  }

  lemma ToDecIsValid(raw: string, number: string -> Option<real>)
    ensures ToDec(raw, number).Some? ==> Valid(ToDec(raw, number).value)
  {
    if ParseDec(raw).Some? {
      ParseIsExact(raw, ParseDec(raw).value);
    } else if number(raw).Some? && ToFixed(number(raw).value, FALLBACK_DP).Some? {
      var d := FixedReads(number(raw).value, FALLBACK_DP);
    }
  }

  /** Only these characters occur in a text that is read. */
  predicate InMoney(c: char) {
    IsSpace(c) || IsDigit(c) || c == '+' || c == '-' || c == '.'
  }

  lemma ReadCharacters(raw: string)
    requires ParseDec(raw).Some?
    ensures forall i :: 0 <= i < |raw| ==> InMoney(raw[i])
  {
    ParseOnly(raw);
    var p :| WellSpelled(p) && TextOf(p) == raw && ParseDec(raw) == Some(Reading(p));
    SpelledCharacters(p);
  }

  lemma SpelledCharacters(p: Spelling)
    requires WellSpelled(p)
    ensures forall i :: 0 <= i < |TextOf(p)| ==> InMoney(TextOf(p)[i])
  {
    var core := p.sign + BodyOf(p);
    assert forall i :: 0 <= i < |p.whole| ==> IsDigit(p.whole[i]);
    assert forall i :: 0 <= i < |p.frac| ==> IsDigit(p.frac[i]);
    assert forall i :: 0 <= i < |BodyOf(p)| ==> InMoney(BodyOf(p)[i]);
    assert forall i :: 0 <= i < |core| ==> InMoney(core[i]);
  }

  // ---- Printing reads back ----------------------------------------------------------------------

  /** The rounded amount, a zero losing its sign. */
  ghost function Shown(d: Dec, dp: nat): Dec
  {
    var r := Round(d, dp);
    r.(neg := r.neg && !IsZero(r))
  }

  lemma PrintedReads(r: Dec, dp: nat, sign: string, text: string)
    requires Valid(r) && |r.frac| == dp && (sign == "" || sign == "-")
    requires text == sign + Body(r, dp)
    ensures ParseDec(text) == Some(Dec(sign == "-", r.whole, r.frac))
  {
    var p := Spelling("", sign, r.whole, dp > 0, r.frac, "");
    assert Body(r, dp) == BodyOf(p);
    assert TextOf(p) == text;
    ParseReads(p);
    StripKeepsNumber(r.whole, r.frac);
  }

  /** The printed text parses to exactly the rounded amount. */
  lemma RenderReadsBack(d: Dec, dp: nat)
    requires Valid(d)
    ensures ParseDec(Render(d, dp)) == Some(Shown(d, dp))
    ensures Valid(Shown(d, dp)) && |Shown(d, dp).frac| == dp
  {
    RoundKeepsForm(d, dp);
    var r := Round(d, dp);
    var minus := r.neg && !IsZero(r);
    var sign := if minus then "-" else "";
    assert Render(d, dp) == sign + Body(r, dp);
    PrintedReads(r, dp, sign, Render(d, dp));
  }

  /** What is printed is the amount to the nearest unit of the last place, ties away from zero. */
  lemma {:induction false} RenderedAmount(d: Dec, dp: nat)
    requires Valid(d)
    ensures var e := ParseDec(Render(d, dp));
      && e.Some? && Valid(e.value) && |e.value.frac| == dp
      && Units(e.value) as real <= ScaleUp(Magnitude(d), dp) + 0.5 < Units(e.value) as real + 1.0
      && (IsZero(e.value) <==> ScaleUp(Magnitude(d), dp) < 0.5)
      && (!IsZero(e.value) ==> e.value.neg == d.neg) && (IsZero(e.value) ==> !e.value.neg)
  {
    RenderReadsBack(d, dp);
    RoundIsHalfUp(d, dp);
    ZeroWhenUnderHalf(d, dp);
    var r := Round(d, dp);
    assert Shown(d, dp).whole + Shown(d, dp).frac == r.whole + r.frac;
  }

  // ---- Going finer rather than reading as zero ----------------------------------------------------

  function SignificantFrom(d: Dec, p: nat, maxDp: nat): string
    decreases maxDp - p
  {
    if p < maxDp then
      if !IsZero(Round(d, p)) then Render(d, p) else SignificantFrom(d, p + 1, maxDp)
    else Render(d, maxDp)
  }

  function Significant(d: Dec, dp: nat, maxDp: nat): string
  {
    if IsZero(d) then Render(d, dp) else SignificantFrom(d, dp, maxDp)
  }

  method RenderSignificant(d: Dec, dp: nat, maxDp: nat) returns (text: string)
    ensures text == Significant(d, dp, maxDp)
  {
    if IsZero(d) {
      return Render(d, dp);
    }
    var p := dp;
    while p < maxDp
      invariant dp <= p
      invariant SignificantFrom(d, dp, maxDp) == SignificantFrom(d, p, maxDp)
    {
      if !IsZero(Round(d, p)) {
        return Render(d, p);
      }
      p := p + 1;
    }
    text := Render(d, maxDp);
  }

  ghost predicate FirstVisible(d: Dec, from: nat, p: nat) {
    from <= p && ScaleUp(Magnitude(d), p) >= 0.5 && forall q :: from <= q < p ==> ScaleUp(Magnitude(d), q) < 0.5
  }

  lemma SignificantStep(d: Dec, from: nat, maxDp: nat, x: real)
    requires Valid(d) && from <= maxDp && x == Magnitude(d) && ScaleUp(x, maxDp) >= 0.5
    ensures ScaleUp(x, from) >= 0.5 ==> SignificantFrom(d, from, maxDp) == Render(d, from)
    ensures ScaleUp(x, from) < 0.5 ==> from < maxDp && SignificantFrom(d, from, maxDp) == SignificantFrom(d, from + 1, maxDp)
  {
    ZeroWhenUnderHalf(d, from);
  }

  /** The text is the amount at the first precision that shows it, stopping at the limit. */
  lemma {:induction false} SignificantShows(d: Dec, from: nat, maxDp: nat) returns (p: nat)
    requires Valid(d) && from <= maxDp && ScaleUp(Magnitude(d), maxDp) >= 0.5
    ensures p <= maxDp && FirstVisible(d, from, p) && SignificantFrom(d, from, maxDp) == Render(d, p)
    decreases maxDp - from
  {
    SignificantStep(d, from, maxDp, Magnitude(d));
    if ScaleUp(Magnitude(d), from) >= 0.5 {
      p := from;
    } else {
      p := SignificantShows(d, from + 1, maxDp);
      StillHidden(d, from, p);
    }
  }

  lemma StillHidden(d: Dec, from: nat, p: nat)
    requires FirstVisible(d, from + 1, p) && ScaleUp(Magnitude(d), from) < 0.5
    ensures FirstVisible(d, from, p)
  {
  }

  const MAX_CENT_DP := 4
  const DASH := "\U{2014}"
  const CENT := "\U{A2}"

  function AsCentsAmount(cents: Option<string>, dp: nat, number: string -> Option<real>): string {
    if cents.None? || cents.value == "" then DASH
    else
      match ToDec(cents.value, number)
      case None => DASH
      case Some(d) =>
        if TooSmall(d, MAX_CENT_DP) then (if d.neg then "-" else "") + "<0.0001" + CENT
        else Significant(d, dp, MAX_CENT_DP) + CENT
  }

  function Coarsest(dp: nat): nat {
    if dp < MAX_CENT_DP then dp else MAX_CENT_DP
  }

  /**
    * A real amount is printed as a real amount. Under half a centicent it reads "<0.0001";
    * otherwise the figure before the symbol parses to a non-zero amount of the same sign,
    * rounded half-up at the coarsest precision, from `dp` up to four places, that does not read as zero.
    */
  lemma CentsNeverReadAsZero(raw: string, dp: nat, number: string -> Option<real>, d: Dec)
    requires raw != "" && ToDec(raw, number) == Some(d) && !IsZero(d)
    ensures ScaleUp(Magnitude(d), 4) < 0.5 ==>
      AsCentsAmount(Some(raw), dp, number) == (if d.neg then "-" else "") + "<0.0001" + "\U{A2}"
    ensures ScaleUp(Magnitude(d), 4) >= 0.5 ==>
      exists p: nat :: p <= 4 && FirstVisible(d, Coarsest(dp), p) && AsCentsAmount(Some(raw), dp, number) == Render(d, p) + "\U{A2}"
        && ParseDec(Render(d, p)).Some? && !IsZero(ParseDec(Render(d, p)).value) && ParseDec(Render(d, p)).value.neg == d.neg
  {
    ToDecIsValid(raw, number);
    ZeroWhenUnderHalf(d, MAX_CENT_DP);
    if ScaleUp(Magnitude(d), MAX_CENT_DP) >= 0.5 {
      var p := VisibleFigure(d, dp);
    }
  }

  /** The figure printed for an amount that four places can show. */
  lemma VisibleFigure(d: Dec, dp: nat) returns (p: nat)
    requires Valid(d) && !IsZero(d) && ScaleUp(Magnitude(d), MAX_CENT_DP) >= 0.5
    ensures p <= MAX_CENT_DP && FirstVisible(d, Coarsest(dp), p) && Significant(d, dp, MAX_CENT_DP) == Render(d, p)
    ensures ParseDec(Render(d, p)).Some? && !IsZero(ParseDec(Render(d, p)).value) && ParseDec(Render(d, p)).value.neg == d.neg
  {
    p := SignificantShows(d, Coarsest(dp), MAX_CENT_DP);
    RenderedAmount(d, p);
  }

  // ---- Dollars ------------------------------------------------------------------------------------

  /** Commas every three digits from the right. */
  function Group(s: string): string {
    if |s| <= 3 then s else Group(s[..|s| - 3]) + "," + s[|s| - 3..]
  }

  function FromRight(s: string, i: int): char
    requires 0 <= i < |s|
  {
    s[|s| - 1 - i]
  }

  /** From the right, every fourth character is a comma and no other is. */
  lemma {:induction false} GroupsOfThree(s: string)
    requires AllDigits(s)
    ensures forall i :: 0 <= i < |Group(s)| ==> (FromRight(Group(s), i) == ',' <==> i % 4 == 3)
    ensures s != "" ==> Group(s) != "" && IsDigit(Group(s)[0])
    decreases |s|
  {
    if |s| > 3 {
      var head, tail := s[..|s| - 3], s[|s| - 3..];
      GroupsOfThree(head);
      var g, all := Group(head), Group(s);
      assert all == g + "," + tail;
      forall i | 0 <= i < |all| ensures FromRight(all, i) == ',' <==> i % 4 == 3 {
        if i < 3 {
          assert FromRight(all, i) == tail[2 - i];
          assert IsDigit(tail[2 - i]);
        } else if i == 3 {
          assert all[|g|] == ',';
        } else {
          assert FromRight(all, i) == FromRight(g, i - 4);
        }
      }
    } else {
      forall i | 0 <= i < |s| ensures FromRight(s, i) != ',' {
        assert IsDigit(s[|s| - 1 - i]);
      }
    }
  }

  predicate Decoration(c: char) {
    c == '$' || c == ',' || c == '\U{A2}'
  }

  /** The figure without its currency symbols and commas. */
  function Plain(s: string): string {
    if s == "" then "" else (if Decoration(s[0]) then "" else [s[0]]) + Plain(s[1..])
  }

  lemma {:induction false} PlainConcat(a: string, b: string)
    ensures Plain(a + b) == Plain(a) + Plain(b)
  {
    if a == "" {
      assert a + b == b;
    } else {
      assert (a + b)[1..] == a[1..] + b;
      PlainConcat(a[1..], b);
    }
  }

  lemma {:induction false} PlainAlready(s: string)
    requires forall i :: 0 <= i < |s| ==> !Decoration(s[i])
    ensures Plain(s) == s
  {
    if s != "" { PlainAlready(s[1..]); }
  }

  lemma CommaIsDropped()
    ensures Plain(",") == ""
  {
    assert ","[1..] == "";
  }

  lemma {:induction false} UngroupedIsSame(s: string)
    requires AllDigits(s)
    ensures Plain(Group(s)) == s
    decreases |s|
  {
    if |s| > 3 {
      var head, tail := s[..|s| - 3], s[|s| - 3..];
      UngroupedIsSame(head);
      PlainThree(Group(head), ",", tail);
      CommaIsDropped();
      PlainAlready(tail);
      assert s == head + tail;
    } else {
      PlainAlready(s);
    }
  }

  function UsdBody(r: Dec): string {
    "$" + Group(r.whole) + "." + r.frac
  }

  function Usd(d: Dec): string
  {
    var r := Round(d, 2);
    if r.neg && !IsZero(r) then "-" + UsdBody(r) else UsdBody(r)
  }

  lemma {:induction false} PlainThree(a: string, b: string, c: string)
    ensures Plain(a + b + c) == Plain(a) + Plain(b) + Plain(c)
  {
    PlainConcat(a + b, c);
    PlainConcat(a, b);
  }

  lemma {:induction false} PlainParts(a: string, b: string, c: string)
    ensures Plain("$" + a + b + c) == Plain(a) + Plain(b) + Plain(c)
  {
    assert "$" + a + b + c == "$" + (a + b + c);
    PlainConcat("$", a + b + c);
    PlainThree(a, b, c);
    DollarIsDropped();
  }

  lemma DollarIsDropped()
    ensures Plain("$") == ""
  {
    assert "$"[1..] == "";
  }

  lemma UsdBodyIsPlain(r: Dec)
    requires Valid(r)
    ensures Plain(UsdBody(r)) == r.whole + "." + r.frac
  {
    PlainParts(Group(r.whole), ".", r.frac);
    UngroupedIsSame(r.whole);
    PlainAlready(r.frac);
    PlainAlready(".");
  }

  /** Dollars are the two-decimal figure, decorated. */
  lemma UsdIsDecorated(d: Dec)
    requires Valid(d)
    ensures Plain(Usd(d)) == Render(d, 2)
  {
    RoundKeepsForm(d, 2);
    var r := Round(d, 2);
    UsdBodyIsPlain(r);
    PlainConcat("-", UsdBody(r));
    PlainAlready("-");
  }

  function AsDollars(cents: Option<string>, number: string -> Option<real>): string {
    if cents.None? || cents.value == "" then DASH
    else
      match ToDec(cents.value, number)
      case None => DASH
      case Some(d) =>
        if !IsZero(d) && |d.whole| <= 2 then AsCentsAmount(cents, 2, number)
        else Usd(Shift(d, 2))
  }

  lemma {:induction false} LeadingDigitCounts(s: string)
    requires AllDigits(s) && s != "" && s[0] != '0'
    ensures 10 * Num(s) >= Pow10(|s|)
    decreases |s|
  {
    if |s| > 1 {
      LeadingDigitCounts(s[..|s| - 1]);
    } else {
      assert s[..0] == "";
    }
  }

  lemma UnitsSplit(d: Dec)
    requires Valid(d)
    ensures Units(d) == TimesPow10(Num(d.whole), |d.frac|) + Num(d.frac)
    ensures Num(d.frac) < Pow10(|d.frac|)
  {
    NumConcat(d.whole, d.frac);
    NumBelowPow(d.frac);
  }

  /** `int` carries no leading zeros, so its length tells whether the amount is under 100. */
  lemma TwoDigitsIsUnderHundred(d: Dec)
    requires Valid(d)
    ensures |d.whole| <= 2 <==> Magnitude(d) < 100.0
  {
    var f := |d.frac|;
    UnitsSplit(d);
    MagnitudeUnits(d);
    ScaleWhole(100, f);
    ScaleOrder(Magnitude(d), 100.0, f);
    WholeOfThree(d.whole);
    TimesOrder(Num(d.whole), 100, f);
    TimesOrder(99, Num(d.whole), f);
    TimesOrder(Num(d.whole), 99, f);
    TimesAdds(99, 1, f);
  }

  lemma {:induction false} WholeOfThree(s: string)
    requires AllDigits(s) && Canonical(s)
    ensures |s| <= 2 <==> Num(s) < 100
  {
    NumBelowPow(s);
    assert Pow10(1) == 10 && Pow10(2) == 100;
    if |s| > 2 {
      LeadingDigitCounts(s);
      PowGrows(3, |s|);
      assert Pow10(3) == 1000;
    } else if |s| == 1 {
      assert s[..0] == "";
    }
  }

  lemma {:induction false} PowGrows(a: nat, b: nat)
    requires a <= b
    ensures Pow10(a) <= Pow10(b)
    decreases b
  {
    if a < b { PowGrows(a, b - 1); }
  }

  /**
    * Under a dollar the figure stays in cents; from a dollar up it is dollars that read back as
    * the amount divided by 100 and rounded to two places. Neither reads a real amount as zero.
    */
  lemma DollarsUseTheUnitThatFits(raw: string, number: string -> Option<real>, d: Dec)
    requires raw != "" && ToDec(raw, number) == Some(d) && !IsZero(d)
    ensures Magnitude(d) < 100.0 ==> AsDollars(Some(raw), number) == AsCentsAmount(Some(raw), 2, number)
    ensures Magnitude(d) >= 100.0 ==>
      var e := ParseDec(Plain(AsDollars(Some(raw), number)));
      && e.Some? && Valid(e.value) && !IsZero(e.value) && e.value.neg == d.neg && |e.value.frac| == 2
      && Units(e.value) as real <= Magnitude(d) + 0.5 < Units(e.value) as real + 1.0
  {
    ToDecIsValid(raw, number);
    TwoDigitsIsUnderHundred(d);
    if Magnitude(d) >= 100.0 {
      ShiftDivides(d, 2);
      UsdIsDecorated(Shift(d, 2));
      RenderedAmount(Shift(d, 2), 2);
    }
  }

  function AsUsd(dollars: Option<string>, number: string -> Option<real>): string {
    if dollars.None? || dollars.value == "" then DASH
    else
      match ToDec(dollars.value, number)
      case None => DASH
      case Some(d) => Usd(d)
  }

  /**
    * Amounts that arrive in dollars get no such care: a real one reads as zero exactly when it
    * is under half a cent.
    */
  lemma UsdReadsAsZeroExactly(raw: string, number: string -> Option<real>, d: Dec)
    requires raw != "" && ToDec(raw, number) == Some(d)
    ensures var e := ParseDec(Plain(AsUsd(Some(raw), number)));
      && e.Some? && Valid(e.value) && (IsZero(e.value) <==> ScaleUp(Magnitude(d), 2) < 0.5)
  {
    ToDecIsValid(raw, number);
    UsdIsDecorated(d);
    RenderedAmount(d, 2);
  }

  /** Four tenths of a cent, held in dollars, prints as nothing. */
  lemma UsdHidesASmallAmount(number: string -> Option<real>)
    ensures var d := ToDec("0.004", number);
      && d.Some? && Valid(d.value) && !IsZero(d.value)
      && ParseDec(Plain(AsUsd(Some("0.004"), number))).Some? && IsZero(ParseDec(Plain(AsUsd(Some("0.004"), number))).value)
  {
    var d := Dec(false, "0", "004");
    SmallParses(d);
    SmallMagnitude(d);
    UsdReadsAsZeroExactly("0.004", number, d);
  }

  lemma SmallParses(d: Dec)
    requires d == Dec(false, "0", "004")
    ensures ParseDec("0.004") == Some(d)
  {
    assert "0.004" == "" + Body(d, 3);
    PrintedReads(d, 3, "", "0.004");
  }

  lemma SmallMagnitude(d: Dec)
    requires d == Dec(false, "0", "004")
    ensures Valid(d) && !IsZero(d) && ScaleUp(Magnitude(d), 2) < 0.5
  {
    var s := d.whole + d.frac;
    assert s == "000" + "4";
    NumOfZeros("000");
    NumSnoc("000", '4');
    assert s[3] == '4';
    assert Units(d) == 4;
    assert ScaleUp(ScaleDown(4.0, 3), 2) == 0.4;
  }

  /** -1, 0 or 1; a text that is no amount counts as 0. */
  function MoneySign(cents: Option<string>, number: string -> Option<real>): int {
    if cents.None? || cents.value == "" then 0
    else
      match ToDec(cents.value, number)
      case None => 0
      case Some(d) => if IsZero(d) then 0 else if d.neg then -1 else 1
  }

  lemma MoneySignIsTheSign(raw: string, number: string -> Option<real>, d: Dec)
    requires raw != "" && ToDec(raw, number) == Some(d)
    ensures MoneySign(Some(raw), number) == if Value(d) < 0.0 then -1 else if Value(d) == 0.0 then 0 else 1
  {
    ToDecIsValid(raw, number);
    MagnitudeSign(d);
  }

  /** What is missing, blank or past reading is shown as a dash and has no sign. */
  lemma NothingShows(text: Option<string>, dp: nat, number: string -> Option<real>)
    requires text.Some? && text.value != "" ==> ToDec(text.value, number).None?
    ensures AsCentsAmount(text, dp, number) == AsDollars(text, number) == AsUsd(text, number) == "\U{2014}"
    ensures MoneySign(text, number) == 0
  {
  }

  // ---- From the text that arrived to the figure that is shown -------------------------------------

  /** The amount a text stands for: its digits when it is plain, else the number it denotes. */
  ghost function Amount(raw: string, number: string -> Option<real>): Option<real> {
    match ParseDec(raw)
    case Some(d) => Some(Value(d))
    case None => number(raw)
  }

  /** Read by the strict grammar, without the fallback. */
  predicate Plainly(raw: string) {
    ParseDec(raw).Some?
  }

  /** Whether the fallback's eight places lose the amount. */
  predicate LostInFallback(raw: string, v: real) {
    !Plainly(raw) && ScaleUp(AbsR(v), FALLBACK_DP) < 0.5
  }

  lemma {:induction false} ScaleNonNegative(x: real, n: nat)
    requires x >= 0.0
    ensures ScaleUp(x, n) >= 0.0
  {
    if n > 0 { ScaleNonNegative(x, n - 1); }
  }

  /** What the formatters work on: the plain digits, or the number to eight places, unless it is too large to have them. */
  lemma FallbackReads(raw: string, number: string -> Option<real>, v: real)
    requires !Plainly(raw) && number(raw) == Some(v)
    ensures ToDec(raw, number).None? <==> AbsR(v) >= 1_000_000_000_000_000_000_000.0
    ensures ToDec(raw, number).Some? ==>
      var d := ToDec(raw, number).value;
      && Valid(d) && d.neg == (v < 0.0) && |d.frac| == FALLBACK_DP && Units(d) == Nearest(ScaleUp(AbsR(v), FALLBACK_DP))
      && (IsZero(d) <==> LostInFallback(raw, v))
  {
    if AbsR(v) < 1_000_000_000_000_000_000_000.0 {
      var d := FixedReads(v, FALLBACK_DP);
      ZeroHasNoUnits(d);
      ScaleNonNegative(AbsR(v), FALLBACK_DP);
      NearestIsHalfUp(ScaleUp(AbsR(v), FALLBACK_DP));
    }
  }

  /** The figure shown, its symbols aside, is a zero. */
  predicate ReadsAsZero(text: string) {
    ParseDec(Plain(text)).Some? && IsZero(ParseDec(Plain(text)).value)
  }

  lemma {:induction false} FigureStripped(figure: string)
    requires ParseDec(figure).Some?
    ensures Plain(figure + CENT) == figure
  {
    ReadCharacters(figure);
    PlainAlready(figure);
    PlainConcat(figure, CENT);
    assert CENT[1..] == "" && Plain(CENT) == "";
  }

  lemma NotAFigure(text: string, i: nat)
    requires i < |text| && !InMoney(text[i])
    ensures ParseDec(text).None?
  {
    if ParseDec(text).Some? {
      ReadCharacters(text);
    }
  }

  lemma MarkerIsNotZero(neg: bool)
    ensures !ReadsAsZero((if neg then "-" else "") + "<0.0001" + CENT)
    ensures !ReadsAsZero(DASH)
  {
    var marker := (if neg then "-" else "") + "<0.0001";
    PlainAlready(marker);
    PlainConcat(marker, CENT);
    assert CENT[1..] == "" && Plain(CENT) == "";
    assert marker + "" == marker;
    NotAFigure(marker, if neg then 1 else 0);
    PlainAlready(DASH);
    NotAFigure(DASH, 0);
  }

  lemma {:induction false} ZeroStaysZero(d: Dec, dp: nat)
    requires Valid(d)
    ensures IsZero(d) ==> ScaleUp(Magnitude(d), dp) < 0.5
  {
    MagnitudeSign(d);
    if IsZero(d) {
      ScaleWhole(0, dp);
      TimesZero(dp);
    }
  }

  /** Once read, an amount in cents is shown as zero exactly when it is zero. */
  lemma CentsShowZeroExactly(raw: string, dp: nat, number: string -> Option<real>, d: Dec)
    requires raw != "" && ToDec(raw, number) == Some(d)
    ensures ReadsAsZero(AsCentsAmount(Some(raw), dp, number)) <==> IsZero(d)
  {
    ToDecIsValid(raw, number);
    if IsZero(d) {
      ZeroStaysZero(d, dp);
      RenderedAmount(d, dp);
      FigureStripped(Render(d, dp));
    } else if ScaleUp(Magnitude(d), MAX_CENT_DP) < 0.5 {
      CentsNeverReadAsZero(raw, dp, number, d);
      MarkerIsNotZero(d.neg);
    } else {
      CentsNeverReadAsZero(raw, dp, number, d);
      var p: nat :| p <= MAX_CENT_DP && AsCentsAmount(Some(raw), dp, number) == Render(d, p) + CENT
        && ParseDec(Render(d, p)).Some? && !IsZero(ParseDec(Render(d, p)).value);
      FigureStripped(Render(d, p));
    }
  }

  lemma DollarsShowZeroExactly(raw: string, number: string -> Option<real>, d: Dec)
    requires raw != "" && ToDec(raw, number) == Some(d)
    ensures ReadsAsZero(AsDollars(Some(raw), number)) <==> IsZero(d)
  {
    ToDecIsValid(raw, number);
    if IsZero(d) {
      ZeroShifts(d);
      UsdIsDecorated(Shift(d, 2));
      RenderedAmount(Shift(d, 2), 2);
    } else {
      DollarsUseTheUnitThatFits(raw, number, d);
      CentsShowZeroExactly(raw, 2, number, d);
    }
  }

  lemma ZeroShifts(d: Dec)
    requires Valid(d) && IsZero(d)
    ensures Valid(Shift(d, 2)) && ScaleUp(Magnitude(Shift(d, 2)), 2) < 0.5
  {
    ShiftDivides(d, 2);
    MagnitudeSign(d);
  }

  /**
    * The rule that a real amount never reads as zero, exactly: a plain text reads as zero only
    * when it is zero; one that takes the fallback reads as zero exactly when the amount is under
    * half of the eighth place.
    */
  lemma NeverReadsAsZeroExactly(raw: string, dp: nat, number: string -> Option<real>, v: real)
    requires raw != "" && Amount(raw, number) == Some(v)
    ensures ReadsAsZero(AsCentsAmount(Some(raw), dp, number)) <==> if Plainly(raw) then v == 0.0 else LostInFallback(raw, v)
    ensures ReadsAsZero(AsDollars(Some(raw), number)) <==> if Plainly(raw) then v == 0.0 else LostInFallback(raw, v)
  {
    if Plainly(raw) {
      var d := ParseDec(raw).value;
      ToDecIsValid(raw, number);
      MagnitudeSign(d);
      CentsShowZeroExactly(raw, dp, number, d);
      DollarsShowZeroExactly(raw, number, d);
    } else {
      FallbackReads(raw, number, v);
      if ToDec(raw, number).Some? {
        CentsShowZeroExactly(raw, dp, number, ToDec(raw, number).value);
        DollarsShowZeroExactly(raw, number, ToDec(raw, number).value);
      } else {
        MarkerIsNotZero(false);
        LargeIsNotLost(v);
      }
    }
  }

  lemma LargeIsNotLost(v: real)
    requires AbsR(v) >= 1_000_000_000_000_000_000_000.0
    ensures ScaleUp(AbsR(v), FALLBACK_DP) >= 0.5
  {
    ScaleOrder(1.0, AbsR(v), FALLBACK_DP);
    ScaleWhole(1, FALLBACK_DP);
    TimesOrder(0, 1, FALLBACK_DP);
    assert 1.0 == 1 as real;
  }

  /** The sign is that of the amount, except that the fallback calls 0 what it loses and what it cannot print. */
  lemma MoneySignExactly(raw: string, number: string -> Option<real>, v: real)
    requires raw != "" && Amount(raw, number) == Some(v)
    ensures MoneySign(Some(raw), number) ==
      if LostInFallback(raw, v) || (!Plainly(raw) && AbsR(v) >= 1_000_000_000_000_000_000_000.0) then 0
      else if v < 0.0 then -1 else if v == 0.0 then 0 else 1
  {
    if Plainly(raw) {
      MoneySignIsTheSign(raw, number, ParseDec(raw).value);
    } else {
      FallbackReads(raw, number, v);
      ScaleNonNegative(AbsR(v), FALLBACK_DP);
      ZeroIsLost(v);
    }
  }

  lemma ZeroIsLost(v: real)
    ensures v == 0.0 ==> ScaleUp(AbsR(v), FALLBACK_DP) < 0.5
  {
    ScaleWhole(0, FALLBACK_DP);
    TimesZero(FALLBACK_DP);
  }

  /** Dollars, from the text: half a cent when it is plain, and half a unit of the eighth place less through the fallback. */
  lemma UsdLosesExactly(raw: string, number: string -> Option<real>, v: real)
    requires raw != "" && Amount(raw, number) == Some(v)
    ensures ReadsAsZero(AsUsd(Some(raw), number)) <==>
      if Plainly(raw) then ScaleUp(AbsR(v), 2) < 0.5 else ScaleUp(AbsR(v), FALLBACK_DP) < 499_999.5
  {
    if Plainly(raw) {
      UsdLosesPlain(raw, number, ParseDec(raw).value);
    } else if ToDec(raw, number).Some? {
      UsdLosesFallback(raw, number, v, ToDec(raw, number).value);
    } else {
      FallbackReads(raw, number, v);
      MarkerIsNotZero(false);
      LargeIsLarge(v);
    }
  }

  lemma UsdLosesPlain(raw: string, number: string -> Option<real>, d: Dec)
    requires raw != "" && ParseDec(raw) == Some(d)
    ensures ReadsAsZero(AsUsd(Some(raw), number)) <==> ScaleUp(AbsR(Value(d)), 2) < 0.5
  {
    ToDecIsValid(raw, number);
    MagnitudeSign(d);
    UsdReadsAsZeroExactly(raw, number, d);
    assert AbsR(Value(d)) == Magnitude(d);
  }

  lemma UsdLosesFallback(raw: string, number: string -> Option<real>, v: real, d: Dec)
    requires raw != "" && !Plainly(raw) && number(raw) == Some(v) && ToDec(raw, number) == Some(d)
    ensures ReadsAsZero(AsUsd(Some(raw), number)) <==> ScaleUp(AbsR(v), FALLBACK_DP) < 499_999.5
  {
    FallbackReads(raw, number, v);
    UsdReadsAsZeroExactly(raw, number, d);
    ScaleNonNegative(AbsR(v), FALLBACK_DP);
    CentOfEighths(d, ScaleUp(AbsR(v), FALLBACK_DP));
  }

  lemma LargeIsLarge(v: real)
    requires AbsR(v) >= 1_000_000_000_000_000_000_000.0
    ensures ScaleUp(AbsR(v), FALLBACK_DP) >= 499_999.5
  {
    ScaleOrder(1.0, AbsR(v), FALLBACK_DP);
    assert ScaleUp(1.0, 8) == 10.0 * (10.0 * (10.0 * (10.0 * ScaleUp(1.0, 4))));
    assert ScaleUp(1.0, 4) == 10000.0;
  }

  lemma CentOfEighths(d: Dec, y: real)
    requires Valid(d) && |d.frac| == FALLBACK_DP && y >= 0.0 && Units(d) == Nearest(y)
    ensures ScaleUp(Magnitude(d), 2) < 0.5 <==> y < 499_999.5
  {
    MagnitudeUnits(d);
    ScaleTwice(Magnitude(d), 2, 6);
    ScaleOrder(ScaleUp(Magnitude(d), 2), 0.5, 6);
    assert ScaleUp(0.5, 6) == 10.0 * (10.0 * (10.0 * ScaleUp(0.5, 3)));
    assert ScaleUp(0.5, 3) == 500.0;
    NearestIsHalfUp(y);
  }

  /** A billionth of a cent in exponent notation: real, and shown as nothing. */
  lemma ExponentReadsAsZero(number: string -> Option<real>)
    requires number("1E-9") == Some(0.000000001)
    ensures ReadsAsZero(AsCentsAmount(Some("1E-9"), 2, number)) && ReadsAsZero(AsDollars(Some("1E-9"), number))
    ensures MoneySign(Some("1E-9"), number) == 0
  {
    NotAFigure("1E-9", 1);
    assert ScaleUp(0.000000001, 8) == 10.0 * (10.0 * (10.0 * (10.0 * ScaleUp(0.000000001, 4))));
    assert ScaleUp(0.000000001, 4) == 0.00001;
    NeverReadsAsZeroExactly("1E-9", 2, number, 0.000000001);
    MoneySignExactly("1E-9", number, 0.000000001);
  }
}
