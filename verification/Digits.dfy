/** Strings of decimal digits and the numbers they denote (frontend/src/api.ts, formatting section). */
module Digits {
  predicate IsDigit(c: char) {
    '0' <= c <= '9'
  }

  predicate AllDigits(s: string) {
    forall i :: 0 <= i < |s| ==> IsDigit(s[i])
  }

  function DigitValue(c: char): (v: nat)
    ensures v <= 9
  {
    if IsDigit(c) then (c - '0') as int else 0
  }

  /** x * 10^n. */
  function TimesPow10(x: nat, n: nat): nat {
    if n == 0 then x else 10 * TimesPow10(x, n - 1)
  }

  function Pow10(n: nat): nat {
    TimesPow10(1, n)
  }

  lemma {:induction false} TimesAdds(x: nat, y: nat, n: nat)
    ensures TimesPow10(x + y, n) == TimesPow10(x, n) + TimesPow10(y, n)
  {
    if n > 0 { TimesAdds(x, y, n - 1); }
  }

  lemma {:induction false} TimesZero(n: nat)
    ensures TimesPow10(0, n) == 0
  {
    if n > 0 { TimesZero(n - 1); }
  }

  lemma {:induction false} TimesOrder(x: nat, y: nat, n: nat)
    ensures x < y <==> TimesPow10(x, n) < TimesPow10(y, n)
  {
    if n > 0 { TimesOrder(x, y, n - 1); }
  }

  function Num(s: string): nat
  {
    if s == "" then 0 else 10 * Num(s[..|s| - 1]) + DigitValue(s[|s| - 1])
  }

  lemma {:induction false} NumSnoc(s: string, c: char)
    ensures Num(s + [c]) == 10 * Num(s) + DigitValue(c)
  {
    assert (s + [c])[..|s|] == s;
  }

  lemma {:induction false} NumConcat(a: string, b: string)
    ensures Num(a + b) == TimesPow10(Num(a), |b|) + Num(b)
    decreases |b|
  {
    if b == "" {
      assert a + b == a;
    } else {
      var n := |b| - 1;
      NumConcat(a, b[..n]);
      NumSnoc(a + b[..n], b[n]);
      assert a + b == a + b[..n] + [b[n]];
    }
  }

  lemma {:induction false} NumBelowPow(s: string)
    ensures Num(s) < Pow10(|s|)
    decreases |s|
  {
    if s != "" {
      NumBelowPow(s[..|s| - 1]);
    }
  }

  function Zeros(n: nat): (s: string)
    ensures |s| == n && AllDigits(s) && forall i :: 0 <= i < n ==> s[i] == '0'
  {
    seq(n, _ => '0')
  }

  lemma {:induction false} NumOfZeros(s: string)
    requires AllDigits(s)
    ensures Num(s) == 0 <==> forall i :: 0 <= i < |s| ==> s[i] == '0'
    decreases |s|
  {
    if s != "" {
      NumOfZeros(s[..|s| - 1]);
    }
  }

  /** The decimal digits of a number, without leading zeros. */
  function NatDigits(n: nat): (s: string)
    ensures AllDigits(s) && s != ""
  {
    if n < 10 then [('0' as int + n) as char]
    else NatDigits(n / 10) + [('0' as int + n % 10) as char]
  }

  lemma {:induction false} NatDigitsRead(n: nat)
    ensures Num(NatDigits(n)) == n
  {
    var last := [('0' as int + n % 10) as char];
    if n < 10 {
      assert NatDigits(n)[..0] == "";
    } else {
      NatDigitsRead(n / 10);
      NumSnoc(NatDigits(n / 10), last[0]);
    }
  }

  /** Zeros in front, up to a length. */
  function PadStart(s: string, n: nat): (r: string)
    ensures |r| >= n && |r| >= |s|
    ensures AllDigits(s) ==> AllDigits(r)
  {
    if |s| >= n then s else Zeros(n - |s|) + s
  }

  lemma {:induction false} PadStartReads(s: string, n: nat)
    ensures Num(PadStart(s, n)) == Num(s)
  {
    if |s| < n {
      NumConcat(Zeros(n - |s|), s);
      NumOfZeros(Zeros(n - |s|));
      TimesZero(|s|);
    }
  }

  // ---- Adding one ---------------------------------------------------------------------------

  function NextDigit(c: char): char
  {
    if '0' <= c < '9' then c + 1 as char else c
  }

  /** One more, carrying left. */
  function Bump(s: string): (r: string)
    ensures |s| <= |r| <= |s| + 1
    ensures AllDigits(s) ==> AllDigits(r)
  {
    if s == "" then "1"
    else if s[|s| - 1] == '9' then Bump(s[..|s| - 1]) + "0"
    else s[..|s| - 1] + [NextDigit(s[|s| - 1])]
  }

  lemma {:induction false} BumpAddsOne(s: string)
    requires AllDigits(s)
    ensures Num(Bump(s)) == Num(s) + 1
    decreases |s|
  {
    if s != "" {
      var init, last := s[..|s| - 1], s[|s| - 1];
      if last == '9' {
        BumpAddsOne(init);
        NumSnoc(Bump(init), '0');
      } else {
        NumSnoc(init, NextDigit(last));
      }
    } else {
      assert "1"[..0] == "";
    }
  }

  /** The result grows a digit exactly when every digit was 9, and then leads with 1. */
  lemma {:induction false} BumpLeads(s: string)
    requires AllDigits(s)
    ensures |Bump(s)| == |s| + 1 <==> forall i :: 0 <= i < |s| ==> s[i] == '9'
    ensures |Bump(s)| == |s| + 1 ==> Bump(s)[0] == '1'
    ensures |Bump(s)| == |s| > 0 ==> Bump(s)[0] >= s[0]
    decreases |s|
  {
    if s != "" {
      BumpLeads(s[..|s| - 1]);
    }
  }

  /** Trailing nines become zeros; the digit before them goes up, or a 1 is put in front. */
  lemma {:induction false} BumpShape(s: string, i: int)
    requires AllDigits(s) && -1 <= i < |s|
    requires forall k :: i < k < |s| ==> s[k] == '9'
    requires i >= 0 ==> s[i] != '9'
    ensures Bump(s) == (if i < 0 then "1" else s[..i] + [NextDigit(s[i])]) + Zeros(|s| - 1 - i)
    decreases |s|
  {
    var n := |s| - 1;
    if i == n {
      assert Zeros(0) == "";
    } else {
      BumpShape(s[..n], i);
      assert Zeros(n - i) == Zeros(n - 1 - i) + "0";
      if i >= 0 {
        assert s[..n][..i] == s[..i];
      }
    }
  }

  /** The same, in place on the digits, from the right. */
  method BumpDigits(digits: string) returns (r: string)
    requires AllDigits(digits)
    ensures r == Bump(digits)
  {
    var n := |digits|;
    var out := new char[n](i requires 0 <= i < n => digits[i]);
    var i := n - 1;
    while i >= 0 && out[i] == '9'
      invariant -1 <= i < n
      invariant forall k :: 0 <= k <= i ==> out[k] == digits[k]
      invariant forall k :: i < k < n ==> digits[k] == '9' && out[k] == '0'
    {
      out[i] := '0';
      i := i - 1;
    }
    BumpShape(digits, i);
    if i < 0 {
      assert out[..] == Zeros(n);
      r := "1" + out[..];
    } else {
      out[i] := NextDigit(out[i]);
      assert out[..] == digits[..i] + [NextDigit(digits[i])] + Zeros(n - 1 - i);
      r := out[..];
    }
  }

  // ---- Leading zeros ---------------------------------------------------------------------------

  /** No leading zero, except for zero itself; never empty. */
  predicate Canonical(s: string) {
    s != "" && (s == "0" || s[0] != '0')
  }

  function StripLeading(s: string): (r: string)
    ensures |r| <= |s|
    ensures AllDigits(s) ==> AllDigits(r)
  {
    if |s| > 1 && s[0] == '0' then StripLeading(s[1..]) else s
  }

  function StripOrZero(s: string): (r: string)
    ensures AllDigits(s) ==> AllDigits(r)
  {
    if s == "" then "0" else StripLeading(s)
  }

  lemma {:induction false} LeadingZero(s: string)
    ensures Num("0" + s) == Num(s)
    decreases |s|
  {
    if s == "" {
      assert "0" + s == "0" && "0"[..0] == "";
    } else {
      var init := s[..|s| - 1];
      LeadingZero(init);
      assert "0" + s == "0" + init + [s[|s| - 1]];
      NumSnoc("0" + init, s[|s| - 1]);
    }
  }

  lemma {:induction false} StripKeepsNumber(s: string, tail: string)
    ensures Canonical(StripOrZero(s)) && (Canonical(s) ==> StripOrZero(s) == s)
    ensures Num(StripOrZero(s) + tail) == Num(s + tail)
    decreases |s|
  {
    if |s| > 1 && s[0] == '0' {
      StripKeepsNumber(s[1..], tail);
      assert s + tail == "0" + (s[1..] + tail);
      LeadingZero(s[1..] + tail);
    } else if s == "" {
      assert s + tail == tail;
      LeadingZero(tail);
    }
  }
}
