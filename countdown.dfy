/** Countdown arithmetic and the two-character countdown text
    (the tick callbacks, `updatePhaseUI` and `updateCountdown` in script.js). */
module Countdown {

  /** Period of the countdown interval, in milliseconds. */
  const TICK_MS := 100
  const MS_PER_SECOND := 1000

  /** `Math.ceil(ms / 1000)`: the least whole number of seconds covering `ms`,
      for negative `ms` too. */
  function CeilSeconds(ms: int): (r: int)
    ensures (r - 1) * MS_PER_SECOND < ms <= r * MS_PER_SECOND
    ensures ms >= 0 ==> r >= 0
  {
    -((-ms) / MS_PER_SECOND)
  }

  /** One tick of the interval: 100 ms less, floored at zero. */
  function TickDown(remaining: int): (r: int)
    ensures r >= 0
    ensures remaining >= TICK_MS ==> r == remaining - TICK_MS
    ensures remaining < TICK_MS ==> r == 0
  {
    var next := remaining - TICK_MS;
    if next < 0 then 0 else next
  }

  /** The remaining time after `k` ticks. */
  function AfterTicks(remaining: int, k: nat): (r: int)
  {
    if k == 0 then remaining else TickDown(AfterTicks(remaining, k - 1))
  }

  /** After k ticks a non-negative phase time has lost exactly 100 ms per tick, down to zero. */
  lemma {:induction false} AfterTicksClosedForm(ms: int, k: nat)
    requires ms >= 0
    ensures AfterTicks(ms, k) == if ms - TICK_MS * k < 0 then 0 else ms - TICK_MS * k
  {
    if k > 0 {
      AfterTicksClosedForm(ms, k - 1);
    }
  }

  /** The displayed seconds never go up on a tick, and drop by at most one. */
  lemma TickDisplayStep(remaining: int)
    requires remaining >= 0
    ensures CeilSeconds(TickDown(remaining)) <= CeilSeconds(remaining) <= CeilSeconds(TickDown(remaining)) + 1
  {
  }

  /** A 4-second phase shows 04 for its first ticks and reaches 00 on the 40th:
      after k ticks the display is ceil((4000 - 100k) / 1000). */
  lemma FourSecondPhase(k: nat)
    requires k <= 40
    ensures CeilSeconds(AfterTicks(4000, k)) == (49 - k) / 10
  {
    AfterTicksClosedForm(4000, k);
  }

  // ---- decimal text -------------------------------------------------------

  predicate IsDigit(c: char) { '0' <= c <= '9' }

  predicate AllDigits(s: string) { forall i :: 0 <= i < |s| ==> IsDigit(s[i]) }

  function DigitChar(d: nat): (c: char)
    requires d < 10
    ensures IsDigit(c) && c as int - '0' as int == d
  {
    ('0' as int + d) as char
  }

  /** The value of a string of decimal digits (leading zeros allowed). */
  function DecimalValue(s: string): (v: nat)
    requires AllDigits(s)
  {
    if s == [] then 0
    else DecimalValue(s[..|s| - 1]) * 10 + (s[|s| - 1] as int - '0' as int)
  }

  /** `String(n)` for a non-negative integer: its digits, most significant first. */
  function NatToDecimal(n: nat): (s: string)
    ensures |s| >= 1 && AllDigits(s)
    ensures n < 10 <==> |s| == 1
  {
    if n < 10 then [DigitChar(n)] else NatToDecimal(n / 10) + [DigitChar(n % 10)]
  }

  /** `String(n)` for any integer. */
  function IntToDecimal(n: int): (s: string)
    ensures n >= 0 ==> s == NatToDecimal(n)
    ensures n < 0 ==> s == "-" + NatToDecimal(-n)
  {
    if n < 0 then "-" + NatToDecimal(-n) else NatToDecimal(n)
  }

  /** Reading the decimal text of `n` gives back `n`, and it has no superfluous leading zero. */
  lemma {:induction false} DecimalRoundTrip(n: nat)
    ensures DecimalValue(NatToDecimal(n)) == n
    ensures n >= 10 ==> NatToDecimal(n)[0] != '0'
  {
    if n >= 10 {
      var s := NatToDecimal(n);
      DecimalRoundTrip(n / 10);
      assert s[..|s| - 1] == NatToDecimal(n / 10);
    }
  }

  /** Leading zeros do not change the value of a digit string. */
  lemma {:induction false} LeadingZero(s: string)
    requires AllDigits(s)
    ensures AllDigits(['0'] + s) && DecimalValue(['0'] + s) == DecimalValue(s)
  {
    if s != [] {
      LeadingZero(s[..|s| - 1]);
      assert (['0'] + s)[..|s|] == ['0'] + s[..|s| - 1];
    }
  }

  /** `n` copies of `c`. */
  function Fill(c: char, n: nat): (r: string)
    ensures |r| == n
    ensures forall i :: 0 <= i < n ==> r[i] == c
  {
    if n == 0 then [] else [c] + Fill(c, n - 1)
  }

  /** `s.padStart(width, fill)` for a one-character fill. */
  function PadStart(s: string, width: nat, fill: char): (r: string)
    ensures |r| == if |s| < width then width else |s|
    ensures r[|r| - |s|..] == s
    ensures forall i :: 0 <= i < |r| - |s| ==> r[i] == fill
  {
    if |s| >= width then s else Fill(fill, width - |s|) + s
  }

  /** The countdown text: `String(sec).padStart(2, '0')`. */
  function FormatCountdown(sec: int): (r: string)
    ensures |r| >= 2 && |r| >= |IntToDecimal(sec)|
    ensures |IntToDecimal(sec)| >= 2 ==> r == IntToDecimal(sec)
    ensures sec >= 0 ==> AllDigits(r)
  {
    PadStart(IntToDecimal(sec), 2, '0')
  }

  /** The countdown text of a non-negative count is all digits, at least two of them,
      exactly two below 100, and it reads back as the count. */
  lemma {:induction false} FormatCountdownReadsBack(sec: nat)
    ensures var r := FormatCountdown(sec);
      AllDigits(r) && DecimalValue(r) == sec && |r| >= 2 && (sec < 100 <==> |r| == 2)
  {
    var d := NatToDecimal(sec);
    DecimalRoundTrip(sec);
    if sec < 10 {
      assert FormatCountdown(sec) == ['0'] + d;
      LeadingZero(d);
    } else {
      assert FormatCountdown(sec) == d;
      if sec < 100 {
        assert sec / 10 < 10;
      } else {
        assert |NatToDecimal(sec / 10)| >= 2;
      }
    }
  }

  /** The text of a zero countdown is the literal that `stopSession` writes. */
  lemma ZeroCountdownText()
    ensures FormatCountdown(0) == "00"
  {
  }

  lemma FormatCountdownExamples()
    ensures FormatCountdown(4) == "04"
    ensures FormatCountdown(0) == "00"
    ensures FormatCountdown(12) == "12"
  {
    assert Fill('0', 1) == "0";
    assert IntToDecimal(4) == "4";
    assert PadStart("4", 2, '0') == "04";
    ZeroCountdownText();
    assert NatToDecimal(12) == NatToDecimal(1) + [DigitChar(2)];
    assert IntToDecimal(12) == "12";
  }
}
