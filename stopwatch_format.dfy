/** The stopwatch screen's display text: `pad` and `formatTime`, which turn a
    count of centiseconds into `MM:SS:CC`. */
module StopwatchFormat {

  // ---------------------------------------------------------------------
  // Decimal digits

  function DigitChar(d: nat): (c: char)
    requires d < 10
    ensures '0' <= c <= '9'
  {
    '0' + d as char
  }

  function DigitValue(c: char): int
  {
    c as int - '0' as int
  }

  predicate IsDigit(c: char)
  {
    '0' <= c <= '9'
  }

  predicate AllDigits(s: string)
  {
    forall i :: 0 <= i < |s| ==> IsDigit(s[i])
  }

  /** `n.toString()` for a non-negative integer: its shortest decimal form. */
  function NatToString(n: nat): (s: string)
    ensures 1 <= |s| && AllDigits(s)
    ensures |s| == 1 <==> n < 10
    ensures |s| == 2 <==> 10 <= n < 100
    ensures s[0] != '0' || n == 0
    decreases n
  {
    if n < 10 then [DigitChar(n)] else NatToString(n / 10) + [DigitChar(n % 10)]
  }

  /** Reads a string of decimal digits back as a number. */
  function ParseDecimal(s: string): int
    decreases |s|
  {
    if s == [] then 0 else ParseDecimal(s[..|s| - 1]) * 10 + DigitValue(s[|s| - 1])
  }

  /** `toString` loses nothing: its digits read back as the number. */
  lemma {:induction false} NatToStringRoundTrip(n: nat)
    ensures ParseDecimal(NatToString(n)) == n
    decreases n
  {
    if n >= 10 {
      NatToStringRoundTrip(n / 10);
      var s := NatToString(n);
      assert s[..|s| - 1] == NatToString(n / 10);
    }
  }

  // ---------------------------------------------------------------------
  // pad

  function Repeat(c: char, k: nat): (r: string)
    ensures |r| == k && forall i :: 0 <= i < k ==> r[i] == c
    decreases k
  {
    if k == 0 then [] else [c] + Repeat(c, k - 1)
  }

  /** `s.padStart(targetLength, [fill])` with a one-character fill: a string
      already that long is returned as is, a shorter one is filled on the
      left up to `targetLength`. */
  function PadStart(s: string, targetLength: nat, fill: char): (r: string)
    ensures |s| >= targetLength ==> r == s
    ensures |s| < targetLength ==> |r| == targetLength
    ensures r[|r| - |s|..] == s
    ensures forall i :: 0 <= i < |r| - |s| ==> r[i] == fill
  {
    if |s| >= targetLength then s else Repeat(fill, targetLength - |s|) + s
  }

  /** `pad(num)`: `num.toString().padStart(2, "0")`. */
  function Pad(n: nat): (r: string)
    ensures |r| >= 2 && AllDigits(r)
    ensures |r| == 2 <==> n < 100
  {
    var s := NatToString(n);
    assert |s| < 2 ==> Repeat('0', 2 - |s|) == ['0'];
    PadStart(s, 2, '0')
  }

  /** Reads two decimal digits as a number. */
  function TwoDigitValue(s: string): int
    requires |s| == 2
  {
    DigitValue(s[0]) * 10 + DigitValue(s[1])
  }

  /** Below one hundred, `pad` gives exactly the tens digit and the units
      digit, left-padded with "0", and they read back as the number. */
  lemma PadRoundTrip(n: nat)
    requires n < 100
    ensures Pad(n) == [DigitChar(n / 10), DigitChar(n % 10)]
    ensures TwoDigitValue(Pad(n)) == n
  {
    if n < 10 {
      assert NatToString(n) == [DigitChar(n)];
      assert Pad(n) == Repeat('0', 1) + [DigitChar(n)];
    } else {
      assert NatToString(n / 10) == [DigitChar(n / 10)];
    }
  }

  // ---------------------------------------------------------------------
  // formatTime

  /** `Math.floor((t / (100 * 60)) % 60)`: for `t >= 0` the real-valued
      quotient, its remainder and the floor give the integer expression. */
  function Minutes(t: nat): (m: nat)
    ensures m < 60
  {
    (t / 6000) % 60
  }

  /** `Math.floor((t / 100) % 60)`. */
  function Seconds(t: nat): (s: nat)
    ensures s < 60
  {
    (t / 100) % 60
  }

  /** `Math.floor((t % 100) / 1)`. */
  function Centis(t: nat): (c: nat)
    ensures c < 100
  {
    t % 100
  }

  /** Three two-character fields joined by colons sit at offsets 0, 3, 6. */
  lemma JoinedFields(a: string, b: string, c: string)
    requires |a| == 2 && |b| == 2 && |c| == 2
    ensures |a + ":" + b + ":" + c| == 8
    ensures (a + ":" + b + ":" + c)[2] == ':' && (a + ":" + b + ":" + c)[5] == ':'
    ensures (a + ":" + b + ":" + c)[0..2] == a
    ensures (a + ":" + b + ":" + c)[3..5] == b
    ensures (a + ":" + b + ":" + c)[6..8] == c
  {
  }

  /** `formatTime(t)` for a non-negative count of centiseconds. */
  function FormatTime(t: nat): (r: string)
    ensures |r| == 8 && r[2] == ':' && r[5] == ':'
    ensures AllDigits(r[..2]) && AllDigits(r[3..5]) && AllDigits(r[6..])
  {
    var mm, ss, cc := Pad(Minutes(t)), Pad(Seconds(t)), Pad(Centis(t));
    JoinedFields(mm, ss, cc);
    mm + ":" + ss + ":" + cc
  }

  /** Reads `MM:SS:CC` back as centiseconds. */
  function ParseDisplay(r: string): int
    requires |r| == 8
  {
    TwoDigitValue(r[0..2]) * 6000 + TwoDigitValue(r[3..5]) * 100 + TwoDigitValue(r[6..8])
  }

  /** Below one hour the three fields recombine into the count. */
  lemma FieldsRecombine(t: nat)
    requires t < 360000
    ensures Minutes(t) * 6000 + Seconds(t) * 100 + Centis(t) == t
  {
    assert Minutes(t) == t / 6000;
    assert t / 100 == Minutes(t) * 60 + Seconds(t);
  }

  /** Reading three joined two-digit fields back. */
  lemma ParseJoined(a: string, b: string, c: string)
    requires |a| == 2 && |b| == 2 && |c| == 2
    ensures ParseDisplay(a + ":" + b + ":" + c)
         == TwoDigitValue(a) * 6000 + TwoDigitValue(b) * 100 + TwoDigitValue(c)
  {
    JoinedFields(a, b, c);
  }

  /** Below one hour the display determines the count: reading it back
      gives `t`. */
  lemma FormatRoundTrip(t: nat)
    requires t < 360000
    ensures ParseDisplay(FormatTime(t)) == t
  {
    var m, s, c := Minutes(t), Seconds(t), Centis(t);
    PadRoundTrip(m);
    PadRoundTrip(s);
    PadRoundTrip(c);
    ParseJoined(Pad(m), Pad(s), Pad(c));
    FieldsRecombine(t);
  }

  lemma MinutesWrap(t: nat)
    ensures Minutes(t + 360000) == Minutes(t)
  {
    assert (t + 360000) / 6000 == t / 6000 + 60;
  }

  lemma SecondsWrap(t: nat)
    ensures Seconds(t + 360000) == Seconds(t)
  {
    assert (t + 360000) / 100 == t / 100 + 3600;
  }

  /** From one hour on the minutes wrap: a display repeats every hour. */
  lemma FormatWrapsHourly(t: nat)
    ensures FormatTime(t + 360000) == FormatTime(t)
  {
    MinutesWrap(t);
    SecondsWrap(t);
    assert Centis(t + 360000) == Centis(t);
  }

  /** Different counts below one hour never share a display. */
  lemma FormatInjectiveBelowHour(t1: nat, t2: nat)
    requires t1 < 360000 && t2 < 360000 && FormatTime(t1) == FormatTime(t2)
    ensures t1 == t2
  {
    FormatRoundTrip(t1);
    FormatRoundTrip(t2);
  }
}
