/** The `mm:ss` clock of the single-player test (`TypingTest.updateTimer`):
    whole seconds of the elapsed milliseconds, split into minutes and the
    remaining seconds, each written in decimal and left-padded with '0' to two
    characters. The parser below is the inverse used to state what the display
    says. */
module Timer {
  import opened Options

  predicate IsDigit(c: char)
  {
    '0' <= c <= '9'
  }

  predicate AllDigits(s: string)
  {
    forall i :: 0 <= i < |s| ==> IsDigit(s[i])
  }

  function DigitChar(d: nat): (c: char)
    requires d < 10
    ensures IsDigit(c)
  {
    (('0' as int) + d) as char
  }

  function DigitValue(c: char): (d: nat)
    requires IsDigit(c)
    ensures d < 10
  {
    (c as int) - ('0' as int)
  }

  /** `n.toString()` for a non-negative integer. */
  function NatToString(n: nat): (s: string)
    ensures |s| >= 1 && AllDigits(s)
    ensures n < 10 <==> |s| == 1
  {
    if n < 10 then [DigitChar(n)] else NatToString(n / 10) + [DigitChar(n % 10)]
  }

  /** The value of a string of decimal digits, most significant first. */
  function ParseDecimal(s: string): nat
    requires AllDigits(s)
  {
    if s == [] then 0 else ParseDecimal(s[..|s| - 1]) * 10 + DigitValue(s[|s| - 1])
  }

  function Repeat(c: char, k: nat): (r: string)
    ensures |r| == k && forall i :: 0 <= i < k ==> r[i] == c
  {
    if k == 0 then [] else [c] + Repeat(c, k - 1)
  }

  /** `s.padStart(width, c)` for a one-character fill. */
  function PadStart(s: string, width: nat, c: char): (r: string)
    ensures |r| == if |s| >= width then |s| else width
    ensures forall i :: 0 <= i < |r| - |s| ==> r[i] == c
  {
    if |s| >= width then s else Repeat(c, width - |s|) + s
  }

  /** `padStart` keeps the text it pads as the end of its result. */
  lemma PadStartEndsWith(s: string, width: nat, c: char)
    ensures var r := PadStart(s, width, c); r[|r| - |s|..] == s
  {
    if |s| < width {
      var r := PadStart(s, width, c);
      assert r == Repeat(c, width - |s|) + s;
    }
  }

  lemma {:induction false} ParseNatToString(n: nat)
    ensures ParseDecimal(NatToString(n)) == n
  {
    if n >= 10 {
      var s := NatToString(n / 10);
      assert NatToString(n) == s + [DigitChar(n % 10)];
      assert (s + [DigitChar(n % 10)])[..|s|] == s;
      ParseNatToString(n / 10);
    }
  }

  lemma {:induction false} ParseLeadingZero(s: string)
    requires AllDigits(s)
    ensures AllDigits(['0'] + s) && ParseDecimal(['0'] + s) == ParseDecimal(s)
  {
    var z := ['0'] + s;
    if s != [] {
      assert z[..|z| - 1] == ['0'] + s[..|s| - 1];
      ParseLeadingZero(s[..|s| - 1]);
    }
  }

  lemma {:induction false} ParseLeadingZeros(k: nat, s: string)
    requires AllDigits(s)
    ensures AllDigits(Repeat('0', k) + s) && ParseDecimal(Repeat('0', k) + s) == ParseDecimal(s)
  {
    if k > 0 {
      ParseLeadingZeros(k - 1, s);
      assert Repeat('0', k) + s == ['0'] + (Repeat('0', k - 1) + s);
      ParseLeadingZero(Repeat('0', k - 1) + s);
    } else {
      assert Repeat('0', k) + s == s;
    }
  }

  /** A string of digits padded with '0' still reads as the same number. */
  lemma PaddedReadsBack(s: string, width: nat)
    requires AllDigits(s)
    ensures AllDigits(PadStart(s, width, '0'))
    ensures ParseDecimal(PadStart(s, width, '0')) == ParseDecimal(s)
  {
    if |s| < width {
      assert PadStart(s, width, '0') == Repeat('0', width - |s|) + s;
      ParseLeadingZeros(width - |s|, s);
    }
  }

  /** One two-character clock field: `String(n).padStart(2, '0')`. */
  function Field(n: nat): string
  {
    PadStart(NatToString(n), 2, '0')
  }

  /** The clock for a whole number of seconds: minutes, then the seconds
      left over. It always has the form `mm:ss`, the separator three from the
      end, and is exactly five characters below 100 minutes; the last two
      digits are the seconds left over, below 60, and the digits before the
      separator the whole minutes. */
  function Clock(seconds: nat): (d: string)
    ensures |d| >= 5 && d[|d| - 3] == ':'
    ensures seconds < 6000 ==> |d| == 5
    ensures AllDigits(d[|d| - 2..]) && ParseDecimal(d[|d| - 2..]) == seconds % 60 < 60
    ensures AllDigits(d[..|d| - 3]) && ParseDecimal(d[..|d| - 3]) == seconds / 60
  {
    FieldReadsBack(seconds / 60);
    FieldReadsBack(seconds % 60);
    var mm, ss := Field(seconds / 60), Field(seconds % 60);
    var d := mm + ":" + ss;
    assert d[|d| - 2..] == ss;
    assert d[..|d| - 3] == mm;
    d
  }

  /** The text `updateTimer(elapsed)` puts on the clock (static/script.js:73-79):
      `mm:ss` of the whole seconds elapsed, five characters below 100 minutes,
      with the seconds field the elapsed seconds modulo 60. */
  function FormatTimer(elapsedMs: nat): (d: string)
    ensures |d| >= 5 && d[|d| - 3] == ':'
    ensures elapsedMs < 6000000 ==> |d| == 5
    ensures AllDigits(d[|d| - 2..]) && ParseDecimal(d[|d| - 2..]) == elapsedMs / 1000 % 60
    ensures AllDigits(d[..|d| - 3]) && ParseDecimal(d[..|d| - 3]) == elapsedMs / 1000 / 60
  {
    Clock(elapsedMs / 1000)
  }

  /** Reads a clock display back as whole seconds: the last two characters are
      the seconds, below 60, the ones before the separator the minutes; `None`
      for a text that is not a display. */
  function ParseTimer(display: string): (seconds: Option<nat>)
  {
    var n := |display|;
    if && n >= 3 && display[n - 3] == ':' && AllDigits(display[..n - 3]) && AllDigits(display[n - 2..])
       && ParseDecimal(display[n - 2..]) < 60
    then Some(ParseDecimal(display[..n - 3]) * 60 + ParseDecimal(display[n - 2..]))
    else None
  }

  /** A seconds field of 60 or more is not a display: "00:75" is refused,
      and 75 seconds read back only from "01:15". */
  lemma SecondsFieldBelowSixty()
    ensures ParseTimer("00:75") == None
    ensures ParseTimer("01:15") == Some(75)
  {
    assert "00:75"[..2] == "00" && "00:75"[3..] == "75";
    assert ParseDecimal("75") == 75 by {
      assert "75"[..1] == "7";
    }
    assert "01:15"[..2] == "01" && "01:15"[3..] == "15";
    assert ParseDecimal("01") == 1 && ParseDecimal("15") == 15 by {
      assert "01"[..1] == "0" && "15"[..1] == "1";
    }
  }

  /** A number below 100 needs at most two digits. */
  lemma TwoDigitsAtMost(n: nat)
    requires n < 100
    ensures |NatToString(n)| <= 2
  {
    if n >= 10 {
      assert NatToString(n) == NatToString(n / 10) + [DigitChar(n % 10)];
    }
  }

  /** A padded clock field is at least two digits and reads back as its
      number; below 100 it is exactly two digits. */
  lemma FieldReadsBack(n: nat)
    ensures |Field(n)| >= 2 && AllDigits(Field(n)) && ParseDecimal(Field(n)) == n
    ensures n < 100 ==> |Field(n)| == 2
  {
    ParseNatToString(n);
    PaddedReadsBack(NatToString(n), 2);
    if n < 100 {
      TwoDigitsAtMost(n);
    }
  }

  /** The separator three characters from the end splits `mm:ss` back into
      its two fields, so a display whose seconds field is below 60 reads back
      as minutes * 60 + seconds. */
  lemma SplitDisplay(mm: string, ss: string)
    requires |ss| == 2 && AllDigits(mm) && AllDigits(ss) && ParseDecimal(ss) < 60
    ensures ParseTimer(mm + ":" + ss) == Some(ParseDecimal(mm) * 60 + ParseDecimal(ss))
  {
    var d := mm + ":" + ss;
    var n := |d|;
    assert n == |mm| + 3 && d[n - 3] == ':';
    assert d[..n - 3] == mm;
    assert d[n - 2..] == ss;
    assert AllDigits(d[..n - 3]) && AllDigits(d[n - 2..]);
    assert ParseTimer(d) == Some(ParseDecimal(d[..n - 3]) * 60 + ParseDecimal(d[n - 2..]));
  }

  /** A display built from a minute count and a second count below 60 has
      a minutes field of at least two digits and a seconds field of exactly
      two, and reads back as minutes * 60 + seconds. */
  lemma DisplayReadsBack(minutes: nat, seconds: nat)
    requires seconds < 60
    ensures |Field(minutes)| >= 2 && |Field(seconds)| == 2
    ensures ParseTimer(Field(minutes) + ":" + Field(seconds)) == Some(minutes * 60 + seconds)
  {
    FieldReadsBack(minutes);
    FieldReadsBack(seconds);
    SplitDisplay(Field(minutes), Field(seconds));
  }

  /** The clock for t seconds has a minutes field of at least two digits and
      a seconds field of exactly two, and reads back as t. */
  lemma ClockReadsBack(t: nat)
    ensures |Field(t / 60)| >= 2 && |Field(t % 60)| == 2
    ensures ParseTimer(Clock(t)) == Some(t)
  {
    var minutes, rest := t / 60, t % 60;
    assert minutes * 60 + rest == t;
    DisplayReadsBack(minutes, rest);
  }

  /** The clock shows the elapsed time truncated to whole seconds: reading the
      display back gives `floor(elapsed / 1000)` (static/script.js:73-79). */
  lemma TimerRoundTrip(elapsedMs: nat)
    ensures ParseTimer(FormatTimer(elapsedMs)) == Some(elapsedMs / 1000)
  {
    ClockReadsBack(elapsedMs / 1000);
  }
}
