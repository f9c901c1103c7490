/** `formatTime`: seconds to `MM:SS`, with JavaScript's `toString()` of a
    non-negative integer and `padStart(2, '0')` written out, and a parser
    that reads the text back. */
module TimeFormat {
  import opened Wrappers

  predicate IsDigit(c: char) {
    '0' <= c <= '9'
  }

  predicate AllDigits(s: string) {
    forall i :: 0 <= i < |s| ==> IsDigit(s[i])
  }

  function DigitChar(d: nat): (c: char)
    requires d < 10
    ensures IsDigit(c) && c as int - '0' as int == d
  {
    ('0' as int + d) as char
  }

  /** Decimal text of a natural number, as `Number.prototype.toString()` gives it
      for integers below 10^21 (larger ones are written in exponent notation). */
  function NatToString(n: nat): (s: string)
    ensures 1 <= |s| && AllDigits(s)
    ensures n < 100 ==> |s| <= 2
    decreases n
  {
    if n < 10 then [DigitChar(n)] else NatToString(n / 10) + [DigitChar(n % 10)]
  }

  /** The text has one digit exactly for numbers below 10, and no leading zero. */
  lemma {:induction false} NatToStringShape(n: nat)
    ensures n < 10 <==> |NatToString(n)| == 1
    ensures |NatToString(n)| > 1 ==> NatToString(n)[0] != '0'
    decreases n
  {
    if n >= 10 {
      NatToStringShape(n / 10);
      assert NatToString(n)[0] == NatToString(n / 10)[0];
    }
  }

  /** The number a string of decimal digits denotes. */
  function DigitsValue(s: string): nat
    requires AllDigits(s)
    decreases |s|
  {
    if s == [] then 0 else DigitsValue(s[..|s| - 1]) * 10 + (s[|s| - 1] as int - '0' as int)
  }

  lemma {:induction false} DigitsValueOfNatToString(n: nat)
    ensures DigitsValue(NatToString(n)) == n
    decreases n
  {
    if n >= 10 {
      var s := NatToString(n);
      assert s[..|s| - 1] == NatToString(n / 10);
      DigitsValueOfNatToString(n / 10);
    }
  }

  /** A leading `'0'` does not change the value. */
  lemma {:induction false} LeadingZero(s: string)
    requires AllDigits(s)
    ensures AllDigits("0" + s) && DigitsValue("0" + s) == DigitsValue(s)
    decreases |s|
  {
    var t := "0" + s;
    if s != [] {
      assert t[..|t| - 1] == "0" + s[..|s| - 1];
      LeadingZero(s[..|s| - 1]);
    }
  }

  function Repeat(c: char, n: nat): (r: string)
    ensures |r| == n && forall i :: 0 <= i < n ==> r[i] == c
  {
    if n == 0 then [] else [c] + Repeat(c, n - 1)
  }

  /** `s.padStart(width, fill)` for a one-character `fill`. */
  function PadStart(s: string, width: nat, fill: char): (r: string)
    ensures |r| == if |s| >= width then |s| else width
  {
    if |s| >= width then s else Repeat(fill, width - |s|) + s
  }

  /** The padded text ends with the original and is filled before it. */
  lemma PadStartShape(s: string, width: nat, fill: char)
    ensures var r := PadStart(s, width, fill);
      && r[|r| - |s|..] == s
      && forall i :: 0 <= i < |r| - |s| ==> r[i] == fill
  {
  }

  /** Zero-padding keeps a digit string's value. */
  lemma {:induction false} ZeroPadKeepsValue(s: string, width: nat)
    requires AllDigits(s)
    ensures AllDigits(PadStart(s, width, '0'))
    ensures DigitsValue(PadStart(s, width, '0')) == DigitsValue(s)
    decreases width
  {
    if |s| < width {
      var r := PadStart(s, width, '0');
      var shorter := PadStart(s, width - 1, '0');
      assert r == "0" + shorter;
      ZeroPadKeepsValue(s, width - 1);
      LeadingZero(shorter);
    }
  }

  /** A number as `toString().padStart(2, '0')` shows it. */
  function Pad2(n: nat): (r: string)
    ensures |r| >= 2 && (n < 100 ==> |r| == 2)
  {
    PadStart(NatToString(n), 2, '0')
  }

  /** The padded text is digits that denote the number. */
  lemma Pad2Value(n: nat)
    ensures AllDigits(Pad2(n)) && DigitsValue(Pad2(n)) == n
  {
    ZeroPadKeepsValue(NatToString(n), 2);
    DigitsValueOfNatToString(n);
  }

  /** Two padded fields joined by a colon. */
  function JoinFields(mins: nat, secs: nat): (r: string)
    requires secs < 100
    ensures |r| >= 5 && r[|r| - 3] == ':'
    ensures mins < 100 ==> |r| == 5
  {
    Pad2(mins) + ":" + Pad2(secs)
  }

  /** The fields can be read back from the joined text. */
  lemma JoinFieldsParts(mins: nat, secs: nat)
    requires secs < 100
    ensures var r := JoinFields(mins, secs);
      && AllDigits(r[..|r| - 3]) && AllDigits(r[|r| - 2..])
      && DigitsValue(r[..|r| - 3]) == mins
      && DigitsValue(r[|r| - 2..]) == secs
  {
    var m := Pad2(mins);
    var s := Pad2(secs);
    SplitAtColon(m, s);
    Pad2Value(mins);
    Pad2Value(secs);
  }

  lemma SplitAtColon(a: string, b: string)
    ensures (a + ":" + b)[..|a|] == a && (a + ":" + b)[|a| + 1..] == b
  {
  }

  lemma MinutesAndSeconds(seconds: nat)
    ensures seconds % 60 < 60
    ensures (seconds / 60) * 60 + seconds % 60 == seconds
    ensures seconds < 6000 ==> seconds / 60 < 100
  {
  }

  /** Minutes and seconds of a whole number of seconds, each padded to two digits. */
  function FormatTime(seconds: nat): (r: string)
    ensures |r| >= 5 && r[|r| - 3] == ':'
    ensures seconds < 6000 ==> |r| == 5
  {
    MinutesAndSeconds(seconds);
    var mins := seconds / 60;
    var secs := seconds % 60;
    JoinFields(mins, secs)
  }

  /** The text before the colon spells `seconds / 60` and the two digits
      after it spell `seconds % 60`. */
  lemma FormatTimeFields(seconds: nat)
    ensures var r := FormatTime(seconds);
      && AllDigits(r[..|r| - 3]) && AllDigits(r[|r| - 2..])
      && DigitsValue(r[..|r| - 3]) == seconds / 60
      && DigitsValue(r[|r| - 2..]) == seconds % 60 < 60
  {
    var mins, secs := seconds / 60, seconds % 60;
    MinutesAndSeconds(seconds);
    assert FormatTime(seconds) == JoinFields(mins, secs);
    JoinFieldsParts(mins, secs);
  }

  /** Reads `M..M:SS` back into seconds; `None` for text that is not of that form. */
  function ParseTime(t: string): (r: Option<nat>)
    ensures r.Some? ==> |t| >= 5 && t[|t| - 3] == ':'
  {
    if |t| < 5 || t[|t| - 3] != ':' then None
    else
      var m := t[..|t| - 3];
      var s := t[|t| - 2..];
      if !AllDigits(m) || !AllDigits(s) then None
      else if DigitsValue(s) >= 60 then None
      else Some(DigitsValue(m) * 60 + DigitsValue(s))
  }

  /** Formatting loses nothing: parsing gives back the seconds. */
  lemma ParseFormatTime(seconds: nat)
    ensures ParseTime(FormatTime(seconds)) == Some(seconds)
  {
    var r := FormatTime(seconds);
    var mins, secs := seconds / 60, seconds % 60;
    FormatTimeFields(seconds);
    MinutesAndSeconds(seconds);
    assert ParseTime(r) == Some(mins * 60 + secs);
  }

  /** Different durations are displayed differently. */
  lemma FormatTimeInjective(a: nat, b: nat)
    requires FormatTime(a) == FormatTime(b)
    ensures a == b
  {
    ParseFormatTime(a);
    ParseFormatTime(b);
  }

  /** The initial work phase is displayed as "25:00". */
  lemma FormatWorkTime()
    ensures FormatTime(1500) == "25:00"
  {
    assert 1500 / 60 == 25 && 1500 % 60 == 0;
    assert NatToString(25) == "25" by {
      assert NatToString(25) == NatToString(2) + [DigitChar(5)];
    }
    assert Pad2(25) == "25";
    assert Repeat('0', 1) == "0";
    assert Pad2(0) == "00";
  }
}
