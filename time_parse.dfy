/**
 * `time_to_ms`: a "M:SS" or "H:MM:SS" timestamp to milliseconds. The token is
 * stripped, cut at every ':' and each field handed to `int()`; two fields are
 * minutes and seconds, three are hours, minutes and seconds, and no field is
 * range-checked. Any other number of fields, or a field `int()` rejects, is a
 * ValueError.
 */
module TimeParse {
  import opened Wrappers
  import opened Text

  datatype TimeResult = Ms(ms: int) | ValueError

  function TimeToMs(timeStr: string): (r: TimeResult)
  {
    var parts := Split(Strip(timeStr), ':');
    if |parts| == 2 then
      var m, s := ParseInt(parts[0]), ParseInt(parts[1]);
      if m.Some? && s.Some? then Ms(m.value * 60 * 1000 + s.value * 1000) else ValueError
    else if |parts| == 3 then
      var h, m, s := ParseInt(parts[0]), ParseInt(parts[1]), ParseInt(parts[2]);
      if h.Some? && m.Some? && s.Some? then Ms(h.value * 3600 * 1000 + m.value * 60 * 1000 + s.value * 1000)
      else ValueError
    else ValueError
  }

  /** A "M:SS" token of decimal fields is `m * 60 * 1000 + s * 1000` milliseconds. */
  lemma TwoFields(m: string, s: string)
    requires |m| >= 1 && AllDigits(m) && |s| >= 1 && AllDigits(s)
    ensures TimeToMs(m + ":" + s).Ms?
    ensures TimeToMs(m + ":" + s).ms == DecValue(m) * 60 * 1000 + DecValue(s) * 1000
  {
    var t := m + ":" + s;
    NoColonInDigits(m);
    NoColonInDigits(s);
    assert t[0] == m[0] && t[|t| - 1] == s[|s| - 1];
    StripUnchanged(t);
    SplitTwo(m, s, ':');
    ParseIntDigits(m);
    ParseIntDigits(s);
    TwoParts(t, m, s, DecValue(m), DecValue(s));
  }

  lemma TwoParts(t: string, a: string, b: string, x: int, y: int)
    requires Split(Strip(t), ':') == [a, b] && ParseInt(a) == Some(x) && ParseInt(b) == Some(y)
    ensures TimeToMs(t) == Ms(x * 60 * 1000 + y * 1000)
  {
  }

  lemma ThreeParts(t: string, a: string, b: string, c: string, x: int, y: int, z: int)
    requires Split(Strip(t), ':') == [a, b, c] && ParseInt(a) == Some(x) && ParseInt(b) == Some(y) && ParseInt(c) == Some(z)
    ensures TimeToMs(t) == Ms(x * 3600 * 1000 + y * 60 * 1000 + z * 1000)
  {
  }

  lemma NoColonInDigits(s: string)
    requires AllDigits(s)
    ensures ':' !in s
  {
    forall i | 0 <= i < |s|
      ensures s[i] != ':'
    {
      assert IsDigit(s[i]);
    }
  }

  /** A "H:MM:SS" token of decimal fields is `h * 3600 * 1000 + m * 60 * 1000 + s * 1000` milliseconds. */
  lemma ThreeFields(h: string, m: string, s: string)
    requires |h| >= 1 && AllDigits(h) && |m| >= 1 && AllDigits(m) && |s| >= 1 && AllDigits(s)
    ensures TimeToMs(h + ":" + m + ":" + s).Ms?
    ensures TimeToMs(h + ":" + m + ":" + s).ms == DecValue(h) * 3600 * 1000 + DecValue(m) * 60 * 1000 + DecValue(s) * 1000
  {
    var t := h + ":" + m + ":" + s;
    NoColonInDigits(h);
    NoColonInDigits(m);
    NoColonInDigits(s);
    assert t[0] == h[0] && t[|t| - 1] == s[|s| - 1];
    StripUnchanged(t);
    SplitThree(h, m, s, ':');
    ParseIntDigits(h);
    ParseIntDigits(m);
    ParseIntDigits(s);
    ThreeParts(t, h, m, s, DecValue(h), DecValue(m), DecValue(s));
  }

  /** Any number of ':'-separated fields other than two or three is a ValueError, whatever the fields hold. */
  lemma FieldCountError(timeStr: string)
    requires Occurrences(Strip(timeStr), ':') != 1 && Occurrences(Strip(timeStr), ':') != 2
    ensures TimeToMs(timeStr) == ValueError
  {
    SplitCount(Strip(timeStr), ':');
  }

  /** No range check: "99:99" is 99 minutes plus 99 seconds. */
  lemma NoRangeCheck()
    ensures TimeToMs("99:99").Ms? && TimeToMs("99:99").ms == 6039000
  {
    var n := "99";
    assert AllDigits(n);
    assert DecValue(n) == 99 by {
      assert n[..1] == "9";
      assert DecValue(n[..1]) == 9 by {
        assert n[..1][..0] == [];
      }
    }
    TwoFields(n, n);
    assert n + ":" + n == "99:99";
  }
}
