/** The player's clock display (`formatTime` in client/src/App.tsx), over
    whole non-negative seconds, and a reader that inverts it. */
module TimeFormat {
  import opened Wrappers
  import opened Strings

  /** `r` reads as "m:ss": a numeral worth `minutes` with no leading '0'
      (unless it is "0"), a colon, then exactly two digits worth `seconds`. */
  predicate ShowsClock(r: string, minutes: nat, seconds: nat) {
    && |r| >= 4 && r[|r| - 3] == ':'
    && AllDigits(r[..|r| - 3]) && AllDigits(r[|r| - 2..])
    && (|r| == 4 || r[0] != '0')
    && DigitsValue(r[..|r| - 3]) == minutes
    && DigitsValue(r[|r| - 2..]) == seconds
  }

  /** Joining a numeral, a colon and a two-digit numeral shows both values. */
  lemma JoinShowsClock(m: string, p: string, minutes: nat, seconds: nat)
    requires Canonical(m) && DigitsValue(m) == minutes
    requires |p| == 2 && AllDigits(p) && DigitsValue(p) == seconds
    ensures ShowsClock(m + ":" + p, minutes, seconds)
  {
    var r := m + ":" + p;
    assert r[0] == m[0];
    assert r[..|r| - 3] == m;
    assert r[|r| - 2..] == p;
  }

  /** Seconds within a minute always render as exactly two digits. */
  lemma PaddedSeconds(n: nat)
    requires n < 60
    ensures var p := PadStart2(Decimal(n));
      |p| == 2 && AllDigits(p) && DigitsValue(p) == n
  {
    var d := Decimal(n);
    DecimalRoundTrip(n);
    if |d| == 1 {
      assert PadStart2(d) == "0" + d;
      LeadingZero(d);
    }
  }

  /** Minutes, a colon, then the seconds within the minute as exactly two
      digits: 0 is "0:00", 65 is "1:05", 3600 is "60:00". */
  function FormatTime(t: nat): (r: string)
    ensures ShowsClock(r, t / 60, t % 60)
  {
    var m := Decimal(t / 60);
    var p := PadStart2(Decimal(t % 60));
    DecimalRoundTrip(t / 60);
    PaddedSeconds(t % 60);
    JoinShowsClock(m, p, t / 60, t % 60);
    m + ":" + p
  }

  /** "m:ss" back to seconds: digits, one colon, exactly two digits below 60. */
  function ParseTime(s: string): (r: Option<nat>)
    ensures r.Some? ==> ':' in s
  {
    var k := IndexOf(s, ':');
    if k == 0 || k >= |s| then None
    else
      var minutes := s[..k];
      var seconds := s[k + 1..];
      if AllDigits(minutes) && |seconds| == 2 && AllDigits(seconds) && DigitsValue(seconds) < 60
      then Some(DigitsValue(minutes) * 60 + DigitsValue(seconds))
      else None
  }

  /** Whatever shows a clock reading is read back as that many seconds. */
  lemma ParseShownClock(r: string, minutes: nat, seconds: nat)
    requires seconds < 60 && ShowsClock(r, minutes, seconds)
    ensures ParseTime(r) == Some(minutes * 60 + seconds)
  {
    var k := |r| - 3;
    forall i | 0 <= i < k
      ensures r[i] != ':'
    {
      assert r[i] == r[..k][i];
    }
    IndexOfFirst(r, ':', k);
    assert r[k + 1..] == r[|r| - 2..];
  }

  /** Reading a formatted time gives the number of seconds back. */
  lemma ParseFormatRoundTrip(t: nat)
    ensures ParseTime(FormatTime(t)) == Some(t)
  {
    ShownTimeParses(FormatTime(t), t);
  }

  /** What shows the minutes and seconds of `t` reads back as `t`. */
  lemma ShownTimeParses(r: string, t: nat)
    requires ShowsClock(r, t / 60, t % 60)
    ensures ParseTime(r) == Some(t)
  {
    ParseShownClock(r, t / 60, t % 60);
  }

  /** One reading, one string: a clock display is fixed by the minutes and
      seconds it shows. */
  lemma ShowsClockUnique(r1: string, r2: string, minutes: nat, seconds: nat)
    requires ShowsClock(r1, minutes, seconds) && ShowsClock(r2, minutes, seconds)
    ensures r1 == r2
  {
    var m1, m2 := r1[..|r1| - 3], r2[..|r2| - 3];
    assert m1[0] == r1[0] && m2[0] == r2[0];
    CanonicalIsDecimal(m1);
    CanonicalIsDecimal(m2);
    TwoDigitsUnique(r1[|r1| - 2..], r2[|r2| - 2..]);
    JoinedClock(r1);
    JoinedClock(r2);
  }

  /** A string shaped like "m:ss" is its minutes, a colon and its seconds. */
  lemma JoinedClock(r: string)
    requires |r| >= 4 && r[|r| - 3] == ':'
    ensures r == r[..|r| - 3] + ":" + r[|r| - 2..]
  {
  }

  /** The display of `t` is the only string that shows its minutes and
      seconds. */
  lemma FormatTimeIsTheOnlyDisplay(t: nat, r: string)
    requires ShowsClock(r, t / 60, t % 60)
    ensures r == FormatTime(t)
  {
    ShowsClockUnique(r, FormatTime(t), t / 60, t % 60);
  }

  /** Different times never share a display. */
  lemma FormatTimeInjective(a: nat, b: nat)
    requires FormatTime(a) == FormatTime(b)
    ensures a == b
  {
    ParseFormatRoundTrip(a);
    ParseFormatRoundTrip(b);
  }
}
