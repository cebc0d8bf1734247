/** `formatUptime` of the `src/` dashboard (src/hooks/use-system-telemetry.ts):
    seconds of uptime as hours, minutes and seconds, each at least two digits. */
module SystemTelemetry {
  import opened Wrappers
  import opened Text

  /** `n.toString().padStart(2, "0")` */
  function TwoDigits(n: nat): (s: string)
    ensures |s| == if n < 100 then 2 else |NatToString(n)|
    ensures forall i :: 0 <= i < |s| ==> IsDigit(s[i])
    ensures DecimalValue(s) == n
  {
    PaddedValue(n);
    PadStart(NatToString(n), 2, '0')
  }

  lemma PaddedValue(n: nat)
    ensures var s := PadStart(NatToString(n), 2, '0');
      && |s| == (if n < 100 then 2 else |NatToString(n)|)
      && (forall i :: 0 <= i < |s| ==> IsDigit(s[i]))
      && DecimalValue(s) == n
  {
    var d := NatToString(n);
    NatToStringValue(n);
    if n >= 10 {
      NatToStringLength(n);
    }
    var z := if |d| >= 2 then 0 else 2 - |d|;
    LeadingZeros(z, d);
    assert PadStart(d, 2, '0') == Repeat('0', z) + d;
  }

  lemma NatToStringLength(n: nat)
    requires n >= 10
    ensures n < 100 ==> |NatToString(n)| == 2
    ensures n >= 100 ==> |NatToString(n)| > 2
  {
    assert NatToString(n) == NatToString(n / 10) + [DigitChar(n % 10)];
    if n >= 100 {
      NatToStringLength(n / 10);
    }
  }

  /** `formatUptime`: whole hours, then minutes and seconds below 60, each
      padded to two digits; reading the fields back gives the seconds. */
  function FormatUptime(seconds: nat): (r: string)
    ensures |r| >= 8
    ensures ParseUptime(r) == Some(seconds)
  {
    var hours := seconds / 3600;
    var minutes := (seconds % 3600) / 60;
    var secs := seconds % 60;
    ParseFields(TwoDigits(hours), TwoDigits(minutes), TwoDigits(secs));
    FieldsDenoteSeconds(seconds);
    TwoDigits(hours) + ":" + TwoDigits(minutes) + ":" + TwoDigits(secs)
  }

  predicate AllDigits(s: string)
  {
    forall i :: 0 <= i < |s| ==> IsDigit(s[i])
  }

  /** Reads "H...H:MM:SS" back into seconds; the hours field may be any length. */
  function ParseUptime(r: string): Option<nat>
  {
    if |r| < 8 || r[|r| - 6] != ':' || r[|r| - 3] != ':' then None
    else
      var h, m, s := r[..|r| - 6], r[|r| - 5..|r| - 3], r[|r| - 2..];
      if AllDigits(h) && AllDigits(m) && AllDigits(s) then Some(ClockValue(h, m, s)) else None
  }

  /** The seconds denoted by decimal hour, minute and second fields. */
  function ClockValue(h: string, m: string, s: string): nat
    requires AllDigits(h) && AllDigits(m) && AllDigits(s)
  {
    DecimalValue(h) * 3600 + DecimalValue(m) * 60 + DecimalValue(s)
  }

  lemma ClockArithmetic(seconds: nat)
    ensures (seconds / 3600) * 3600 + ((seconds % 3600) / 60) * 60 + seconds % 60 == seconds
    ensures (seconds % 3600) / 60 < 60 && seconds % 60 < 60
  {
    var q, r := seconds / 3600, seconds % 3600;
    assert seconds == 3600 * q + r;
    assert seconds == 60 * (60 * q) + r;
    assert r == 60 * (r / 60) + r % 60;
    assert seconds == 60 * (60 * q + r / 60) + r % 60;
    assert seconds % 60 == r % 60;
  }

  /** Where the fields of "H...H:MM:SS" sit, counted from the end. */
  lemma FieldSlices(h: string, m: string, s: string)
    requires |m| == 2 && |s| == 2
    ensures var r := h + ":" + m + ":" + s;
      && r[..|r| - 6] == h && r[|r| - 5..|r| - 3] == m && r[|r| - 2..] == s
      && r[|r| - 6] == ':' && r[|r| - 3] == ':'
  {
    var tail := [':'] + m + [':'] + s;
    var r := h + tail;
    assert r == h + ":" + m + ":" + s;
    assert tail[1..3] == m && tail[4..] == s;
    assert r[|r| - 5..|r| - 3] == tail[1..3];
    assert r[|r| - 2..] == tail[4..];
    assert r[|r| - 6] == tail[0] && r[|r| - 3] == tail[3];
  }

  lemma ParseFields(h: string, m: string, s: string)
    requires |h| >= 2 && |m| == 2 && |s| == 2
    requires AllDigits(h) && AllDigits(m) && AllDigits(s)
    ensures ParseUptime(h + ":" + m + ":" + s) == Some(ClockValue(h, m, s))
  {
    FieldSlices(h, m, s);
  }

  /** The three fields of the formatted uptime denote the seconds it was made from. */
  lemma FieldsDenoteSeconds(seconds: nat)
    ensures ClockValue(TwoDigits(seconds / 3600), TwoDigits((seconds % 3600) / 60), TwoDigits(seconds % 60)) == seconds
  {
    ClockArithmetic(seconds);
  }

  /** The minutes and seconds fields of the formatted uptime are the padded
      minutes and seconds. */
  lemma UptimeFields(seconds: nat)
    ensures var r := FormatUptime(seconds);
      r[|r| - 5..|r| - 3] == TwoDigits((seconds % 3600) / 60) && r[|r| - 2..] == TwoDigits(seconds % 60)
  {
    var h, m, s := TwoDigits(seconds / 3600), TwoDigits((seconds % 3600) / 60), TwoDigits(seconds % 60);
    assert FormatUptime(seconds) == h + ":" + m + ":" + s;
    FieldSlices(h, m, s);
  }

  /** A decimal field whose value is at most 59. */
  predicate BelowSixty(f: string)
  {
    AllDigits(f) && DecimalValue(f) < 60
  }

  /** Minutes and seconds always lie in 0..59. */
  lemma UptimeFieldsBelowSixty(seconds: nat)
    ensures var r := FormatUptime(seconds);
      BelowSixty(r[|r| - 5..|r| - 3]) && BelowSixty(r[|r| - 2..])
  {
    UptimeFields(seconds);
    ClockArithmetic(seconds);
  }

  /** A single digit gets one leading zero. */
  lemma TwoDigitsOfDigit(n: nat)
    requires n < 10
    ensures TwoDigits(n) == ['0', DigitChar(n)]
  {
    assert NatToString(n) == [DigitChar(n)];
    assert Repeat('0', 1) == ['0'];
  }

  lemma UptimeAtStart()
    ensures FormatUptime(0) == "00:00:00"
  {
    assert 0 / 3600 == 0 && (0 % 3600) / 60 == 0 && 0 % 60 == 0;
    TwoDigitsOfDigit(0);
    assert DigitChar(0) == '0';
    assert TwoDigits(0) == "00";
  }

  lemma UptimeExample()
    ensures FormatUptime(3661) == "01:01:01"
  {
    assert 3661 / 3600 == 1 && (3661 % 3600) / 60 == 1 && 3661 % 60 == 1;
    TwoDigitsOfDigit(1);
    assert DigitChar(1) == '1';
  }

  /** Hours neither wrap at 24 nor get cut to two digits: from 100 hours on
      the hours field is at least three characters long. */
  lemma {:induction false} UptimeHoursDoNotWrap(seconds: nat)
    ensures seconds >= 360000 <==> |FormatUptime(seconds)| > 8
  {
    var hours := seconds / 3600;
    if hours >= 10 {
      NatToStringLength(hours);
    }
  }

  lemma HundredHoursExample()
    ensures FormatUptime(360000) == "100:00:00"
  {
    assert 360000 / 3600 == 100 && (360000 % 3600) / 60 == 0 && 360000 % 60 == 0;
    assert DigitChar(0) == '0' && DigitChar(1) == '1';
    assert NatToString(100) == NatToString(10) + "0" == NatToString(1) + "0" + "0" == "100";
    assert TwoDigits(100) == "100";
    TwoDigitsOfDigit(0);
  }
}
