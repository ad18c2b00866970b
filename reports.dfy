/** The end-of-session report and the two time renderings: the report's
    "Xm Ys" duration and the live `mm:ss` timer. */
module Reports {
  import opened Common
  import opened Text
  import opened Scoring
  import opened Events

  /** The fixed session length of the deadline timer. */
  const ExamDurationMs := 90 * 1000

  /** `Math.floor((now - start) / 1000)`; Dafny's `/` by a positive divisor rounds down too. */
  function ElapsedSeconds(start: int, now: int): (r: int)
    ensures r * 1000 <= now - start < r * 1000 + 1000
  {
    (now - start) / 1000
  }

  /** JavaScript's `%`, whose remainder takes the sign of the dividend. */
  function JsRem(a: int, b: int): (r: int)
    requires b > 0
    ensures a >= 0 ==> r == a % b
    ensures a < 0 ==> -b < r <= 0 && a == b * -((-a) / b) + r
  {
    if a >= 0 then a % b else -((-a) % b)
  }

  /** The report's `Math.floor(totalSec / 60)` minutes and `totalSec % 60` seconds:
      for a non-negative duration they recombine to it, with the seconds below 60. */
  function SplitDuration(totalSec: int): (r: (int, int))
    ensures totalSec >= 0 ==> r.0 >= 0 && r.0 * 60 + r.1 == totalSec && 0 <= r.1 < 60
  {
    (totalSec / 60, JsRem(totalSec, 60))
  }

  /** The report's `${minutes}m ${rem}s`. */
  function DurationText(totalSec: int): string
  {
    var (m, s) := SplitDuration(totalSec);
    IntDecimal(m) + "m " + IntDecimal(s) + "s"
  }

  /** Length of the leading run of digits. */
  function DigitRun(s: string): (n: nat)
    ensures n <= |s| && AllDigits(s[..n])
    ensures n < |s| ==> !IsDigit(s[n])
  {
    if s != [] && IsDigit(s[0]) then
      var n := 1 + DigitRun(s[1..]);
      assert s[..n] == [s[0]] + s[1..][..n - 1];
      n
    else 0
  }

  lemma {:induction false} DigitRunOfDigits(d: string, rest: string)
    requires AllDigits(d)
    requires rest == [] || !IsDigit(rest[0])
    ensures DigitRun(d + rest) == |d|
  {
    if d != [] {
      assert (d + rest)[1..] == d[1..] + rest;
      DigitRunOfDigits(d[1..], rest);
    }
  }

  /** A seconds field: digits whose value is below 60. A larger value is not
      a minutes/seconds split and is refused. */
  function SecondsField(t: string): (r: Option<nat>)
    ensures r.Some? ==> r.value < 60
  {
    if AllDigits(t) && ParseDecimal(t) < 60 then Some(ParseDecimal(t)) else None
  }

  /** Reads "Xm Ys" back as a number of seconds. Both fields are written as
      `toString` writes numbers, without leading zeros. */
  function ParseDuration(s: string): Option<int>
  {
    var i := DigitRun(s);
    if i + 3 <= |s| && s[i..i + 2] == "m " && s[|s| - 1] == 's'
      && Canonical(s[..i]) && Canonical(s[i + 2..|s| - 1])
    then
      var sec := SecondsField(s[i + 2..|s| - 1]);
      if sec.Some? then Some(ParseDecimal(s[..i]) * 60 + sec.value) else None
    else None
  }

  /** Where the fields of a "Xm Ys" text lie. */
  lemma DurationShape(dm: string, dq: string)
    requires AllDigits(dm) && |dm| >= 1
    ensures var s := dm + "m " + dq + "s";
      DigitRun(s) == |dm| && |dm| + 3 <= |s| && s[|s| - 1] == 's'
      && s[..|dm|] == dm && s[|dm|..|dm| + 2] == "m " && s[|dm| + 2..|s| - 1] == dq
  {
    var s := dm + "m " + dq + "s";
    assert s == dm + ("m " + dq + "s");
    DigitRunOfDigits(dm, "m " + dq + "s");
  }

  lemma ParseDurationJoin(dm: string, dq: string, m: nat, q: nat)
    requires Canonical(dm) && Canonical(dq)
    requires ParseDecimal(dm) == m && ParseDecimal(dq) == q && q < 60
    ensures ParseDuration(dm + "m " + dq + "s") == Some(m * 60 + q)
  {
    DurationShape(dm, dq);
    var s := dm + "m " + dq + "s";
    var i := DigitRun(s);
    assert SecondsField(s[i + 2..|s| - 1]) == Some(q);
    assert ParseDecimal(s[..i]) == m;
  }

  /** A text with "m " after its first `i` characters and a final 's' is
      put back together from its two fields. */
  lemma DurationJoinedAt(s: string, i: nat)
    requires i + 3 <= |s| && s[i..i + 2] == "m " && s[|s| - 1] == 's'
    ensures s == s[..i] + "m " + s[i + 2..|s| - 1] + "s"
  {
    assert s[i + 2..] == s[i + 2..|s| - 1] + "s";
    assert s[i..] == "m " + s[i + 2..];
    assert s == s[..i] + s[i..];
  }

  /** A minute count and a seconds count below 60 are what the duration text
      of their total shows. */
  lemma DurationTextOf(n: int, m: nat, q: nat)
    requires q < 60 && n == m * 60 + q
    ensures DurationText(n) == Decimal(m) + "m " + Decimal(q) + "s"
  {
    var sp := SplitDuration(n);
    assert (sp.0 - m) * 60 == q - sp.1;
    assert sp == (m, q);
  }

  /** The duration text is the only text that reads back: whatever the
      reader accepts is the duration text of what it reads as. */
  lemma DurationTextOnly(s: string)
    requires ParseDuration(s).Some?
    ensures ParseDuration(s).value >= 0 && s == DurationText(ParseDuration(s).value)
  {
    var i := DigitRun(s);
    var dm, dq := s[..i], s[i + 2..|s| - 1];
    var m, q := ParseDecimal(dm), ParseDecimal(dq);
    assert ParseDuration(s) == Some(m * 60 + q) && q < 60;
    DurationJoinedAt(s, i);
    DecimalOfParse(dm);
    DecimalOfParse(dq);
    DurationTextOf(ParseDuration(s).value, m, q);
  }

  /** The duration text of a non-negative duration reads back as that
      duration, with a seconds field below 60. */
  lemma DurationTextRoundTrip(totalSec: int)
    requires totalSec >= 0
    ensures ParseDuration(DurationText(totalSec)) == Some(totalSec)
  {
    var (m, q) := SplitDuration(totalSec);
    assert DurationText(totalSec) == Decimal(m) + "m " + Decimal(q) + "s";
    ParseDecimalOfDecimal(m);
    ParseDecimalOfDecimal(q);
    ParseDurationJoin(Decimal(m), Decimal(q), m, q);
  }

  /** A seconds field of 60 or more does not read back, so "0m 90s" and
      "00:75" are not renderings of 90 and 75 seconds. */
  lemma OverflowSecondsRefused()
    ensures ParseDuration("0m 90s") == None
    ensures ParseElapsed("00:75") == None
  {
    assert DigitRun("0m 90s") == 1 by {
      DigitRunOfDigits("0", "m 90s");
      assert "0" + "m 90s" == "0m 90s";
    }
    assert "0m 90s"[3..5] == "90" && "00:75"[3..] == "75";
    assert ParseDecimal("90") == 90 && ParseDecimal("75") == 75;
  }

  /** `formatElapsed(sec)`: minutes and seconds, each `padStart(2, "0")`. */
  function FormatElapsed(sec: int): string
  {
    PadTwo(IntDecimal(sec / 60)) + ":" + PadTwo(IntDecimal(JsRem(sec, 60)))
  }

  /** Reads an `mm:ss` rendering back as a number of seconds. */
  function ParseElapsed(s: string): Option<int>
  {
    if |s| >= 5 && s[|s| - 3] == ':' && AllDigits(s[..|s| - 3]) then
      var sec := SecondsField(s[|s| - 2..]);
      if sec.Some? then Some(ParseDecimal(s[..|s| - 3]) * 60 + sec.value) else None
    else None
  }

  lemma ParseElapsedJoin(pm: string, ps: string, m: int, q: int)
    requires AllDigits(pm) && AllDigits(ps) && |pm| >= 2 && |ps| == 2
    requires ParseDecimal(pm) == m && ParseDecimal(ps) == q && q < 60
    ensures ParseElapsed(pm + ":" + ps) == Some(m * 60 + q)
  {
    assert SecondsField(ps) == Some(q);
    var r := pm + ":" + ps;
    assert r[..|r| - 3] == pm;
    assert r[|r| - 2..] == ps;
  }

  lemma {:induction false} TwoDigitsBelowHundred(n: nat)
    requires n < 100
    ensures |Decimal(n)| <= 2
  {
    if n >= 10 {
      assert Decimal(n) == Decimal(n / 10) + [DigitChar(n % 10)];
    }
  }

  lemma ElapsedShape(m: nat, q: nat)
    requires q < 60
    ensures var r := PadTwo(Decimal(m)) + ":" + PadTwo(Decimal(q));
      |r| >= 5 && r[|r| - 3] == ':' && (m < 100 ==> |r| == 5)
  {
    var pm, ps := PadTwo(Decimal(m)), PadTwo(Decimal(q));
    TwoDigitsBelowHundred(q);
    if m < 100 {
      TwoDigitsBelowHundred(m);
    }
    var r := pm + ":" + ps;
    assert |r| == |pm| + 3 && r[|pm|] == ':';
  }

  lemma ElapsedParse(m: nat, q: nat)
    requires q < 60
    ensures ParseElapsed(PadTwo(Decimal(m)) + ":" + PadTwo(Decimal(q))) == Some(m * 60 + q)
  {
    TwoDigitsBelowHundred(q);
    PadTwoDecimal(m);
    PadTwoDecimal(q);
    ParseElapsedJoin(PadTwo(Decimal(m)), PadTwo(Decimal(q)), m, q);
  }

  /** For a non-negative count of seconds, both fields are zero-padded to at
      least two digits, the seconds field has exactly two, under 100 minutes
      the text is exactly `mm:ss`, and it reads back as the same count. */
  lemma FormatElapsedRoundTrip(sec: int)
    requires sec >= 0
    ensures var r := FormatElapsed(sec);
      |r| >= 5 && r[|r| - 3] == ':'
      && (sec < 6000 ==> |r| == 5)
      && ParseElapsed(r) == Some(sec)
  {
    var m, q := sec / 60, sec % 60;
    assert m * 60 + q == sec && q < 60 && (sec < 6000 ==> m < 100);
    assert FormatElapsed(sec) == PadTwo(Decimal(m)) + ":" + PadTwo(Decimal(q));
    ElapsedShape(m, q);
    ElapsedParse(m, q);
  }

  /** The report record the session builds when it ends. */
  datatype ExamReport = ExamReport(
    candidateName: string,
    duration: string,
    durationSeconds: int,
    focusLostCount: nat,
    suspiciousEvents: nat,
    drowsinessCount: nat,
    finalIntegrityScore: int,
    events: seq<Event>)

  /** The report: a snapshot of the counters, score and full chronological
      log, with the duration in seconds and as text that reads back to it. */
  function BuildReport(name: string, m: Metrics, log: seq<Event>, totalSec: int): (r: ExamReport)
    ensures r.candidateName == name && r.events == log && r.durationSeconds == totalSec
    ensures r.focusLostCount == Counter(m, FocusLost) && r.suspiciousEvents == Counter(m, Suspicious)
      && r.drowsinessCount == Counter(m, Drowsy) && r.finalIntegrityScore == m.score
    ensures totalSec >= 0 ==> ParseDuration(r.duration) == Some(totalSec)
  {
    var r := ExamReport(name, DurationText(totalSec), totalSec,
                        m.focusLost, m.suspicious, m.drowsiness, m.score, log);
    assert totalSec >= 0 ==> ParseDuration(r.duration) == Some(totalSec) by {
      if totalSec >= 0 {
        DurationTextRoundTrip(totalSec);
      }
    }
    r
  }
}
