/** Client runs of the proctoring session: what a caller can conclude from the
    callbacks' contracts alone, for concrete exam situations. */
module Scenarios {
  import opened Common
  import opened Text
  import opened Scoring
  import opened Events
  import opened Gates
  import opened Reports
  import opened Session

  /** A fixed clock reading for the start of the exam. */
  const T0 := 1_000_000

  /** A name starting with a letter is not blank. */
  lemma NamedNotBlank(name: string)
    requires |name| > 0 && 'A' <= name[0] <= 'Z'
    ensures !IsBlank(name)
  {
    BlankIffAllWhitespace(name);
    assert !IsJsWhitespace(name[0]);
  }

  /** Spaces and a tab make a blank name. */
  lemma SpacesAndTabBlank()
    ensures IsBlank("  \t ")
  {
    BlankIffAllWhitespace("  \t ");
  }

  /** Starts an exam for a candidate called "Ada" at `T0`. */
  method Begin() returns (p: Proctor)
    ensures fresh(p) && p.Valid() && p.phase == Exam && p.running && p.startTime == T0
    ensures p.metrics == Initial && p.events == [] && p.objects == map[]
    ensures p.noFace.None? && p.lookingAway.None? && p.drowsiness.None?
    ensures p.candidateName == "Ada" && p.clickName == "Ada" && p.clickMetrics == Initial && p.clickEvents == []
  {
    p := new Proctor();
    p.SetCandidateName("Ada");
    NamedNotBlank("Ada");
    p.StartExam(T0);
  }

  /** A name of spaces and a tab is refused: the start screen stays. */
  method BlankNameRefused() returns (phase: Phase, running: bool)
    ensures phase == Start && !running
  {
    var p := new Proctor();
    p.SetCandidateName("  \t ");
    SpacesAndTabBlank();
    p.StartExam(T0);
    phase, running := p.phase, p.running;
  }

  /** No face for 10.5 s: the timer armed by the first empty frame is not
      re-armed by later ones, fires once at 10 s, and the next empty frame
      arms a new one. One `no_face` event, one focus loss, score 98. */
  method NoFaceForTenSeconds() returns (logged: nat, focusLost: nat, score: int)
    ensures logged == 1 && focusLost == 1 && score == 98
  {
    var p := Begin();
    p.OnFaceResults([], T0);
    p.Tick(T0 + 5000);
    p.OnFaceResults([], T0 + 5000);
    p.Tick(T0 + 9999);
    p.Tick(T0 + 10000);
    p.OnFaceResults([], T0 + 10500);
    p.Tick(T0 + 10500);
    logged, focusLost, score := |p.events|, p.metrics.focusLost, p.metrics.score;
  }

  /** A face seen 9 s into a no-face spell cancels the timer: nothing is logged. */
  method ShortAbsenceIgnored() returns (logged: nat)
    ensures logged == 0
  {
    var p := Begin();
    p.OnFaceResults([], T0);
    p.OnFaceResults([[]], T0 + 9000);
    p.Tick(T0 + 10000);
    logged := |p.events|;
  }

  const Phone := [Prediction(CellPhone, 0.6)]
  const PhoneEvent := Event(T0, CellPhone, Some(0.6))
  const Held := map[CellPhoneKey := Entry(true, Some(T0 + 1000), Some(T0))]

  /** The phone's first two frames: logged at 0 s, only marked seen at 1 s. */
  lemma PhoneFirstTwoFrames()
    ensures var s1 := ObjectFrame(FrameState(map[], [], Initial), Phone, T0);
      ObjectFrame(s1, Phone, T0 + 1000) == FrameState(Held, [PhoneEvent], Metrics(0, 1, 0, 95))
  {
    assert Phone[..0] == [];
    assert ObjectKeyOf(CellPhone) == Some(CellPhoneKey);
    var s1 := ObjectFrame(FrameState(map[], [], Initial), Phone, T0);
    assert SeeAll(FrameState(map[], [], Initial), Phone, T0).objects == map[CellPhoneKey := Entry(true, Some(T0), Some(T0))];
    assert s1 == FrameState(map[CellPhoneKey := Entry(true, Some(T0), Some(T0))], [PhoneEvent], Metrics(0, 1, 0, 95));
    assert SeeAll(s1, Phone, T0 + 1000).objects == Held;
  }

  /** At 6 s the phone is still marked detected, so it is not logged again. */
  lemma PhoneStillDetected()
    ensures var s4 := ObjectFrame(FrameState(Held, [PhoneEvent], Metrics(0, 1, 0, 95)), Phone, T0 + 6000);
      s4.log == [PhoneEvent] && s4.metrics == Metrics(0, 1, 0, 95)
  {
    var s := FrameState(Held, [PhoneEvent], Metrics(0, 1, 0, 95));
    assert Phone[..0] == [];
    assert SeeAll(s, Phone, T0 + 6000) == See(s, Phone[0], T0 + 6000);
    assert ObjectKeyOf(CellPhone) == Some(CellPhoneKey);
    assert !ShouldLog(Lookup(Held, CellPhoneKey), T0 + 6000);
  }

  /** A frame without the phone at 3.5 s clears the mark; at 6 s, more than
      5 s after the first log, it is logged again. */
  lemma PhoneBackAfterGap()
    ensures var s3 := ObjectFrame(FrameState(Held, [PhoneEvent], Metrics(0, 1, 0, 95)), [], T0 + 3500);
      var s4 := ObjectFrame(s3, Phone, T0 + 6000);
      |s4.log| == 2 && s4.metrics == Metrics(0, 2, 0, 90)
  {
    var s := FrameState(Held, [PhoneEvent], Metrics(0, 1, 0, 95));
    assert SeeAll(s, [], T0 + 3500) == s;
    var cleared := map[CellPhoneKey := Entry(false, Some(T0 + 1000), Some(T0))];
    assert Stale(Held[CellPhoneKey], T0 + 3500);
    assert Sweep(Held, T0 + 3500) == cleared;
    var s3 := FrameState(cleared, [PhoneEvent], Metrics(0, 1, 0, 95));
    assert ObjectFrame(s, [], T0 + 3500) == s3;
    assert Phone[..0] == [];
    assert SeeAll(s3, Phone, T0 + 6000) == See(s3, Phone[0], T0 + 6000);
    assert ObjectKeyOf(CellPhone) == Some(CellPhoneKey);
    assert ShouldLog(Lookup(cleared, CellPhoneKey), T0 + 6000);
  }

  /** A phone held up at 0 s, 1 s and 6 s with no frame in between is logged
      once: it is still marked detected at 6 s. When a frame without it at
      3.5 s lets the sweep clear the mark, it is logged again at 6 s. */
  method PhoneSeenThreeTimes(frameBetween: bool) returns (logged: nat, suspicious: nat, score: int)
    ensures !frameBetween ==> logged == 1 && suspicious == 1 && score == 95
    ensures frameBetween ==> logged == 2 && suspicious == 2 && score == 90
  {
    var p := Begin();
    assert p.Core() == FrameState(map[], [], Initial);
    p.OnObjectFrame(Phone, T0);
    p.OnObjectFrame(Phone, T0 + 1000);
    PhoneFirstTwoFrames();
    assert p.Core() == FrameState(Held, [PhoneEvent], Metrics(0, 1, 0, 95));
    if frameBetween {
      p.OnObjectFrame([], T0 + 3500);
      p.OnObjectFrame(Phone, T0 + 6000);
      PhoneBackAfterGap();
    } else {
      p.OnObjectFrame(Phone, T0 + 6000);
      PhoneStillDetected();
    }
    logged, suspicious, score := |p.events|, p.metrics.suspicious, p.metrics.score;
  }

  /** Leaving the tab raises both `window_blur` and `visibilitychange`: two
      events, both charged as focus losses; a second switch 3 s later is
      suppressed by both cooldowns. */
  method TabSwitchCountsTwice() returns (kinds: seq<string>, focusLost: nat, score: int)
    ensures kinds == [WindowBlur, TabChange] && focusLost == 2 && score == 96
  {
    var p := Begin();
    p.OnBlur(T0 + 1000);
    var blurred := map[WindowBlurKey := Entry(false, None, Some(T0 + 1000))];
    assert p.Core() == FrameState(blurred, [Event(T0 + 1000, WindowBlur, None)], Metrics(1, 0, 0, 98));
    p.OnVisibility(true, T0 + 1000);
    var both := blurred[TabChangeKey := Entry(false, None, Some(T0 + 1000))];
    var log := [Event(T0 + 1000, WindowBlur, None), Event(T0 + 1000, TabChange, None)];
    assert p.Core() == FrameState(both, log, Metrics(2, 0, 0, 96));
    p.OnBlur(T0 + 4000);
    assert p.Core() == FrameState(both, log, Metrics(2, 0, 0, 96));
    p.OnVisibility(true, T0 + 4000);
    assert p.Core() == FrameState(both, log, Metrics(2, 0, 0, 96));
    kinds, focusLost, score := Kinds(p.events), p.metrics.focusLost, p.metrics.score;
  }

  /** One tab change, then the 90-second deadline with the corrected callback:
      the report holds the session as it stands (one focus loss, 98, one
      event, "1m 30s"). */
  method TabChangeThenDeadline() returns (r: ExamReport)
    ensures r.focusLostCount == 1 && r.finalIntegrityScore == 98 && |r.events| == 1
    ensures r.durationSeconds == 90 && r.duration == "1m 30s"
  {
    var p := Begin();
    p.OnVisibility(true, T0 + 1000);
    assert p.events == [Event(T0 + 1000, TabChange, None)] && p.metrics == Metrics(1, 0, 0, 98);
    assert p.phase == Exam && p.startTime == T0;
    assert ElapsedSeconds(T0, T0 + 90000) == 90;
    assert DurationText(90) == "1m 30s" by {
      assert SplitDuration(90) == (1, 30);
      assert Decimal(3) == "3" && Decimal(0) == "0";
      assert Decimal(30) == "30";
    }
    p.ExamTimeout(T0 + 90000);
    r := p.report.value;
  }

  /** A no-face timer armed before the exam ends still fires afterwards: the
      report has no events but the log gains one after it. */
  method TimerFiresAfterEnd() returns (reported: nat, loggedAfter: nat, running: bool)
    ensures reported == 0 && loggedAfter == 1 && !running
  {
    var p := Begin();
    p.OnFaceResults([], T0 + 1000);
    p.EndExam(T0 + 2000);
    reported := |p.report.value.events|;
    p.Tick(T0 + 11000);
    loggedAfter, running := |p.events|, p.running;
  }

  /** The deadline as written, on a first exam with one tab change: the report
      shows no focus loss, a full score and no events, while the session
      holds one focus loss, 98 and one event. */
  method DeadlineReportIsStale() returns (r: ExamReport, focusLost: nat, score: int, logged: nat)
    ensures r.candidateName == "Ada" && r.durationSeconds == 90
    ensures r.focusLostCount == 0 && r.finalIntegrityScore == 100 && r.events == []
    ensures focusLost == 1 && score == 98 && logged == 1
  {
    var p := Begin();
    p.OnVisibility(true, T0 + 1000);
    assert p.Core() == FrameState(map[TabChangeKey := Entry(false, None, Some(T0 + 1000))],
      [Event(T0 + 1000, TabChange, None)], Metrics(1, 0, 0, 98));
    assert p.phase == Exam && p.startTime == T0;
    assert p.clickName == "Ada" && p.clickMetrics == Initial && p.clickEvents == [];
    assert ElapsedSeconds(T0, T0 + 90000) == 90;
    p.ExamTimeoutAsWritten(T0 + 90000);
    assert p.report == Some(BuildReport("Ada", Initial, [], 90));
    assert p.metrics == Metrics(1, 0, 0, 98) && |p.events| == 1;
    r := p.report.value;
    focusLost, score, logged := p.metrics.focusLost, p.metrics.score, |p.events|;
  }

  /** A first exam with one tab change, ended at 30 s, then "Run Another":
      the start screen is back with the first exam's log and counters. */
  method FirstExamOver() returns (p: Proctor)
    ensures fresh(p) && p.Valid() && p.phase == Start && p.candidateName == ""
    ensures p.events == [Event(T0 + 1000, TabChange, None)] && p.metrics == Metrics(1, 0, 0, 98)
  {
    p := Begin();
    p.OnVisibility(true, T0 + 1000);
    assert p.events == [Event(T0 + 1000, TabChange, None)] && p.metrics == Metrics(1, 0, 0, 98);
    p.EndExam(T0 + 30000);
    p.RunAnother();
  }

  /** A second exam after "Run Another", which resets nothing: the deadline as
      written reports the first exam's focus loss, score and event under the
      second candidate's name, while the second exam has logged nothing. */
  method SecondSessionReportsFirst() returns (r: ExamReport, logged: nat, score: int)
    ensures r.candidateName == "Bob"
    ensures r.focusLostCount == 1 && r.finalIntegrityScore == 98 && |r.events| == 1
    ensures logged == 0 && score == 100
  {
    var p := SecondExamStarted();
    assert ElapsedSeconds(T0 + 60000, T0 + 150000) == 90;
    p.ExamTimeoutAsWritten(T0 + 150000);
    r := p.report.value;
    logged, score := |p.events|, p.metrics.score;
  }

  /** "Bob" starts a second exam at 60 s: the session is cleared, and the
      Start click saw the first exam's log and counters. */
  method SecondExamStarted() returns (p: Proctor)
    ensures fresh(p) && p.Valid() && p.phase == Exam && p.startTime == T0 + 60000
    ensures p.events == [] && p.metrics == Initial
    ensures p.clickName == "Bob" && p.clickMetrics == Metrics(1, 0, 0, 98)
    ensures p.clickEvents == [Event(T0 + 1000, TabChange, None)]
  {
    p := FirstExamOver();
    p.SetCandidateName("Bob");
    NamedNotBlank("Bob");
    p.StartExam(T0 + 60000);
  }
}
