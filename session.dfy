/** The proctoring session: the state the exam screen keeps between callbacks
    (phase, candidate name, counters and score, event log, per-key gate state,
    the three delayed-confirmation timers, the report) and the callbacks that
    change it. */
module Session {
  import opened Common
  import opened Text
  import opened Scoring
  import opened Events
  import opened Landmarks
  import opened Timers
  import opened Gates
  import opened Reports

  /** The three screens: name entry, the running exam, the report. */
  datatype Phase = Start | Exam | Report

  class Proctor {
    var phase: Phase
    var candidateName: string
    /** `runningRef`: set when proctoring starts, cleared when it stops. */
    var running: bool
    var startTime: int
    var elapsedSec: int
    var metrics: Metrics
    var events: seq<Event>
    /** `objectStateRef`. */
    var objects: ObjectState
    /** The pending delayed-confirmation timers, each holding the time it was armed. */
    var noFace: Timer
    var lookingAway: Timer
    var drowsiness: Timer
    var report: Option<ExamReport>
    /** What the deadline callback scheduled by the Start click sees: the
        name, counters, score and log of the screen as that click found them,
        before the reset. */
    var clickName: string
    var clickMetrics: Metrics
    var clickEvents: seq<Event>

    /** The counters and score are those obtained by charging every logged
        event in turn from the reset values. */
    ghost predicate Accounted()
      reads this`metrics, this`events
    {
      metrics == Tally(events)
    }

    /** The score is in range, the cooldown keys carry no detection marks,
        and the metrics are the tally of the log. */
    ghost predicate Sound()
      reads this`metrics, this`events, this`objects
    {
      InRange(metrics) && WellShaped(objects) && Accounted()
    }

    ghost predicate Valid()
      reads this
    {
      Sound()
      && (running <==> phase == Exam)
      && (phase == Report ==> report.Some?)
    }

    /** The part of the state the detectors and handlers drive. */
    ghost function Core(): FrameState
      reads this
    {
      FrameState(objects, events, metrics)
    }

    /** The screen as first shown. */
    constructor ()
      ensures Valid()
      ensures phase == Start && candidateName == "" && !running && elapsedSec == 0
      ensures metrics == Initial && events == [] && objects == map[]
      ensures noFace.None? && lookingAway.None? && drowsiness.None? && report.None?
      ensures clickName == "" && clickMetrics == Initial && clickEvents == []
    {
      phase := Start;
      candidateName := "";
      running := false;
      startTime := 0;
      elapsedSec := 0;
      metrics := Initial;
      events := [];
      objects := map[];
      noFace, lookingAway, drowsiness := None, None, None;
      report := None;
      clickName, clickMetrics, clickEvents := "", Initial, [];
    }

    /** Typing in the name field of the start screen. */
    method SetCandidateName(name: string)
      requires Valid() && phase == Start
      modifies this`candidateName
      ensures Valid() && candidateName == name
    {
      candidateName := name;
    }

    /** `pushEvent`: one record appended at the end, earlier ones untouched. */
    method PushEvent(kind: string, score: Option<real>, now: int)
      modifies this`events
      ensures events == old(events) + [Event(now, kind, score)]
      ensures |events| == |old(events)| + 1 && events[..|old(events)|] == old(events)
    {
      events := events + [Event(now, kind, score)];
    }

    /** A cooldown-gated signal: logs `kind` and charges `charged` only when
        the key's cooldown has elapsed, recording `now` as its last log time. */
    method Cooldown(k: Key, kind: string, charged: string, now: int)
      requires Valid() && !IsObjectKey(k) && charged == ChargedAs(kind)
      modifies this`objects, this`events, this`metrics
      ensures Valid()
      ensures Core() == GateStep(old(Core()), k, kind, charged, now)
    {
      var prev := Lookup(objects, k);
      if !Truthy(prev.lastLogged) || now - prev.lastLogged.value > CooldownMs {
        objects := objects[k := Entry(false, None, Some(now))];
        Record(kind, None, charged, now);
      }
    }

    /** A logged event: `pushEvent` followed by `updateMetrics` with its charge. */
    method Record(kind: string, score: Option<real>, charged: string, now: int)
      requires InRange(metrics) && Accounted() && charged == ChargedAs(kind)
      modifies this`events, this`metrics
      ensures InRange(metrics) && Accounted()
      ensures events == old(events) + [Event(now, kind, score)]
      ensures metrics == UpdateMetrics(old(metrics), charged)
    {
      ChargeAppended(events, Event(now, kind, score));
      PushEvent(kind, score, now);
      metrics := UpdateMetrics(metrics, charged);
    }

    /** `startExam`: a blank or whitespace-only name changes nothing; otherwise
        everything the session accumulates is reset and the exam begins. */
    method StartExam(now: int)
      requires Valid() && phase == Start
      modifies this`events, this`metrics, this`objects, this`elapsedSec, this`startTime,
        this`phase, this`running, this`noFace, this`lookingAway, this`drowsiness,
        this`clickName, this`clickMetrics, this`clickEvents
      ensures Valid()
      ensures IsBlank(old(candidateName)) ==> unchanged(this)
      ensures !IsBlank(old(candidateName)) ==>
        phase == Exam && running && candidateName == old(candidateName)
        && events == [] && metrics == Initial && objects == map[]
        && elapsedSec == 0 && startTime == now
        && noFace.None? && lookingAway.None? && drowsiness.None?
        && report == old(report)
        && clickName == old(candidateName) && clickMetrics == old(metrics) && clickEvents == old(events)
    {
      var blank := IsBlank(candidateName);
      if blank {
        return;
      }
      ResetRecord();
      ResetClock(now);
    }

    /** The resets of a non-blank start, first of what the session has
        accumulated (kept as the click found it for the deadline callback)... */
    method ResetRecord()
      modifies this`events, this`metrics, this`objects, this`clickName, this`clickMetrics, this`clickEvents
      ensures Sound()
      ensures events == [] && metrics == Initial && objects == map[]
      ensures clickName == candidateName && clickMetrics == old(metrics) && clickEvents == old(events)
    {
      clickName, clickMetrics, clickEvents := candidateName, metrics, events;
      events := [];
      metrics := Initial;
      objects := map[];
      assert Tally(events) == Initial;
    }

    /** ... then of the clock, the phase and the timers. */
    method ResetClock(now: int)
      modifies this`elapsedSec, this`startTime, this`phase, this`running,
        this`noFace, this`lookingAway, this`drowsiness
      ensures phase == Exam && running && elapsedSec == 0 && startTime == now
      ensures noFace.None? && lookingAway.None? && drowsiness.None?
    {
      elapsedSec := 0;
      startTime := now;
      phase := Exam;
      running := true;
      // the face callback of the new session starts with fresh timer handles
      noFace, lookingAway, drowsiness := None, None, None;
    }

    /** One face-landmark result. No face arms the no-face timer (if none is
        pending); any face cancels it. Several faces go through the
        `multiple_faces` cooldown gate. Exactly one face arms or cancels the
        looking-away timer, and, when both eye landmarks exist, the drowsiness
        timer. Nothing happens once proctoring has stopped. */
    method OnFaceResults(faces: seq<Face>, now: int)
      requires Valid()
      modifies this`noFace, this`lookingAway, this`drowsiness, this`objects, this`events, this`metrics
      ensures Valid()
      ensures !running ==> unchanged(this)
      ensures running ==>
        noFace == Observe(old(noFace), |faces| == 0, now)
        && lookingAway == (if |faces| == 1 then Observe(old(lookingAway), LooksAway(faces[0]), now)
                           else old(lookingAway))
        && drowsiness == (if |faces| == 1 && EyesPresent(faces[0])
                          then Observe(old(drowsiness), LooksDrowsy(faces[0]), now)
                          else old(drowsiness))
        && Core() == (if |faces| > 1 then GateStep(old(Core()), MultipleFacesKey, MultipleFaces, MultipleFaces, now)
                      else old(Core()))
    {
      if !running {
        return;
      }
      if |faces| == 0 {
        if noFace.None? {
          noFace := Some(now);
        }
      } else {
        if noFace.Some? {
          noFace := None;
        }
        if |faces| > 1 {
          Cooldown(MultipleFacesKey, MultipleFaces, MultipleFaces, now);
        } else {
          OnOneFace(faces[0], now);
        }
      }
    }

    /** Exactly one face: the looking-away timer is armed or cancelled by the
        nose tip, and, when both eye landmarks exist, the drowsiness timer by
        the eye gap. */
    method OnOneFace(face: Face, now: int)
      modifies this`lookingAway, this`drowsiness
      ensures lookingAway == Observe(old(lookingAway), LooksAway(face), now)
      ensures drowsiness == if EyesPresent(face) then Observe(old(drowsiness), LooksDrowsy(face), now)
                            else old(drowsiness)
    {
      var nose := Landmark(face, NoseTip);
      if nose.Some? && (nose.value.x < BandLow || nose.value.x > BandHigh) {
        if lookingAway.None? {
          lookingAway := Some(now);
        }
      } else if lookingAway.Some? {
        lookingAway := None;
      }
      var left, right := Landmark(face, LeftEye), Landmark(face, RightEye);
      if left.Some? && right.Some? {
        if Abs(left.value.y - right.value.y) < EyeGap {
          if drowsiness.None? {
            drowsiness := Some(now);
          }
        } else if drowsiness.Some? {
          drowsiness := None;
        }
      }
    }

    /** Timer callbacks at time `now`: each pending timer whose delay has
        elapsed logs and charges its event once and clears itself. The
        callbacks do not look at `running`, so they still fire after the
        session has ended. */
    method Tick(now: int)
      requires Valid()
      modifies this`noFace, this`lookingAway, this`drowsiness, this`events, this`metrics
      ensures Valid()
      ensures var s1 := ConfirmIf(old(Core()), Due(old(noFace), now, DelayMs(NoFaceTimer)), NoFace, now);
        var s2 := ConfirmIf(s1, Due(old(lookingAway), now, DelayMs(LookingAwayTimer)), LookingAway, now);
        Core() == ConfirmIf(s2, Due(old(drowsiness), now, DelayMs(DrowsinessTimer)), Drowsiness, now)
      ensures noFace == if Due(old(noFace), now, DelayMs(NoFaceTimer)) then None else old(noFace)
      ensures lookingAway == if Due(old(lookingAway), now, DelayMs(LookingAwayTimer)) then None else old(lookingAway)
      ensures drowsiness == if Due(old(drowsiness), now, DelayMs(DrowsinessTimer)) then None else old(drowsiness)
    {
      Expire(NoFaceTimer, now);
      Expire(LookingAwayTimer, now);
      Expire(DrowsinessTimer, now);
    }

    /** The pending handle of one delayed confirmation. */
    function TimerOf(d: Delayed): Timer
      reads this`noFace, this`lookingAway, this`drowsiness
    {
      match d
      case NoFaceTimer => noFace
      case LookingAwayTimer => lookingAway
      case DrowsinessTimer => drowsiness
    }

    /** One timer at time `now`: when it is due, its callback logs and charges
        its event type once and clears the handle; the other timers stay. */
    method Expire(d: Delayed, now: int)
      requires InRange(metrics) && Accounted()
      modifies this`noFace, this`lookingAway, this`drowsiness, this`events, this`metrics
      ensures InRange(metrics) && Accounted()
      ensures Core() == ConfirmIf(old(Core()), Due(old(TimerOf(d)), now, DelayMs(d)), EventType(d), now)
      ensures TimerOf(d) == if Due(old(TimerOf(d)), now, DelayMs(d)) then None else old(TimerOf(d))
      ensures forall e :: e != d ==> TimerOf(e) == old(TimerOf(e))
    {
      if Due(TimerOf(d), now, DelayMs(d)) {
        Fire(EventType(d), now);
        match d
        case NoFaceTimer => noFace := None;
        case LookingAwayTimer => lookingAway := None;
        case DrowsinessTimer => drowsiness := None;
      }
    }

    /** One timer callback: `pushEvent` then `updateMetrics` for its type. */
    method Fire(kind: string, now: int)
      requires InRange(metrics) && Accounted() && kind != WindowBlur
      modifies this`events, this`metrics
      ensures InRange(metrics) && Accounted()
      ensures Core() == ConfirmIf(old(Core()), true, kind, now)
    {
      Record(kind, None, kind, now);
    }

    /** One pass of the object-detection loop: every prediction goes through
        the object-presence gate in detector order, then stale entries lose
        their `detected` mark. Nothing happens once proctoring has stopped. */
    method OnObjectFrame(preds: seq<Prediction>, now: int)
      requires Valid()
      modifies this`objects, this`events, this`metrics
      ensures Valid()
      ensures Core() == if old(running) then ObjectFrame(old(Core()), preds, now) else old(Core())
    {
      if !running {
        return;
      }
      SeePredictions(preds, now);
      SweepStale(now);
    }

    /** The prediction loop of one object frame. */
    method SeePredictions(preds: seq<Prediction>, now: int)
      requires Sound()
      modifies this`objects, this`events, this`metrics
      ensures Sound()
      ensures Core() == SeeAll(old(Core()), preds, now)
    {
      var i := 0;
      while i < |preds|
        invariant 0 <= i <= |preds|
        invariant Core() == SeeAll(old(Core()), preds[..i], now)
        invariant Sound()
      {
        SeeOne(preds[i], now);
        assert preds[..i + 1][..i] == preds[..i];
        i := i + 1;
      }
      assert preds[..i] == preds;
    }

    /** One iteration of the prediction loop. */
    method SeeOne(p: Prediction, now: int)
      requires Sound()
      modifies this`objects, this`events, this`metrics
      ensures Sound()
      ensures Core() == See(old(Core()), p, now)
    {
      var key := ObjectKeyOf(p.cls);
      if key.Some? && p.score >= ConfidenceThreshold {
        var k := key.value;
        var prev := Lookup(objects, k);
        if (!prev.detected || !Truthy(prev.lastLogged)) && CooldownOpen(prev, now) {
          objects := objects[k := Entry(true, Some(now), Some(now))];
          Record(p.cls, Some(p.score), p.cls, now);
        } else {
          objects := objects[k := Entry(true, Some(now), if Truthy(prev.lastLogged) then prev.lastLogged else Some(0))];
        }
      }
    }

    /** The sweep after the prediction loop, visiting every key of the state map. */
    method SweepStale(now: int)
      requires WellShaped(objects)
      modifies this`objects
      ensures WellShaped(objects)
      ensures objects == Sweep(old(objects), now)
    {
      var j := 0;
      while j < |AllKeys|
        invariant 0 <= j <= |AllKeys|
        invariant objects.Keys == old(objects).Keys
        invariant forall n :: 0 <= n < j && AllKeys[n] in objects ==> objects[AllKeys[n]] == Sweep(old(objects), now)[AllKeys[n]]
        invariant forall n :: j <= n < |AllKeys| && AllKeys[n] in objects ==> objects[AllKeys[n]] == old(objects)[AllKeys[n]]
      {
        var k := AllKeys[j];
        if k in objects {
          var st := objects[k];
          if Truthy(st.lastSeen) && now - st.lastSeen.value > StaleMs {
            objects := objects[k := st.(detected := false)];
          }
        }
        j := j + 1;
      }
      forall k | k in objects
        ensures objects[k] == Sweep(old(objects), now)[k]
      {
        AllKeysListsEveryKey(k);
      }
      SweepClearsStale(old(objects), now);
    }

    /** `visibilitychange`: a hidden page goes through the `tab_change`
        cooldown gate; the handler is detached once proctoring stops. */
    method OnVisibility(hidden: bool, now: int)
      requires Valid()
      modifies this`objects, this`events, this`metrics
      ensures Valid()
      ensures Core() == if old(running) && hidden then GateStep(old(Core()), TabChangeKey, TabChange, TabChange, now)
                        else old(Core())
    {
      if running && hidden {
        Cooldown(TabChangeKey, TabChange, TabChange, now);
      }
    }

    /** Window `blur`: its own cooldown key and event type, but charged as a
        `tab_change` (a `window_blur` charge would change nothing). */
    method OnBlur(now: int)
      requires Valid()
      modifies this`objects, this`events, this`metrics
      ensures Valid()
      ensures Core() == if old(running) then GateStep(old(Core()), WindowBlurKey, WindowBlur, TabChange, now)
                        else old(Core())
    {
      if running {
        Cooldown(WindowBlurKey, WindowBlur, TabChange, now);
      }
    }

    /** The once-a-second interval of the running exam. */
    method ClockTick(now: int)
      requires Valid()
      modifies this`elapsedSec
      ensures Valid()
      ensures elapsedSec == if phase == Exam then ElapsedSeconds(startTime, now) else old(elapsedSec)
    {
      if phase == Exam {
        elapsedSec := ElapsedSeconds(startTime, now);
      }
    }

    /** `endExam`: proctoring stops and the report is a snapshot of the name,
        counters, score and log as they are now, with the duration in whole
        seconds since the start. The delayed timers are left pending. */
    method EndExam(now: int)
      requires Valid() && phase == Exam
      modifies this`phase, this`running, this`report
      ensures Valid() && phase == Report && !running
      ensures report == Some(BuildReport(candidateName, metrics, events, ElapsedSeconds(startTime, now)))
    {
      var totalSec := ElapsedSeconds(startTime, now);
      EndWith(BuildReport(candidateName, metrics, events, totalSec));
    }

    /** What every end of the exam does: proctoring stops, the report is
        stored and the report screen shows. */
    method EndWith(r: ExamReport)
      requires Valid()
      modifies this`phase, this`running, this`report
      ensures Valid() && phase == Report && !running && report == Some(r)
    {
      running := false;
      report := Some(r);
      phase := Report;
    }

    /** The 90-second deadline: ends a still-running exam, reporting the
        session's current state (see ExamTimeoutAsWritten for what the
        deadline callback reports as written). */
    method ExamTimeout(now: int)
      requires Valid()
      modifies this`phase, this`running, this`report
      ensures Valid()
      ensures old(phase) == Exam && now - startTime >= ExamDurationMs ==>
        phase == Report && report == Some(BuildReport(candidateName, metrics, events, ElapsedSeconds(startTime, now)))
      ensures !(old(phase) == Exam && now - startTime >= ExamDurationMs) ==> unchanged(this)
    {
      if phase == Exam && now - startTime >= ExamDurationMs {
        EndExam(now);
      }
    }

    /** The 90-second deadline as written: the `endExam` it calls belongs to
        the Start click, so the report carries the name, counters, score and
        log that click saw, not the session's current ones. */
    method ExamTimeoutAsWritten(now: int)
      requires Valid()
      modifies this`phase, this`running, this`report
      ensures Valid()
      ensures old(phase) == Exam && now - startTime >= ExamDurationMs ==>
        phase == Report && !running
        && report == Some(BuildReport(clickName, clickMetrics, clickEvents, ElapsedSeconds(startTime, now)))
      ensures !(old(phase) == Exam && now - startTime >= ExamDurationMs) ==> unchanged(this)
    {
      if phase == Exam && now - startTime >= ExamDurationMs {
        EndWith(BuildReport(clickName, clickMetrics, clickEvents, ElapsedSeconds(startTime, now)));
      }
    }

    /** "Run Another": back to the start screen with an empty name. Counters,
        score and log are left as they are until the next start resets them. */
    method RunAnother()
      requires Valid() && phase == Report
      modifies this`phase, this`candidateName, this`report
      ensures Valid() && phase == Start && candidateName == "" && report.None?
    {
      phase := Start;
      candidateName := "";
      report := None;
    }
  }

  /** A delayed-confirmation callback that runs when `fires` holds: one event
      of type `kind` stamped `now` is appended and the type is charged. */
  function ConfirmIf(s: FrameState, fires: bool, kind: string, now: int): FrameState
  {
    if fires then FrameState(s.objects, s.log + [Event(now, kind, None)], UpdateMetrics(s.metrics, kind))
    else s
  }

  /** The type `updateMetrics` is called with when an event of type `kind`
      is logged: a `window_blur` is charged as a `tab_change`, every other
      type as itself. */
  function ChargedAs(kind: string): (t: string)
    ensures kind != WindowBlur ==> t == kind
    ensures CategoryOf(t) == if kind == WindowBlur then Some(FocusLost) else CategoryOf(kind)
  {
    if kind == WindowBlur then TabChange else kind
  }

  /** The charges of a log, one per record, in log order. */
  function Charges(log: seq<Event>): (r: seq<string>)
    ensures |r| == |log|
    ensures forall i :: 0 <= i < |log| ==> r[i] == ChargedAs(log[i].kind)
  {
    if log == [] then [] else Charges(log[..|log| - 1]) + [ChargedAs(log[|log| - 1].kind)]
  }

  /** The metrics of a log: each record charged in turn from the reset values. */
  function Tally(log: seq<Event>): Metrics
  {
    if log == [] then Initial else UpdateMetrics(Tally(log[..|log| - 1]), ChargedAs(log[|log| - 1].kind))
  }

  /** Appending a record and charging it keeps the metrics equal to the tally of the log. */
  lemma ChargeAppended(log: seq<Event>, e: Event)
    ensures Tally(log + [e]) == UpdateMetrics(Tally(log), ChargedAs(e.kind))
  {
    assert (log + [e])[..|log|] == log;
  }

  /** The tally of a log is the replay of its charges. */
  lemma {:induction false} TallyIsReplay(log: seq<Event>)
    ensures Tally(log) == Replay(Initial, Charges(log))
  {
    if log != [] {
      TallyIsReplay(log[..|log| - 1]);
      assert Charges(log)[..|log| - 1] == Charges(log[..|log| - 1]);
    }
  }

  /** In every reachable state each counter is the number of logged events of
      its category (a `window_blur` counting as a focus loss), and the score
      is 100 minus their summed penalties, floored at 0. */
  lemma CountersMatchLog(p: Proctor)
    requires p.Valid()
    ensures p.metrics.focusLost == CountOf(Charges(p.events), FocusLost)
    ensures p.metrics.suspicious == CountOf(Charges(p.events), Suspicious)
    ensures p.metrics.drowsiness == CountOf(Charges(p.events), Drowsy)
    ensures p.metrics.score == Max(InitialScore - TotalPenalty(Charges(p.events)), 0)
  {
    var ts := Charges(p.events);
    TallyIsReplay(p.events);
    ReplayCounters(Initial, ts, FocusLost);
    ReplayCounters(Initial, ts, Suspicious);
    ReplayCounters(Initial, ts, Drowsy);
    ReplayScore(Initial, ts);
  }
}
