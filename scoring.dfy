/** Scoring and counters: how `updateMetrics` turns a confirmed event type into
    one counter increment and an integrity-score penalty clamped at zero. */
module Scoring {
  import opened Common

  // Event type strings as the proctoring screen spells them.
  const NoFace := "no_face"
  const MultipleFaces := "multiple_faces"
  const LookingAway := "looking_away"
  const TabChange := "tab_change"
  const WindowBlur := "window_blur"
  const Drowsiness := "drowsiness"
  const CellPhone := "cell phone"
  const Book := "book"
  const Laptop := "laptop"

  /** The types charged to the focus-lost counter (note: `window_blur` is not one of them). */
  const FocusLostTypes: seq<string> := [NoFace, MultipleFaces, LookingAway, TabChange]
  /** The object classes charged to the suspicious-item counter. */
  const SuspiciousTypes: seq<string> := [CellPhone, Book, Laptop]

  const InitialScore := 100

  datatype Category = FocusLost | Suspicious | Drowsy

  function Penalty(c: Category): nat
  {
    match c
    case FocusLost => 2
    case Suspicious => 5
    case Drowsy => 3
  }

  /** The branch of `updateMetrics` an event type takes, if any. */
  function CategoryOf(t: string): Option<Category>
  {
    if t in FocusLostTypes then Some(FocusLost)
    else if t in SuspiciousTypes then Some(Suspicious)
    else if t == Drowsiness then Some(Drowsy)
    else None
  }

  /** The three counters and the integrity score shown during the exam. */
  datatype Metrics = Metrics(focusLost: nat, suspicious: nat, drowsiness: nat, score: int)

  /** The values `startExam` resets to. */
  const Initial := Metrics(0, 0, 0, InitialScore)

  function Counter(m: Metrics, c: Category): nat
  {
    match c
    case FocusLost => m.focusLost
    case Suspicious => m.suspicious
    case Drowsy => m.drowsiness
  }

  /** The score stays within the bounds a session starts in. */
  predicate InRange(m: Metrics)
  {
    0 <= m.score <= InitialScore
  }

  /** `updateMetrics(type)`: a known type raises exactly its category's counter
      by one and lowers the score by the category's penalty, never below zero;
      an unknown type changes nothing. */
  function UpdateMetrics(m: Metrics, t: string): (r: Metrics)
    ensures CategoryOf(t) == None ==> r == m
    ensures CategoryOf(t).Some? ==>
      var c := CategoryOf(t).value;
      Counter(r, c) == Counter(m, c) + 1
      && (forall d :: d != c ==> Counter(r, d) == Counter(m, d))
      && r.score == Max(m.score - Penalty(c), 0)
    ensures InRange(m) ==> InRange(r) && r.score <= m.score
  {
    if t in FocusLostTypes then
      m.(focusLost := m.focusLost + 1, score := Max(m.score - 2, 0))
    else if t in SuspiciousTypes then
      m.(suspicious := m.suspicious + 1, score := Max(m.score - 5, 0))
    else if t == Drowsiness then
      m.(drowsiness := m.drowsiness + 1, score := Max(m.score - 3, 0))
    else
      m
  }

  /** The metrics after `updateMetrics` has been called on each type in turn. */
  function Replay(m: Metrics, ts: seq<string>): Metrics
  {
    if ts == [] then m else UpdateMetrics(Replay(m, ts[..|ts| - 1]), ts[|ts| - 1])
  }

  /** The penalty `updateMetrics` charges for one type (zero for an unknown type). */
  function PenaltyOf(t: string): nat
  {
    match CategoryOf(t)
    case None => 0
    case Some(c) => Penalty(c)
  }

  /** Sum of the penalties of the types in `ts`. */
  function TotalPenalty(ts: seq<string>): nat
  {
    if ts == [] then 0 else TotalPenalty(ts[..|ts| - 1]) + PenaltyOf(ts[|ts| - 1])
  }

  /** Number of types in `ts` that fall in category `c`. */
  function CountOf(ts: seq<string>, c: Category): nat
  {
    if ts == [] then 0
    else CountOf(ts[..|ts| - 1], c) + (if CategoryOf(ts[|ts| - 1]) == Some(c) then 1 else 0)
  }

  /** Clamping at every step is the same as clamping once at the end:
      the score after a run of events is max(0, start - sum of penalties). */
  lemma {:induction false} ReplayScore(m: Metrics, ts: seq<string>)
    requires m.score >= 0
    ensures Replay(m, ts).score == Max(m.score - TotalPenalty(ts), 0)
  {
    if ts != [] {
      ReplayScore(m, ts[..|ts| - 1]);
    }
  }

  /** Each counter equals its starting value plus the number of events of its category. */
  lemma {:induction false} ReplayCounters(m: Metrics, ts: seq<string>, c: Category)
    ensures Counter(Replay(m, ts), c) == Counter(m, c) + CountOf(ts, c)
  {
    if ts != [] {
      ReplayCounters(m, ts[..|ts| - 1], c);
    }
  }

  /** From the reset values, the score never leaves [0, 100] and never rises. */
  lemma {:induction false} ReplayInRange(m: Metrics, ts: seq<string>)
    requires InRange(m)
    ensures InRange(Replay(m, ts)) && Replay(m, ts).score <= m.score
  {
    if ts != [] {
      ReplayInRange(m, ts[..|ts| - 1]);
    }
  }

  /** A session with no events ends with the full score; one with a single
      `no_face` ends with one focus loss and a score of 98. */
  lemma ReplayExamples()
    ensures Replay(Initial, []) == Initial
    ensures Replay(Initial, [NoFace]) == Metrics(1, 0, 0, 98)
    ensures Replay(Initial, [CellPhone, CellPhone]) == Metrics(0, 2, 0, 90)
  {
    assert [NoFace][..0] == [];
    assert [CellPhone, CellPhone][..1] == [CellPhone];
  }
}
