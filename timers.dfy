/** The delayed-confirmation debouncer: a one-shot timer per condition, armed
    when the condition is seen and no timer is pending, cancelled when a frame
    shows the condition no longer holds, and cleared when it fires. */
module Timers {
  import opened Common
  import opened Scoring

  datatype Delayed = NoFaceTimer | LookingAwayTimer | DrowsinessTimer

  /** How long each condition must last before it is confirmed. */
  function DelayMs(d: Delayed): nat
  {
    match d
    case NoFaceTimer => 10000
    case LookingAwayTimer => 5000
    case DrowsinessTimer => 3000
  }

  /** The event type a firing timer logs and charges. */
  function EventType(d: Delayed): string
  {
    match d
    case NoFaceTimer => NoFace
    case LookingAwayTimer => LookingAway
    case DrowsinessTimer => Drowsiness
  }

  /** A timer handle: absent, or the time it was armed at. */
  type Timer = Option<int>

  /** One frame's effect on a timer whose condition it evaluates. */
  function Observe(t: Timer, holds: bool, now: int): (r: Timer)
    ensures holds ==> r.Some?
    ensures holds && t.Some? ==> r == t
    ensures r.Some? && t.None? ==> r == Some(now)
    ensures !holds ==> r.None?
  {
    if holds then (if t.None? then Some(now) else t) else None
  }

  /** The timer's callback runs once `delay` milliseconds have passed since arming. */
  predicate Due(t: Timer, now: int, delay: nat)
  {
    t.Some? && now - t.value >= delay
  }

  /** What a timer sees: a frame that evaluates its condition, a frame that
      does not touch it, or a point in time at which callbacks may run.
      `Session.Proctor` drives its three timer fields this way: each call of
      `OnFaceResults` is a `Frame` for the timers whose condition it evaluates
      (its contract applies `Observe`) and a `Skip` for the others, and each
      call of `Tick` is a `Wake` (its contract clears exactly the `Due` timers). */
  datatype Obs = Frame(at: int, holds: bool) | Skip | Wake(at: int)

  function Step(t: Timer, o: Obs, delay: nat): Timer
  {
    match o
    case Frame(at, holds) => Observe(t, holds, at)
    case Skip => t
    case Wake(at) => if Due(t, at, delay) then None else t
  }

  /** The timer after a run of observations, starting with none pending. */
  function After(obs: seq<Obs>, delay: nat): Timer
  {
    if obs == [] then None else Step(After(obs[..|obs| - 1], delay), obs[|obs| - 1], delay)
  }

  /** The observation at index `j` is a wake-up at which the callback runs. */
  predicate FiresAt(obs: seq<Obs>, j: nat, delay: nat)
    requires j < |obs|
  {
    obs[j].Wake? && Due(After(obs[..j], delay), obs[j].at, delay)
  }

  /** A pending timer was armed by a frame where the condition held, with no
      timer pending just before it, and every frame since then saw the
      condition hold. */
  lemma {:induction false} PendingWitness(obs: seq<Obs>, delay: nat)
    requires After(obs, delay).Some?
    ensures exists i ::
              0 <= i < |obs| && obs[i] == Frame(After(obs, delay).value, true)
              && After(obs[..i], delay).None?
              && (forall k :: i <= k < |obs| && obs[k].Frame? ==> obs[k].holds)
  {
    var n := |obs|;
    var prefix := obs[..n - 1];
    assert obs[..n - 1] == prefix;
    var before := After(prefix, delay);
    var o := obs[n - 1];
    if before.None? {
      assert o.Frame? && o.holds;
      assert obs[n - 1] == Frame(After(obs, delay).value, true);
      assert obs[..n - 1] == prefix;
    } else {
      assert After(obs, delay) == before;
      PendingWitness(prefix, delay);
      var i :| 0 <= i < |prefix| && prefix[i] == Frame(before.value, true)
        && After(prefix[..i], delay).None?
        && (forall k :: i <= k < |prefix| && prefix[k].Frame? ==> prefix[k].holds);
      assert prefix[..i] == obs[..i];
      assert obs[i] == Frame(After(obs, delay).value, true);
      assert o.Frame? ==> o.holds;
    }
  }

  /** No confirmation without a sustained condition: when the callback runs at
      step `j`, some earlier frame armed the timer at least `delay` ms before,
      and every frame evaluated in between saw the condition hold. A condition
      that lasts less than the delay, or is interrupted, is never confirmed. */
  lemma ConfirmedOnlyAfterSustained(obs: seq<Obs>, j: nat, delay: nat)
    requires j < |obs| && FiresAt(obs, j, delay)
    ensures exists i ::
              0 <= i < j && obs[i].Frame? && obs[i].holds
              && obs[j].at - obs[i].at >= delay
              && (forall k :: i <= k < j && obs[k].Frame? ==> obs[k].holds)
  {
    var prefix := obs[..j];
    PendingWitness(prefix, delay);
    var i :| 0 <= i < |prefix| && prefix[i] == Frame(After(prefix, delay).value, true)
      && After(prefix[..i], delay).None?
      && (forall k :: i <= k < |prefix| && prefix[k].Frame? ==> prefix[k].holds);
    assert obs[i] == prefix[i];
    assert forall k :: i <= k < j ==> obs[k] == prefix[k];
  }

  /** Once its callback has run the timer is clear, so a second confirmation
      needs a fresh arming by a later frame. */
  lemma {:induction false} FiringClears(obs: seq<Obs>, j: nat, delay: nat)
    requires j < |obs| && FiresAt(obs, j, delay)
    ensures After(obs[..j + 1], delay).None?
  {
    assert obs[..j + 1][..j] == obs[..j];
  }
}
