/** The shared per-key state behind the cooldown gate and the object-presence
    gate (`objectStateRef`), and the pure rules both gates apply to it. */
module Gates {
  import opened Common
  import opened Scoring
  import opened Events

  const CooldownMs := 5000
  const ConfidenceThreshold: real := 0.5
  const StaleMs := 2000

  /** The fixed key set the state map is written under: three cooldown-gated
      signals and the three object classes that count. */
  datatype Key = MultipleFacesKey | TabChangeKey | WindowBlurKey | CellPhoneKey | BookKey | LaptopKey

  predicate IsObjectKey(k: Key)
  {
    k.CellPhoneKey? || k.BookKey? || k.LaptopKey?
  }

  const AllKeys: seq<Key> := [MultipleFacesKey, TabChangeKey, WindowBlurKey, CellPhoneKey, BookKey, LaptopKey]

  lemma AllKeysListsEveryKey(k: Key)
    ensures k in AllKeys
  {
  }

  /** The object class a detector label names, if it is one of the three that count. */
  function ObjectKeyOf(cls: string): (r: Option<Key>)
    ensures r.Some? <==> cls in SuspiciousTypes
    ensures r.Some? ==> IsObjectKey(r.value)
  {
    if cls == CellPhone then Some(CellPhoneKey)
    else if cls == Book then Some(BookKey)
    else if cls == Laptop then Some(LaptopKey)
    else None
  }

  /** One record `{ detected, lastSeen, lastLogged }`; a missing property is
      `false` or `None`. */
  datatype Entry = Entry(detected: bool, lastSeen: Option<int>, lastLogged: Option<int>)

  /** What `objectStateRef.current[key] || {}` reads for a key never written. */
  const Empty := Entry(false, None, None)

  type ObjectState = map<Key, Entry>

  function Lookup(m: ObjectState, k: Key): Entry
  {
    if k in m then m[k] else Empty
  }

  /** `!prev.lastLogged || now - prev.lastLogged > 5000` (strict). */
  predicate CooldownOpen(e: Entry, now: int)
  {
    !Truthy(e.lastLogged) || now - e.lastLogged.value > CooldownMs
  }

  /** Cooldown-gate keys are only ever written as `{ lastLogged: now }`. */
  predicate WellShaped(m: ObjectState)
  {
    forall k :: k in m && !IsObjectKey(k) ==> !m[k].detected && m[k].lastSeen.None?
  }

  // ---------------------------------------------------------------- cooldown gate

  datatype Gated = Gated(fired: bool, state: ObjectState)

  /** The cooldown gate of `multiple_faces`, `tab_change` and `window_blur`:
      it fires exactly when the key's cooldown has elapsed, and then replaces
      the key's record by `{ lastLogged: now }`; otherwise nothing changes. */
  function Gate(m: ObjectState, k: Key, now: int): (r: Gated)
    ensures r.fired <==> (k !in m || !Truthy(m[k].lastLogged) || now - m[k].lastLogged.value > CooldownMs)
    ensures r.fired ==>
              r.state.Keys == m.Keys + {k} && r.state[k] == Entry(false, None, Some(now))
              && (forall j :: j in m && j != k ==> r.state[j] == m[j])
    ensures !r.fired ==> r.state == m
    ensures !IsObjectKey(k) && WellShaped(m) ==> WellShaped(r.state)
  {
    if CooldownOpen(Lookup(m, k), now) then Gated(true, m[k := Entry(false, None, Some(now))])
    else Gated(false, m)
  }

  /** The gate driven by a run of triggers for one key: the final state and
      the times at which it fired. */
  function GateRun(m: ObjectState, k: Key, times: seq<int>): (r: (ObjectState, seq<int>))
  {
    if times == [] then (m, [])
    else
      var (s, fired) := GateRun(m, k, times[..|times| - 1]);
      var g := Gate(s, k, times[|times| - 1]);
      (g.state, if g.fired then fired + [times[|times| - 1]] else fired)
  }

  /** Two firings of the same key are always more than 5000 ms apart, however
      often it is triggered (clock readings are never 0, which JavaScript would
      read as "never logged"). The last firing is what the key records. */
  lemma {:induction false} GateRunSpaced(m: ObjectState, k: Key, times: seq<int>)
    requires forall i :: 0 <= i < |times| ==> times[i] != 0
    ensures var fired := GateRun(m, k, times).1;
      (forall i :: 0 <= i < |fired| - 1 ==> fired[i + 1] - fired[i] > CooldownMs)
      && (fired != [] ==> Lookup(GateRun(m, k, times).0, k).lastLogged == Some(fired[|fired| - 1]))
      && (forall i :: 0 <= i < |fired| ==> fired[i] in times)
  {
    if times != [] {
      var pre := times[..|times| - 1];
      GateRunSpaced(m, k, pre);
    }
  }

  // ---------------------------------------------------------------- object gate

  /** One `{ class, score }` prediction of the object detector. */
  datatype Prediction = Prediction(cls: string, score: real)

  /** Only the three listed classes at confidence 0.5 or more are considered. */
  predicate Considered(p: Prediction)
  {
    ObjectKeyOf(p.cls).Some? && p.score >= ConfidenceThreshold
  }

  /** A considered detection is logged when the object was not already
      detected (or never logged) and its cooldown has elapsed. */
  predicate ShouldLog(prev: Entry, now: int)
  {
    (!prev.detected || !Truthy(prev.lastLogged)) && CooldownOpen(prev, now)
  }

  /** What the state map, the log and the metrics are while a frame is processed. */
  datatype FrameState = FrameState(objects: ObjectState, log: seq<Event>, metrics: Metrics)

  /** One iteration of the prediction loop. A considered detection always
      marks its object detected and seen now; it moves `lastLogged` to now
      and appends one event and charges its class exactly when it is logged. */
  function See(s: FrameState, p: Prediction, now: int): (r: FrameState)
    ensures !Considered(p) ==> r == s
    ensures Considered(p) ==>
      var k := ObjectKeyOf(p.cls).value;
      var prev := Lookup(s.objects, k);
      r.objects.Keys == s.objects.Keys + {k}
      && (forall j :: j in s.objects && j != k ==> r.objects[j] == s.objects[j])
      && r.objects[k].detected && r.objects[k].lastSeen == Some(now)
      && (ShouldLog(prev, now) ==>
            r.objects[k].lastLogged == Some(now)
            && r.log == s.log + [Event(now, p.cls, Some(p.score))]
            && r.metrics == UpdateMetrics(s.metrics, p.cls))
      && (!ShouldLog(prev, now) ==>
            r.objects[k].lastLogged == prev.lastLogged && r.log == s.log && r.metrics == s.metrics)
  {
    if !Considered(p) then s
    else
      var k := ObjectKeyOf(p.cls).value;
      var prev := Lookup(s.objects, k);
      if ShouldLog(prev, now) then
        FrameState(s.objects[k := Entry(true, Some(now), Some(now))],
                   s.log + [Event(now, p.cls, Some(p.score))],
                   UpdateMetrics(s.metrics, p.cls))
      else
        var kept := if Truthy(prev.lastLogged) then prev.lastLogged else Some(0);
        FrameState(s.objects[k := Entry(true, Some(now), kept)], s.log, s.metrics)
  }

  /** The prediction loop over a whole frame, in detector order. */
  function SeeAll(s: FrameState, preds: seq<Prediction>, now: int): FrameState
  {
    if preds == [] then s else See(SeeAll(s, preds[..|preds| - 1], now), preds[|preds| - 1], now)
  }

  /** Over a frame the log only grows, and every appended event is an object
      event stamped now. */
  lemma {:induction false} SeeAllLog(s: FrameState, preds: seq<Prediction>, now: int)
    ensures var r := SeeAll(s, preds, now);
      |r.log| >= |s.log| && r.log[..|s.log|] == s.log
      && (forall i :: |s.log| <= i < |r.log| ==> r.log[i].ts == now && r.log[i].kind in SuspiciousTypes)
  {
    if preds != [] {
      SeeAllLog(s, preds[..|preds| - 1], now);
      var mid := SeeAll(s, preds[..|preds| - 1], now);
      assert mid.log[..|s.log|] == s.log;
    }
  }

  /** The metrics after a frame are those of charging the appended events in order. */
  lemma {:induction false} SeeAllMetrics(s: FrameState, preds: seq<Prediction>, now: int)
    ensures var r := SeeAll(s, preds, now);
      |r.log| >= |s.log| && r.metrics == Replay(s.metrics, Kinds(r.log[|s.log|..]))
  {
    if preds != [] {
      var pre := preds[..|preds| - 1];
      var last := preds[|preds| - 1];
      SeeAllMetrics(s, pre, now);
      var mid := SeeAll(s, pre, now);
      var r := See(mid, last, now);
      if r.log != mid.log {
        var added := r.log[|s.log|..];
        assert added == mid.log[|s.log|..] + [Event(now, last.cls, Some(last.score))];
        assert Kinds(added)[..|added| - 1] == Kinds(mid.log[|s.log|..]);
      }
    }
  }

  /** Every considered class of the frame ends up detected and seen now. */
  lemma {:induction false} SeeAllMarks(s: FrameState, preds: seq<Prediction>, now: int)
    ensures var r := SeeAll(s, preds, now);
      forall p :: p in preds && Considered(p) ==>
        ObjectKeyOf(p.cls).value in r.objects
        && r.objects[ObjectKeyOf(p.cls).value].detected
        && r.objects[ObjectKeyOf(p.cls).value].lastSeen == Some(now)
  {
    if preds != [] {
      var pre := preds[..|preds| - 1];
      var last := preds[|preds| - 1];
      SeeAllMarks(s, pre, now);
      var mid := SeeAll(s, pre, now);
      var r := See(mid, last, now);
      assert r == SeeAll(s, preds, now);
      forall p | p in preds && Considered(p)
        ensures ObjectKeyOf(p.cls).value in r.objects
          && r.objects[ObjectKeyOf(p.cls).value].detected
          && r.objects[ObjectKeyOf(p.cls).value].lastSeen == Some(now)
      {
        if p != last {
          assert p in pre;
        }
      }
    }
  }

  /** The prediction loop never touches the cooldown-gate keys. */
  lemma {:induction false} SeeAllKeepsGateKeys(s: FrameState, preds: seq<Prediction>, now: int)
    ensures var r := SeeAll(s, preds, now);
      (forall j :: j in s.objects ==> j in r.objects)
      && (forall j :: j in s.objects && !IsObjectKey(j) ==> r.objects[j] == s.objects[j])
      && (forall j :: j in r.objects && !IsObjectKey(j) ==> j in s.objects)
  {
    if preds != [] {
      SeeAllKeepsGateKeys(s, preds[..|preds| - 1], now);
    }
  }

  /** Within one frame an object class is logged at most once, even when the
      detector reports it several times (clock readings are never 0). */
  lemma {:induction false} OncePerFrame(s: FrameState, preds: seq<Prediction>, now: int)
    requires now != 0
    ensures var r := SeeAll(s, preds, now);
      forall i, j :: |s.log| <= i < j < |r.log| ==> r.log[i].kind != r.log[j].kind
  {
    OncePerFrameInv(s, preds, now);
  }

  lemma {:induction false} OncePerFrameInv(s: FrameState, preds: seq<Prediction>, now: int)
    requires now != 0
    ensures var r := SeeAll(s, preds, now);
      |r.log| >= |s.log|
      && (forall i, j :: |s.log| <= i < j < |r.log| ==> r.log[i].kind != r.log[j].kind)
      && (forall i :: |s.log| <= i < |r.log| ==>
            ObjectKeyOf(r.log[i].kind).Some?
            && var k := ObjectKeyOf(r.log[i].kind).value;
            k in r.objects && r.objects[k].detected && r.objects[k].lastLogged == Some(now))
  {
    if preds != [] {
      var pre := preds[..|preds| - 1];
      var last := preds[|preds| - 1];
      OncePerFrameInv(s, pre, now);
      var mid := SeeAll(s, pre, now);
      var r := See(mid, last, now);
      assert r == SeeAll(s, preds, now);
      if Considered(last) {
        var k := ObjectKeyOf(last.cls).value;
        if ShouldLog(Lookup(mid.objects, k), now) {
          assert forall i :: |s.log| <= i < |mid.log| ==> r.log[i].kind != last.cls;
        }
      }
    }
  }

  // ---------------------------------------------------------------- staleness sweep

  /** One pass of the object loop: the prediction loop, then the sweep. */
  function ObjectFrame(s: FrameState, preds: seq<Prediction>, now: int): FrameState
  {
    var r := SeeAll(s, preds, now);
    r.(objects := Sweep(r.objects, now))
  }

  /** A cooldown-gated signal against the whole state: when the gate fires,
      one event of type `kind` is appended and `charged` is charged. */
  function GateStep(s: FrameState, k: Key, kind: string, charged: string, now: int): FrameState
  {
    var g := Gate(s.objects, k, now);
    if g.fired then FrameState(g.state, s.log + [Event(now, kind, None)], UpdateMetrics(s.metrics, charged))
    else s
  }

  /** An entry whose `lastSeen` is more than 2000 ms before now. Entries without
      `lastSeen` (the cooldown-gate keys) are never stale. */
  predicate Stale(e: Entry, now: int)
  {
    Truthy(e.lastSeen) && now - e.lastSeen.value > StaleMs
  }

  /** The sweep after the prediction loop: it clears `detected` exactly on the
      stale entries, and changes no other field and no other key. */
  function Sweep(m: ObjectState, now: int): (r: ObjectState)
    ensures r.Keys == m.Keys
    ensures forall k :: k in m ==>
      r[k].lastSeen == m[k].lastSeen && r[k].lastLogged == m[k].lastLogged
      && (r[k].detected <==> m[k].detected && !Stale(m[k], now))
    ensures forall k :: k in m && !Stale(m[k], now) ==> r[k] == m[k]
  {
    map k | k in m :: if Stale(m[k], now) then m[k].(detected := false) else m[k]
  }

  /** After the sweep no entry seen more than 2000 ms ago is still marked
      detected, and the cooldown-gate keys are untouched. */
  lemma SweepClearsStale(m: ObjectState, now: int)
    requires WellShaped(m)
    ensures var r := Sweep(m, now);
      WellShaped(r)
      && (forall k :: k in r && r[k].detected && Truthy(r[k].lastSeen) ==> now - r[k].lastSeen.value <= StaleMs)
      && (forall k :: k in m && !IsObjectKey(k) ==> r[k] == m[k])
  {
  }

  // ---------------------------------------------------------------- spacing across frames

  /** Two records of the same object class are more than 5000 ms apart. */
  predicate ObjectSpaced(log: seq<Event>)
  {
    forall i, j :: 0 <= i < j < |log| && log[i].kind == log[j].kind && ObjectKeyOf(log[i].kind).Some? ==>
      log[j].ts - log[i].ts > CooldownMs
  }

  /** Every logged object record has its key in the map with a truthy
      `lastLogged` no earlier than the record. */
  predicate LoggedBehind(s: FrameState)
  {
    forall i :: 0 <= i < |s.log| && ObjectKeyOf(s.log[i].kind).Some? ==>
      ObjectKeyOf(s.log[i].kind).value in s.objects
      && Truthy(s.objects[ObjectKeyOf(s.log[i].kind).value].lastLogged)
      && s.objects[ObjectKeyOf(s.log[i].kind).value].lastLogged.value >= s.log[i].ts
  }

  /** One prediction keeps the spacing and the invariant behind it. */
  lemma SeeSpaced(s: FrameState, p: Prediction, now: int)
    requires now != 0 && LoggedBehind(s) && ObjectSpaced(s.log)
    ensures LoggedBehind(See(s, p, now)) && ObjectSpaced(See(s, p, now).log)
  {
    var r := See(s, p, now);
    if Considered(p) {
      var k := ObjectKeyOf(p.cls).value;
      var prev := Lookup(s.objects, k);
      forall i | 0 <= i < |s.log| && ObjectKeyOf(s.log[i].kind) == Some(k)
        ensures prev.lastLogged.value >= s.log[i].ts && Truthy(prev.lastLogged)
      {
      }
      if ShouldLog(prev, now) {
        assert r.log == s.log + [Event(now, p.cls, Some(p.score))];
        forall i | 0 <= i < |s.log| && s.log[i].kind == p.cls
          ensures now - s.log[i].ts > CooldownMs
        {
          assert ObjectKeyOf(s.log[i].kind) == Some(k);
        }
      } else {
        assert r.log == s.log;
      }
    }
  }

  lemma {:induction false} SeeAllSpaced(s: FrameState, preds: seq<Prediction>, now: int)
    requires now != 0 && LoggedBehind(s) && ObjectSpaced(s.log)
    ensures LoggedBehind(SeeAll(s, preds, now)) && ObjectSpaced(SeeAll(s, preds, now).log)
  {
    if preds != [] {
      SeeAllSpaced(s, preds[..|preds| - 1], now);
      SeeSpaced(SeeAll(s, preds[..|preds| - 1], now), preds[|preds| - 1], now);
    }
  }

  /** One pass of the object loop over a frame's detections, at its clock reading. */
  datatype ObjectPass = ObjectPass(preds: seq<Prediction>, at: int)

  /** The object loop over a run of passes. */
  function ObjectRun(s: FrameState, run: seq<ObjectPass>): FrameState
  {
    if run == [] then s
    else
      var last := run[|run| - 1];
      ObjectFrame(ObjectRun(s, run[..|run| - 1]), last.preds, last.at)
  }

  /** Across any run of object passes, two records of the same class are more
      than 5000 ms apart: the object gate's cooldown holds over time and not
      only within one step (clock readings are never 0). */
  lemma {:induction false} ObjectRunSpaced(s: FrameState, run: seq<ObjectPass>)
    requires forall i :: 0 <= i < |run| ==> run[i].at != 0
    requires LoggedBehind(s) && ObjectSpaced(s.log)
    ensures LoggedBehind(ObjectRun(s, run)) && ObjectSpaced(ObjectRun(s, run).log)
  {
    if run != [] {
      var pre := run[..|run| - 1];
      var last := run[|run| - 1];
      ObjectRunSpaced(s, pre);
      var mid := ObjectRun(s, pre);
      SeeAllSpaced(mid, last.preds, last.at);
      var r := SeeAll(mid, last.preds, last.at);
      assert ObjectRun(s, run) == r.(objects := Sweep(r.objects, last.at));
    }
  }

  /** From the empty map and an empty log, every run keeps each object class's
      records more than 5000 ms apart. */
  lemma ObjectRunSpacedFromStart(m: Metrics, run: seq<ObjectPass>)
    requires forall i :: 0 <= i < |run| ==> run[i].at != 0
    ensures ObjectSpaced(ObjectRun(FrameState(map[], [], m), run).log)
  {
    ObjectRunSpaced(FrameState(map[], [], m), run);
  }
}
