/** The event log: each confirmed signal becomes one record appended at the end. */
module Events {
  import opened Common

  /** One log record `{ ts, type, extra }`; `score` is the detector confidence an
      object event carries in `extra`, absent for every other type. */
  datatype Event = Event(ts: int, kind: string, score: Option<real>)

  /** The kinds of a run of events, in log order. */
  function Kinds(log: seq<Event>): (r: seq<string>)
    ensures |r| == |log|
    ensures forall i :: 0 <= i < |log| ==> r[i] == log[i].kind
  {
    if log == [] then [] else Kinds(log[..|log| - 1]) + [log[|log| - 1].kind]
  }

  /** The "Live Events" panel: a reversed copy of the log, newest first. */
  function NewestFirst(log: seq<Event>): (r: seq<Event>)
    ensures |r| == |log|
    ensures forall k :: 0 <= k < |log| ==> r[k] == log[|log| - 1 - k]
  {
    if log == [] then [] else [log[|log| - 1]] + NewestFirst(log[..|log| - 1])
  }

  /** The live panel shows the record just appended on top, followed by what it showed before. */
  lemma {:induction false} NewestFirstAfterPush(log: seq<Event>, e: Event)
    ensures NewestFirst(log + [e]) == [e] + NewestFirst(log)
  {
    assert (log + [e])[..|log|] == log;
  }
}
