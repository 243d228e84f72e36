/**
  The invocation event: a JSON object delivered by the trigger, seen as the
  list of its items in the order a Python dict iterates them.
 */
module Events {
  import opened Wrappers

  /**
    A value of the event. `Text` is a Python `str`. Every other JSON value
    (number, boolean, null, list, object) is `Other`, carrying the text that
    Python's `str()` gives for it; how that text is produced is not modelled.
   */
  datatype Value = Text(text: string) | Other(pyStr: string)

  /** An event's items, in iteration order. */
  type Event = seq<(string, Value)>

  /** Python's `str(value)`. */
  function Str(v: Value): (r: string)
  {
    match v
    case Text(s) => s
    case Other(rendered) => rendered
  }

  /** The keys of the event. */
  function Keys(event: Event): (ks: set<string>)
  {
    set i | 0 <= i < |event| :: event[i].0
  }

  /**
    `event.get(key)`. A dict holds each key once; the search runs from the
    last item so that, on a list with a repeated key, it agrees with copying
    the items in order (the last write wins).
   */
  function Get(event: Event, key: string): (r: Option<Value>)
    decreases |event|
    ensures r.Some? <==> key in Keys(event)
    ensures r.Some? ==> (key, r.value) in event
  {
    if |event| == 0 then None
    else
      var init := event[..|event| - 1];
      var r := if event[|event| - 1].0 == key then Some(event[|event| - 1].1) else Get(init, key);
      assert Keys(event) == Keys(init) + {event[|event| - 1].0} by {
        forall k | k in Keys(event) ensures k in Keys(init) + {event[|event| - 1].0} {
          var i :| 0 <= i < |event| && event[i].0 == k;
          if i < |event| - 1 { assert init[i] == event[i]; }
        }
      }
      assert r.Some? ==> (key, r.value) in init || (key, r.value) == event[|event| - 1];
      r
  }

  /** `event.get(key, default)`. */
  function GetOr(event: Event, key: string, default: Value): (v: Value)
    ensures key !in Keys(event) ==> v == default
    ensures key in Keys(event) ==> (key, v) in event
  {
    match Get(event, key)
    case Some(v) => v
    case None => default
  }
}
