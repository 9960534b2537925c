/** The `Event` enum: the names under which the bridge emits events to JavaScript. */
module Events {
  import opened Nullable

  /** The six enum constants, in declaration order. */
  datatype Event =
    | ScanEvent
    | ReadEvent
    | StateChangeEvent
    | RestoreStateEvent
    | NullAdapterEvent
    | DisconnectionEvent

  /** The `name` field that the enum constructor stores unchanged from its argument. */
  function Name(e: Event): string {
    match e
    case ScanEvent => "ScanEvent"
    case ReadEvent => "ReadEvent"
    case StateChangeEvent => "StateChangeEvent"
    case RestoreStateEvent => "RestoreStateEvent"
    case NullAdapterEvent => "NullAdapterEvent"
    case DisconnectionEvent => "DisconnectionEvent"
  }

  /** `Event.values()`: every constant once, in declaration order. */
  const Values: seq<Event> :=
    [ScanEvent, ReadEvent, StateChangeEvent, RestoreStateEvent, NullAdapterEvent, DisconnectionEvent]

  /** `ordinal()`: the position of `e` among the values. */
  function Ordinal(e: Event): (i: nat)
    ensures i < |Values| && Values[i] == e
  {
    match e
    case ScanEvent => 0
    case ReadEvent => 1
    case StateChangeEvent => 2
    case RestoreStateEvent => 3
    case NullAdapterEvent => 4
    case DisconnectionEvent => 5
  }

  lemma ValuesEnumerateEvents()
    ensures |Values| == 6
    ensures forall e: Event :: e in Values
    ensures forall i, j :: 0 <= i < j < |Values| ==> Values[i] != Values[j]
  {
    forall e: Event ensures e in Values {
      assert Values[Ordinal(e)] == e;
    }
  }

  /** The names are pairwise distinct, so a name identifies its event. */
  lemma NameInjective(a: Event, b: Event)
    ensures Name(a) == Name(b) ==> a == b
  {
    if a != b {
      // Names of different events already differ in length or in their first character.
      assert |Name(a)| != |Name(b)| || Name(a)[0] != Name(b)[0];
    }
  }

  /** The event whose `name` is `name`, if any: the inverse of `Name` (what `Event.valueOf` gives for these constants). */
  function EventNamed(name: string): (r: Option<Event>)
    ensures r.Some? ==> Name(r.value) == name
  {
    if name == "ScanEvent" then Some(ScanEvent)
    else if name == "ReadEvent" then Some(ReadEvent)
    else if name == "StateChangeEvent" then Some(StateChangeEvent)
    else if name == "RestoreStateEvent" then Some(RestoreStateEvent)
    else if name == "NullAdapterEvent" then Some(NullAdapterEvent)
    else if name == "DisconnectionEvent" then Some(DisconnectionEvent)
    else None
  }

  /** Looking an event up by its own name finds that event. */
  lemma EventNamedName(e: Event)
    ensures EventNamed(Name(e)) == Some(e)
  {
    NameInjective(e, EventNamed(Name(e)).value);
  }
}
