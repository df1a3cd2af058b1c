/** The core domain types: actors, locations, presence, commands and the event that
    records a change of state. Times are nanoseconds since the Unix epoch, with the
    zero time of the host language (1 January of year 1, UTC) as a distinguished value. */
module Domain {

  datatype Option<+T> = None | Some(value: T)

  datatype Result<+T, +E> = Ok(value: T) | Err(error: E)

  type Time = int

  const SECOND: Time := 1_000_000_000
  const ZERO_TIME: Time := -62_135_596_800 * SECOND

  predicate IsZero(t: Time) {
    t == ZERO_TIME
  }

  function UnixMilli(ms: int): Time {
    ms * 1_000_000
  }

  datatype EventType = EventUnspecified | EventZone | EventPresence | EventCommand

  datatype PresenceType = PresenceUnspecified | Active | Inactive

  datatype Actor = Actor(id: string, metadata: map<string, string>)

  datatype Point = Point(x: real, y: real, z: real)

  datatype Location = Location(point: Option<Point>, zones: seq<string>)

  datatype Presence = Presence(kind: PresenceType, since: Time)

  datatype Command = Command(id: string, name: string, arguments: map<string, string>)

  datatype State = State(location: Option<Location>, presence: Presence, command: Option<Command>)

  datatype Event = Event(id: string, kind: EventType, actor: Actor, state: State, timestamp: Time)
  {
    /** The zone list an event carries; an absent location carries none. */
    function Zones(): seq<string> {
      if state.location.Some? then state.location.value.zones else []
    }

    function Metadata(key: string): string {
      if key in actor.metadata then actor.metadata[key] else ""
    }
  }

  function Last<T>(s: seq<T>): T
    requires s != []
  {
    s[|s| - 1]
  }

  function Init<T>(s: seq<T>): seq<T>
    requires s != []
  {
    s[..|s| - 1]
  }

  /** The events of one actor, in order. */
  function OfActor(es: seq<Event>, id: string): seq<Event> {
    if es == [] then []
    else OfActor(Init(es), id) + if Last(es).actor.id == id then [Last(es)] else []
  }

  lemma {:induction false} OfActorConcat(a: seq<Event>, b: seq<Event>, id: string)
    ensures OfActor(a + b, id) == OfActor(a, id) + OfActor(b, id)
  {
    if b == [] {
      assert a + b == a;
    } else {
      assert Init(a + b) == a + Init(b);
      OfActorConcat(a, Init(b), id);
    }
  }

  lemma {:induction false} OfActorAll(es: seq<Event>, id: string)
    requires forall e | e in es :: e.actor.id == id
    ensures OfActor(es, id) == es
  {
    if es != [] {
      OfActorAll(Init(es), id);
      assert es == Init(es) + [Last(es)];
    }
  }

  lemma {:induction false} OfActorNone(es: seq<Event>, id: string)
    requires forall e | e in es :: e.actor.id != id
    ensures OfActor(es, id) == []
  {
    if es != [] {
      OfActorNone(Init(es), id);
    }
  }

  lemma {:induction false} OfActorMember(es: seq<Event>, id: string, e: Event)
    ensures e in OfActor(es, id) <==> e in es && e.actor.id == id
  {
    if es != [] {
      OfActorMember(Init(es), id, e);
      assert es == Init(es) + [Last(es)];
    }
  }
}
