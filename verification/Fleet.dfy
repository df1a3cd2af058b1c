/** Runs of the provider over its whole tag map: datagrams from any tags, malformed ones
    included, interleaved with watchdog sweeps that visit the map in any order. */
module Fleet {
  import opened Domain
  import opened Zones
  import opened TagMachine
  import opened TagRuns

  datatype SweepResult = SweepResult(states: map<string, Tag>, events: seq<Event>, failed: bool)

  /** One sweep in a given visiting order. The handler accepts or refuses each event; the
      sweep stops at the first refusal, with that tag still online. A sweep offers one event
      per tag, so a function of the event covers every behaviour of the handler. */
  function SweepAll(states: map<string, Tag>, now: Time, order: seq<string>, emit: Event -> bool): SweepResult
    requires forall id | id in order :: id in states
  {
    if order == [] then SweepResult(states, [], false)
    else
      var id, t := order[0], states[order[0]];
      if !OfflineDue(t, now) then SweepAll(states, now, order[1..], emit)
      else if !emit(OfflineEvent(id, t, now)) then SweepResult(states, [], true)
      else
        var rest := SweepAll(states[id := t.(online := false)], now, order[1..], emit);
        SweepResult(rest.states, [OfflineEvent(id, t, now)] + rest.events, rest.failed)
  }

  /** A visiting order of a map: every key once. */
  ghost predicate Enumerates(order: seq<string>, keys: set<string>) {
    NoDup(order) && ToSet(order) == keys
  }

  /** The handler the read loop passes to a sweep never refuses. */
  function AcceptAll(): Event -> bool {
    e => true
  }

  datatype Step = Datagram(m: UdpMsg) | Timeout(now: Time, order: seq<string>)

  datatype FleetOutcome = FleetOutcome(states: map<string, Tag>, events: seq<Event>)

  function TagOf(states: map<string, Tag>, id: string): Tag {
    if id in states then states[id] else FRESH_TAG
  }

  predicate Enabled(states: map<string, Tag>, s: Step) {
    s.Timeout? ==> forall id | id in s.order :: id in states
  }

  function FleetStep(states: map<string, Tag>, s: Step): FleetOutcome
    requires Enabled(states, s)
  {
    match s
    case Datagram(m) =>
      (match Parse(m)
       case Err(_) => FleetOutcome(states, [])
       case Ok(msg) =>
         var fed := Feed(TagOf(states, msg.tagId), msg.tagId, Packet(msg));
         FleetOutcome(states[msg.tagId := fed.tag], fed.events))
    case Timeout(now, order) =>
      var r := SweepAll(states, now, order, AcceptAll());
      FleetOutcome(r.states, r.events)
  }

  /** Every sweep of the run visits each tag seen so far exactly once. */
  ghost predicate ValidRun(steps: seq<Step>)
    decreases |steps|, 0
  {
    steps == [] || (ValidRun(Init(steps)) &&
                    (Last(steps).Timeout? ==> Enumerates(Last(steps).order, FleetRun(Init(steps)).states.Keys)))
  }

  ghost function FleetRun(steps: seq<Step>): FleetOutcome
    requires ValidRun(steps)
    decreases |steps|, 1
  {
    if steps == [] then FleetOutcome(map[], [])
    else
      var before := FleetRun(Init(steps));
      EnumerationEnables(before.states, Last(steps));
      var step := FleetStep(before.states, Last(steps));
      FleetOutcome(step.states, before.events + step.events)
  }

  lemma EnumerationEnables(states: map<string, Tag>, s: Step)
    requires s.Timeout? ==> Enumerates(s.order, states.Keys)
    ensures Enabled(states, s)
  {
    if s.Timeout? {
      forall id | id in s.order ensures id in states {
        assert id in ToSet(s.order);
      }
    }
  }

  /** What one tag sees of a step: its own accepted datagrams, and all sweeps. */
  function ProjectStep(id: string, s: Step): seq<Input> {
    match s
    case Datagram(m) =>
      (match Parse(m)
       case Err(_) => []
       case Ok(msg) => if msg.tagId == id then [Packet(msg)] else [])
    case Timeout(now, _) => [Sweep(now)]
  }

  function Project(id: string, steps: seq<Step>): seq<Input> {
    if steps == [] then [] else Project(id, Init(steps)) + ProjectStep(id, Last(steps))
  }

  lemma ProjectExtend(id: string, pre: seq<Step>, s: Step)
    ensures Project(id, pre + [s]) == Project(id, pre) + ProjectStep(id, s)
  {
    assert Init(pre + [s]) == pre && Last(pre + [s]) == s;
  }

  lemma ProjectNothing(id: string)
    ensures Project(id, []) == []
  {
  }

  lemma {:induction false} ProjectConcat(id: string, a: seq<Step>, b: seq<Step>)
    ensures Project(id, a + b) == Project(id, a) + Project(id, b)
  {
    hide Project, ProjectStep;
    if b == [] {
      assert a + b == a;
      ProjectNothing(id);
    } else {
      var pre, s := Init(b), Last(b);
      assert b == pre + [s] && a + b == (a + pre) + [s];
      ProjectConcat(id, a, pre);
      ProjectExtend(id, pre, s);
      ProjectExtend(id, a + pre, s);
    }
  }

  lemma ProjectOne(id: string, s: Step)
    ensures Project(id, [s]) == ProjectStep(id, s)
  {
    assert Init([s]) == [] && Last([s]) == s;
  }

  lemma {:induction false} ProjectValid(id: string, steps: seq<Step>)
    ensures ValidInputs(Project(id, steps))
  {
    if steps != [] {
      ProjectValid(id, Init(steps));
    }
  }

  lemma {:induction false} DerivedActors(t: Tag, m: UdpMsg, now: Time)
    ensures forall e | e in DerivedEvents(t, m, now) ::
              e.actor == Actor(m.tagId, ActorMetadata(m)) && e.timestamp == now == e.state.presence.since
  {
    hide EventId, PointFromSlice, SameZones, Losing, Restoring, SnapshotDue, HadHistory;
  }

  /** One sweep, seen from one tag: nothing to do with the other tags or the visiting order. */
  lemma {:induction false} SweepOneTag(states: map<string, Tag>, now: Time, order: seq<string>, emit: Event -> bool,
      id: string)
    requires NoDup(order) && forall o | o in order :: o in states
    requires id in states
    ensures var r := SweepAll(states, now, order, emit);
            var ev := OfflineEvent(id, states[id], now);
            && r.states.Keys == states.Keys
            && (OfActor(r.events, id) == [] ==> r.states[id] == states[id])
            && (OfActor(r.events, id) != [] ==> OfActor(r.events, id) == [ev] && OfflineDue(states[id], now) && emit(ev)
                                                 && id in order && r.states[id] == states[id].(online := false))
            && (!r.failed && id in order && OfflineDue(states[id], now) ==> OfActor(r.events, id) != [])
  {
    if order != [] {
      var o, t, rest := order[0], states[order[0]], order[1..];
      assert order == [o] + rest;
      assert o !in rest;
      var ev := OfflineEvent(o, t, now);
      if !OfflineDue(t, now) {
        SweepOneTag(states, now, rest, emit, id);
      } else if emit(ev) {
        var states' := states[o := t.(online := false)];
        SweepOneTag(states', now, rest, emit, id);
        OfActorConcat([ev], SweepAll(states', now, rest, emit).events, id);
        assert Init([ev]) == [] && Last([ev]) == ev;
        assert OfActor([ev], id) == if o == id then [ev] else [];
      }
    }
  }

  lemma {:induction false} AcceptingSweepSucceeds(states: map<string, Tag>, now: Time, order: seq<string>)
    requires forall o | o in order :: o in states
    ensures !SweepAll(states, now, order, AcceptAll()).failed
  {
    if order != [] {
      var t := states[order[0]];
      var states' := if OfflineDue(t, now) then states[order[0] := t.(online := false)] else states;
      AcceptingSweepSucceeds(states', now, order[1..]);
    }
  }

  lemma StepOneTag(states: map<string, Tag>, s: Step, id: string)
    requires s.Timeout? ==> Enumerates(s.order, states.Keys)
    requires Enabled(states, s)
    ensures var r := FleetStep(states, s); var alone := RunFrom(TagOf(states, id), id, ProjectStep(id, s));
            TagOf(r.states, id) == alone.tag && OfActor(r.events, id) == alone.events
  {
    var t, mine := TagOf(states, id), ProjectStep(id, s);
    var r := FleetStep(states, s);
    if mine != [] {
      OneInput(t, id, mine[0]);
    }
    match s
    case Datagram(m) =>
      if Parse(m).Ok? {
        var msg := Parse(m).value;
        DerivedActors(TagOf(states, msg.tagId), msg, UnixMilli(msg.responseTS));
        if msg.tagId == id {
          OfActorAll(r.events, id);
        } else {
          OfActorNone(r.events, id);
        }
      }
    case Timeout(now, order) =>
      assert id in order <==> id in ToSet(order);
      if id in states {
        SweepOneTag(states, now, order, AcceptAll(), id);
        AcceptingSweepSucceeds(states, now, order);
      } else {
        SweepUnseenTag(states, now, order, AcceptAll(), id);
      }
  }

  lemma OneInput(t: Tag, id: string, x: Input)
    ensures RunFrom(t, id, [x]).tag == Feed(t, id, x).tag && RunFrom(t, id, [x]).events == Feed(t, id, x).events
  {
    assert Init([x]) == [] && Last([x]) == x;
    assert RunFrom(t, id, []) == TagOutcome(t, []);
  }

  lemma {:induction false} SweepUnseenTag(states: map<string, Tag>, now: Time, order: seq<string>, emit: Event -> bool,
      id: string)
    requires forall o | o in order :: o in states
    requires id !in states
    ensures var r := SweepAll(states, now, order, emit); r.states.Keys == states.Keys && OfActor(r.events, id) == []
  {
    if order != [] {
      var o, t, rest := order[0], states[order[0]], order[1..];
      var ev := OfflineEvent(o, t, now);
      if !OfflineDue(t, now) {
        SweepUnseenTag(states, now, rest, emit, id);
      } else if emit(ev) {
        var states' := states[o := t.(online := false)];
        SweepUnseenTag(states', now, rest, emit, id);
        OfActorConcat([ev], SweepAll(states', now, rest, emit).events, id);
        assert Init([ev]) == [] && Last([ev]) == ev;
      }
    }
  }

  lemma {:induction false} RunFromConcat(t: Tag, id: string, a: seq<Input>, b: seq<Input>)
    ensures RunFrom(t, id, a + b).tag == RunFrom(RunFrom(t, id, a).tag, id, b).tag
    ensures RunFrom(t, id, a + b).events == RunFrom(t, id, a).events + RunFrom(RunFrom(t, id, a).tag, id, b).events
  {
    hide Feed;
    if b == [] {
      assert a + b == a;
    } else {
      assert Init(a + b) == a + Init(b) && Last(a + b) == Last(b);
      RunFromConcat(t, id, a, Init(b));
    }
  }

  /** In any interleaved run, what happens to one tag, events and final record, is the run of
      the single-tag machine on that tag's datagrams and all sweeps. */
  lemma {:induction false} TagIsolation(id: string, steps: seq<Step>)
    requires ValidRun(steps)
    ensures TagOf(FleetRun(steps).states, id) == RunTag(id, Project(id, steps)).tag
    ensures OfActor(FleetRun(steps).events, id) == RunTag(id, Project(id, steps)).events
  {
    if steps != [] {
      var pre, s := Init(steps), Last(steps);
      var before := FleetRun(pre);
      TagIsolation(id, pre);
      EnumerationEnables(before.states, s);
      StepOneTag(before.states, s, id);
      OfActorConcat(before.events, FleetStep(before.states, s).events, id);
      RunFromConcat(FRESH_TAG, id, Project(id, pre), ProjectStep(id, s));
    }
  }

  predicate SameButOrder(a: seq<Step>, b: seq<Step>) {
    |a| == |b| && forall i | 0 <= i < |a| :: a[i] == b[i] || (a[i].Timeout? && b[i].Timeout? && a[i].now == b[i].now)
  }

  lemma {:induction false} ProjectIgnoresOrder(id: string, a: seq<Step>, b: seq<Step>)
    requires SameButOrder(a, b)
    ensures Project(id, a) == Project(id, b)
  {
    if a != [] {
      assert Last(a) == a[|a| - 1] && Last(b) == b[|a| - 1];
      assert forall i | 0 <= i < |a| - 1 :: Init(a)[i] == a[i] && Init(b)[i] == b[i];
      ProjectIgnoresOrder(id, Init(a), Init(b));
    }
  }

  /** The order in which each sweep ranges over the map is visible to nobody: two runs that
      differ only in it give every tag the same events and the same final record. */
  lemma VisitingOrderIrrelevant(id: string, a: seq<Step>, b: seq<Step>)
    requires ValidRun(a) && ValidRun(b) && SameButOrder(a, b)
    ensures TagOf(FleetRun(a).states, id) == TagOf(FleetRun(b).states, id)
    ensures OfActor(FleetRun(a).events, id) == OfActor(FleetRun(b).events, id)
  {
    TagIsolation(id, a);
    TagIsolation(id, b);
    ProjectIgnoresOrder(id, a, b);
  }
}
