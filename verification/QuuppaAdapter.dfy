/** The provider itself: mutable per-tag records, the datagram handler, the watchdog sweep and
    the read loop's turns, each proved against the functions of the other modules. */
module QuuppaAdapter {
  import opened Domain
  import opened Zones
  import opened TagMachine
  import opened Fleet
  import opened EmitChannel
  import opened ReadLoop

  class TagState {
    var online: bool
    var lastPacketTS: Time
    var lastResponseTS: Time
    var lastLocationType: string
    var lastZoneIds: seq<string>
    var lastKnownLocation: seq<real>
    var lastKnownLocationTS: Time
    var locationLostAt: Time
    var lastMovementStatus: string
    var name: string
    var groupName: string

    function Record(): Tag
      reads this
    {
      Tag(online, lastPacketTS, lastResponseTS, lastLocationType, lastZoneIds, lastKnownLocation,
          lastKnownLocationTS, locationLostAt, lastMovementStatus, name, groupName)
    }

    constructor ()
      ensures Record() == FRESH_TAG
    {
      online := false;
      lastPacketTS, lastResponseTS, lastKnownLocationTS, locationLostAt := ZERO_TIME, ZERO_TIME, ZERO_TIME, ZERO_TIME;
      lastLocationType, lastMovementStatus, name, groupName := "", "", "", "";
      lastZoneIds, lastKnownLocation := [], [];
    }

    /** The last step of handling a datagram: the record takes over its fields. */
    method MoveTo(msg: UdpMsg, now: Time)
      modifies this
      ensures Record() == Advanced(old(Record()), msg, now)
    {
      hide UnixMilli, NormaliseZones, IsLocationType;
      online := true;
      lastResponseTS := now;
      lastPacketTS := UnixMilli(msg.lastPacketTS);
      lastLocationType := msg.locationType;
      lastZoneIds := NormaliseZones(msg.locationZoneIds);
      if IsLocationType(msg.locationType) && msg.location.Some? {
        lastKnownLocation := msg.location.value;
        lastKnownLocationTS := UnixMilli(msg.locationTS);
      }
      lastMovementStatus := msg.locationMovementStatus;
      if msg.tagName != "" {
        name := msg.tagName;
      }
      if msg.tagGroupName != "" {
        groupName := msg.tagGroupName;
      }
    }
  }

  /** The events of one datagram, and the record moved on to it. */
  method DeriveEvents(prev: TagState, msg: UdpMsg, now: Time) returns (out: seq<Event>)
    modifies prev
    ensures out == DerivedEvents(old(prev.Record()), msg, now)
    ensures prev.Record() == DerivedTag(old(prev.Record()), msg, now)
  {
    hide PresenceEvent, ZoneEvent, SameZones, Advanced, DerivedTag, UnixMilli, PointFromSlice;
    out := [];
    var n := 0;
    ghost var t := prev.Record();

    var hadHistory := !IsZero(prev.lastPacketTS) || prev.lastLocationType != "";
    var prevType, prevZones := prev.lastLocationType, prev.lastZoneIds;
    var currType, currZones := msg.locationType, NormaliseZones(msg.locationZoneIds);

    if hadHistory && !prev.online {
      out := out + [PresenceEvent(msg, now, prevZones, Active, n)];
      n := n + 1;
    }
    assert out == OnlineEvents(t, msg, now) && n == |out|;

    var prevHasLocation, currHasLocation := IsLocationType(prevType), IsLocationType(currType);
    ghost var first := out;
    if hadHistory && prevHasLocation && !currHasLocation {
      if |prevZones| > 0 {
        out := out + [ZoneEvent(msg, now, [], n)];
        n := n + 1;
      }
      out := out + [PresenceEvent(msg, now, prevZones, Inactive, n)];
      n := n + 1;
      prev.locationLostAt := now;
    } else if hadHistory && !prevHasLocation && currHasLocation {
      out := out + [PresenceEvent(msg, now, currZones, Active, n)];
      n := n + 1;
      prev.locationLostAt := ZERO_TIME;
    }
    assert out == first + TransitionEvents(t, msg, now, |first|) && n == |out|;
    assert prev.Record() == DerivedLoss(t, msg, now);
    hide OnlineEvents, TransitionEvents, Losing, Restoring, DerivedLoss;
    ghost var second := out;

    var sameZones := ZonesEqual(currZones, prevZones);
    var stateChanged := currType != prevType || msg.locationMovementStatus != prev.lastMovementStatus;
    var hasZoneContext := |currZones| > 0 || |prevZones| > 0;
    if currHasLocation && ((hadHistory && hasZoneContext && (!sameZones || stateChanged)) ||
                           (!hadHistory && |currZones| > 0)) {
      out := out + [ZoneEvent(msg, now, currZones, n)];
      n := n + 1;
    }

    assert out == second + SnapshotEvents(t, msg, now, |second|);
    assert out == DerivedEvents(t, msg, now);
    hide SnapshotEvents, DerivedEvents;
    LossFirst(t, msg, now);
    prev.MoveTo(msg, now);
  }

  /** The record between the transition rules and the last step. */
  ghost function DerivedLoss(t: Tag, m: UdpMsg, now: Time): Tag {
    t.(locationLostAt := if Losing(t, m) then now else if Restoring(t, m) then ZERO_TIME else t.locationLostAt)
  }

  lemma LossFirst(t: Tag, m: UdpMsg, now: Time)
    ensures Advanced(DerivedLoss(t, m, now), m, now) == DerivedTag(t, m, now)
  {
  }

  ghost predicate Separate(states: map<string, TagState>) {
    forall a, b | a in states && b in states && a != b :: states[a] != states[b]
  }

  ghost function Records(states: map<string, TagState>): map<string, Tag>
    reads states.Values
  {
    map id | id in states :: states[id].Record()
  }

  /** A map of records that agrees with the objects, key by key. */
  ghost predicate Mirrors(tags: map<string, Tag>, states: map<string, TagState>)
    reads states.Values
  {
    tags.Keys == states.Keys && forall id | id in states :: states[id].Record() == tags[id]
  }

  lemma MirrorIsRecords(tags: map<string, Tag>, states: map<string, TagState>)
    requires Mirrors(tags, states)
    ensures Records(states) == tags
  {
  }

  lemma MirrorAt(tags: map<string, Tag>, states: map<string, TagState>, id: string)
    requires Mirrors(tags, states) && id in states && id in tags
    ensures tags[id] == states[id].Record()
  {
  }

  lemma RecordsMirror(states: map<string, TagState>)
    ensures Mirrors(Records(states), states) && Records(states).Keys == states.Keys
  {
  }

  lemma SweepDone(states: map<string, Tag>, now: Time, order: seq<string>, emit: Event -> bool, accepted: seq<Event>)
    requires order == []
    ensures Prefixed(accepted, SweepAll(states, now, order, emit)) == SweepResult(states, accepted, false)
  {
  }

  /** The sweep's one write, with what it means for the map of records. */
  method MarkOffline(st: TagState, id: string, ghost tags: map<string, Tag>, ghost states: map<string, TagState>)
    requires Separate(states) && Mirrors(tags, states) && id in states && states[id] == st
    modifies st`online
    ensures Mirrors(tags[id := tags[id].(online := false)], states)
  {
    st.online := false;
    assert st.Record() == tags[id].(online := false);
    forall o | o in states && o != id ensures states[o].Record() == tags[o] {
      assert states[o] != st;
    }
  }

  /** What the sweep still has to do, one tag at a time. */
  lemma SweepStep(states: map<string, Tag>, now: Time, order: seq<string>, emit: Event -> bool, accepted: seq<Event>)
    requires order != [] && forall id | id in order :: id in states
    ensures var id, t := order[0], states[order[0]]; var ev := OfflineEvent(id, t, now);
            Prefixed(accepted, SweepAll(states, now, order, emit)) ==
            if !OfflineDue(t, now) then Prefixed(accepted, SweepAll(states, now, order[1..], emit))
            else if !emit(ev) then SweepResult(states, accepted, true)
            else Prefixed(accepted + [ev], SweepAll(states[id := t.(online := false)], now, order[1..], emit))
  {
  }

  /** Some order of a set: the language's map ranges choose one afresh each time. */
  method RangeOrder(keys: set<string>) returns (order: seq<string>)
    ensures Enumerates(order, keys)
  {
    order := [];
    var left := keys;
    while left != {}
      invariant left <= keys && NoDup(order) && ToSet(order) == keys - left
      decreases |left|
    {
      var id :| id in left;
      assert id !in ToSet(order);
      assert ToSet(order + [id]) == ToSet(order) + {id};
      order, left := order + [id], left - {id};
    }
  }

  /** The offline sweep over the map, in whatever order the range yields, stopping at the
      first event the handler refuses. */
  method RunWatchdog(states: map<string, TagState>, now: Time, emit: Event -> bool)
    returns (accepted: seq<Event>, failed: bool, order: seq<string>)
    requires Separate(states)
    modifies states.Values`online
    ensures Enumerates(order, states.Keys) && Enabled(old(Records(states)), Timeout(now, order))
    ensures SweepAll(old(Records(states)), now, order, emit) == SweepResult(Records(states), accepted, failed)
  {
    hide SweepAll, OfflineEvent, Records, Mirrors, Separate, Enumerates;
    accepted, failed := [], false;
    order := RangeOrder(states.Keys);
    ghost var tags := Records(states);
    RecordsMirror(states);
    EnumerationEnables(tags, Timeout(now, order));
    assert order[0..] == order;
    for i := 0 to |order|
      invariant forall id | id in order :: id in states
      invariant Mirrors(tags, states) && tags.Keys == states.Keys
      invariant SweepAll(old(Records(states)), now, order, emit)
        == Prefixed(accepted, SweepAll(tags, now, order[i..], emit))
    {
      var tagID, st := order[i], states[order[i]];
      assert order[i..] == [tagID] + order[i + 1..];
      MirrorAt(tags, states, tagID);
      SweepStep(tags, now, order[i..], emit, accepted);
      if !st.online {
        continue;
      }
      if !IsZero(st.locationLostAt) {
        continue;
      }
      if now - st.lastPacketTS < OFFLINE_THRESHOLD {
        continue;
      }
      var ev := OfflineEvent(tagID, st.Record(), now);
      if !emit(ev) {
        failed := true;
        MirrorIsRecords(tags, states);
        return;
      }
      MarkOffline(st, tagID, tags, states);
      accepted := accepted + [ev];
      tags := tags[tagID := tags[tagID].(online := false)];
    }
    SweepDone(tags, now, order[|order|..], emit, accepted);
    MirrorIsRecords(tags, states);
  }

  function Prefixed(events: seq<Event>, r: SweepResult): SweepResult {
    r.(events := events + r.events)
  }

  /** The one write of a datagram, with what it means for the map of records. */
  method MoveTag(st: TagState, msg: UdpMsg, now: Time,
                 ghost tags: map<string, Tag>, ghost states: map<string, TagState>)
    returns (out: seq<Event>)
    requires Separate(states) && msg.tagId in states && states[msg.tagId] == st
    requires tags.Keys + {msg.tagId} == states.Keys
    requires forall o | o in states && o != msg.tagId :: states[o].Record() == tags[o]
    modifies st
    ensures out == DerivedEvents(old(st.Record()), msg, now)
    ensures Mirrors(tags[msg.tagId := DerivedTag(old(st.Record()), msg, now)], states)
  {
    hide DerivedEvents, DerivedTag;
    out := DeriveEvents(st, msg, now);
    forall o | o in states && o != msg.tagId ensures states[o].Record() == tags[o] {
      assert states[o] != st;
    }
  }

  lemma DatagramStep(tags: map<string, Tag>, m: UdpMsg)
    ensures FleetStep(tags, Datagram(m)) ==
            match Parse(m)
            case Err(_) => FleetOutcome(tags, [])
            case Ok(msg) =>
              var t, now := TagOf(tags, msg.tagId), UnixMilli(msg.responseTS);
              FleetOutcome(tags[msg.tagId := DerivedTag(t, msg, now)], DerivedEvents(t, msg, now))
  {
  }

  lemma TimeoutStep(tags: map<string, Tag>, now: Time, order: seq<string>)
    requires Enabled(tags, Timeout(now, order))
    ensures var r := SweepAll(tags, now, order, AcceptAll());
            FleetStep(tags, Timeout(now, order)) == FleetOutcome(r.states, r.events)
  {
  }

  lemma NothingSent(c: Channel)
    ensures Run(c, Sends([])) == c
  {
  }

  /** The state of one Run: the tag map and the channel to the emitting goroutine. */
  class Adapter {
    var states: map<string, TagState>
    const queue: EmitQueue

    ghost predicate Valid()
      reads this
    {
      Separate(states)
    }

    ghost function Tags(): map<string, Tag>
      reads this, states.Values
    {
      Records(states)
    }

    constructor ()
      ensures Valid() && fresh(queue) && states == map[] && queue.View() == EMPTY
    {
      states := map[];
      queue := new EmitQueue();
    }

    /** The record of a tag, created and stored at first sight. */
    method StateFor(id: string) returns (st: TagState)
      requires Valid()
      modifies this`states
      ensures Valid() && id in states && states[id] == st
      ensures states.Keys == old(states.Keys) + {id}
      ensures id !in old(states) ==> fresh(st)
      ensures forall o | o in old(states) :: states[o] == old(states[o])
      ensures st.Record() == TagOf(old(Tags()), id)
    {
      if id in states {
        st := states[id];
      } else {
        st := new TagState();
        states := states[id := st];
      }
    }

    /** One datagram off the socket: malformed ones are skipped; otherwise the tag's record is
        moved on and the derived events are sent without blocking. */
    method OnDatagram(m: UdpMsg, clock: Time)
      requires Valid() && !queue.closed
      modifies this`states, states.Values, queue
      ensures Valid() && !queue.closed
      ensures FleetStep(old(Tags()), Datagram(m)).states == Tags()
      ensures queue.View() == Run(old(queue.View()), Sends(FleetStep(old(Tags()), Datagram(m)).events))
      ensures forall id | id in states :: fresh(states[id]) || (id in old(states) && states[id] == old(states[id]))
    {
      hide DerivedEvents, DerivedTag, FleetStep, Records, Parse, EmitChannel.Run;
      ghost var before := Tags();
      DatagramStep(before, m);
      RecordsMirror(states);
      var parsed := Parse(m);
      if parsed.Err? {
        NothingSent(queue.View());
        return;
      }
      var msg := parsed.value;
      var st := StateFor(msg.tagId);
      var now := UnixMilli(msg.responseTS);
      if IsZero(now) {
        now := clock;
      }
      var events := MoveTag(st, msg, now, before, states);
      ghost var after := before[msg.tagId := DerivedTag(TagOf(before, msg.tagId), msg, now)];
      MirrorIsRecords(after, states);
      assert forall o | o in states :: states[o] as object != queue;
      queue.SendEach(events);
      MirrorIsRecords(after, states);
    }

    /** One read that timed out: a sweep whose events are sent without blocking, so the
        handler given to the sweep never refuses. */
    method OnTimeout(clock: Time) returns (order: seq<string>)
      requires Valid() && !queue.closed
      modifies states.Values`online, queue
      ensures Valid() && !queue.closed
      ensures Enumerates(order, states.Keys) && Enabled(old(Tags()), Timeout(clock, order))
      ensures FleetStep(old(Tags()), Timeout(clock, order)).states == Tags()
      ensures queue.View() == Run(old(queue.View()), Sends(FleetStep(old(Tags()), Timeout(clock, order)).events))
    {
      hide FleetStep, SweepAll, Records, Enumerates, EmitChannel.Run, Sends, Enabled;
      ghost var before := Tags();
      var events, _, o := RunWatchdog(states, clock, AcceptAll());
      order := o;
      TimeoutStep(before, clock, order);
      queue.SendEach(events);
    }

    /** One turn of the read loop. */
    method OneTurn(turn: Turn, clock: Time) returns (ghost s: Step)
      requires Valid() && !queue.closed
      modifies this`states, states.Values, queue
      ensures Valid() && !queue.closed
      ensures IsTurn(s, turn) && (s.Timeout? ==> Enumerates(s.order, old(Tags()).Keys)) && Enabled(old(Tags()), s)
      ensures FleetStep(old(Tags()), s).states == Tags()
      ensures queue.View() == Run(old(queue.View()), Sends(FleetStep(old(Tags()), s).events))
      ensures forall id | id in states :: fresh(states[id]) || (id in old(states) && states[id] == old(states[id]))
    {
      hide FleetStep, Enumerates, EmitChannel.Run, Sends;
      RecordsMirror(states);
      match turn {
        case Received(m) =>
          OnDatagram(m, clock);
          s := Datagram(m);
        case TimedOut(now) =>
          var order := OnTimeout(now);
          s := Timeout(now, order);
      }
    }

    /** The whole loop over a script of turns, in step with the emitting goroutine, whose
        answers after each turn are given. It ends when the script does or when the goroutine
        is seen to have failed, and then closes the channel and waits for it to finish. */
    method RunScript(turns: seq<Turn>, answers: seq<seq<bool>>, clock: Time, accept: Event -> bool)
      returns (handled: nat, ghost steps: seq<Step>, ghost moves: seq<Move>)
      requires |answers| == |turns| && states == map[] && queue.View() == EMPTY
      modifies this`states, queue
      ensures handled <= |turns| && Follows(steps, turns[..handled])
      ensures handled < |turns| ==> queue.failed.Some?
      ensures ValidRun(steps) && FleetRun(steps).states == Tags()
      ensures queue.View() == EmitChannel.Run(EMPTY, moves) && Finished(queue.View())
      ensures queue.derived == FleetRun(steps).events
      ensures queue.View() == DrainAll(Next(ChannelAfter(steps, answers[..handled]), Close), accept)
      ensures handled < |turns| ==> ChannelAfter(steps, answers[..handled]).failed.Some?
      ensures forall k | 0 <= k < handled :: ValidRun(steps[..k]) && ChannelAfter(steps[..k], answers[..k]).failed.None?
      ensures NoRefusal(answers) && (forall e :: accept(e)) ==> queue.failed.None? && handled == |turns|
    {
      hide FleetStep, FleetRun, ValidRun, Records, Enumerates, EmitChannel.Run, Sends, Finished, ChannelAfter, Drain,
           DrainAll, Follows, NoRefusal, IsTurn;
      handled, steps, moves := 0, [], [];
      NothingYet();
      while handled < |turns|
        invariant handled == |steps| <= |turns| && Follows(steps, turns[..handled])
        invariant Valid() && !queue.closed && queue.inFlight.None?
        invariant forall id | id in states :: fresh(states[id])
        invariant ValidRun(steps) && FleetRun(steps).states == Tags()
        invariant queue.View() == EmitChannel.Run(EMPTY, moves) && queue.derived == FleetRun(steps).events
        invariant NoRefusal(answers) ==> queue.failed.None?
        invariant queue.View() == ChannelAfter(steps, answers[..handled])
        invariant forall k | 0 <= k < handled ::
                    ValidRun(steps[..k]) && ChannelAfter(steps[..k], answers[..k]).failed.None?
      {
        if queue.failed.Some? {
          break;
        }
        ghost var before, c, earlier := Tags(), queue.View(), steps;
        ghost var s := OneTurn(turns[handled], clock);
        FleetExtend(steps, s);
        ghost var sent := Sends(FleetStep(before, s).events);
        RunConcat(EMPTY, moves, sent);
        SendsStayOpen(c, FleetStep(before, s).events);
        steps, moves := steps + [s], moves + sent;
        var accepted, taken := queue.EmitSome(answers[handled]);
        AcceptedIsAll(answers, handled, accepted);
        RunConcat(EMPTY, moves, taken);
        moves := moves + taken;
        assert answers[..handled + 1] == answers[..handled] + [answers[handled]];
        ChannelExtend(earlier, answers[..handled], s, answers[handled]);
        assert forall k | 0 <= k < handled :: steps[..k] == earlier[..k];
        FollowsExtend(earlier, turns, s);
        assert steps[..handled] == earlier;
        handled := handled + 1;
      }
      var _, last := queue.Shutdown(accept);
      RunConcat(EMPTY, moves, last);
      moves := moves + last;
    }
  }

  /** Every answer of the handler accepts. */
  predicate NoRefusal(answers: seq<seq<bool>>) {
    forall i, j | 0 <= i < |answers| && 0 <= j < |answers[i]| :: answers[i][j]
  }

  lemma AcceptedIsAll(answers: seq<seq<bool>>, i: nat, j: nat)
    requires i < |answers|
    ensures NoRefusal(answers) && j < |answers[i]| ==> answers[i][j]
    ensures NoRefusal([])
  {
  }

  lemma FollowsExtend(steps: seq<Step>, turns: seq<Turn>, s: Step)
    requires |steps| < |turns| && Follows(steps, turns[..|steps|]) && IsTurn(s, turns[|steps|])
    ensures Follows(steps + [s], turns[..|steps| + 1])
  {
    hide IsTurn;
  }

  /** The channel after the loop's turns: each turn's events sent, then the goroutine's part. */
  ghost function ChannelAfter(steps: seq<Step>, answers: seq<seq<bool>>): Channel
    requires |steps| == |answers| && ValidRun(steps)
  {
    if steps == [] then EMPTY
    else
      var before := FleetRun(Init(steps)).states;
      EnumerationEnables(before, Last(steps));
      var sent := Sends(FleetStep(before, Last(steps)).events);
      Drain(EmitChannel.Run(ChannelAfter(Init(steps), Init(answers)), sent), Last(answers))
  }

  lemma ChannelExtend(steps: seq<Step>, answers: seq<seq<bool>>, s: Step, answer: seq<bool>)
    requires |steps| == |answers| && ValidRun(steps) && ValidRun(steps + [s]) && Enabled(FleetRun(steps).states, s)
    ensures ChannelAfter(steps + [s], answers + [answer])
         == var sent := Sends(FleetStep(FleetRun(steps).states, s).events);
            Drain(EmitChannel.Run(ChannelAfter(steps, answers), sent), answer)
  {
    hide FleetStep, Drain, EmitChannel.Run, Sends;
    assert Init(steps + [s]) == steps && Last(steps + [s]) == s;
    assert Init(answers + [answer]) == answers && Last(answers + [answer]) == answer;
  }

  lemma NothingYet()
    ensures ChannelAfter([], []) == EMPTY && Follows([], [])
    ensures ValidRun([]) && FleetRun([]) == FleetOutcome(map[], [])
    ensures EmitChannel.Run(EMPTY, []) == EMPTY
    ensures Records(map[]) == map[]
  {
  }

  lemma FleetExtend(steps: seq<Step>, s: Step)
    requires ValidRun(steps) && (s.Timeout? ==> Enumerates(s.order, FleetRun(steps).states.Keys))
    ensures ValidRun(steps + [s]) && Enabled(FleetRun(steps).states, s)
    ensures var before, after := FleetRun(steps), FleetStep(FleetRun(steps).states, s);
            FleetRun(steps + [s]) == FleetOutcome(after.states, before.events + after.events)
  {
    assert Init(steps + [s]) == steps && Last(steps + [s]) == s;
    EnumerationEnables(FleetRun(steps).states, s);
  }
}
