/** What the provider reports, as a function of what a tag has received: the history of its
    datagrams and of the sweeps, with the protocol's own names, units and limits written out.
    Nothing here looks at the tag's record; the results say that the record machine does this. */
module Reports {
  import opened Domain
  import opened Decimal
  import opened Zones
  import opened TagMachine
  import opened TagRuns
  import opened Fleet

  predicate IsPosition(m: UdpMsg) {
    m.locationType == "position"
  }

  function Listed(m: UdpMsg): seq<string> {
    if m.locationZoneIds.None? then [] else m.locationZoneIds.value
  }

  /** The location is lost: there was a position fix, but the latest datagram is none. */
  predicate NowLost(ins: seq<Input>) {
    LatestPacket(ins).Some? && !IsPosition(LatestPacket(ins).value)
    && exists i | 0 <= i < |ins| :: ins[i].Packet? && IsPosition(ins[i].msg)
  }

  /** Reported offline and not heard of since. */
  predicate NowOffline(ins: seq<Input>)
    decreases |ins|, 1
  {
    ins != [] && Last(ins).Sweep? && (NowOffline(Init(ins)) || SilentTooLong(Init(ins), Last(ins).now))
  }

  /** A sweep has something to report: 12 seconds after the last packet. */
  predicate SilentTooLong(ins: seq<Input>, now: Time)
    decreases |ins|, 2
  {
    LatestPacket(ins).Some? && !NowOffline(ins) && !NowLost(ins)
    && now - 1_000_000 * LatestPacket(ins).value.lastPacketTS >= 12_000_000_000
  }

  lemma LostIsRecorded(id: string, ins: seq<Input>)
    requires ValidInputs(ins)
    ensures NowLost(ins) <==> LocationLost(RunTag(id, ins).tag)
  {
    ReachableState(id, ins);
    if i :| 0 <= i < |ins| && ins[i].Packet? && IsPosition(ins[i].msg) {
      assert MsgFix(ins[i].msg);
    }
    if i :| 0 <= i < |ins| && ins[i].Packet? && MsgFix(ins[i].msg) {
      assert IsPosition(ins[i].msg);
    }
  }

  /** The record's online flag, and when a sweep reports a tag, from the history alone. */
  lemma {:induction false} SweepReportsExactly(id: string, ins: seq<Input>, now: Time)
    requires ValidInputs(ins)
    ensures RunTag(id, ins).tag.online <==> LatestPacket(ins).Some? && !NowOffline(ins)
    ensures |Feed(RunTag(id, ins).tag, id, Sweep(now)).events| == if SilentTooLong(ins, now) then 1 else 0
  {
    hide NowLost;
    LostIsRecorded(id, ins);
    ReachableState(id, ins);
    if ins != [] {
      var pre, x := Init(ins), Last(ins);
      assert ins == pre + [x];
      ValidInit(pre, x);
      SweepReportsExactly(id, pre, if x.Sweep? then x.now else now);
      RunExtend(id, pre, x);
    }
  }

  /** In the datagram's own milliseconds: an online tag that is not lost is reported by a sweep
      exactly if its last packet is 12000 or more of them old. */
  lemma ReportedAfterTwelveSeconds(id: string, ins: seq<Input>, k: int)
    requires ValidInputs(ins) && LatestPacket(ins).Some? && !NowOffline(ins) && !NowLost(ins)
    ensures Feed(RunTag(id, ins).tag, id, Sweep(1_000_000 * k)).events != []
            <==> k - LatestPacket(ins).value.lastPacketTS >= 12_000
  {
    SweepReportsExactly(id, ins, 1_000_000 * k);
  }

  // What a datagram says.

  /** An event as a subscriber reads it: a zone list, or a presence with the zones it carries. */
  datatype Saying = ZonesAre(zones: seq<string>) | PresenceIs(kind: PresenceType, zones: seq<string>) | Other

  function Says(e: Event): Saying {
    match e.kind
    case EventZone => ZonesAre(e.Zones())
    case EventPresence => PresenceIs(e.state.presence.kind, e.Zones())
    case _ => Other
  }

  function SaysAll(es: seq<Event>): seq<Saying> {
    seq(|es|, i requires 0 <= i < |es| => Says(es[i]))
  }

  /** The new datagram says something about zones that the one before it did not. */
  predicate News(old': UdpMsg, new': UdpMsg) {
    && (Listed(old') != [] || Listed(new') != [])
    && (|| |Listed(new')| != |Listed(old')|
        || (exists z | z in Listed(new') :: z !in Listed(old'))
        || new'.locationType != old'.locationType
        || new'.locationMovementStatus != old'.locationMovementStatus)
  }

  /** Everything one datagram says, in order, given the history. A tag back from silence is
      announced first, with its previous zones; a lost location empties the zones, if there
      were any, and reports the tag inactive with them; a regained one reports it active with
      its new zones; and a position fix gives its zones if they are news. */
  function Expected(ins: seq<Input>, m: UdpMsg): seq<Saying> {
    match LatestPacket(ins)
    case None => if IsPosition(m) && Listed(m) != [] then [ZonesAre(Listed(m))] else []
    case Some(p) =>
      (if NowOffline(ins) then [PresenceIs(Active, Listed(p))] else [])
      + (if IsPosition(p) && !IsPosition(m) then
           (if Listed(p) != [] then [ZonesAre([])] else []) + [PresenceIs(Inactive, Listed(p))]
         else if !IsPosition(p) && IsPosition(m) then [PresenceIs(Active, Listed(m))]
         else [])
      + if IsPosition(m) && News(p, m) then [ZonesAre(Listed(m))] else []
  }

  lemma SaysConcat(a: seq<Event>, b: seq<Event>)
    ensures SaysAll(a + b) == SaysAll(a) + SaysAll(b)
  {
  }

  lemma OnlineSays(t: Tag, m: UdpMsg, now: Time)
    ensures SaysAll(OnlineEvents(t, m, now))
         == if HadHistory(t) && !t.online then [PresenceIs(Active, t.lastZoneIds)] else []
  {
    hide EventId, ActorMetadata;
  }

  lemma TransitionSays(t: Tag, m: UdpMsg, now: Time, n: nat)
    requires HadHistory(t)
    ensures SaysAll(TransitionEvents(t, m, now, n)) ==
            if t.lastLocationType == "position" && !IsPosition(m) then
              (if t.lastZoneIds != [] then [ZonesAre([])] else []) + [PresenceIs(Inactive, t.lastZoneIds)]
            else if t.lastLocationType != "position" && IsPosition(m) then [PresenceIs(Active, Listed(m))]
            else []
  {
    hide EventId, ActorMetadata, PointFromSlice;
  }

  lemma SnapshotSays(t: Tag, m: UdpMsg, now: Time, n: nat)
    ensures SaysAll(SnapshotEvents(t, m, now, n)) == if SnapshotDue(t, m) then [ZonesAre(Listed(m))] else []
  {
    hide EventId, ActorMetadata, PointFromSlice, SnapshotDue;
  }

  lemma SnapshotIsNews(t: Tag, p: UdpMsg, m: UdpMsg)
    requires HadHistory(t) && t.lastZoneIds == Listed(p) && t.lastLocationType == p.locationType
    requires t.lastMovementStatus == p.locationMovementStatus
    ensures SnapshotDue(t, m) <==> IsPosition(m) && News(p, m)
  {
    var a, b := Listed(m), Listed(p);
    assert |a| == |b| ==> (SameZones(a, b) <==> forall z | z in a :: z in b);
  }

  lemma NothingSaid()
    ensures SaysAll([]) == []
  {
  }

  /** A run's every datagram says exactly that. */
  lemma DatagramSays(id: string, ins: seq<Input>, m: UdpMsg)
    requires ValidInputs(ins) && WellFormed(m)
    ensures SaysAll(Feed(RunTag(id, ins).tag, id, Packet(m)).events) == Expected(ins, m)
  {
    var t, now := RunTag(id, ins).tag, UnixMilli(m.responseTS);
    ReachableState(id, ins);
    SweepReportsExactly(id, ins, 0);
    hide NowOffline, NowLost, RunFrom, SilentTooLong;
    var a := OnlineEvents(t, m, now);
    var b := TransitionEvents(t, m, now, |a|);
    var c := SnapshotEvents(t, m, now, |a + b|);
    SaysConcat(a + b, c);
    SaysConcat(a, b);
    OnlineSays(t, m, now);
    SnapshotSays(t, m, now, |a + b|);
    if LatestPacket(ins).Some? {
      TransitionSays(t, m, now, |a|);
      SnapshotIsNews(t, LatestPacket(ins).value, m);
    } else {
      FirstDatagram(m, now, |a|);
      NothingSaid();
    }
    hide OnlineEvents, TransitionEvents, SnapshotEvents, SnapshotDue, News;
  }

  lemma FirstDatagram(m: UdpMsg, now: Time, n: nat)
    ensures !HadHistory(FRESH_TAG) && TransitionEvents(FRESH_TAG, m, now, n) == []
    ensures SnapshotDue(FRESH_TAG, m) <==> IsPosition(m) && Listed(m) != []
  {
  }

  predicate AtMostOneZoneList(s: seq<Saying>) {
    forall i, j | 0 <= i < j < |s| :: !(s[i].ZonesAre? && s[j].ZonesAre?)
  }

  lemma ExpectedZones(ins: seq<Input>, m: UdpMsg)
    ensures AtMostOneZoneList(Expected(ins, m))
    ensures Listed(m) == [] && (LatestPacket(ins).Some? ==> Listed(LatestPacket(ins).value) == []) ==>
              forall s | s in Expected(ins, m) :: !s.ZonesAre?
  {
    hide NowOffline;
  }

  /** In particular a datagram gives at most one zone list, and none when neither it nor the one
      before it lists a zone, whatever else changed. */
  lemma NoZonesNoSnapshot(id: string, ins: seq<Input>, m: UdpMsg)
    requires ValidInputs(ins) && WellFormed(m)
    ensures var es := Feed(RunTag(id, ins).tag, id, Packet(m)).events;
            && AtMostOneZoneList(SaysAll(es))
            && (Listed(m) == [] && (LatestPacket(ins).Some? ==> Listed(LatestPacket(ins).value) == []) ==>
                  forall i | 0 <= i < |es| :: es[i].kind != EventZone)
  {
    var es := Feed(RunTag(id, ins).tag, id, Packet(m)).events;
    DatagramSays(id, ins, m);
    ExpectedZones(ins, m);
    hide Feed, RunFrom, Expected, AtMostOneZoneList;
    forall i | 0 <= i < |es|
      ensures SaysAll(es)[i] in SaysAll(es) && (es[i].kind == EventZone ==> SaysAll(es)[i].ZonesAre?)
    {
    }
  }

  // What the events carry.

  /** The fields every event of a datagram has from the datagram: actor, names, times. */
  predicate TellsOf(e: Event, m: UdpMsg) {
    && e.actor.id == m.tagId
    && e.timestamp == 1_000_000 * m.responseTS && e.state.presence.since == e.timestamp
    && e.state.command.None? && e.state.location.Some?
    && Tells(e.actor.metadata, "tagName", m.tagName) && Tells(e.actor.metadata, "tagGroupName", m.tagGroupName)
    && Tells(e.actor.metadata, "locationType", m.locationType)
    && Tells(e.actor.metadata, "movementStatus", m.locationMovementStatus)
    && (forall key | key in e.actor.metadata :: key in {"tagName", "tagGroupName", "locationType", "movementStatus"})
  }

  /** A value is given under its key, unless it is empty. */
  predicate Tells(md: map<string, string>, key: string, value: string) {
    if value == "" then key !in md else key in md && md[key] == value
  }

  /** The coordinates given: three or more numbers are x, y and z, fewer are no point. */
  predicate Locates(point: Option<Point>, coordinates: seq<real>) {
    if |coordinates| < 3 then point.None?
    else
      point.Some?
      && point.value.x == coordinates[0] && point.value.y == coordinates[1] && point.value.z == coordinates[2]
  }

  predicate CarriesPoint(e: Event, m: UdpMsg) {
    e.state.location.Some? &&
    if e.kind == EventZone then
      e.state.presence.kind == Active
      && Locates(e.state.location.value.point, if m.location.None? then [] else m.location.value)
    else e.state.location.value.point.None?
  }

  lemma MetadataTells(m: UdpMsg)
    ensures var md := ActorMetadata(m);
            && Tells(md, "tagName", m.tagName) && Tells(md, "tagGroupName", m.tagGroupName)
            && Tells(md, "locationType", m.locationType) && Tells(md, "movementStatus", m.locationMovementStatus)
            && forall key | key in md :: key in {"tagName", "tagGroupName", "locationType", "movementStatus"}
  {
  }

  lemma EventsTell(m: UdpMsg, zones: seq<string>, kind: PresenceType, n: nat)
    ensures var zone := ZoneEvent(m, UnixMilli(m.responseTS), zones, n); TellsOf(zone, m) && CarriesPoint(zone, m)
    ensures var presence := PresenceEvent(m, UnixMilli(m.responseTS), zones, kind, n);
            TellsOf(presence, m) && CarriesPoint(presence, m)
  {
    MetadataTells(m);
    hide ActorMetadata, EventId, Tells;
  }

  lemma RulesTell(t: Tag, m: UdpMsg, n: nat)
    ensures var now := UnixMilli(m.responseTS);
            forall e | e in OnlineEvents(t, m, now) + TransitionEvents(t, m, now, n) + SnapshotEvents(t, m, now, n) ::
              TellsOf(e, m) && CarriesPoint(e, m)
  {
    EventsTell(m, t.lastZoneIds, Active, 0);
    EventsTell(m, [], Inactive, n);
    EventsTell(m, t.lastZoneIds, Inactive, n);
    EventsTell(m, t.lastZoneIds, Inactive, n + 1);
    EventsTell(m, MsgZones(m), Active, n);
    hide TellsOf, CarriesPoint, ZoneEvent, PresenceEvent, SnapshotDue, UnixMilli;
  }

  /** Every event of a datagram tells of that datagram: its actor, its names, its time in
      nanoseconds, and with a zone list its coordinates. */
  lemma DatagramTells(t: Tag, id: string, m: UdpMsg)
    ensures forall e | e in Feed(t, id, Packet(m)).events :: TellsOf(e, m) && CarriesPoint(e, m)
  {
    var now := UnixMilli(m.responseTS);
    var a := OnlineEvents(t, m, now);
    var b := TransitionEvents(t, m, now, |a|);
    RulesTell(t, m, |a|);
    RulesTell(t, m, |a + b|);
    hide TellsOf, CarriesPoint, OnlineEvents, TransitionEvents, SnapshotEvents;
  }

  /** The datagram of the latest position fix that came with coordinates. */
  function LatestLocated(ins: seq<Input>): Option<UdpMsg> {
    if ins == [] then None
    else if Last(ins).Packet? && IsPosition(Last(ins).msg) && Last(ins).msg.location.Some? then Some(Last(ins).msg)
    else LatestLocated(Init(ins))
  }

  /** When the location was lost: the response time of the first datagram after the latest fix. */
  function LostTime(ins: seq<Input>): Time {
    if ins == [] || !NowLost(ins) then ZERO_TIME
    else if Last(ins).Packet? && !NowLost(Init(ins)) then 1_000_000 * Last(ins).msg.responseTS
    else LostTime(Init(ins))
  }

  lemma LossOfStep(pre: seq<Input>, x: Input)
    ensures NowLost(pre + [x]) <==>
            if x.Sweep? then NowLost(pre)
            else !IsPosition(x.msg) && exists i | 0 <= i < |pre| :: pre[i].Packet? && IsPosition(pre[i].msg)
  {
    var ins := pre + [x];
    assert Init(ins) == pre && Last(ins) == x;
    assert forall i | 0 <= i < |pre| :: ins[i] == pre[i];
    assert ins[|pre|] == x;
    if i :| 0 <= i < |pre| && pre[i].Packet? && IsPosition(pre[i].msg) {
      assert ins[i].Packet?;
    }
  }

  lemma FixSeen(ins: seq<Input>)
    ensures HadFix(ins) <==> exists i | 0 <= i < |ins| :: ins[i].Packet? && IsPosition(ins[i].msg)
  {
    if i :| 0 <= i < |ins| && ins[i].Packet? && IsPosition(ins[i].msg) {
      assert MsgFix(ins[i].msg);
    }
    if i :| 0 <= i < |ins| && ins[i].Packet? && MsgFix(ins[i].msg) {
      assert IsPosition(ins[i].msg);
    }
  }

  /** Every time in the record, in nanoseconds, from the history alone. */
  lemma {:induction false} RecordTimes(id: string, ins: seq<Input>)
    requires ValidInputs(ins) && LatestPacket(ins).Some?
    ensures var t, latest, located := RunTag(id, ins).tag, LatestPacket(ins).value, LatestLocated(ins);
            && t.lastPacketTS == 1_000_000 * latest.lastPacketTS
            && t.lastResponseTS == 1_000_000 * latest.responseTS
            && t.lastKnownLocationTS == (if located.Some? then 1_000_000 * located.value.locationTS else ZERO_TIME)
            && t.locationLostAt == LostTime(ins)
  {
    RecordTimesAlways(id, ins);
  }

  lemma {:induction false} RecordTimesAlways(id: string, ins: seq<Input>)
    requires ValidInputs(ins)
    ensures var t, latest, located := RunTag(id, ins).tag, LatestPacket(ins), LatestLocated(ins);
            && (latest.Some? ==> t.lastPacketTS == 1_000_000 * latest.value.lastPacketTS
                                 && t.lastResponseTS == 1_000_000 * latest.value.responseTS)
            && t.lastKnownLocationTS == (if located.Some? then 1_000_000 * located.value.locationTS else ZERO_TIME)
            && t.locationLostAt == LostTime(ins)
  {
    if ins != [] {
      var pre, x := Init(ins), Last(ins);
      assert ins == pre + [x];
      ValidInit(pre, x);
      RecordTimesAlways(id, pre);
      RunExtend(id, pre, x);
      LostIsRecorded(id, pre);
      LostIsRecorded(id, ins);
      LossOfStep(pre, x);
      FixSeen(pre);
      ReachableState(id, pre);
      LatestIsAnInput(pre);
      hide NowLost, RunFrom, HadFix;
    }
  }

  /** What a sweep's report carries: the sweep's time, the zones of the latest datagram, the
      coordinates of the latest fix that had any, the names last given and the location type. */
  lemma SweepTells(id: string, ins: seq<Input>, now: Time)
    requires ValidInputs(ins) && SilentTooLong(ins, now)
    ensures var es := Feed(RunTag(id, ins).tag, id, Sweep(now)).events;
            var latest, located, names := LatestPacket(ins).value, LatestLocated(ins), LastNames(ins);
            && |es| == 1 && Says(es[0]) == PresenceIs(Inactive, Listed(latest))
            && es[0].actor.id == id && es[0].timestamp == now == es[0].state.presence.since
            && es[0].id == "evt-" + id + "-" + FormatInt(now) + "-0"
            && es[0].state.command.None? && es[0].state.location.Some?
            && Locates(es[0].state.location.value.point,
                       if located.Some? && located.value.location.Some? then located.value.location.value else [])
            && Tells(es[0].actor.metadata, "tagName", names.0) && Tells(es[0].actor.metadata, "tagGroupName", names.1)
            && Tells(es[0].actor.metadata, "locationType", latest.locationType)
            && forall key | key in es[0].actor.metadata :: key in {"tagName", "tagGroupName", "locationType"}
  {
    var t := RunTag(id, ins).tag;
    SweepReportsExactly(id, ins, now);
    ReachableState(id, ins);
    RecordRemembers(id, ins);
    LocatedIsLast(ins);
    hide RunFrom, LastNames, LastLocation, NowOffline, NowLost;
    StateTells(t);
    ReportIdentifier(id, now);
    hide ActorMetadataFromState, EventId, Tells;
  }

  lemma ReportIdentifier(id: string, now: Time)
    ensures EventId(id, now, 0) == "evt-" + id + "-" + FormatInt(now) + "-0"
  {
  }

  lemma StateTells(t: Tag)
    ensures var md := ActorMetadataFromState(t);
            && Tells(md, "tagName", t.name) && Tells(md, "tagGroupName", t.groupName)
            && Tells(md, "locationType", t.lastLocationType)
            && forall key | key in md :: key in {"tagName", "tagGroupName", "locationType"}
  {
  }

  lemma {:induction false} LocatedIsLast(ins: seq<Input>)
    ensures LatestLocated(ins).Some? ==> LatestLocated(ins).value.location.Some?
    ensures LastLocation(ins) == if LatestLocated(ins).Some? then LatestLocated(ins).value.location.value else []
  {
    if ins != [] {
      LocatedIsLast(Init(ins));
    }
  }

  // The same over the whole tag map.

  /** Whatever happened to other tags, an accepted datagram says what its own tag's history makes
      of it; a malformed one says nothing. */
  lemma RunSays(pre: seq<Step>, m: UdpMsg)
    requires ValidRun(pre)
    ensures SaysAll(FleetStep(FleetRun(pre).states, Datagram(m)).events) ==
            if Parse(m).Ok? then Expected(Project(Parse(m).value.tagId, pre), Parse(m).value) else []
  {
    hide Expected, FleetRun, ValidRun, Parse, WellFormed, DerivedEvents, DerivedTag;
    if Parse(m).Ok? {
      var msg := Parse(m).value;
      AcceptedIsWellFormed(m);
      TagIsolation(msg.tagId, pre);
      ProjectValid(msg.tagId, pre);
      DatagramSays(msg.tagId, Project(msg.tagId, pre), msg);
    } else {
      NothingSaid();
    }
  }

  lemma AcceptedIsWellFormed(m: UdpMsg)
    ensures Parse(m).Ok? ==> WellFormed(Parse(m).value)
  {
  }

  /** The read loop's sweep reports exactly the tags whose own history has them silent too long,
      each once. */
  lemma RunSweepReports(pre: seq<Step>, now: Time, order: seq<string>, id: string)
    requires ValidRun(pre) && Enumerates(order, FleetRun(pre).states.Keys)
    ensures Enabled(FleetRun(pre).states, Timeout(now, order))
    ensures |OfActor(FleetStep(FleetRun(pre).states, Timeout(now, order)).events, id)|
         == if SilentTooLong(Project(id, pre), now) then 1 else 0
  {
    var states := FleetRun(pre).states;
    EnumerationEnables(states, Timeout(now, order));
    StepOneTag(states, Timeout(now, order), id);
    TagIsolation(id, pre);
    ProjectValid(id, pre);
    SweepReportsExactly(id, Project(id, pre), now);
    OneInput(TagOf(states, id), id, Sweep(now));
    hide FleetRun, ValidRun, FleetStep, Feed, SilentTooLong, OfActor;
  }
}
