/** The per-tag state machine of the positioning provider: what one datagram and one
    watchdog sweep do to one tag, as functions. The adapter's methods are proved against
    these in QuuppaAdapter.dfy; what they promise over whole runs is in TagRuns.dfy. */
module TagMachine {
  import opened Domain
  import opened Decimal
  import opened Zones

  const OFFLINE_THRESHOLD: Time := 12 * SECOND
  const WATCHDOG_TICK: Time := 2 * SECOND

  /** A decoded datagram. The location and the zone list distinguish null from empty. */
  datatype UdpMsg = UdpMsg(
    tagId: string,
    tagName: string,
    tagGroupName: string,
    responseTS: int,
    lastPacketTS: int,
    lastSeenTS: int,
    locationTS: int,
    location: Option<seq<real>>,
    locationType: string,
    locationMovementStatus: string,
    locationZoneIds: Option<seq<string>>,
    rssiLocatorCount: int)

  datatype Tag = Tag(
    online: bool,
    lastPacketTS: Time,
    lastResponseTS: Time,
    lastLocationType: string,
    lastZoneIds: seq<string>,
    lastKnownLocation: seq<real>,
    lastKnownLocationTS: Time,
    locationLostAt: Time,
    lastMovementStatus: string,
    name: string,
    groupName: string)

  /** The zero record a tag starts from. */
  const FRESH_TAG := Tag(false, ZERO_TIME, ZERO_TIME, "", [], [], ZERO_TIME, ZERO_TIME, "", "", "")

  /** The checks made on a datagram after decoding. A missing response time falls back to the
      time last seen, and failing that to the time of the last packet. */
  function Parse(m: UdpMsg): (r: Result<UdpMsg, string>)
    ensures r.Ok? ==> WellFormed(r.value) && r.value == m.(responseTS := r.value.responseTS)
    ensures r.Ok? && m.responseTS > 0 ==> r.value == m
    ensures r.Ok? && m.responseTS <= 0 && m.lastSeenTS > 0 ==> r.value.responseTS == m.lastSeenTS
    ensures r.Ok? && m.responseTS <= 0 && m.lastSeenTS <= 0 ==> r.value.responseTS == m.lastPacketTS
    ensures r.Ok? <==> m.tagId != "" && m.locationType != ""
                       && (m.responseTS > 0 || m.lastSeenTS > 0 || m.lastPacketTS > 0)
    ensures r == Err("missing_tagId") <==> m.tagId == ""
    ensures r == Err("missing_responseTS")
            <==> m.tagId != "" && m.responseTS <= 0 && m.lastSeenTS <= 0 && m.lastPacketTS <= 0
  {
    if m.tagId == "" then Err("missing_tagId")
    else if m.responseTS <= 0 && m.lastSeenTS <= 0 && m.lastPacketTS <= 0 then Err("missing_responseTS")
    else
      var m' := if m.responseTS > 0 then m
                else m.(responseTS := if m.lastSeenTS > 0 then m.lastSeenTS else m.lastPacketTS);
      if m'.locationType == "" then Err("missing_locationType") else Ok(m')
  }

  predicate WellFormed(m: UdpMsg) {
    m.tagId != "" && m.locationType != "" && m.responseTS > 0
  }

  predicate IsLocationType(t: string) {
    t == "position"
  }

  function NormaliseZones(zones: Option<seq<string>>): seq<string> {
    if zones.None? then [] else zones.value
  }

  function MsgZones(m: UdpMsg): seq<string> {
    NormaliseZones(m.locationZoneIds)
  }

  predicate MsgFix(m: UdpMsg) {
    IsLocationType(m.locationType)
  }

  function PointFromSlice(loc: seq<real>): Option<Point> {
    if |loc| < 3 then None else Some(Point(loc[0], loc[1], loc[2]))
  }

  function Slice(loc: Option<seq<real>>): seq<real> {
    if loc.None? then [] else loc.value
  }

  function PutNonEmpty(md: map<string, string>, key: string, value: string): map<string, string> {
    if value == "" then md else md[key := value]
  }

  function ActorMetadata(m: UdpMsg): map<string, string> {
    PutNonEmpty(PutNonEmpty(PutNonEmpty(PutNonEmpty(map[],
      "tagName", m.tagName), "tagGroupName", m.tagGroupName),
      "locationType", m.locationType), "movementStatus", m.locationMovementStatus)
  }

  function ActorMetadataFromState(t: Tag): map<string, string> {
    PutNonEmpty(PutNonEmpty(PutNonEmpty(map[],
      "tagName", t.name), "tagGroupName", t.groupName), "locationType", t.lastLocationType)
  }

  function EventId(actorId: string, ts: Time, n: nat): string {
    "evt-" + actorId + "-" + FormatInt(ts) + "-" + FormatInt(n)
  }

  function ZoneEvent(m: UdpMsg, now: Time, zones: seq<string>, n: nat): Event {
    Event(EventId(m.tagId, now, n), EventZone, Actor(m.tagId, ActorMetadata(m)),
          State(Some(Location(PointFromSlice(Slice(m.location)), zones)), Presence(Active, now), None), now)
  }

  function PresenceEvent(m: UdpMsg, now: Time, zones: seq<string>, kind: PresenceType, n: nat): Event {
    Event(EventId(m.tagId, now, n), EventPresence, Actor(m.tagId, ActorMetadata(m)),
          State(Some(Location(None, zones)), Presence(kind, now), None), now)
  }

  function OfflineEvent(id: string, t: Tag, now: Time): Event {
    Event(EventId(id, now, 0), EventPresence, Actor(id, ActorMetadataFromState(t)),
          State(Some(Location(PointFromSlice(t.lastKnownLocation), t.lastZoneIds)), Presence(Inactive, now), None),
          now)
  }

  predicate HadHistory(t: Tag) {
    !IsZero(t.lastPacketTS) || t.lastLocationType != ""
  }

  predicate HasLocation(t: Tag) {
    IsLocationType(t.lastLocationType)
  }

  predicate LocationLost(t: Tag) {
    !IsZero(t.locationLostAt)
  }

  predicate Losing(t: Tag, m: UdpMsg) {
    HadHistory(t) && HasLocation(t) && !MsgFix(m)
  }

  predicate Restoring(t: Tag, m: UdpMsg) {
    HadHistory(t) && !HasLocation(t) && MsgFix(m)
  }

  predicate SnapshotDue(t: Tag, m: UdpMsg) {
    var changed := !SameZones(MsgZones(m), t.lastZoneIds) || m.locationType != t.lastLocationType
                   || m.locationMovementStatus != t.lastMovementStatus;
    MsgFix(m) && if HadHistory(t) then (MsgZones(m) != [] || t.lastZoneIds != []) && changed else MsgZones(m) != []
  }

  // The three emission rules. The last argument is the next sequence number.

  function OnlineEvents(t: Tag, m: UdpMsg, now: Time): seq<Event> {
    if HadHistory(t) && !t.online then [PresenceEvent(m, now, t.lastZoneIds, Active, 0)] else []
  }

  function TransitionEvents(t: Tag, m: UdpMsg, now: Time, n: nat): seq<Event> {
    if Losing(t, m) then
      if t.lastZoneIds != [] then
        [ZoneEvent(m, now, [], n), PresenceEvent(m, now, t.lastZoneIds, Inactive, n + 1)]
      else
        [PresenceEvent(m, now, t.lastZoneIds, Inactive, n)]
    else if Restoring(t, m) then [PresenceEvent(m, now, MsgZones(m), Active, n)]
    else []
  }

  function SnapshotEvents(t: Tag, m: UdpMsg, now: Time, n: nat): seq<Event> {
    if SnapshotDue(t, m) then [ZoneEvent(m, now, MsgZones(m), n)] else []
  }

  function DerivedEvents(t: Tag, m: UdpMsg, now: Time): seq<Event> {
    var first := OnlineEvents(t, m, now);
    var second := first + TransitionEvents(t, m, now, |first|);
    second + SnapshotEvents(t, m, now, |second|)
  }

  /** The record after a datagram, but for the time the location was lost. */
  function Advanced(t: Tag, m: UdpMsg, now: Time): Tag {
    var located := MsgFix(m) && m.location.Some?;
    Tag(true, UnixMilli(m.lastPacketTS), now, m.locationType, MsgZones(m),
        if located then m.location.value else t.lastKnownLocation,
        if located then UnixMilli(m.locationTS) else t.lastKnownLocationTS,
        t.locationLostAt,
        m.locationMovementStatus,
        if m.tagName != "" then m.tagName else t.name,
        if m.tagGroupName != "" then m.tagGroupName else t.groupName)
  }

  function DerivedTag(t: Tag, m: UdpMsg, now: Time): Tag {
    Advanced(t, m, now).(locationLostAt :=
      if Losing(t, m) then now else if Restoring(t, m) then ZERO_TIME else t.locationLostAt)
  }

  /** What the watchdog reports: silent for the threshold, still flagged online, not lost. */
  predicate OfflineDue(t: Tag, now: Time) {
    t.online && !LocationLost(t) && now - t.lastPacketTS >= OFFLINE_THRESHOLD
  }
}
