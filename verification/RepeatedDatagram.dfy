/** A datagram repeated at once, with its zones possibly listed in another order, emits
    nothing and leaves the rest of the run unchanged up to the order of zone lists. */
module RepeatedDatagram {
  import opened Domain
  import opened Zones
  import opened TagMachine
  import opened TagRuns

  predicate Reordered(a: seq<string>, b: seq<string>) {
    |a| == |b| && ToSet(a) == ToSet(b)
  }

  /** The same event but for the order of its zones: identifier and timestamp included. */
  predicate SameButZoneOrder(e: Event, f: Event) {
    e.state.location.Some? && f.state.location.Some? && Reordered(e.Zones(), f.Zones())
    && f == e.(state := e.state.(location := Some(e.state.location.value.(zones := f.Zones()))))
  }

  predicate EventsAgree(es: seq<Event>, fs: seq<Event>) {
    |es| == |fs| && forall i | 0 <= i < |es| :: SameButZoneOrder(es[i], fs[i])
  }

  /** Two records the machine treats alike; sweeps also look at the last packet time and the
      last known location. */
  predicate Alike(t: Tag, u: Tag, sweeps: bool) {
    && t.lastLocationType != "" && u.lastLocationType == t.lastLocationType
    && t.online == u.online && t.lastMovementStatus == u.lastMovementStatus
    && t.locationLostAt == u.locationLostAt && t.name == u.name && t.groupName == u.groupName
    && Reordered(t.lastZoneIds, u.lastZoneIds)
    && (sweeps ==> t.lastPacketTS == u.lastPacketTS && t.lastKnownLocation == u.lastKnownLocation)
  }

  predicate Repeats(m: UdpMsg, r: UdpMsg) {
    && r.tagId == m.tagId && r.tagName == m.tagName && r.tagGroupName == m.tagGroupName
    && r.locationType == m.locationType && r.locationMovementStatus == m.locationMovementStatus
    && Reordered(MsgZones(m), MsgZones(r))
  }

  lemma ReorderedScan(c: seq<string>, a: seq<string>, b: seq<string>)
    requires Reordered(a, b)
    ensures SameZones(c, a) <==> SameZones(c, b)
    ensures SameZones(b, a)
    ensures a == [] <==> b == []
  {
    assert forall z :: z in a <==> z in ToSet(a);
    assert forall z :: z in b <==> z in ToSet(b);
  }

  lemma RepeatIsSilent(t: Tag, m: UdpMsg, r: UdpMsg, now: Time, later: Time)
    requires WellFormed(m) && WellFormed(r) && Repeats(m, r)
    ensures DerivedEvents(DerivedTag(t, m, now), r, later) == []
    ensures Alike(DerivedTag(t, m, now), DerivedTag(DerivedTag(t, m, now), r, later), false)
    ensures r.lastPacketTS == m.lastPacketTS && r.location == m.location ==>
              Alike(DerivedTag(t, m, now), DerivedTag(DerivedTag(t, m, now), r, later), true)
  {
    ReorderedScan(MsgZones(r), MsgZones(m), MsgZones(r));
  }

  lemma AlikeRules(t: Tag, u: Tag, m: UdpMsg, now: Time, n: nat)
    requires Alike(t, u, false)
    ensures EventsAgree(OnlineEvents(t, m, now), OnlineEvents(u, m, now))
    ensures EventsAgree(TransitionEvents(t, m, now, n), TransitionEvents(u, m, now, n))
    ensures SnapshotEvents(t, m, now, n) == SnapshotEvents(u, m, now, n)
  {
    ReorderedScan(MsgZones(m), t.lastZoneIds, u.lastZoneIds);
    hide EventId, ActorMetadata, PointFromSlice, SameZones;
  }

  lemma AlikeDerived(t: Tag, u: Tag, m: UdpMsg, now: Time)
    requires Alike(t, u, false)
    ensures EventsAgree(DerivedEvents(t, m, now), DerivedEvents(u, m, now))
  {
    var a, a' := OnlineEvents(t, m, now), OnlineEvents(u, m, now);
    var b, b' := TransitionEvents(t, m, now, |a|), TransitionEvents(u, m, now, |a|);
    var c := SnapshotEvents(t, m, now, |a + b|);
    AlikeRules(t, u, m, now, |a|);
    AlikeRules(t, u, m, now, |a + b|);
    hide OnlineEvents, TransitionEvents, SnapshotEvents, SameButZoneOrder;
    AgreeConcat(a, a', b, b');
    AgreeConcat(a + b, a' + b', c, c);
  }

  lemma AlikeStep(t: Tag, u: Tag, id: string, x: Input, sweeps: bool)
    requires Alike(t, u, sweeps)
    requires match x case Packet(m) => WellFormed(m) case Sweep(_) => sweeps
    ensures EventsAgree(Feed(t, id, x).events, Feed(u, id, x).events)
    ensures Alike(Feed(t, id, x).tag, Feed(u, id, x).tag, sweeps)
  {
    hide DerivedEvents, EventId;
    match x
    case Sweep(_) =>
    case Packet(m) => AlikeDerived(t, u, m, UnixMilli(m.responseTS));
  }

  lemma AgreeConcat(es: seq<Event>, fs: seq<Event>, es': seq<Event>, fs': seq<Event>)
    requires EventsAgree(es, fs) && EventsAgree(es', fs')
    ensures EventsAgree(es + es', fs + fs')
  {
  }

  lemma {:induction false} AlikeRuns(t: Tag, u: Tag, id: string, rest: seq<Input>, sweeps: bool)
    requires Alike(t, u, sweeps) && ValidInputs(rest)
    requires sweeps || forall i | 0 <= i < |rest| :: rest[i].Packet?
    ensures EventsAgree(RunFrom(t, id, rest).events, RunFrom(u, id, rest).events)
    ensures Alike(RunFrom(t, id, rest).tag, RunFrom(u, id, rest).tag, sweeps)
  {
    if rest != [] {
      var pre, x := Init(rest), Last(rest);
      assert rest == pre + [x];
      ValidInit(pre, x);
      AlikeRuns(t, u, id, pre, sweeps);
      var p, q := RunFrom(t, id, pre), RunFrom(u, id, pre);
      AlikeStep(p.tag, q.tag, id, x, sweeps);
      AgreeConcat(p.events, q.events, Feed(p.tag, id, x).events, Feed(q.tag, id, x).events);
    }
  }

  /** Inserting (or removing) an immediate repeat of a datagram: it emits nothing, and the
      rest of a sweep-free run emits the same events with the same identifiers and
      timestamps, up to zone order. A repeat that also carries the same packet time and
      location is invisible to runs with sweeps as well. */
  lemma RepeatChangesNothing(t: Tag, id: string, m: UdpMsg, r: UdpMsg, rest: seq<Input>)
    requires WellFormed(m) && WellFormed(r) && Repeats(m, r) && ValidInputs(rest)
    requires (forall i | 0 <= i < |rest| :: rest[i].Packet?)
             || (r.lastPacketTS == m.lastPacketTS && r.location == m.location)
    ensures var once := Feed(t, id, Packet(m)).tag; var twice := Feed(once, id, Packet(r));
            && twice.events == []
            && EventsAgree(RunFrom(once, id, rest).events, RunFrom(twice.tag, id, rest).events)
  {
    var once := Feed(t, id, Packet(m)).tag;
    RepeatIsSilent(t, m, r, UnixMilli(m.responseTS), UnixMilli(r.responseTS));
    AlikeRuns(once, Feed(once, id, Packet(r)).tag, id, rest,
              r.lastPacketTS == m.lastPacketTS && r.location == m.location);
  }
}
