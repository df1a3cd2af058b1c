/** What a subscriber holds for a tag when the channel dropped some of that tag's own events. */
module Drops {
  import opened Domain
  import opened Zones
  import opened TagMachine
  import opened TagRuns
  import opened Fleet
  import EmitChannel
  import opened R = RepositoryModel
  import opened PublishedView
  import opened Watch
  import opened EndToEnd

  /** The tag's last event of a type, if it has any, was kept. */
  predicate LastKept(es: seq<Event>, kept: seq<bool>, id: string, kind: EventType)
    requires |es| == |kept|
  {
    if es == [] then true
    else if Last(es).actor.id == id && Last(es).kind == kind then Last(kept)
    else LastKept(Init(es), Init(kept), id, kind)
  }

  function Mine(es: seq<Event>, id: string, kind: EventType): seq<Event> {
    ByType(OfActor(es, id), kind)
  }

  lemma MineExtend(es: seq<Event>, e: Event, id: string, kind: EventType)
    ensures Mine(es + [e], id, kind) == Mine(es, id, kind) + if e.actor.id == id && e.kind == kind then [e] else []
  {
    OfActorExtend(es, id, e);
    if e.actor.id == id {
      assert Init(OfActor(es, id) + [e]) == OfActor(es, id) && Last(OfActor(es, id) + [e]) == e;
    } else {
      assert OfActor(es, id) + [] == OfActor(es, id) && Mine(es, id, kind) + [] == Mine(es, id, kind);
    }
  }

  lemma LastKeptExtend(es: seq<Event>, kept: seq<bool>, e: Event, flag: bool, id: string, kind: EventType)
    requires |es| == |kept|
    ensures LastKept(es + [e], kept + [flag], id, kind)
         == if e.actor.id == id && e.kind == kind then flag else LastKept(es, kept, id, kind)
  {
    assert Init(es + [e]) == es && Last(es + [e]) == e;
    assert Init(kept + [flag]) == kept && Last(kept + [flag]) == flag;
  }

  lemma {:induction false} LastKeptAgrees(es: seq<Event>, kept: seq<bool>, id: string, kind: EventType)
    requires |es| == |kept|
    ensures var all, some := Mine(es, id, kind), Mine(EmitChannel.Select(es, kept, true), id, kind);
            && (all == [] ==> some == [])
            && (LastKept(es, kept, id, kind) && all != [] ==> some != [] && Last(some) == Last(all))
  {
    hide Mine, LastKept, EmitChannel.Select;
    if es == [] {
      NothingSelected(kept);
      NothingMine(id, kind);
    } else {
      var pre, flags, e, flag := Init(es), Init(kept), Last(es), Last(kept);
      assert es == pre + [e] && kept == flags + [flag];
      var before := EmitChannel.Select(pre, flags, true);
      LastKeptAgrees(pre, flags, id, kind);
      LastKeptExtend(pre, flags, e, flag, id, kind);
      EmitChannel.SelectExtend(pre, flags, e, flag);
      assert before + [] == before;
      MineExtend(pre, e, id, kind);
      MineExtend(before, e, id, kind);
    }
  }

  lemma NothingSelected(kept: seq<bool>)
    requires kept == []
    ensures EmitChannel.Select([], kept, true) == []
  {
  }

  lemma NothingMine(id: string, kind: EventType)
    ensures Mine([], id, kind) == []
  {
  }

  lemma {:induction false} SelectedZonesNoDup(steps: seq<Fleet.Step>, kept: seq<bool>)
    requires ValidRun(steps) && FixDatagramsNoDup(steps) && |kept| == |FleetRun(steps).events|
    ensures forall e | e in EmitChannel.Select(FleetRun(steps).events, kept, true) && e.kind == EventZone ::
            NoDup(e.Zones())
  {
    RunZonesNoDup(steps);
    SelectedAreDerived(FleetRun(steps).events, kept, true);
  }

  /** What drops cost, exactly. Whatever the channel dropped, if no accepted fix lists a zone
      twice: a subscriber's zones of a tag are right if and only if the tag's last emitted zone
      event has the zones of its last derived one, none counting as empty; and its presence if
      and only if the last emitted presence event is an Inactive exactly when the last derived
      one is. */
  lemma RightDespiteDropsExactly(steps: seq<Fleet.Step>, route: Route, id: string)
    requires ValidRun(steps) && Flows(route, FleetRun(steps).events)
    ensures var emitted, derived := OfActor(route.Channel().emitted, id), OfActor(FleetRun(steps).events, id);
            var t, latest := TagOf(FleetRun(steps).states, id), LatestPacket(Project(id, steps));
            && (ZoneTopic in route.topics && FixDatagramsNoDup(steps) ==>
                  (ToSet(ViewZones(FoldView(route.received), id)) == ToSet(ReportedZones(latest))
                   <==> ToSet(FoldZones([], emitted)) == ToSet(FoldZones([], derived))))
            && (PresenceTopic in route.topics ==>
                  ((ViewInactive(FoldView(route.received), id) <==> latest.Some? && (!t.online || LocationLost(t)))
                   <==> (EndsInactive(PresenceTypes(emitted)) <==> EndsInactive(PresenceTypes(derived)))))
  {
    hide Flows, FoldView, FleetRun, ValidRun, OfActor, Published, PresenceTypes, TagRuns.RunFrom, FoldZones,
         EndsInactive, ViewZones, ViewInactive, NeverBlind, FixDatagramsNoDup;
    var es, c := FleetRun(steps).events, route.Channel();
    FlowsEmitsKept(route, es);
    FlowShows(route, es, id);
    TagIsolation(id, steps);
    ProjectValid(id, steps);
    PresenceCharacterised(id, Project(id, steps));
    if FixDatagramsNoDup(steps) {
      SelectedZonesNoDup(steps, c.kept);
      LastPublishedZones(c.emitted, id);
      ProjectNoDup(id, steps);
      ZoneViewFollowsLatest(id, Project(id, steps));
    }
  }

  /** A subscriber recovers from drops with the next event: the zones of a tag are right as soon
      as its last zone event was kept, and its presence as soon as its last presence event was. */
  lemma RecoversWithLastEvent(steps: seq<Fleet.Step>, route: Route, id: string)
    requires ValidRun(steps) && Flows(route, FleetRun(steps).events)
    ensures |route.Channel().kept| == |FleetRun(steps).events|
    ensures ZoneTopic in route.topics && FixDatagramsNoDup(steps)
            && LastKept(FleetRun(steps).events, route.Channel().kept, id, EventZone) ==>
              ToSet(ViewZones(FoldView(route.received), id)) == ToSet(ReportedZones(LatestPacket(Project(id, steps))))
    ensures PresenceTopic in route.topics
            && LastKept(FleetRun(steps).events, route.Channel().kept, id, EventPresence) ==>
              var t := TagOf(FleetRun(steps).states, id);
              (ViewInactive(FoldView(route.received), id)
               <==> LatestPacket(Project(id, steps)).Some? && (!t.online || LocationLost(t)))
  {
    hide Flows, FoldView, FleetRun, ValidRun, OfActor, ByType, PresenceTypes, FoldZones, EndsInactive, LastKept,
         ViewZones, ViewInactive, FixDatagramsNoDup;
    var es, c := FleetRun(steps).events, route.Channel();
    FlowsEmitsKept(route, es);
    RightDespiteDropsExactly(steps, route, id);
    LastKeptAgrees(es, c.kept, id, EventZone);
    LastKeptAgrees(es, c.kept, id, EventPresence);
    ZoneFoldSeesLast(OfActor(es, id));
    ZoneFoldSeesLast(OfActor(c.emitted, id));
    PresenceFoldSeesLast(OfActor(es, id));
    PresenceFoldSeesLast(OfActor(c.emitted, id));
  }
}
