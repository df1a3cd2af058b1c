/** From datagrams to subscribers: the provider's run, the channel, the repository and the
    subscription joined together. */
module EndToEnd {
  import opened Domain
  import opened Zones
  import opened TagMachine
  import opened TagRuns
  import opened Fleet
  import EmitChannel
  import opened OffsetCodec
  import opened R = RepositoryModel
  import opened Repetition
  import opened ChangeLog
  import opened PublishedView
  import opened Watch

  /** The zone lists of accepted position fixes name no zone twice. Other datagrams may. */
  ghost predicate FixDatagramsNoDup(steps: seq<Fleet.Step>) {
    forall i | 0 <= i < |steps| && steps[i].Datagram? && Parse(steps[i].m).Ok? && MsgFix(steps[i].m) ::
      NoDup(MsgZones(steps[i].m))
  }

  /** The repository's run when the events are written one after another, by one process, and
      only bucket updates may fail. */
  function Writes(es: seq<Event>, lost: seq<bool>): seq<R.Step>
    requires |es| == |lost|
  {
    seq(|es|, i requires 0 <= i < |es| => WriteStep(es[i], NO_FAULTS.(persist := lost[i])))
  }

  lemma {:induction false} WritesAreLossless(es: seq<Event>, lost: seq<bool>)
    requires |es| == |lost|
    ensures Lossless(Writes(es, lost))
  {
    if es != [] {
      WritesAreLossless(Init(es), Init(lost));
      assert Init(Writes(es, lost)) == Writes(Init(es), Init(lost));
    }
  }

  // Zone events of a run carry the zones of a fix, or none.

  lemma DerivedZonesNoDup(t: Tag, m: UdpMsg, now: Time)
    requires MsgFix(m) ==> NoDup(MsgZones(m))
    ensures forall e | e in DerivedEvents(t, m, now) && e.kind == EventZone :: NoDup(e.Zones())
  {
    hide EventId, ActorMetadata, PointFromSlice, SameZones, Losing, Restoring, HadHistory;
  }

  lemma {:induction false} SweepKinds(states: map<string, Tag>, now: Time, order: seq<string>, emit: Event -> bool)
    requires forall o | o in order :: o in states
    ensures forall e | e in SweepAll(states, now, order, emit).events ::
            e.kind == EventPresence && e.state.presence.kind == Inactive
  {
    if order != [] {
      var o, t, rest := order[0], states[order[0]], order[1..];
      SweepKinds(states, now, rest, emit);
      SweepKinds(states[o := t.(online := false)], now, rest, emit);
    }
  }

  lemma {:induction false} RunZonesNoDup(steps: seq<Fleet.Step>)
    requires ValidRun(steps) && FixDatagramsNoDup(steps)
    ensures forall e | e in FleetRun(steps).events && e.kind == EventZone :: NoDup(e.Zones())
  {
    if steps != [] {
      var pre, s := Init(steps), Last(steps);
      assert s == steps[|pre|] && forall i | 0 <= i < |pre| :: pre[i] == steps[i];
      RunZonesNoDup(pre);
      var states := FleetRun(pre).states;
      EnumerationEnables(states, s);
      match s
      case Timeout(now, order) => SweepKinds(states, now, order, AcceptAll());
      case Datagram(m) =>
        if Parse(m).Ok? {
          var msg := Parse(m).value;
          DerivedZonesNoDup(TagOf(states, msg.tagId), msg, UnixMilli(msg.responseTS));
        }
    }
  }

  lemma {:induction false} ProjectNoDup(id: string, steps: seq<Fleet.Step>)
    requires FixDatagramsNoDup(steps)
    ensures FixZonesNoDup(Project(id, steps))
  {
    if steps != [] {
      assert Last(steps) == steps[|Init(steps)|] && forall i | 0 <= i < |Init(steps)| :: Init(steps)[i] == steps[i];
      ProjectNoDup(id, Init(steps));
    }
  }

  // The last written event of a kind is what the folds of one tag's events see.

  lemma WroteExtend(es: seq<Event>, lost: seq<bool>, id: string, kind: EventType)
    requires |es| == |lost| && es != []
    ensures Wrote(Writes(es, lost), id, kind)
         == Wrote(Writes(Init(es), Init(lost)), id, kind)
            + if Last(es).actor.id == id && Last(es).kind == kind then [Last(es)] else []
  {
    assert Init(Writes(es, lost)) == Writes(Init(es), Init(lost));
  }

  lemma {:induction false} WroteIsByType(es: seq<Event>, lost: seq<bool>, id: string, kind: EventType)
    requires |es| == |lost|
    ensures Wrote(Writes(es, lost), id, kind) == ByType(OfActor(es, id), kind)
  {
    hide Wrote, Writes;
    if es == [] {
      EmptyWrote(lost, id, kind);
    } else {
      var mine, e := OfActor(Init(es), id), Last(es);
      WroteIsByType(Init(es), Init(lost), id, kind);
      WroteExtend(es, lost, id, kind);
      if e.actor.id == id {
        assert Init(mine + [e]) == mine && Last(mine + [e]) == e;
      } else {
        assert OfActor(es, id) == mine;
        assert ByType(mine, kind) + [] == ByType(mine, kind);
      }
    }
  }

  lemma EmptyWrote(lost: seq<bool>, id: string, kind: EventType)
    requires lost == []
    ensures Wrote(Writes([], lost), id, kind) == []
  {
  }

  lemma {:induction false} ZoneFoldSeesLast(es: seq<Event>)
    ensures FoldZones([], es) == if ByType(es, EventZone) == [] then [] else Last(ByType(es, EventZone)).Zones()
  {
    if es != [] {
      ZoneFoldSeesLast(Init(es));
    }
  }

  lemma {:induction false} PresenceFoldSeesLast(es: seq<Event>)
    ensures EndsInactive(PresenceTypes(es))
            <==> ByType(es, EventPresence) != [] && Last(ByType(es, EventPresence)).state.presence.kind == Inactive
  {
    if es != [] {
      PresenceFoldSeesLast(Init(es));
      if Last(es).kind != EventPresence {
        assert PresenceTypes(es) == PresenceTypes(Init(es))
          && ByType(es, EventPresence) == ByType(Init(es), EventPresence);
      }
    }
  }

  function ViewZones(view: map<Subject, Event>, id: string): seq<string> {
    if Subject(ZoneTopic, id) in view then view[Subject(ZoneTopic, id)].Zones() else []
  }

  predicate ViewInactive(view: map<Subject, Event>, id: string) {
    Subject(PresenceTopic, id) in view && view[Subject(PresenceTopic, id)].state.presence.kind == Inactive
  }

  function LogOf(es: seq<Event>, lost: seq<bool>): seq<Message>
    requires |es| == |lost|
  {
    RunRepo(Writes(es, lost)).log
  }

  lemma PublishedZones(es: seq<Event>, lost: seq<bool>, id: string)
    requires |es| == |lost| && forall e | e in es && e.kind == EventZone :: NoDup(e.Zones())
    ensures var published := Stream(LogOf(es, lost), Subject(ZoneTopic, id));
            ToSet(if published == [] then [] else Last(published).Zones()) == ToSet(FoldZones([], OfActor(es, id)))
  {
    hide Wrote, Writes, OfActor, ByType, DropRepeats, RunRepo;
    var mine := OfActor(es, id);
    var w := Wrote(Writes(es, lost), id, EventZone);
    WritesAreLossless(es, lost);
    WroteIsByType(es, lost, id, EventZone);
    ByTypeMembers(mine, EventZone);
    ZoneFoldSeesLast(mine);
    forall i | 0 <= i < |w| ensures NoDup(w[i].Zones()) {
      assert w[i] in mine;
      OfActorMember(es, id, w[i]);
    }
    StreamIsDropKnown(Writes(es, lost), id, ZoneKind);
    KnownIsRepeat(w, ZoneKind);
    if w != [] {
      var kept := Last(DropKnown(w, ZoneKind));
      assert kept in w;
      SameZonesSound(kept.Zones(), Last(w).Zones());
    }
  }

  lemma PublishedPresence(es: seq<Event>, lost: seq<bool>, id: string)
    requires |es| == |lost|
    ensures var published := Stream(LogOf(es, lost), Subject(PresenceTopic, id));
            (published != [] && Last(published).state.presence.kind == Inactive)
              <==> EndsInactive(PresenceTypes(OfActor(es, id)))
  {
    var w := Wrote(Writes(es, lost), id, EventPresence);
    WritesAreLossless(es, lost);
    WroteIsByType(es, lost, id, EventPresence);
    PresenceFoldSeesLast(OfActor(es, id));
    StreamIsDropKnown(Writes(es, lost), id, PresenceKind);
    KnownPresenceIsRepeat(w);
  }

  lemma ZoneStream(es: seq<Event>, lost: seq<bool>, id: string)
    requires |es| == |lost|
    ensures Stream(LogOf(es, lost), Subject(ZoneTopic, id)) == Published(OfActor(es, id))
  {
    WritesAreLossless(es, lost);
    WroteIsByType(es, lost, id, EventZone);
    StreamIsDropKnown(Writes(es, lost), id, ZoneKind);
  }

  lemma LastPublishedZones(es: seq<Event>, id: string)
    requires forall e | e in es && e.kind == EventZone :: NoDup(e.Zones())
    ensures ToSet(SnapZones(LastSnap(Published(OfActor(es, id))))) == ToSet(FoldZones([], OfActor(es, id)))
  {
    hide OfActor, Writes, RunRepo, Published;
    var lost := seq(|es|, _ => false);
    PublishedZones(es, lost, id);
    ZoneStream(es, lost, id);
    hide FoldZones;
  }

  /** What a subscriber starts with: without an offset, or from the first one. */
  function BacklogOf(log: seq<Message>, replay: bool): seq<Message> {
    StartsAreAccepted(log);
    Backlog(log, if replay then Some(EncodeOffset(1)) else None).value
  }

  /** One way a run's events can reach a subscriber: the moves of the channel, which bucket
      updates are lost, and what the subscription asks for and receives. */
  datatype Route = Route(
    moves: seq<EmitChannel.Move>,
    lost: seq<bool>,
    replay: bool,
    topics: set<Topic>,
    received: seq<Message>)
  {
    function Channel(): EmitChannel.Channel {
      EmitChannel.Run(EmitChannel.EMPTY, moves)
    }
  }

  /** The channel's goroutine finished without a refusal, whatever the channel dropped; what it
      emitted was written in order by one process; a snapshot or a full replay was delivered.
      The first line is what the adapter's loop guarantees of its channel. */
  ghost predicate Flows(route: Route, derived: seq<Event>) {
    var c := route.Channel();
    && c.derived == derived && EmitChannel.Finished(c)
    && c.failed.None? && |route.lost| == |c.emitted|
    && Delivered(route.received, BacklogOf(LogOf(c.emitted, route.lost), route.replay), route.topics)
  }

  /** No event of the tag was dropped; those of other tags may have been. */
  predicate KeptFor(es: seq<Event>, kept: seq<bool>, id: string) {
    |kept| == |es| && forall i | 0 <= i < |es| && es[i].actor.id == id :: kept[i]
  }

  ghost predicate Carries(route: Route, derived: seq<Event>, id: string) {
    Flows(route, derived) && KeptFor(derived, route.Channel().kept, id)
  }

  /** The channel's part: on every schedule that dropped nothing, once the emitting goroutine
      has finished without a failure it has written exactly the run's events, in order. */
  lemma ChannelIsTransparent(moves: seq<EmitChannel.Move>, derived: seq<Event>)
    requires EmitChannel.Run(EmitChannel.EMPTY, moves).derived == derived
    requires var c := EmitChannel.Run(EmitChannel.EMPTY, moves);
             false !in c.kept && EmitChannel.Finished(c) && c.failed.None?
    ensures EmitChannel.Run(EmitChannel.EMPTY, moves).emitted == derived
  {
    EmitChannel.Conservation(moves);
  }

  /** What the goroutine emitted is what the channel kept, in order. */
  lemma FlowsEmitsKept(route: Route, derived: seq<Event>)
    requires Flows(route, derived)
    ensures var c := route.Channel(); |c.kept| == |derived| && c.emitted == EmitChannel.Select(derived, c.kept, true)
  {
    EmitChannel.Conservation(route.moves);
  }

  lemma OfActorExtend(es: seq<Event>, id: string, e: Event)
    ensures OfActor(es + [e], id) == OfActor(es, id) + if e.actor.id == id then [e] else []
  {
    assert Init(es + [e]) == es && Last(es + [e]) == e;
  }

  /** Drops of other tags' events are invisible to a tag. */
  lemma {:induction false} KeptForSelects(es: seq<Event>, kept: seq<bool>, id: string)
    requires KeptFor(es, kept, id)
    ensures OfActor(EmitChannel.Select(es, kept, true), id) == OfActor(es, id)
  {
    if es != [] {
      assert es[|es| - 1] == Last(es);
      assert forall i | 0 <= i < |es| - 1 :: Init(es)[i] == es[i] && Init(kept)[i] == kept[i];
      var before := EmitChannel.Select(Init(es), Init(kept), true);
      KeptForSelects(Init(es), Init(kept), id);
      OfActorExtend(before, id, Last(es));
      assert before + [] == before && OfActor(Init(es), id) + [] == OfActor(Init(es), id);
    }
  }

  /** Whatever was dropped, a subscriber holds what change detection leaves of the tag's emitted
      events. */
  lemma FlowShows(route: Route, derived: seq<Event>, id: string)
    requires Flows(route, derived)
    ensures var mine := OfActor(route.Channel().emitted, id); var view := FoldView(route.received);
            && (ZoneTopic in route.topics ==> ViewZones(view, id) == SnapZones(LastSnap(Published(mine))))
            && (PresenceTopic in route.topics ==> (ViewInactive(view, id) <==> EndsInactive(PresenceTypes(mine))))
  {
    hide EmitChannel.Run, EmitChannel.Finished, Delivered, FoldView, OfActor, Published, RunRepo, Writes, PresenceTypes,
         EndsInactive;
    var es := route.Channel().emitted;
    var log := LogOf(es, route.lost);
    ViewFollowsLog(log, route.replay, route.topics, route.received, Subject(ZoneTopic, id));
    ViewFollowsLog(log, route.replay, route.topics, route.received, Subject(PresenceTopic, id));
    ZoneStream(es, route.lost, id);
    PublishedPresence(es, route.lost, id);
  }

  /** If none of the tag's events was dropped, the zones a subscriber holds for it are those
      computed from its inputs, and it holds an Inactive exactly if the run's last presence of
      the tag is one. */
  lemma RouteShows(steps: seq<Fleet.Step>, route: Route, id: string)
    requires ValidRun(steps) && Carries(route, FleetRun(steps).events, id)
    ensures ZoneTopic in route.topics ==>
            ViewZones(FoldView(route.received), id) == SnapZones(Shown(id, Project(id, steps)))
    ensures PresenceTopic in route.topics ==>
              (ViewInactive(FoldView(route.received), id)
               <==> EndsInactive(PresenceTypes(RunTag(id, Project(id, steps)).events)))
  {
    hide Flows, KeptFor, FoldView, FleetRun, ValidRun, OfActor, Published, Shown, PresenceTypes, TagRuns.RunFrom,
         EndsInactive, ViewZones, ViewInactive;
    var es := FleetRun(steps).events;
    FlowsEmitsKept(route, es);
    KeptForSelects(es, route.Channel().kept, id);
    FlowShows(route, es, id);
    TagIsolation(id, steps);
    ShownIsPublished(id, Project(id, steps));
  }

  /** What a subscriber reconstructs is what the latest datagram said. For every run of the
      provider over any tags and every route its events can take: the zones in the
      subscriber's view of a tag are those of the tag's latest datagram if it is a position fix
      and none otherwise, provided no scan missed a change; and the view says Inactive exactly
      while the tag is offline or its location is lost. The channel may drop events of other
      tags. */
  lemma SubscriberSeesLatest(steps: seq<Fleet.Step>, route: Route, id: string)
    requires ValidRun(steps) && Carries(route, FleetRun(steps).events, id)
    ensures ZoneTopic in route.topics && NothingMissed(id, Project(id, steps)) ==>
              ToSet(ViewZones(FoldView(route.received), id)) == ToSet(ReportedZones(LatestPacket(Project(id, steps))))
    ensures PresenceTopic in route.topics ==> var t := TagOf(FleetRun(steps).states, id);
              (ViewInactive(FoldView(route.received), id)
               <==> LatestPacket(Project(id, steps)).Some? && (!t.online || LocationLost(t)))
  {
    hide Carries, FoldView, NothingMissed, ViewZones, ViewInactive;
    var ins := Project(id, steps);
    RouteShows(steps, route, id);
    TagIsolation(id, steps);
    ProjectValid(id, steps);
    PresenceCharacterised(id, ins);
    if NothingMissed(id, ins) {
      ShownRightExactly(id, ins);
      assert ins[..|ins|] == ins;
      assert ShownRight(id, ins[..|ins|]);
    }
  }

  /** In particular if no fix lists a zone twice. */
  lemma DistinctZonesSeeLatest(steps: seq<Fleet.Step>, route: Route, id: string)
    requires ValidRun(steps) && Carries(route, FleetRun(steps).events, id)
    requires FixDatagramsNoDup(steps) && ZoneTopic in route.topics
    ensures ToSet(ViewZones(FoldView(route.received), id)) == ToSet(ReportedZones(LatestPacket(Project(id, steps))))
  {
    ProjectValid(id, steps);
    ProjectNoDup(id, steps);
    DistinctZonesMissNothing(id, Project(id, steps));
    SubscriberSeesLatest(steps, route, id);
  }

  /** Every subscriber to zones, whatever the route, has the zones of the tag's latest datagram. */
  ghost predicate SubscribersRight(steps: seq<Fleet.Step>, id: string) {
    ValidRun(steps) && forall route | Carries(route, FleetRun(steps).events, id) && ZoneTopic in route.topics ::
      ToSet(ViewZones(FoldView(route.received), id)) == ToSet(ReportedZones(LatestPacket(Project(id, steps))))
  }

  /** Send, take and emit one event after another, then close. */
  function DirectMoves(es: seq<Event>): seq<EmitChannel.Move> {
    if es == [] then []
    else DirectMoves(Init(es)) + [EmitChannel.Send(Last(es)), EmitChannel.Take, EmitChannel.Done(true)]
  }

  lemma {:induction false} DirectRun(es: seq<Event>)
    ensures var c := EmitChannel.Run(EmitChannel.EMPTY, DirectMoves(es));
            && c == EmitChannel.Channel([], None, es, None, false, es, c.kept)
            && |c.kept| == |es| && false !in c.kept
  {
    if es != [] {
      hide EmitChannel.Run;
      var before := DirectMoves(Init(es));
      DirectRun(Init(es));
      var c, ev := EmitChannel.Run(EmitChannel.EMPTY, before), Last(es);
      SendRun(before, ev);
      assert before + [EmitChannel.Send(ev)] + [EmitChannel.Take, EmitChannel.Done(true)] == DirectMoves(es);
      EmitChannel.RunTwo(EmitChannel.EMPTY, before + [EmitChannel.Send(ev)], EmitChannel.Take, EmitChannel.Done(true));
      assert es == Init(es) + [ev];
      DirectStep(c, ev);
    }
  }

  lemma SendRun(moves: seq<EmitChannel.Move>, ev: Event)
    ensures EmitChannel.Run(EmitChannel.EMPTY, moves + [EmitChannel.Send(ev)])
         == EmitChannel.Next(EmitChannel.Run(EmitChannel.EMPTY, moves), EmitChannel.Send(ev))
  {
    assert Init(moves + [EmitChannel.Send(ev)]) == moves;
  }

  lemma DirectStep(c: EmitChannel.Channel, ev: Event)
    requires c.queue == [] && c.inFlight.None? && c.failed.None? && !c.closed
    ensures EmitChannel.Next(EmitChannel.Next(EmitChannel.Next(c, EmitChannel.Send(ev)), EmitChannel.Take),
                             EmitChannel.Done(true))
         == c.(emitted := c.emitted + [ev], derived := c.derived + [ev], kept := c.kept + [true])
  {
    assert ([] + [ev])[0] == ev && ([] + [ev])[1..] == [];
  }

  /** The messages of a log that subscribers can ask for. */
  function ChangesOf(log: seq<Message>): seq<Message> {
    if log == [] then []
    else ChangesOf(Init(log)) + if Last(log).subject.topic in CHANGE_TOPICS then [Last(log)] else []
  }

  lemma {:induction false} ChangesDelivered(log: seq<Message>)
    ensures forall m | m in ChangesOf(log) :: m.subject.topic in CHANGE_TOPICS
    ensures forall t | t in CHANGE_TOPICS :: Topical(ChangesOf(log), t) == Topical(log, t)
  {
    if log != [] {
      ChangesDelivered(Init(log));
      forall t | t in CHANGE_TOPICS ensures Topical(ChangesOf(log), t) == Topical(log, t) {
        TopicalExtend(ChangesOf(Init(log)), Last(log), t);
        assert ChangesOf(Init(log)) + [] == ChangesOf(Init(log)) && Topical(Init(log), t) + [] == Topical(Init(log), t);
      }
    }
  }

  /** There is always such a route. */
  lemma SomeRoute(derived: seq<Event>, id: string) returns (route: Route)
    ensures Carries(route, derived, id) && ZoneTopic in route.topics
  {
    hide EmitChannel.Run, Writes, RunRepo, Topical, ChangesOf;
    var moves, lost := DirectMoves(derived), seq(|derived|, _ => false);
    var log := LogOf(derived, lost);
    DirectRun(derived);
    CloseRun(moves);
    ChangesDelivered(log);
    route := Route(moves + [EmitChannel.Close], lost, true, CHANGE_TOPICS, ChangesOf(log));
    assert forall i | 0 <= i < |derived| :: route.Channel().kept[i] in route.Channel().kept;
  }

  lemma CloseRun(moves: seq<EmitChannel.Move>)
    ensures EmitChannel.Run(EmitChannel.EMPTY, moves + [EmitChannel.Close])
         == EmitChannel.Run(EmitChannel.EMPTY, moves).(closed := true)
  {
    assert Init(moves + [EmitChannel.Close]) == moves && Last(moves + [EmitChannel.Close]) == EmitChannel.Close;
  }

  lemma RightIsShownRight(steps: seq<Fleet.Step>, id: string)
    requires ValidRun(steps)
    ensures SubscribersRight(steps, id) <==> ShownRight(id, Project(id, steps))
  {
    hide Carries, FoldView, ViewZones, ViewInactive, FleetRun, ValidRun, Project, PresenceTypes, ReportedZones, Shown;
    var route := SomeRoute(FleetRun(steps).events, id);
    RouteShows(steps, route, id);
    forall other | Carries(other, FleetRun(steps).events, id) && ZoneTopic in other.topics
      ensures ViewZones(FoldView(other.received), id) == SnapZones(Shown(id, Project(id, steps)))
    {
      RouteShows(steps, other, id);
    }
  }

  lemma RightAfterStep(pre: seq<Fleet.Step>, s: Fleet.Step, id: string)
    requires ValidRun(pre + [s])
    requires SubscribersRight(pre, id)
    ensures NothingMissed(id, Project(id, pre)) ==>
              (NothingMissed(id, Project(id, pre + [s])) <==> SubscribersRight(pre + [s], id))
  {
    assert Init(pre + [s]) == pre && Last(pre + [s]) == s;
    var mine, more := Project(id, pre), ProjectStep(id, s);
    assert Project(id, pre + [s]) == mine + more;
    ProjectValid(id, pre + [s]);
    RightIsShownRight(pre, id);
    RightIsShownRight(pre + [s], id);
    hide SubscribersRight, FleetRun, ValidRun, ShownRight, Missed, ProjectStep, Project;
    if more == [] {
      assert mine + more == mine;
    } else {
      var x := more[0];
      assert more == [x] && Init(mine + [x]) == mine && Last(mine + [x]) == x;
      ShownRightStep(id, mine, x);
    }
  }

  lemma MissedStaysMissed(pre: seq<Fleet.Step>, s: Fleet.Step, id: string)
    ensures NothingMissed(id, Project(id, pre + [s])) ==> NothingMissed(id, Project(id, pre))
  {
    assert Init(pre + [s]) == pre && Last(pre + [s]) == s;
    var mine, more := Project(id, pre), ProjectStep(id, s);
    if more == [] {
      assert mine + more == mine;
    } else {
      assert more == [more[0]] && Init(mine + more) == mine;
    }
  }

  lemma RightAtStart(id: string)
    ensures SubscribersRight([], id) && NothingMissed(id, Project(id, []))
  {
    RightIsShownRight([], id);
    NothingShown(id);
  }

  /** The exact condition. After every step of a run every subscriber to zones has the zones of a
      tag's latest datagram, if and only if neither scan ever missed a change of that tag. */
  lemma {:induction false} SubscribersRightExactly(steps: seq<Fleet.Step>, id: string)
    requires ValidRun(steps)
    ensures NothingMissed(id, Project(id, steps)) <==> forall n | 0 <= n <= |steps| :: SubscribersRight(steps[..n], id)
  {
    hide SubscribersRight, FleetRun, NothingMissed, Project;
    assert steps[..|steps|] == steps;
    if steps == [] {
      assert forall n | 0 <= n <= |steps| :: steps[..n] == [];
      RightAtStart(id);
    } else {
      var pre, s := Init(steps), Last(steps);
      assert steps == pre + [s];
      assert forall n | 0 <= n <= |pre| :: pre[..n] == steps[..n];
      assert pre[..|pre|] == pre;
      SubscribersRightExactly(pre, id);
      MissedStaysMissed(pre, s, id);
      if SubscribersRight(pre, id) {
        RightAfterStep(pre, s, id);
      }
    }
  }

  lemma ViewFollowsLog(log: seq<Message>, replay: bool, topics: set<Topic>, d: seq<Message>, s: Subject)
    requires Delivered(d, BacklogOf(log, replay), topics)
    ensures s in FoldView(d) <==> s.topic in topics && Stream(log, s) != []
    ensures s in FoldView(d) ==> FoldView(d)[s] == Last(Stream(log, s))
  {
    StartsAreAccepted(log);
    if replay {
      ReplayView(log, topics, d, s);
    } else {
      SnapshotView(log, topics, d, s);
    }
  }

  // Whatever the channel drops.

  lemma DerivedPresenceKinds(t: Tag, m: UdpMsg, now: Time)
    ensures forall e | e in DerivedEvents(t, m, now) ::
            e.state.presence.kind == Active || e.state.presence.kind == Inactive
  {
    hide EventId, ActorMetadata, PointFromSlice, SameZones, Losing, Restoring, SnapshotDue, HadHistory;
  }

  lemma {:induction false} RunPresenceKinds(steps: seq<Fleet.Step>)
    requires ValidRun(steps)
    ensures forall e | e in FleetRun(steps).events ::
            e.state.presence.kind == Active || e.state.presence.kind == Inactive
  {
    if steps != [] {
      var states := FleetRun(Init(steps)).states;
      RunPresenceKinds(Init(steps));
      EnumerationEnables(states, Last(steps));
      match Last(steps)
      case Timeout(now, order) => SweepKinds(states, now, order, AcceptAll());
      case Datagram(m) =>
        if Parse(m).Ok? {
          DerivedPresenceKinds(TagOf(states, m.tagId), Parse(m).value, UnixMilli(Parse(m).value.responseTS));
          hide DerivedEvents;
        }
    }
  }

  lemma {:induction false} SelectedAreDerived(es: seq<Event>, flags: seq<bool>, flag: bool)
    requires |es| == |flags|
    ensures forall e | e in EmitChannel.Select(es, flags, flag) :: e in es
  {
    if es != [] {
      SelectedAreDerived(Init(es), Init(flags), flag);
      assert es == Init(es) + [Last(es)];
    }
  }

  ghost predicate Written(steps: seq<R.Step>, e: Event) {
    exists i :: 0 <= i < |steps| && steps[i].WriteStep? && steps[i].event == e
  }

  lemma {:induction false} StreamIsWritten(steps: seq<R.Step>, id: string, k: Kind)
    ensures forall e | e in KindStream(RunRepo(steps), id, k) :: Written(steps, e)
  {
    if steps != [] {
      var pre, s, r := Init(steps), Last(steps), RunRepo(Init(steps));
      StreamIsWritten(pre, id, k);
      if s.WriteStep? {
        WriteOnStream(r, s.event, s.faults, id, k);
        assert s == steps[|pre|] && Written(steps, s.event);
      }
      forall e | Written(pre, e) ensures Written(steps, e) {
        var i :| 0 <= i < |pre| && pre[i].WriteStep? && pre[i].event == e;
        assert steps[i] == pre[i];
      }
      hide Write, Publishes, Written;
    }
  }

  /** Whatever the channel drops and whichever publishes fail: if no bucket lookup for a tag
      fails, its published presence stream goes strictly Active, Inactive, Active, ... or the
      other way round. */
  lemma PublishedPresenceAlternates(steps: seq<Fleet.Step>, moves: seq<EmitChannel.Move>, writes: seq<R.Step>,
      id: string, i: nat)
    requires ValidRun(steps)
    requires EmitChannel.Run(EmitChannel.EMPTY, moves).derived == FleetRun(steps).events
    requires forall n | 0 <= n < |writes| && writes[n].WriteStep? ::
             writes[n].event in EmitChannel.Run(EmitChannel.EMPTY, moves).emitted
    requires LandedRestarts(writes) && FailedLookups(writes, id) == 0
    requires 0 < i < |KindStream(RunRepo(writes), id, PresenceKind)|
    ensures var published := KindStream(RunRepo(writes), id, PresenceKind);
            published[i].state.presence.kind
            == if published[i - 1].state.presence.kind == Active then Inactive else Active
  {
    var c := EmitChannel.Run(EmitChannel.EMPTY, moves);
    var published := KindStream(RunRepo(writes), id, PresenceKind);
    EmitChannel.Conservation(moves);
    SelectedAreDerived(c.derived, c.kept, true);
    RunPresenceKinds(steps);
    StreamIsWritten(writes, id, PresenceKind);
    StreamsAlternate(writes, id, PresenceKind, i);
    assert forall e | e in c.emitted :: e in EmitChannel.Select(c.derived, c.kept, true);
    assert published[i] in published && published[i - 1] in published;
  }
}
