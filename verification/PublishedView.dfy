/** What is left of one tag's zone events after change detection, and when it is right. The
    repository compares an event with the last one it published, not with the last derived. */
module PublishedView {
  import opened Domain
  import opened Zones
  import opened TagMachine
  import opened TagRuns
  import opened R = RepositoryModel
  import opened ChangeLog

  function ByType(es: seq<Event>, kind: EventType): seq<Event> {
    if es == [] then [] else ByType(Init(es), kind) + if Last(es).kind == kind then [Last(es)] else []
  }

  lemma {:induction false} ByTypeMembers(es: seq<Event>, kind: EventType)
    ensures forall e | e in ByType(es, kind) :: e in es && e.kind == kind
  {
    if es != [] {
      ByTypeMembers(Init(es), kind);
      assert es == Init(es) + [Last(es)];
    }
  }

  lemma {:induction false} ByTypeConcat(a: seq<Event>, b: seq<Event>, kind: EventType)
    ensures ByType(a + b, kind) == ByType(a, kind) + ByType(b, kind)
  {
    if b == [] {
      assert a + b == a;
    } else {
      assert Init(a + b) == a + Init(b);
      ByTypeConcat(a, Init(b), kind);
    }
  }

  lemma ByTypeOne(e: Event, kind: EventType)
    ensures ByType([e], kind) == if e.kind == kind then [e] else []
  {
    assert Init([e]) == [] && Last([e]) == e;
  }

  /** The zone snapshot an input makes a tag announce, if any: what change detection compares. */
  function Announced(t: Tag, x: Input): Option<Snap> {
    if x.Sweep? then None
    else if Losing(t, x.msg) && t.lastZoneIds != [] then Some(SnapOfMsg(x.msg, []))
    else if SnapshotDue(t, x.msg) then Some(SnapOfMsg(x.msg, MsgZones(x.msg)))
    else None
  }

  function SnapOfMsg(m: UdpMsg, zones: seq<string>): Snap {
    ZoneSnap(zones, m.locationType, m.locationMovementStatus)
  }

  /** The snapshot last published for the tag, in terms of its inputs alone. */
  function Shown(id: string, ins: seq<Input>): Option<Snap> {
    if ins == [] then None
    else ShownNext(Shown(id, Init(ins)), Announced(RunTag(id, Init(ins)).tag, Last(ins)))
  }

  function ShownNext(shown: Option<Snap>, announced: Option<Snap>): Option<Snap> {
    if announced.None? || (shown.Some? && SameSnap(shown.value, announced.value)) then shown else announced
  }

  function SnapZones(s: Option<Snap>): seq<string> {
    if s.Some? && s.value.ZoneSnap? then s.value.zones else []
  }

  /** The second scan's weakness: the announced snapshot is taken for the one shown, though the
      zones are a different set. */
  predicate Hidden(shown: Option<Snap>, announced: Option<Snap>) {
    shown.Some? && announced.Some? && SameSnap(shown.value, announced.value)
    && ToSet(SnapZones(shown)) != ToSet(SnapZones(announced))
  }

  /** Neither scan ever misses a change: the tag's against its record, and the repository's
      against what it last published. */
  predicate NothingMissed(id: string, ins: seq<Input>) {
    ins == [] || (NothingMissed(id, Init(ins)) && !Missed(id, Init(ins), Last(ins)))
  }

  predicate Missed(id: string, pre: seq<Input>, x: Input) {
    var t := RunTag(id, pre).tag;
    Blind(t, x) || Hidden(Shown(id, pre), Announced(t, x))
  }

  /** What a subscriber is shown has the zones of the tag's latest datagram if it is a fix, and
      none otherwise. */
  predicate ShownRight(id: string, ins: seq<Input>) {
    ToSet(SnapZones(Shown(id, ins))) == ToSet(ReportedZones(LatestPacket(ins)))
  }

  lemma ShownAfter(shown: Option<Snap>, t: Tag, x: Input)
    requires TagOk(t) && (x.Packet? ==> WellFormed(x.msg))
    requires shown.Some? ==> shown.value.ZoneSnap?
    requires ToSet(SnapZones(shown)) == ToSet(HeldZones(t))
    ensures ToSet(SnapZones(ShownNext(shown, Announced(t, x)))) == ToSet(HeldZones(FedTag(t, x)))
            <==> !Blind(t, x) && !Hidden(shown, Announced(t, x))
  {
  }

  lemma {:induction false} ShownIsZones(id: string, ins: seq<Input>)
    ensures Shown(id, ins).Some? ==> Shown(id, ins).value.ZoneSnap?
  {
    if ins != [] {
      ShownIsZones(id, Init(ins));
    }
  }

  lemma ShownRightStep(id: string, pre: seq<Input>, x: Input)
    requires ValidInputs(pre + [x]) && ShownRight(id, pre)
    ensures ShownRight(id, pre + [x]) <==> !Missed(id, pre, x)
  {
    hide Feed, FedTag, Announced, ShownNext, Blind, Hidden, HeldZones, TagRuns.RunFrom;
    assert Init(pre + [x]) == pre && Last(pre + [x]) == x;
    ValidInit(pre, x);
    ReachableTagOk(id, pre);
    HeldIsReported(id, pre);
    HeldIsReported(id, pre + [x]);
    PresenceOfStep(id, pre, x);
    ShownIsZones(id, pre);
    ShownAfter(Shown(id, pre), RunTag(id, pre).tag, x);
  }

  /** Exactly when a tag's published zones are right: after every input, if and only if neither
      scan ever missed a change. */
  lemma {:induction false} ShownRightExactly(id: string, ins: seq<Input>)
    requires ValidInputs(ins)
    ensures NothingMissed(id, ins) <==> forall n | 0 <= n <= |ins| :: ShownRight(id, ins[..n])
  {
    hide ShownRight, Missed, TagRuns.RunFrom;
    if ins == [] {
      assert forall n | 0 <= n <= |ins| :: ins[..n] == [];
      NothingShown(id);
    } else {
      var pre, x := Init(ins), Last(ins);
      assert ins == pre + [x] && ins[..|ins|] == ins;
      assert forall n | 0 <= n <= |pre| :: pre[..n] == ins[..n];
      assert pre[..|pre|] == pre;
      ValidInit(pre, x);
      ShownRightExactly(id, pre);
      if ShownRight(id, pre) {
        ShownRightStep(id, pre, x);
      }
    }
  }

  lemma NothingShown(id: string)
    ensures ShownRight(id, [])
  {
  }

  /** No zone listed twice by a fix, and nothing is missed. */
  lemma {:induction false} DistinctZonesMissNothing(id: string, ins: seq<Input>)
    requires ValidInputs(ins) && FixZonesNoDup(ins)
    ensures NothingMissed(id, ins) && NoDup(SnapZones(Shown(id, ins)))
  {
    hide TagRuns.RunFrom, SnapshotDue;
    if ins != [] {
      var pre, x := Init(ins), Last(ins);
      assert ins == pre + [x] && x == ins[|pre|];
      assert forall i | 0 <= i < |pre| :: pre[i] == ins[i];
      ValidInit(pre, x);
      DistinctZonesMissNothing(id, pre);
      ShownIsZones(id, pre);
      var t, shown := RunTag(id, pre).tag, Shown(id, pre);
      SnapshotIsFix(t, x);
      if Blind(t, x) {
        SameZonesSound(MsgZones(x.msg), t.lastZoneIds);
      }
      if Hidden(shown, Announced(t, x)) {
        SameZonesSound(SnapZones(shown), SnapZones(Announced(t, x)));
      }
    }
  }

  lemma SnapshotIsFix(t: Tag, x: Input)
    ensures Announced(t, x).Some? && SnapZones(Announced(t, x)) != [] ==>
              x.Packet? && MsgFix(x.msg) && SnapZones(Announced(t, x)) == MsgZones(x.msg)
  {
  }

  // The shown snapshot is what change detection leaves of the tag's zone events.

  function Published(es: seq<Event>): seq<Event> {
    DropKnown(ByType(es, EventZone), ZoneKind)
  }

  function LastSnap(published: seq<Event>): Option<Snap> {
    if published == [] then None else Some(SnapOf(Last(published), ZoneKind))
  }

  lemma PublishedOne(es: seq<Event>, e: Event)
    requires e.kind == EventZone
    ensures LastSnap(Published(es + [e])) == ShownNext(LastSnap(Published(es)), Some(SnapOf(e, ZoneKind)))
  {
    hide SameSnap, SnapOf;
    assert Init(es + [e]) == es && Last(es + [e]) == e;
    assert Init(ByType(es, EventZone) + [e]) == ByType(es, EventZone) && Last(ByType(es, EventZone) + [e]) == e;
  }

  lemma ZoneEventSnap(m: UdpMsg, now: Time, zones: seq<string>, n: nat)
    ensures SnapOf(ZoneEvent(m, now, zones, n), ZoneKind) == SnapOfMsg(m, zones)
  {
  }

  /** What the zone events of a batch must be for it to announce a snapshot. */
  predicate Says(zs: seq<Event>, s: Option<Snap>) {
    if s.None? then zs == [] else |zs| == 1 && zs[0].kind == EventZone && SnapOf(zs[0], ZoneKind) == s.value
  }

  lemma ZoneEventsDerived(t: Tag, m: UdpMsg, now: Time)
    ensures Says(ByType(DerivedEvents(t, m, now), EventZone), Announced(t, Packet(m)))
  {
    var a := OnlineEvents(t, m, now);
    var b := TransitionEvents(t, m, now, |a|);
    var c := SnapshotEvents(t, m, now, |a + b|);
    assert DerivedEvents(t, m, now) == a + b + c;
    OnlineHasNoZone(t, m, now);
    TransitionZone(t, m, now, |a|);
    SnapshotZone(t, m, now, |a + b|);
    hide DerivedEvents, OnlineEvents, TransitionEvents, SnapshotEvents, ZoneEvent, SnapOf, ByType, HadHistory,
         SnapshotDue;
    ByTypeConcat(a + b, c, EventZone);
    ByTypeConcat(a, b, EventZone);
    ZoneEventSnap(m, now, [], |a|);
    ZoneEventSnap(m, now, MsgZones(m), |a + b|);
    FixesOnly(t, m);
    hide SnapOfMsg, Losing;
  }

  lemma FixesOnly(t: Tag, m: UdpMsg)
    ensures SnapshotDue(t, m) ==> !Losing(t, m)
  {
  }

  lemma NoEvents(kind: EventType)
    ensures ByType([], kind) == []
  {
  }

  lemma OnlineHasNoZone(t: Tag, m: UdpMsg, now: Time)
    ensures ByType(OnlineEvents(t, m, now), EventZone) == []
  {
    hide ByType;
    NoEvents(EventZone);
    ByTypeOne(PresenceEvent(m, now, t.lastZoneIds, Active, 0), EventZone);
  }

  lemma SnapshotZone(t: Tag, m: UdpMsg, now: Time, n: nat)
    ensures ByType(SnapshotEvents(t, m, now, n), EventZone)
         == if SnapshotDue(t, m) then [ZoneEvent(m, now, MsgZones(m), n)] else []
  {
    hide ByType, SnapshotDue;
    NoEvents(EventZone);
    ByTypeOne(ZoneEvent(m, now, MsgZones(m), n), EventZone);
  }

  lemma TransitionZone(t: Tag, m: UdpMsg, now: Time, n: nat)
    ensures ByType(TransitionEvents(t, m, now, n), EventZone)
         == if Losing(t, m) && t.lastZoneIds != [] then [ZoneEvent(m, now, [], n)] else []
  {
    hide ByType, Losing, Restoring;
    var zone, lost := ZoneEvent(m, now, [], n), PresenceEvent(m, now, t.lastZoneIds, Inactive, n + 1);
    assert [zone, lost] == [zone] + [lost];
    NoEvents(EventZone);
    ByTypeConcat([zone], [lost], EventZone);
    ByTypeOne(zone, EventZone);
    ByTypeOne(lost, EventZone);
    ByTypeOne(PresenceEvent(m, now, t.lastZoneIds, Inactive, n), EventZone);
    ByTypeOne(PresenceEvent(m, now, MsgZones(m), Active, n), EventZone);
  }

  lemma ZoneEventsFed(t: Tag, id: string, x: Input)
    ensures Says(ByType(Feed(t, id, x).events, EventZone), Announced(t, x))
  {
    hide ByType, DerivedEvents, DerivedTag;
    match x
    case Sweep(now) =>
      NoEvents(EventZone);
      ByTypeOne(OfflineEvent(id, t, now), EventZone);
    case Packet(m) => ZoneEventsDerived(t, m, UnixMilli(m.responseTS));
  }

  lemma PublishedStep(es: seq<Event>, added: seq<Event>, s: Option<Snap>)
    requires Says(ByType(added, EventZone), s)
    ensures LastSnap(Published(es + added)) == ShownNext(LastSnap(Published(es)), s)
  {
    var zs, mine := ByType(added, EventZone), ByType(es, EventZone);
    hide ByType, SnapOf, SameSnap;
    ByTypeConcat(es, added, EventZone);
    if s.None? {
      assert mine + [] == mine;
    } else {
      assert zs == [zs[0]];
      ByTypeConcat(es, zs, EventZone);
      ByTypeOne(zs[0], EventZone);
      PublishedOne(es, zs[0]);
    }
  }

  /** The connection: change detection over a tag's derived events leaves, last, the snapshot
      computed from its inputs. */
  lemma {:induction false} ShownIsPublished(id: string, ins: seq<Input>)
    ensures LastSnap(Published(RunTag(id, ins).events)) == Shown(id, ins)
  {
    if ins == [] {
      RunNothing(id);
    } else {
      var pre, x := Init(ins), Last(ins);
      assert ins == pre + [x];
      hide TagRuns.RunFrom, Feed, Announced, Published, ShownNext, LastSnap;
      ShownIsPublished(id, pre);
      RunExtend(id, pre, x);
      ZoneEventsFed(RunTag(id, pre).tag, id, x);
      PublishedStep(RunTag(id, pre).events, Feed(RunTag(id, pre).tag, id, x).events, Announced(RunTag(id, pre).tag, x));
    }
  }

  lemma ScanOneWay()
    ensures SameZones(["a", "a"], ["a", "b"]) && !SameZones(["a", "b"], ["a", "a"])
    ensures ToSet(["a", "a"]) != ToSet(["a", "b"])
  {
    assert ["a", "b"][1] == "b" && "b" !in ["a", "a"];
    assert "b" in ToSet(["a", "b"]) && "b" !in ToSet(["a", "a"]);
  }

  lemma TwoFixes(p: UdpMsg, q: UdpMsg)
    requires MsgFix(p) && MsgFix(q) && p.locationMovementStatus == q.locationMovementStatus
    requires MsgZones(p) == ["a", "a"] && MsgZones(q) == ["a", "b"]
    ensures var t := FedTag(FRESH_TAG, Packet(p));
            && Announced(FRESH_TAG, Packet(p)) == Some(SnapOfMsg(p, ["a", "a"]))
            && Announced(t, Packet(q)) == Some(SnapOfMsg(q, ["a", "b"]))
            && SameSnap(SnapOfMsg(p, ["a", "a"]), SnapOfMsg(q, ["a", "b"]))
            && !Blind(FRESH_TAG, Packet(p)) && !Blind(t, Packet(q))
  {
    ScanOneWay();
    hide SameZones;
  }

  lemma ShownExtend(id: string, pre: seq<Input>, x: Input)
    ensures Shown(id, pre + [x]) == ShownNext(Shown(id, pre), Announced(RunTag(id, pre).tag, x))
  {
    assert Init(pre + [x]) == pre && Last(pre + [x]) == x;
  }

  lemma LatestExtend(pre: seq<Input>, m: UdpMsg)
    ensures LatestPacket(pre + [Packet(m)]) == Some(m)
  {
    assert Last(pre + [Packet(m)]) == Packet(m);
  }

  lemma FirstTag(id: string, x: Input)
    requires ValidInputs([x])
    ensures RunTag(id, [x]).tag == FedTag(FRESH_TAG, x)
  {
    assert [] + [x] == [x];
    RunNothing(id);
    PresenceOfStep(id, [], x);
  }

  lemma FirstShown(id: string, x: Input)
    ensures Shown(id, [x]) == Announced(FRESH_TAG, x)
  {
    assert [] + [x] == [x];
    RunNothing(id);
    ShownExtend(id, [], x);
  }

  lemma DerivedRight(id: string, x: Input, y: Input)
    requires ValidInputs([x] + [y]) && !Blind(FRESH_TAG, x) && !Blind(FedTag(FRESH_TAG, x), y)
    ensures ViewRight(id, [x] + [y])
  {
    hide Blind, FedTag, ViewRight, TagRuns.RunFrom;
    ValidInit([x], y);
    assert [] + [x] == [x];
    RunNothing(id);
    FirstTag(id, x);
    ViewRightAtStart(id);
    ViewRightStep(id, [], x);
    ViewRightStep(id, [x], y);
  }

  /** A concrete miss of the repository's scan: from zone a listed twice to zones a and b every
      derived event is right, but the second is taken for the first and never published. */
  lemma DuplicateHidesEntry(id: string, p: UdpMsg, q: UdpMsg)
    requires WellFormed(p) && WellFormed(q) && MsgFix(p) && MsgFix(q)
    requires p.locationMovementStatus == q.locationMovementStatus
    requires MsgZones(p) == ["a", "a"] && MsgZones(q) == ["a", "b"]
    ensures ViewRight(id, [Packet(p)] + [Packet(q)])
    ensures SnapZones(Shown(id, [Packet(p)] + [Packet(q)])) == ["a", "a"] && !ShownRight(id, [Packet(p)] + [Packet(q)])
  {
    var x, y := Packet(p), Packet(q);
    TwoFixes(p, q);
    ScanOneWay();
    hide TagRuns.RunFrom, FedTag, Announced, Blind, SameSnap, ViewRight, SameZones, ToSet, Shown, LatestPacket;
    DerivedRight(id, x, y);
    FirstTag(id, x);
    FirstShown(id, x);
    ShownExtend(id, [x], y);
    LatestExtend([x], q);
  }
}
