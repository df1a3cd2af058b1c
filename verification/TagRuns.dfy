/** Runs of one tag's state machine: any interleaving of its datagrams and of sweeps. */
module TagRuns {
  import opened Domain
  import opened Zones
  import opened TagMachine

  /** What can happen to a tag: an accepted datagram, or a sweep at some time. */
  datatype Input = Packet(msg: UdpMsg) | Sweep(now: Time)

  datatype TagOutcome = TagOutcome(tag: Tag, events: seq<Event>)

  predicate ValidInputs(ins: seq<Input>) {
    forall i | 0 <= i < |ins| && ins[i].Packet? :: WellFormed(ins[i].msg)
  }

  /** The record after an input, and the events it emits. */
  function FedTag(t: Tag, x: Input): Tag {
    match x
    case Packet(m) => DerivedTag(t, m, UnixMilli(m.responseTS))
    case Sweep(now) => if OfflineDue(t, now) then t.(online := false) else t
  }

  function FedEvents(t: Tag, id: string, x: Input): seq<Event> {
    match x
    case Packet(m) => DerivedEvents(t, m, UnixMilli(m.responseTS))
    case Sweep(now) => if OfflineDue(t, now) then [OfflineEvent(id, t, now)] else []
  }

  function Feed(t: Tag, id: string, x: Input): TagOutcome {
    TagOutcome(FedTag(t, x), FedEvents(t, id, x))
  }

  function RunFrom(t: Tag, id: string, ins: seq<Input>): TagOutcome {
    if ins == [] then TagOutcome(t, [])
    else
      var before := RunFrom(t, id, Init(ins));
      var step := Feed(before.tag, id, Last(ins));
      TagOutcome(step.tag, before.events + step.events)
  }

  function RunTag(id: string, ins: seq<Input>): TagOutcome {
    RunFrom(FRESH_TAG, id, ins)
  }

  // What an observer reads off a run's inputs and off its events.

  function LatestPacket(ins: seq<Input>): Option<UdpMsg> {
    if ins == [] then None
    else if Last(ins).Packet? then Some(Last(ins).msg)
    else LatestPacket(Init(ins))
  }

  predicate HadFix(ins: seq<Input>) {
    exists i | 0 <= i < |ins| :: ins[i].Packet? && MsgFix(ins[i].msg)
  }

  /** The zone list after folding zone events over a view, as if every one were published. What
      is left of it after change detection is in PublishedView.dfy. */
  function FoldZones(view: seq<string>, es: seq<Event>): seq<string> {
    if es == [] then view
    else if Last(es).kind == EventZone then Last(es).Zones()
    else FoldZones(view, Init(es))
  }

  function PresenceTypes(es: seq<Event>): seq<PresenceType> {
    if es == [] then []
    else PresenceTypes(Init(es)) + if Last(es).kind == EventPresence then [Last(es).state.presence.kind] else []
  }

  predicate EndsInactive(ps: seq<PresenceType>) {
    ps != [] && Last(ps) == Inactive
  }

  /** The zones the latest datagram puts the tag in: those it lists if it is a fix, else none. */
  function ReportedZones(latest: Option<UdpMsg>): seq<string> {
    if latest.Some? && MsgFix(latest.value) then MsgZones(latest.value) else []
  }

  lemma {:induction false} FoldZonesConcat(view: seq<string>, a: seq<Event>, b: seq<Event>)
    ensures FoldZones(view, a + b) == FoldZones(FoldZones(view, a), b)
  {
    if b == [] {
      assert a + b == a;
    } else {
      assert Init(a + b) == a + Init(b);
      FoldZonesConcat(view, a, Init(b));
    }
  }

  lemma {:induction false} PresenceTypesConcat(a: seq<Event>, b: seq<Event>)
    ensures PresenceTypes(a + b) == PresenceTypes(a) + PresenceTypes(b)
  {
    if b == [] {
      assert a + b == a;
    } else {
      assert Init(a + b) == a + Init(b);
      PresenceTypesConcat(a, Init(b));
    }
  }

  lemma Singles(view: seq<string>, e: Event)
    ensures FoldZones(view, [e]) == if e.kind == EventZone then e.Zones() else view
    ensures PresenceTypes([e]) == if e.kind == EventPresence then [e.state.presence.kind] else []
  {
    assert Init([e]) == [] && Last([e]) == e;
  }

  lemma Pairs(view: seq<string>, e: Event, f: Event)
    ensures FoldZones(view, [e, f]) == FoldZones(FoldZones(view, [e]), [f])
    ensures PresenceTypes([e, f]) == PresenceTypes([e]) + PresenceTypes([f])
  {
    assert [e, f] == [e] + [f];
    FoldZonesConcat(view, [e], [f]);
    PresenceTypesConcat([e], [f]);
  }

  lemma {:induction false} HadFixExtend(ins: seq<Input>)
    requires ins != []
    ensures HadFix(ins) <==> HadFix(Init(ins)) || (Last(ins).Packet? && MsgFix(Last(ins).msg))
  {
    if HadFix(Init(ins)) {
      var i :| 0 <= i < |Init(ins)| && Init(ins)[i].Packet? && MsgFix(Init(ins)[i].msg);
      assert ins[i].Packet?;
    }
    if HadFix(ins) {
      var i :| 0 <= i < |ins| && ins[i].Packet? && MsgFix(ins[i].msg);
      if i < |ins| - 1 {
        assert Init(ins)[i] == ins[i];
      }
    }
  }

  lemma ResponseTimeIsSet(m: UdpMsg)
    requires WellFormed(m)
    ensures !IsZero(UnixMilli(m.responseTS))
  {
  }

  /** Every reachable state: the record mirrors the latest datagram, and the location is
      marked lost exactly when the tag has had a fix and its latest datagram is not one.
      A lost tag is online, so a sweep has nothing to report about it. */
  lemma {:induction false} ReachableState(id: string, ins: seq<Input>)
    requires ValidInputs(ins)
    ensures var t := RunTag(id, ins).tag; var latest := LatestPacket(ins);
            && (latest.None? ==> t == FRESH_TAG && RunTag(id, ins).events == [])
            && (latest.Some? ==>
                  && t.lastLocationType == latest.value.locationType != ""
                  && t.lastZoneIds == MsgZones(latest.value)
                  && t.lastMovementStatus == latest.value.locationMovementStatus
                  && t.lastPacketTS == UnixMilli(latest.value.lastPacketTS))
            && (LocationLost(t) <==> HadFix(ins) && latest.Some? && !MsgFix(latest.value))
            && (LocationLost(t) ==> t.online && forall now :: Feed(t, id, Sweep(now)) == TagOutcome(t, []))
  {
    if ins != [] {
      var pre := Init(ins);
      ReachableState(id, pre);
      HadFixExtend(ins);
      assert ValidInputs(pre) && ins[|ins| - 1] == Last(ins);
      LatestIsAnInput(pre);
      if Last(ins).Packet? {
        ResponseTimeIsSet(Last(ins).msg);
      }
    }
  }

  lemma {:induction false} LatestIsAnInput(ins: seq<Input>)
    ensures LatestPacket(ins).Some? ==> Packet(LatestPacket(ins).value) in ins
    ensures LatestPacket(ins).Some? && MsgFix(LatestPacket(ins).value) ==> HadFix(ins)
    ensures LatestPacket(ins).None? ==> !HadFix(ins)
  {
    if ins != [] {
      LatestIsAnInput(Init(ins));
      HadFixExtend(ins);
      assert ins == Init(ins) + [Last(ins)];
    }
  }

  /** The zone lists of position fixes name no zone twice. Other datagrams may. */
  ghost predicate FixZonesNoDup(ins: seq<Input>) {
    forall i | 0 <= i < |ins| && ins[i].Packet? && MsgFix(ins[i].msg) :: NoDup(MsgZones(ins[i].msg))
  }

  // What each emission rule does to the zone view and adds to the presence stream.

  lemma OnlineRule(view: seq<string>, t: Tag, m: UdpMsg, now: Time)
    ensures FoldZones(view, OnlineEvents(t, m, now)) == view
    ensures PresenceTypes(OnlineEvents(t, m, now)) == if HadHistory(t) && !t.online then [Active] else []
  {
    Singles(view, PresenceEvent(m, now, t.lastZoneIds, Active, 0));
  }

  lemma TransitionRule(view: seq<string>, t: Tag, m: UdpMsg, now: Time, n: nat)
    ensures FoldZones(view, TransitionEvents(t, m, now, n)) == if Losing(t, m) && t.lastZoneIds != [] then [] else view
    ensures PresenceTypes(TransitionEvents(t, m, now, n))
         == if Losing(t, m) then [Inactive] else if Restoring(t, m) then [Active] else []
  {
    var zone := ZoneEvent(m, now, [], n);
    Singles(view, zone);
    Singles([], PresenceEvent(m, now, t.lastZoneIds, Inactive, n + 1));
    Pairs(view, zone, PresenceEvent(m, now, t.lastZoneIds, Inactive, n + 1));
    Singles(view, PresenceEvent(m, now, t.lastZoneIds, Inactive, n));
    Singles(view, PresenceEvent(m, now, MsgZones(m), Active, n));
  }

  lemma SnapshotRule(view: seq<string>, t: Tag, m: UdpMsg, now: Time, n: nat)
    ensures FoldZones(view, SnapshotEvents(t, m, now, n)) == if SnapshotDue(t, m) then MsgZones(m) else view
    ensures PresenceTypes(SnapshotEvents(t, m, now, n)) == []
  {
    Singles(view, ZoneEvent(m, now, MsgZones(m), n));
  }

  lemma DerivedEffects(view: seq<string>, t: Tag, m: UdpMsg, now: Time)
    ensures FoldZones(view, DerivedEvents(t, m, now))
         == if Losing(t, m) && t.lastZoneIds != [] then [] else if SnapshotDue(t, m) then MsgZones(m) else view
    ensures PresenceTypes(DerivedEvents(t, m, now))
         == (if HadHistory(t) && !t.online then [Active] else [])
            + if Losing(t, m) then [Inactive] else if Restoring(t, m) then [Active] else []
  {
    var a := OnlineEvents(t, m, now);
    var b := TransitionEvents(t, m, now, |a|);
    var c := SnapshotEvents(t, m, now, |a + b|);
    OnlineRule(view, t, m, now);
    TransitionRule(view, t, m, now, |a|);
    SnapshotRule(FoldZones(view, a + b), t, m, now, |a + b|);
    FoldZonesConcat(view, a + b, c);
    FoldZonesConcat(view, a, b);
    PresenceTypesConcat(a + b, c);
    PresenceTypesConcat(a, b);
  }

  /** The presence types one input adds, in terms of the state before it. */
  function PresenceAdded(t: Tag, x: Input): seq<PresenceType> {
    match x
    case Sweep(now) => if OfflineDue(t, now) then [Inactive] else []
    case Packet(m) => (if HadHistory(t) && !t.online then [Active] else [])
                      + if Losing(t, m) then [Inactive] else if Restoring(t, m) then [Active] else []
  }

  lemma PresenceTypesFed(t: Tag, id: string, x: Input)
    ensures PresenceTypes(Feed(t, id, x).events) == PresenceAdded(t, x)
  {
    match x
    case Sweep(now) =>
      if OfflineDue(t, now) {
        Singles([], OfflineEvent(id, t, now));
      }
    case Packet(m) => DerivedEffects([], t, m, UnixMilli(m.responseTS));
  }

  /** The part of the reachable-state invariant that the presence argument rests on. */
  predicate TagOk(t: Tag) {
    && (t == FRESH_TAG || t.lastLocationType != "")
    && (LocationLost(t) ==> t.online && !HasLocation(t))
  }

  predicate Silent(t: Tag) {
    t != FRESH_TAG && (!t.online || LocationLost(t))
  }

  lemma SilentAfter(t: Tag, x: Input, ps: seq<PresenceType>)
    requires TagOk(t) && (x.Packet? ==> WellFormed(x.msg))
    requires EndsInactive(ps) <==> Silent(t)
    ensures EndsInactive(ps + PresenceAdded(t, x)) <==> Silent(FedTag(t, x))
  {
    if PresenceAdded(t, x) == [] {
      assert ps + PresenceAdded(t, x) == ps;
    }
  }

  lemma ReachableTagOk(id: string, ins: seq<Input>)
    requires ValidInputs(ins)
    ensures TagOk(RunTag(id, ins).tag)
    ensures RunTag(id, ins).tag == FRESH_TAG <==> LatestPacket(ins).None?
    ensures LocationLost(RunTag(id, ins).tag) ==> HadFix(ins)
    ensures HasLocation(RunTag(id, ins).tag) ==> HadFix(ins)
  {
    ReachableState(id, ins);
    LatestIsAnInput(ins);
  }

  /** The presence a subscriber last heard is Inactive exactly while the tag has been seen and
      is offline or lost. */
  lemma {:induction false} PresenceCharacterised(id: string, ins: seq<Input>)
    requires ValidInputs(ins)
    ensures EndsInactive(PresenceTypes(RunTag(id, ins).events))
            <==> LatestPacket(ins).Some? && (!RunTag(id, ins).tag.online || LocationLost(RunTag(id, ins).tag))
  {
    ReachableTagOk(id, ins);
    if ins != [] {
      var pre, x := Init(ins), Last(ins);
      assert ins == pre + [x];
      ValidInit(pre, x);
      PresenceCharacterised(id, pre);
      ReachableTagOk(id, pre);
      PresenceOfStep(id, pre, x);
      SilentAfter(RunTag(id, pre).tag, x, PresenceTypes(RunTag(id, pre).events));
    }
  }

  /** The zones a tag's record says it is in: those of its last datagram if that was a fix. */
  function HeldZones(t: Tag): seq<string> {
    if HasLocation(t) then t.lastZoneIds else []
  }

  /** The one way the derived zone events can go wrong: two fixes in a row whose lists the scan calls equal
      although they are different sets, with nothing else to make the second one news. */
  predicate Blind(t: Tag, x: Input) {
    x.Packet? && MsgFix(x.msg) && HasLocation(t) && x.msg.locationMovementStatus == t.lastMovementStatus
    && SameZones(MsgZones(x.msg), t.lastZoneIds) && ToSet(MsgZones(x.msg)) != ToSet(t.lastZoneIds)
  }

  lemma ViewAfterPacket(view: seq<string>, t: Tag, m: UdpMsg, now: Time)
    requires TagOk(t) && WellFormed(m)
    requires ToSet(view) == ToSet(HeldZones(t))
    ensures ToSet(FoldZones(view, DerivedEvents(t, m, now))) == ToSet(HeldZones(DerivedTag(t, m, now)))
            <==> !Blind(t, Packet(m))
  {
    DerivedEffects(view, t, m, now);
    hide DerivedEvents;
  }

  lemma ViewAfter(view: seq<string>, t: Tag, id: string, x: Input)
    requires TagOk(t) && (x.Packet? ==> WellFormed(x.msg))
    requires ToSet(view) == ToSet(HeldZones(t))
    ensures ToSet(FoldZones(view, Feed(t, id, x).events)) == ToSet(HeldZones(Feed(t, id, x).tag)) <==> !Blind(t, x)
  {
    match x
    case Sweep(now) => Singles(view, OfflineEvent(id, t, now));
    case Packet(m) => ViewAfterPacket(view, t, m, UnixMilli(m.responseTS));
  }

  /** The folded zone events give the zones of the latest datagram if it is a fix, and none
      otherwise. */
  ghost predicate ViewRight(id: string, ins: seq<Input>) {
    ToSet(FoldZones([], RunTag(id, ins).events)) == ToSet(ReportedZones(LatestPacket(ins)))
  }

  ghost predicate NeverBlind(id: string, ins: seq<Input>) {
    ins == [] || (NeverBlind(id, Init(ins)) && !Blind(RunTag(id, Init(ins)).tag, Last(ins)))
  }

  /** Whatever the interleaving, and even when datagrams without a fix list zones, the derived
      zone events are right after every input if and only if no two consecutive fixes are a blind pair. */
  lemma {:induction false} ViewRightExactly(id: string, ins: seq<Input>)
    requires ValidInputs(ins)
    ensures NeverBlind(id, ins) <==> forall n | 0 <= n <= |ins| :: ViewRight(id, ins[..n])
  {
    hide ViewRight, Blind, RunFrom, Feed;
    if ins == [] {
      assert forall n | 0 <= n <= |ins| :: ins[..n] == [];
      ViewRightAtStart(id);
    } else {
      var pre, x := Init(ins), Last(ins);
      assert ins == pre + [x] && ins[..|ins|] == ins;
      assert forall n | 0 <= n <= |pre| :: pre[..n] == ins[..n];
      assert pre[..|pre|] == pre;
      ValidInit(pre, x);
      ViewRightExactly(id, pre);
      if ViewRight(id, pre) {
        ViewRightStep(id, pre, x);
      }
    }
  }

  lemma ViewRightAtStart(id: string)
    ensures ViewRight(id, [])
  {
  }

  lemma ViewRightStep(id: string, pre: seq<Input>, x: Input)
    requires ValidInputs(pre + [x]) && ViewRight(id, pre)
    ensures ViewRight(id, pre + [x]) <==> !Blind(RunTag(id, pre).tag, x)
  {
    hide Feed;
    var before := RunTag(id, pre);
    ValidInit(pre, x);
    ReachableTagOk(id, pre);
    HeldIsReported(id, pre);
    HeldIsReported(id, pre + [x]);
    RunExtend(id, pre, x);
    FoldZonesConcat([], before.events, Feed(before.tag, id, x).events);
    ViewAfter(FoldZones([], before.events), before.tag, id, x);
  }

  lemma HeldIsReported(id: string, ins: seq<Input>)
    requires ValidInputs(ins)
    ensures HeldZones(RunTag(id, ins).tag) == ReportedZones(LatestPacket(ins))
  {
    ReachableState(id, ins);
  }

  /** In particular the view is right in every run whose fixes list no zone twice. */
  lemma {:induction false} ZoneViewFollowsLatest(id: string, ins: seq<Input>)
    requires ValidInputs(ins) && FixZonesNoDup(ins)
    ensures NeverBlind(id, ins) && ViewRight(id, ins)
  {
    if ins != [] {
      var pre, x := Init(ins), Last(ins);
      assert ins == pre + [x] && x == ins[|pre|];
      assert forall i | 0 <= i < |pre| :: pre[i] == ins[i];
      ValidInit(pre, x);
      ZoneViewFollowsLatest(id, pre);
      if x.Packet? && MsgFix(x.msg) && SameZones(MsgZones(x.msg), RunTag(id, pre).tag.lastZoneIds) {
        SameZonesSound(MsgZones(x.msg), RunTag(id, pre).tag.lastZoneIds);
      }
      ViewRightStep(id, pre, x);
    }
  }

  /** A concrete blind pair: from zones a and b to zone a listed twice, the view keeps b. */
  lemma DuplicateHidesExit(id: string, p: UdpMsg, q: UdpMsg)
    requires WellFormed(p) && WellFormed(q) && MsgFix(p) && MsgFix(q)
    requires p.locationMovementStatus == q.locationMovementStatus
    requires MsgZones(p) == ["a", "b"] && MsgZones(q) == ["a", "a"]
    ensures FoldZones([], RunTag(id, [Packet(p), Packet(q)]).events) == ["a", "b"]
    ensures !ViewRight(id, [Packet(p), Packet(q)])
  {
    var x, y := Packet(p), Packet(q);
    var t := FedTag(FRESH_TAG, x);
    assert [x] == [] + [x] && [x, y] == [x] + [y];
    RunNothing(id);
    RunExtend(id, [], x);
    RunExtend(id, [x], y);
    DerivedEffects([], FRESH_TAG, p, UnixMilli(p.responseTS));
    DerivedEffects(["a", "b"], t, q, UnixMilli(q.responseTS));
    FoldZonesConcat([], RunTag(id, [x]).events, Feed(t, id, y).events);
    assert RunTag(id, [x]).events == [] + Feed(FRESH_TAG, id, x).events == Feed(FRESH_TAG, id, x).events;
    hide DerivedEvents, RunFrom;
    assert SameZones(["a", "a"], ["a", "b"]);
    assert "b" in ToSet(["a", "b"]) && "b" !in ToSet(["a", "a"]);
    assert LatestPacket([x, y]) == Some(q);
  }

  lemma RunNothing(id: string)
    ensures RunTag(id, []) == TagOutcome(FRESH_TAG, [])
  {
  }

  lemma PresenceOfStep(id: string, pre: seq<Input>, x: Input)
    requires ValidInputs(pre + [x])
    ensures PresenceTypes(RunTag(id, pre + [x]).events)
         == PresenceTypes(RunTag(id, pre).events) + PresenceTypes(Feed(RunTag(id, pre).tag, id, x).events)
    ensures PresenceTypes(Feed(RunTag(id, pre).tag, id, x).events) == PresenceAdded(RunTag(id, pre).tag, x)
    ensures RunTag(id, pre + [x]).tag == FedTag(RunTag(id, pre).tag, x)
  {
    var before := RunTag(id, pre);
    RunExtend(id, pre, x);
    PresenceTypesConcat(before.events, Feed(before.tag, id, x).events);
    PresenceTypesFed(before.tag, id, x);
  }

  lemma RunExtend(id: string, pre: seq<Input>, x: Input)
    ensures RunTag(id, pre + [x]).tag == Feed(RunTag(id, pre).tag, id, x).tag
    ensures RunTag(id, pre + [x]).events == RunTag(id, pre).events + Feed(RunTag(id, pre).tag, id, x).events
  {
    assert Init(pre + [x]) == pre && Last(pre + [x]) == x;
  }

  lemma ValidInit(pre: seq<Input>, x: Input)
    requires ValidInputs(pre + [x])
    ensures ValidInputs(pre) && (x.Packet? ==> WellFormed(x.msg))
  {
    assert (pre + [x])[|pre|] == x;
    assert forall i | 0 <= i < |pre| :: (pre + [x])[i] == pre[i];
  }

  lemma RepeatsAdded(t: Tag, x: Input, ps: seq<PresenceType>, k: nat)
    requires TagOk(t) && (EndsInactive(ps) <==> Silent(t))
    requires 0 < k && |ps| <= k < |ps + PresenceAdded(t, x)|
    requires (ps + PresenceAdded(t, x))[k] == (ps + PresenceAdded(t, x))[k - 1]
    ensures (ps + PresenceAdded(t, x))[k] == Active && !HasLocation(t) && !LocationLost(t)
  {
    var added := PresenceAdded(t, x);
    assert (ps + added)[k] == added[k - |ps|];
    assert (ps + added)[k - 1] == if k == |ps| then Last(ps) else added[0];
  }

  /** One more input never makes a presence event repeat its predecessor, except an Active
      emitted for a tag that had no fix before this input. */
  lemma PresenceRepeats(id: string, pre: seq<Input>, x: Input, k: nat)
    requires ValidInputs(pre + [x])
    requires var old' := PresenceTypes(RunTag(id, pre).events); var all := PresenceTypes(RunTag(id, pre + [x]).events);
             0 < k && |old'| <= k < |all| && all[k] == all[k - 1]
    ensures PresenceTypes(RunTag(id, pre + [x]).events)[k] == Active && !HadFix(pre)
  {
    ValidInit(pre, x);
    PresenceOfStep(id, pre, x);
    PresenceCharacterised(id, pre);
    ReachableTagOk(id, pre);
    RepeatsAdded(RunTag(id, pre).tag, x, PresenceTypes(RunTag(id, pre).events), k);
    NotLocatedMeansNoFix(id, pre);
  }

  lemma NotLocatedMeansNoFix(id: string, ins: seq<Input>)
    requires ValidInputs(ins)
    requires !HasLocation(RunTag(id, ins).tag) && !LocationLost(RunTag(id, ins).tag)
    ensures !HadFix(ins)
  {
    ReachableState(id, ins);
    LatestIsAnInput(ins);
  }

  /** No tag is ever reported inactive twice in a row. */
  lemma {:induction false} NoTwoInactives(id: string, ins: seq<Input>, k: nat)
    requires ValidInputs(ins)
    requires 0 < k < |PresenceTypes(RunTag(id, ins).events)|
    ensures var all := PresenceTypes(RunTag(id, ins).events); !(all[k - 1] == Inactive && all[k] == Inactive)
  {
    hide Feed, FedTag;
    var pre, x := Init(ins), Last(ins);
    assert ins == pre + [x];
    ValidInit(pre, x);
    PresenceOfStep(id, pre, x);
    var all := PresenceTypes(RunTag(id, ins).events);
    if k < |PresenceTypes(RunTag(id, pre).events)| {
      NoTwoInactives(id, pre, k);
    } else if all[k] == all[k - 1] {
      PresenceRepeats(id, pre, x, k);
    }
  }

  // Alternation.

  predicate Alternates(ps: seq<PresenceType>) {
    forall k | 0 < k < |ps| :: ps[k - 1] != ps[k]
  }

  /** Some sweep found the tag's latest datagram at least 12 seconds old. */
  predicate FoundSilent(ins: seq<Input>) {
    exists i | 0 <= i < |ins| :: ins[i].Sweep? && SilentAt(LatestPacket(ins[..i]), ins[i].now)
  }

  predicate SilentAt(latest: Option<UdpMsg>, now: Time) {
    latest.Some? && now - UnixMilli(latest.value.lastPacketTS) >= OFFLINE_THRESHOLD
  }

  /** The input is the tag's first fix, and comes after a sweep found the tag silent. */
  predicate FirstFixAfterSilence(pre: seq<Input>, x: Input) {
    x.Packet? && MsgFix(x.msg) && !HadFix(pre) && FoundSilent(pre)
  }

  lemma FoundSilentExtend(pre: seq<Input>, x: Input)
    ensures FoundSilent(pre + [x]) <==> FoundSilent(pre) || (x.Sweep? && SilentAt(LatestPacket(pre), x.now))
  {
    var ins := pre + [x];
    assert forall i | 0 <= i < |pre| :: ins[i] == pre[i] && ins[..i] == pre[..i];
    assert ins[|pre|] == x && ins[..|pre|] == pre;
    if FoundSilent(pre) {
      var i :| 0 <= i < |pre| && pre[i].Sweep? && SilentAt(LatestPacket(pre[..i]), pre[i].now);
      assert ins[i].Sweep?;
    }
    if x.Sweep? && SilentAt(LatestPacket(pre), x.now) {
      assert ins[|pre|].Sweep?;
    }
  }

  lemma HadFixAfter(pre: seq<Input>, x: Input)
    ensures HadFix(pre + [x]) <==> HadFix(pre) || (x.Packet? && MsgFix(x.msg))
  {
    assert Init(pre + [x]) == pre && Last(pre + [x]) == x;
    HadFixExtend(pre + [x]);
  }

  lemma {:induction false} OnlyTwoTypes(id: string, ins: seq<Input>)
    requires ValidInputs(ins)
    ensures forall p | p in PresenceTypes(RunTag(id, ins).events) :: p == Active || p == Inactive
  {
    if ins == [] {
      RunNothing(id);
      NoPresence();
    } else {
      var pre, x := Init(ins), Last(ins);
      assert ins == pre + [x];
      ValidInit(pre, x);
      hide RunFrom, PresenceTypes, PresenceAdded, Feed, FedTag;
      OnlyTwoTypes(id, pre);
      PresenceOfStep(id, pre, x);
      AddsTwoTypes(RunTag(id, pre).tag, x);
    }
  }

  lemma AddsTwoTypes(t: Tag, x: Input)
    ensures forall p | p in PresenceAdded(t, x) :: p == Active || p == Inactive
  {
  }

  /** Until a tag has a fix, it has been announced at all exactly if a sweep found it silent. */
  lemma {:induction false} AnnouncedWithoutFix(id: string, ins: seq<Input>)
    requires ValidInputs(ins) && !HadFix(ins)
    ensures PresenceTypes(RunTag(id, ins).events) != [] <==> FoundSilent(ins)
  {
    if ins == [] {
      RunNothing(id);
      NoPresence();
    } else {
      var pre, x := Init(ins), Last(ins);
      assert ins == pre + [x];
      ValidInit(pre, x);
      HadFixAfter(pre, x);
      FoundSilentExtend(pre, x);
      AnnouncedWithoutFix(id, pre);
      PresenceOfStep(id, pre, x);
      PresenceCharacterised(id, pre);
      ReachableState(id, pre);
      ReachableTagOk(id, pre);
      AddedWithoutFix(RunTag(id, pre).tag, LatestPacket(pre), x);
      hide RunFrom, PresenceTypes, PresenceAdded, FoundSilent, SilentAt, HadFix, Feed, FedTag;
    }
  }

  lemma AddedWithoutFix(t: Tag, latest: Option<UdpMsg>, x: Input)
    requires TagOk(t) && !HasLocation(t) && !LocationLost(t) && (x.Packet? ==> !MsgFix(x.msg))
    requires latest.None? <==> t == FRESH_TAG
    requires latest.Some? ==> t.lastPacketTS == UnixMilli(latest.value.lastPacketTS)
    ensures t.online || t == FRESH_TAG ==> (PresenceAdded(t, x) != [] <==> x.Sweep? && SilentAt(latest, x.now))
  {
  }

  lemma AlternatesAppend(ps: seq<PresenceType>, added: seq<PresenceType>)
    requires |added| <= 2
    ensures Alternates(ps + added) <==> Alternates(ps) && (ps != [] && added != [] ==> Last(ps) != added[0])
                                        && (|added| == 2 ==> added[0] != added[1])
  {
    var all := ps + added;
    assert forall k | 0 <= k < |ps| :: all[k] == ps[k];
    assert forall k | 0 <= k < |added| :: all[|ps| + k] == added[k];
    if |added| == 2 {
      assert all[|ps| + 1 - 1] == added[0];
    }
  }

  lemma AlternatesStep(id: string, pre: seq<Input>, x: Input)
    requires ValidInputs(pre + [x])
    ensures Alternates(PresenceTypes(RunTag(id, pre + [x]).events))
            <==> Alternates(PresenceTypes(RunTag(id, pre).events)) && !FirstFixAfterSilence(pre, x)
  {
    hide RunFrom, PresenceTypes, PresenceAdded, FoundSilent, HadFix, Feed, FedTag, Alternates;
    var t, ps := RunTag(id, pre).tag, PresenceTypes(RunTag(id, pre).events);
    ValidInit(pre, x);
    PresenceOfStep(id, pre, x);
    PresenceCharacterised(id, pre);
    ReachableTagOk(id, pre);
    OnlyTwoTypes(id, pre);
    ReachableState(id, pre);
    LatestIsAnInput(pre);
    NoPresence();
    if !HadFix(pre) {
      AnnouncedWithoutFix(id, pre);
    }
    AlternatesAdded(t, ps, x, HadFix(pre));
  }

  lemma AlternatesAdded(t: Tag, ps: seq<PresenceType>, x: Input, hadFix: bool)
    requires TagOk(t) && (hadFix <==> HasLocation(t) || LocationLost(t))
    requires EndsInactive(ps) <==> Silent(t)
    requires forall p | p in ps :: p == Active || p == Inactive
    requires t == FRESH_TAG ==> ps == []
    ensures Alternates(ps + PresenceAdded(t, x))
            <==> Alternates(ps) && !(x.Packet? && MsgFix(x.msg) && !hadFix && ps != [])
  {
    hide Alternates;
    AlternatesAppend(ps, PresenceAdded(t, x));
    assert ps != [] ==> Last(ps) in ps;
  }

  /** A tag's presence alternates strictly throughout a run, except exactly when its first fix
      comes after a sweep had found it silent for 12 seconds. */
  lemma {:induction false} AlternatesExactly(id: string, ins: seq<Input>)
    requires ValidInputs(ins)
    ensures Alternates(PresenceTypes(RunTag(id, ins).events))
            <==> !exists n | 0 <= n < |ins| :: FirstFixAfterSilence(ins[..n], ins[n])
  {
    hide Alternates, PresenceTypes, RunFrom, FirstFixAfterSilence;
    if ins == [] {
      RunNothing(id);
      NoPresence();
    } else {
      var pre, x := Init(ins), Last(ins);
      assert ins == pre + [x];
      ValidInit(pre, x);
      AlternatesExactly(id, pre);
      AlternatesStep(id, pre, x);
      assert forall n | 0 <= n < |pre| :: ins[..n] == pre[..n] && ins[n] == pre[n];
      assert ins[..|pre|] == pre && ins[|pre|] == x;
      if FirstFixAfterSilence(pre, x) {
        assert FirstFixAfterSilence(ins[..|pre|], ins[|pre|]);
      }
      if n :| 0 <= n < |pre| && FirstFixAfterSilence(pre[..n], pre[n]) {
        assert FirstFixAfterSilence(ins[..n], ins[n]);
      }
    }
  }

  /** In particular a tag whose first datagram is a fix alternates strictly. */
  lemma FixFirstAlternates(id: string, ins: seq<Input>)
    requires ValidInputs(ins) && ins != [] && ins[0].Packet? && MsgFix(ins[0].msg)
    ensures Alternates(PresenceTypes(RunTag(id, ins).events))
  {
    AlternatesExactly(id, ins);
    forall n | 0 <= n < |ins| ensures !FirstFixAfterSilence(ins[..n], ins[n]) {
      if n > 0 {
        assert ins[..n][0] == ins[0] && HadFix(ins[..n]);
      }
    }
  }

  /** The exception is real: a tag first seen without a fix goes offline, and its first fix
      announces it active twice. */
  lemma TwoActivesHappen(id: string, p: UdpMsg, now: Time, q: UdpMsg)
    requires WellFormed(p) && WellFormed(q) && !MsgFix(p) && MsgFix(q)
    requires now >= UnixMilli(p.lastPacketTS) + OFFLINE_THRESHOLD
    ensures PresenceTypes(RunTag(id, [Packet(p), Sweep(now), Packet(q)]).events) == [Inactive, Active, Active]
  {
    hide Feed, RunFrom, PresenceAdded, FedTag, PresenceTypes;
    var a, b, c := Packet(p), Sweep(now), Packet(q);
    assert [] + [a] == [a] && [a] + [b] == [a, b] && [a, b] + [c] == [a, b, c];
    RunNothing(id);
    NoPresence();
    AddedUntilFirstFix(p, now, q);
    PresenceOfStep(id, [], a);
    PresenceOfStep(id, [a], b);
    PresenceOfStep(id, [a, b], c);
    calc {
      PresenceTypes(RunTag(id, [a, b, c]).events);
      PresenceTypes(RunTag(id, [a, b]).events) + [Active, Active];
      PresenceTypes(RunTag(id, [a]).events) + [Inactive] + [Active, Active];
      [Inactive, Active, Active];
    }
  }

  lemma NoPresence()
    ensures PresenceTypes([]) == [] && Alternates([])
  {
  }

  lemma AddedUntilFirstFix(p: UdpMsg, now: Time, q: UdpMsg)
    requires WellFormed(p) && WellFormed(q) && !MsgFix(p) && MsgFix(q)
    requires now >= UnixMilli(p.lastPacketTS) + OFFLINE_THRESHOLD
    ensures var t := FedTag(FRESH_TAG, Packet(p)); var u := FedTag(t, Sweep(now));
            && PresenceAdded(FRESH_TAG, Packet(p)) == [] && PresenceAdded(t, Sweep(now)) == [Inactive]
            && PresenceAdded(u, Packet(q)) == [Active, Active]
  {
  }

  // What a report about a silent tag carries.

  /** The coordinates of the latest fix that came with any. */
  function LastLocation(ins: seq<Input>): seq<real> {
    if ins == [] then []
    else if Last(ins).Packet? && MsgFix(Last(ins).msg) && Last(ins).msg.location.Some? then Last(ins).msg.location.value
    else LastLocation(Init(ins))
  }

  /** The latest non-empty name given to the tag, and to its group. */
  function LastNames(ins: seq<Input>): (string, string) {
    if ins == [] then ("", "")
    else
      var (name, group) := LastNames(Init(ins));
      if Last(ins).Sweep? then (name, group)
      else (if Last(ins).msg.tagName != "" then Last(ins).msg.tagName else name,
            if Last(ins).msg.tagGroupName != "" then Last(ins).msg.tagGroupName else group)
  }

  lemma {:induction false} RecordRemembers(id: string, ins: seq<Input>)
    ensures var t := RunTag(id, ins).tag;
            t.lastKnownLocation == LastLocation(ins) && (t.name, t.groupName) == LastNames(ins)
  {
    if ins != [] {
      RecordRemembers(id, Init(ins));
    }
  }

  /** An offline report is made only after 12 seconds of silence, and carries the last known
      picture: the zones of the latest datagram, the coordinates of the latest fix that had
      any, and the names last given. */
  lemma OfflineReport(id: string, ins: seq<Input>, now: Time)
    requires ValidInputs(ins) && OfflineDue(RunTag(id, ins).tag, now)
    ensures var e := OfflineEvent(id, RunTag(id, ins).tag, now); var latest := LatestPacket(ins);
            && Feed(RunTag(id, ins).tag, id, Sweep(now)).events == [e]
            && latest.Some? && UnixMilli(latest.value.lastPacketTS) + OFFLINE_THRESHOLD <= now
            && e.Zones() == MsgZones(latest.value)
            && e.state.location.Some? && e.state.location.value.point == PointFromSlice(LastLocation(ins))
            && e.Metadata("tagName") == LastNames(ins).0 && e.Metadata("tagGroupName") == LastNames(ins).1
            && e.Metadata("locationType") == latest.value.locationType
            && e.actor.id == id && e.kind == EventPresence && e.state.presence == Presence(Inactive, now)
  {
    ReachableState(id, ins);
    RecordRemembers(id, ins);
  }

  /** A tag that comes back is announced first, with the zones it was last in; a restored
      location is announced with the zones of the fix. Nothing else announces it active. */
  lemma ComebackReported(id: string, pre: seq<Input>, m: UdpMsg)
    requires ValidInputs(pre + [Packet(m)]) && LatestPacket(pre).Some?
    ensures var t := RunTag(id, pre).tag; var latest := LatestPacket(pre).value;
            var es := DerivedEvents(t, m, UnixMilli(m.responseTS));
            && (!t.online ==> es != [] && es[0].kind == EventPresence && es[0].state.presence.kind == Active
                              && es[0].Zones() == MsgZones(latest))
            && forall i | 0 <= i < |es| && es[i].kind == EventPresence && es[i].state.presence.kind == Active ::
                 (i == 0 && !t.online) || (!MsgFix(latest) && MsgFix(m) && es[i].Zones() == MsgZones(m))
  {
    ValidInit(pre, Packet(m));
    ReachableState(id, pre);
    ComebackEvents(RunTag(id, pre).tag, m, UnixMilli(m.responseTS));
  }

  lemma ComebackEvents(t: Tag, m: UdpMsg, now: Time)
    requires HadHistory(t)
    ensures var es := DerivedEvents(t, m, now);
            && (!t.online ==> es != [] && es[0] == PresenceEvent(m, now, t.lastZoneIds, Active, 0))
            && forall i | 0 <= i < |es| && es[i].kind == EventPresence && es[i].state.presence.kind == Active ::
                 (i == 0 && !t.online) || (Restoring(t, m) && es[i].Zones() == MsgZones(m))
  {
    var a := OnlineEvents(t, m, now);
    var b := TransitionEvents(t, m, now, |a|);
    assert DerivedEvents(t, m, now) == a + b + SnapshotEvents(t, m, now, |a + b|);
  }

  predicate IsInactive(e: Event) {
    e.kind == EventPresence && e.state.presence.kind == Inactive
  }

  lemma EmptyViewStep(view: seq<string>, t: Tag, id: string, x: Input)
    requires TagOk(t) && (x.Packet? ==> WellFormed(x.msg))
    requires HeldZones(t) == [] ==> view == []
    ensures HeldZones(FedTag(t, x)) == [] ==> FoldZones(view, Feed(t, id, x).events) == []
  {
    match x
    case Sweep(now) => Singles(view, OfflineEvent(id, t, now));
    case Packet(m) =>
      DerivedEffects(view, t, m, UnixMilli(m.responseTS));
      hide DerivedEvents;
  }

  /** A tag in no zones always has an empty view, lists with duplicates or not: the scan never
      takes an empty list for another. */
  lemma {:induction false} NoZonesEmptyView(id: string, ins: seq<Input>)
    requires ValidInputs(ins)
    ensures HeldZones(RunTag(id, ins).tag) == [] ==> FoldZones([], RunTag(id, ins).events) == []
  {
    hide RunFrom, FoldZones, Feed, FedTag;
    if ins == [] {
      RunNothing(id);
      NothingFolded([]);
    } else {
      var pre, x := Init(ins), Last(ins);
      assert ins == pre + [x];
      ValidInit(pre, x);
      NoZonesEmptyView(id, pre);
      ReachableTagOk(id, pre);
      var before := RunTag(id, pre);
      RunExtend(id, pre, x);
      PresenceOfStep(id, pre, x);
      FoldZonesConcat([], before.events, Feed(before.tag, id, x).events);
      EmptyViewStep(FoldZones([], before.events), before.tag, id, x);
    }
  }

  lemma NothingFolded(view: seq<string>)
    ensures FoldZones(view, []) == view
  {
  }

  /** The inactive event of a location loss comes when the view is already empty, and carries
      the zones the tag was last in. */
  lemma LossReportedOnEmptyView(id: string, pre: seq<Input>, m: UdpMsg, k: nat)
    requires ValidInputs(pre + [Packet(m)])
    requires var es := DerivedEvents(RunTag(id, pre).tag, m, UnixMilli(m.responseTS)); k < |es| && IsInactive(es[k])
    ensures var before := RunTag(id, pre); var es := DerivedEvents(before.tag, m, UnixMilli(m.responseTS));
            FoldZones([], before.events + es[..k]) == [] && es[k].Zones() == ReportedZones(LatestPacket(pre))
  {
    hide DerivedEvents, RunFrom;
    var before := RunTag(id, pre);
    var now := UnixMilli(m.responseTS);
    ValidInit(pre, Packet(m));
    NoZonesEmptyView(id, pre);
    HeldIsReported(id, pre);
    LossAfterEmptying(FoldZones([], before.events), before.tag, m, now, k);
    FoldZonesConcat([], before.events, DerivedEvents(before.tag, m, now)[..k]);
  }

  lemma LossAfterEmptying(view: seq<string>, t: Tag, m: UdpMsg, now: Time, k: nat)
    requires HeldZones(t) == [] ==> view == []
    requires k < |DerivedEvents(t, m, now)| && IsInactive(DerivedEvents(t, m, now)[k])
    ensures var es := DerivedEvents(t, m, now); es[k].Zones() == HeldZones(t) && FoldZones(view, es[..k]) == []
  {
    WhereInactive(t, m, now, k);
    hide DerivedEvents;
    var a := OnlineEvents(t, m, now);
    var emptying := ZoneEvent(m, now, [], |a|);
    OnlineRule(view, t, m, now);
    hide OnlineEvents, FoldZones;
    FoldZonesConcat(view, a, [emptying]);
    Singles(FoldZones(view, a), emptying);
    if t.lastZoneIds == [] {
      assert a + [] == a;
    }
  }

  lemma InTheMiddle(a: seq<Event>, b: seq<Event>, c: seq<Event>, k: nat)
    requires k < |a + b + c| && IsInactive((a + b + c)[k])
    requires forall e | e in a + c :: !IsInactive(e)
    ensures |a| <= k < |a| + |b|
    ensures (a + b + c)[k] == b[k - |a|] && (a + b + c)[..k] == a + b[..k - |a|]
  {
    var es := a + b + c;
    assert forall i | 0 <= i < |es| && !(|a| <= i < |a| + |b|) :: es[i] in a + c;
  }

  /** An inactive event among a datagram's events is that of a location loss, and only the
      snapshot that empties the view can stand between it and the tag's return. */
  lemma WhereInactive(t: Tag, m: UdpMsg, now: Time, k: nat)
    requires k < |DerivedEvents(t, m, now)| && IsInactive(DerivedEvents(t, m, now)[k])
    ensures var es, a := DerivedEvents(t, m, now), OnlineEvents(t, m, now);
            && Losing(t, m) && es[k].Zones() == t.lastZoneIds
            && es[..k] == a + if t.lastZoneIds != [] then [ZoneEvent(m, now, [], |a|)] else []
  {
    var a := OnlineEvents(t, m, now);
    var b := TransitionEvents(t, m, now, |a|);
    var c := SnapshotEvents(t, m, now, |a + b|);
    assert DerivedEvents(t, m, now) == a + b + c;
    hide DerivedEvents, EventId, ActorMetadata, PointFromSlice, SameZones, SnapshotDue;
    InTheMiddle(a, b, c, k);
  }
}
