/** Event identifiers: consecutive numbers within a datagram, and no two events of a run share
    one as long as a tag's datagrams and the sweeps happen at different times. */
module EventIds {
  import opened Domain
  import opened Zones
  import opened Decimal
  import opened TagMachine
  import opened Fleet

  const TWO_63: nat := 0x8000_0000_0000_0000

  lemma LastDashSplits(p: string, d: string, q: string, e: string)
    requires AllDigits(d) && AllDigits(e) && p + "-" + d == q + "-" + e
    ensures p == q && d == e
  {
    var s := p + "-" + d;
    assert s[|p|] == '-' && s[|q|] == '-';
    assert forall k | |p| < k < |s| :: s[k] == d[k - |p| - 1];
    assert forall k | |q| < k < |s| :: s[k] == e[k - |q| - 1];
    assert |p| == |q|;
    assert p == s[..|p|] && q == s[..|q|];
    assert d == s[|p| + 1..] && e == s[|q| + 1..];
  }

  function Abs(t: Time): nat {
    if t < 0 then -t else t
  }

  function Sign(t: Time): string {
    if t < 0 then "-" else ""
  }

  lemma EventIdShape(a: string, t: Time, n: nat)
    ensures EventId(a, t, n) == ("evt-" + a + Sign(t) + "-" + FormatUint(Abs(t))) + "-" + FormatUint(n)
  {
  }

  /** Two identifiers are equal exactly if number, size of the time, and the actor with the
      time's sign are, even if actor ids contain dashes and digits. */
  lemma EqualIdsExactly(a: string, t: Time, n: nat, b: string, u: Time, m: nat)
    ensures EventId(a, t, n) == EventId(b, u, m) <==> n == m && Abs(t) == Abs(u) && a + Sign(t) == b + Sign(u)
  {
    var x, y := "evt-" + a + Sign(t), "evt-" + b + Sign(u);
    assert x == "evt-" + (a + Sign(t)) && y == "evt-" + (b + Sign(u));
    EventIdShape(a, t, n);
    EventIdShape(b, u, m);
    hide EventId, FormatUint;
    if EventId(a, t, n) == EventId(b, u, m) {
      FormatParses(Abs(t));
      FormatParses(Abs(u));
      FormatParses(n);
      FormatParses(m);
      LastDashSplits(x + "-" + FormatUint(Abs(t)), FormatUint(n), y + "-" + FormatUint(Abs(u)), FormatUint(m));
      LastDashSplits(x, FormatUint(Abs(t)), y, FormatUint(Abs(u)));
      assert a + Sign(t) == x[4..] && b + Sign(u) == y[4..];
    }
  }

  lemma SameSignSameActor(a: string, b: string, sign: string)
    ensures a + sign == b + sign ==> a == b
  {
    if a + sign == b + sign {
      assert |a| == |b| && a == (a + sign)[..|a|] && b == (b + sign)[..|b|];
    }
  }

  /** Events at two given times can share an identifier only if the times are opposite: an
      identifier tells actor, time and number for all actors and numbers exactly otherwise. */
  lemma IdsTellApartExactly(t: Time, u: Time)
    ensures (forall a, n: nat, b, m: nat :: EventId(a, t, n) == EventId(b, u, m) ==> a == b && t == u && n == m)
            <==> !(t != 0 && u == -t)
  {
    forall a, n: nat, b, m: nat | EventId(a, t, n) == EventId(b, u, m) && !(t != 0 && u == -t)
      ensures a == b && t == u && n == m
    {
      EqualIdsExactly(a, t, n, b, u, m);
      SameSignSameActor(a, b, Sign(t));
    }
    if t != 0 && u == -t {
      EqualIdsExactly(Sign(u), t, 0, Sign(t), u, 0);
      assert EventId(Sign(u), t, 0) == EventId(Sign(t), u, 0);
    }
  }

  /** In particular an identifier determines all three as long as times are not negative. */
  lemma EventIdInjective(a: string, t: Time, n: nat, b: string, u: Time, m: nat)
    requires t >= 0 && u >= 0 && EventId(a, t, n) == EventId(b, u, m)
    ensures a == b && t == u && n == m
  {
    IdsTellApartExactly(t, u);
  }

  predicate Numbered(es: seq<Event>, id: string, now: Time, first: nat) {
    forall i | 0 <= i < |es| :: es[i].id == EventId(id, now, first + i)
  }

  lemma NumberedConcat(a: seq<Event>, b: seq<Event>, id: string, now: Time, first: nat)
    requires Numbered(a, id, now, first) && Numbered(b, id, now, first + |a|)
    ensures Numbered(a + b, id, now, first)
  {
    hide EventId;
  }

  lemma RulesNumber(t: Tag, m: UdpMsg, now: Time, n: nat)
    ensures |OnlineEvents(t, m, now)| <= 1 && Numbered(OnlineEvents(t, m, now), m.tagId, now, 0)
    ensures |TransitionEvents(t, m, now, n)| <= 2 && Numbered(TransitionEvents(t, m, now, n), m.tagId, now, n)
    ensures |SnapshotEvents(t, m, now, n)| <= 1 && Numbered(SnapshotEvents(t, m, now, n), m.tagId, now, n)
    ensures |TransitionEvents(t, m, now, n)| == 2 ==> !SnapshotDue(t, m)
  {
    hide EventId, ActorMetadata, PointFromSlice, SameZones, HadHistory;
  }

  /** One datagram yields at most three events, numbered 0, 1, 2 in order. */
  lemma DatagramNumbers(t: Tag, m: UdpMsg, now: Time)
    ensures |DerivedEvents(t, m, now)| <= 3 && Numbered(DerivedEvents(t, m, now), m.tagId, now, 0)
  {
    var a := OnlineEvents(t, m, now);
    var b := TransitionEvents(t, m, now, |a|);
    RulesNumber(t, m, now, |a|);
    RulesNumber(t, m, now, |a + b|);
    hide OnlineEvents, TransitionEvents, SnapshotDue, EventId;
    NumberedConcat(a, b, m.tagId, now, 0);
    NumberedConcat(a + b, SnapshotEvents(t, m, now, |a + b|), m.tagId, now, 0);
  }

  /** Spelled out: the identifier of a datagram's event is a fixed prefix, the actor, the response
      time in nanoseconds and the event's place among those of the datagram. */
  lemma DatagramIdentifiers(t: Tag, m: UdpMsg, i: nat)
    requires WellFormed(m) && i < |DerivedEvents(t, m, UnixMilli(m.responseTS))|
    ensures DerivedEvents(t, m, UnixMilli(m.responseTS))[i].id
         == "evt-" + m.tagId + "-" + FormatUint(1_000_000 * m.responseTS) + "-" + FormatUint(i)
  {
    DatagramNumbers(t, m, UnixMilli(m.responseTS));
    hide DerivedEvents, FormatUint;
  }

  /** The 64-character limit holds for the 12-character addresses used as tag ids. */
  lemma IdLength(a: string, t: Time, n: nat)
    requires |a| == 12 && 0 <= t <= 9_223_372_036_854_775_807 && n < 10
    ensures 3 <= |EventId(a, t, n)| <= 64
  {
    FormatLength(t, 19);
    assert Pow10(5) == 100_000;
    assert Pow10(10) == 10_000_000_000;
    assert Pow10(15) == 1_000_000_000_000_000;
    assert Pow10(19) == 10_000_000_000_000_000_000;
  }

  // Runs.

  predicate Concerns(s: Step, id: string) {
    match s
    case Datagram(m) => Parse(m).Ok? && m.tagId == id
    case Timeout(_, _) => true
  }

  function StepTime(s: Step): Time {
    match s
    case Datagram(m) => if Parse(m).Ok? then UnixMilli(Parse(m).value.responseTS) else ZERO_TIME
    case Timeout(now, _) => now
  }

  /** Two steps that concern a common tag happen at different times. */
  ghost predicate TimesDistinct(steps: seq<Step>) {
    forall i, j, id | 0 <= i < j < |steps| && Concerns(steps[i], id) && Concerns(steps[j], id) ::
      StepTime(steps[i]) != StepTime(steps[j])
  }

  ghost predicate TimesInRange(steps: seq<Step>) {
    forall i, id | 0 <= i < |steps| && Concerns(steps[i], id) :: 0 <= StepTime(steps[i]) < TWO_63
  }

  ghost predicate IsEventOf(e: Event, s: Step) {
    Concerns(s, e.actor.id) && e.timestamp == StepTime(s)
    && exists n: nat :: e.id == EventId(e.actor.id, e.timestamp, n)
  }

  ghost predicate DistinctIds(es: seq<Event>) {
    forall i, j | 0 <= i < j < |es| :: es[i].id != es[j].id
  }

  /** Whenever a tag has an event at some time, it has one there with number 0. */
  ghost predicate Firsts(es: seq<Event>) {
    forall e | e in es :: HasFirst(es, e.actor.id, e.timestamp)
  }

  ghost predicate HasFirst(es: seq<Event>, id: string, t: Time) {
    exists f | f in es :: f.id == EventId(id, t, 0)
  }

  ghost predicate DistinctActors(es: seq<Event>) {
    forall i, j | 0 <= i < j < |es| :: es[i].actor.id != es[j].actor.id
  }

  lemma {:induction false} SweepEvents(states: map<string, Tag>, now: Time, order: seq<string>, emit: Event -> bool)
    requires NoDup(order) && (forall o | o in order :: o in states)
    ensures forall e | e in SweepAll(states, now, order, emit).events ::
              e.actor.id in order && e.timestamp == now && e.id == EventId(e.actor.id, now, 0)
    ensures DistinctActors(SweepAll(states, now, order, emit).events)
  {
    if order != [] {
      var o, t, rest := order[0], states[order[0]], order[1..];
      assert order == [o] + rest && o !in rest;
      var ev := OfflineEvent(o, t, now);
      if !OfflineDue(t, now) {
        SweepEvents(states, now, rest, emit);
        assert SweepAll(states, now, order, emit) == SweepAll(states, now, rest, emit);
      } else if emit(ev) {
        var states' := states[o := t.(online := false)];
        SweepEvents(states', now, rest, emit);
        assert SweepAll(states, now, order, emit).events == [ev] + SweepAll(states', now, rest, emit).events;
      }
    }
  }

  lemma DatagramIds(t: Tag, msg: UdpMsg, now: Time)
    requires now >= 0
    ensures var es := DerivedEvents(t, msg, now);
            && DistinctIds(es) && Firsts(es)
            && forall i | 0 <= i < |es| ::
                 es[i].actor.id == msg.tagId && es[i].timestamp == now && es[i].id == EventId(msg.tagId, now, i)
  {
    var es := DerivedEvents(t, msg, now);
    DatagramNumbers(t, msg, now);
    DerivedActors(t, msg, now);
    hide DerivedEvents, EventId;
    assert forall i | 0 <= i < |es| :: es[i] in es;
    forall i, j | 0 <= i < j < |es| ensures es[i].id != es[j].id {
      if es[i].id == es[j].id {
        EventIdInjective(msg.tagId, now, i, msg.tagId, now, j);
      }
    }
    forall e | e in es ensures HasFirst(es, e.actor.id, e.timestamp) {
      assert es[0] in es && es[0].id == EventId(msg.tagId, now, 0);
    }
  }

  lemma SweepIds(states: map<string, Tag>, now: Time, order: seq<string>)
    requires NoDup(order) && (forall o | o in order :: o in states) && now >= 0
    ensures var es := SweepAll(states, now, order, AcceptAll()).events;
            && DistinctIds(es) && Firsts(es)
            && forall i | 0 <= i < |es| :: es[i].timestamp == now && es[i].id == EventId(es[i].actor.id, now, 0)
  {
    var es := SweepAll(states, now, order, AcceptAll()).events;
    SweepEvents(states, now, order, AcceptAll());
    hide EventId, SweepAll;
    assert forall i | 0 <= i < |es| :: es[i] in es;
    forall i, j | 0 <= i < j < |es| ensures es[i].id != es[j].id {
      if es[i].id == es[j].id {
        EventIdInjective(es[i].actor.id, now, 0, es[j].actor.id, now, 0);
      }
    }
    forall e | e in es ensures HasFirst(es, e.actor.id, e.timestamp) {
      assert e.id == EventId(e.actor.id, e.timestamp, 0);
    }
  }

  lemma StepIds(states: map<string, Tag>, s: Step)
    requires Enabled(states, s) && (s.Timeout? ==> NoDup(s.order))
    requires forall id | Concerns(s, id) :: StepTime(s) >= 0
    ensures var es := FleetStep(states, s).events;
            DistinctIds(es) && Firsts(es) && forall i | 0 <= i < |es| :: IsEventOf(es[i], s)
  {
    hide DerivedEvents, SweepAll, EventId, DistinctIds, Firsts;
    match s
    case Datagram(m) =>
      if Parse(m).Ok? {
        var msg := Parse(m).value;
        assert Concerns(s, m.tagId);
        DatagramIds(TagOf(states, msg.tagId), msg, StepTime(s));
      } else {
        NothingToTrace();
      }
    case Timeout(now, order) =>
      assert Concerns(s, "");
      SweepIds(states, now, order);
  }

  /** Every event belongs to some step. */
  ghost predicate Traced(es: seq<Event>, steps: seq<Step>) {
    forall e | e in es :: exists k :: 0 <= k < |steps| && IsEventOf(e, steps[k])
  }

  lemma TimesOfPrefix(pre: seq<Step>, s: Step)
    requires TimesInRange(pre + [s])
    ensures TimesInRange(pre)
    ensures forall id | Concerns(s, id) :: StepTime(s) >= 0
    ensures forall k, id | 0 <= k < |pre| && Concerns(pre[k], id) :: StepTime(pre[k]) >= 0
  {
    hide Concerns, StepTime;
    var steps := pre + [s];
    assert steps[|pre|] == s && forall i | 0 <= i < |pre| :: steps[i] == pre[i];
  }

  lemma TracedExtend(older: seq<Event>, newer: seq<Event>, pre: seq<Step>, s: Step)
    requires Traced(older, pre) && forall i | 0 <= i < |newer| :: IsEventOf(newer[i], s)
    ensures Traced(older + newer, pre + [s])
  {
    hide IsEventOf;
    forall e | e in older + newer ensures exists k :: 0 <= k < |pre + [s]| && IsEventOf(e, (pre + [s])[k]) {
      if e in older {
        var k :| 0 <= k < |pre| && IsEventOf(e, pre[k]);
        assert (pre + [s])[k] == pre[k];
      } else {
        assert (pre + [s])[|pre|] == s;
      }
    }
  }

  lemma FirstStays(es: seq<Event>, all: seq<Event>, id: string, t: Time)
    requires HasFirst(es, id, t) && forall e | e in es :: e in all
    ensures HasFirst(all, id, t)
  {
    hide EventId;
    var f :| f in es && f.id == EventId(id, t, 0);
    assert f in all;
  }

  lemma FirstsExtend(older: seq<Event>, newer: seq<Event>)
    requires Firsts(older) && Firsts(newer)
    ensures Firsts(older + newer)
  {
    hide HasFirst;
    forall e | e in older + newer ensures HasFirst(older + newer, e.actor.id, e.timestamp) {
      if e in older {
        FirstStays(older, older + newer, e.actor.id, e.timestamp);
      } else {
        FirstStays(newer, older + newer, e.actor.id, e.timestamp);
      }
    }
  }

  /** Two batches each have an event for the same tag at the same time. */
  ghost predicate Meet(older: seq<Event>, newer: seq<Event>) {
    exists e, f | e in older && f in newer :: e.actor.id == f.actor.id && e.timestamp == f.timestamp
  }

  ghost predicate ShareId(older: seq<Event>, newer: seq<Event>) {
    exists e, f | e in older && f in newer :: e.id == f.id
  }

  lemma SharedIdMeets(older: seq<Event>, newer: seq<Event>, pre: seq<Step>, s: Step)
    requires TimesInRange(pre + [s]) && Traced(older, pre) && (forall i | 0 <= i < |newer| :: IsEventOf(newer[i], s))
    requires ShareId(older, newer)
    ensures Meet(older, newer)
  {
    TimesOfPrefix(pre, s);
    hide StepTime, EventId, TimesInRange;
    var e, f :| e in older && f in newer && e.id == f.id;
    var k :| 0 <= k < |pre| && IsEventOf(e, pre[k]);
    assert IsEventOf(f, s);
    var n: nat :| e.id == EventId(e.actor.id, e.timestamp, n);
    var m: nat :| f.id == EventId(f.actor.id, f.timestamp, m);
    EventIdInjective(e.actor.id, e.timestamp, n, f.actor.id, f.timestamp, m);
  }

  lemma MeetingShareId(older: seq<Event>, newer: seq<Event>)
    requires Firsts(older) && Firsts(newer) && Meet(older, newer)
    ensures ShareId(older, newer)
  {
    hide EventId, Firsts;
    var e, f :| e in older && f in newer && e.actor.id == f.actor.id && e.timestamp == f.timestamp;
    var e' := FirstOf(older, e);
    var f' := FirstOf(newer, f);
    assert e'.id == f'.id;
  }

  lemma FirstOf(es: seq<Event>, e: Event) returns (f: Event)
    requires Firsts(es) && e in es
    ensures f in es && f.id == EventId(e.actor.id, e.timestamp, 0)
  {
    assert HasFirst(es, e.actor.id, e.timestamp);
    hide Firsts;
    f :| f in es && f.id == EventId(e.actor.id, e.timestamp, 0);
  }

  lemma DistinctConcat(older: seq<Event>, newer: seq<Event>)
    ensures DistinctIds(older + newer) <==> DistinctIds(older) && DistinctIds(newer) && !ShareId(older, newer)
  {
    var all := older + newer;
    assert forall i | 0 <= i < |older| :: all[i] == older[i];
    assert forall j | 0 <= j < |newer| :: all[|older| + j] == newer[j];
    if ShareId(older, newer) {
      var e, f :| e in older && f in newer && e.id == f.id;
      var i, j :| 0 <= i < |older| && older[i] == e && 0 <= j < |newer| && newer[j] == f;
      assert all[i].id == all[|older| + j].id;
    }
    if DistinctIds(all) {
      forall i, j | 0 <= i < j < |newer| ensures newer[i].id != newer[j].id {
        assert all[|older| + i].id != all[|older| + j].id;
      }
    } else {
      var i, j :| 0 <= i < j < |all| && all[i].id == all[j].id;
      assert i < |older| <= j ==> older[i] in older && newer[j - |older|] in newer;
    }
  }

  lemma AppendDistinct(older: seq<Event>, newer: seq<Event>, pre: seq<Step>, s: Step)
    requires TimesInRange(pre + [s])
    requires Traced(older, pre) && Firsts(older)
    requires DistinctIds(newer) && Firsts(newer) && forall i | 0 <= i < |newer| :: IsEventOf(newer[i], s)
    ensures DistinctIds(older + newer) <==> DistinctIds(older) && !Meet(older, newer)
  {
    hide TimesInRange, Traced, IsEventOf, DistinctIds, Firsts, Meet, ShareId;
    DistinctConcat(older, newer);
    if Meet(older, newer) {
      MeetingShareId(older, newer);
    }
    if ShareId(older, newer) {
      SharedIdMeets(older, newer, pre, s);
    }
  }

  /** No step emits an event for a tag at a time at which an earlier one already did. */
  ghost predicate NoTwoAtOnce(steps: seq<Step>)
    requires ValidRun(steps)
  {
    steps == []
    || (NoTwoAtOnce(Init(steps))
        && !Meet(FleetRun(Init(steps)).events, NewEvents(Init(steps), Last(steps))))
  }

  ghost function NewEvents(pre: seq<Step>, s: Step): seq<Event>
    requires ValidRun(pre) && (s.Timeout? ==> Enumerates(s.order, FleetRun(pre).states.Keys))
  {
    EnumerationEnables(FleetRun(pre).states, s);
    FleetStep(FleetRun(pre).states, s).events
  }

  lemma RunGrows(pre: seq<Step>, s: Step)
    requires ValidRun(pre + [s])
    ensures ValidRun(pre) && (s.Timeout? ==> Enumerates(s.order, FleetRun(pre).states.Keys))
    ensures FleetRun(pre + [s]).events == FleetRun(pre).events + NewEvents(pre, s)
    ensures NoTwoAtOnce(pre + [s]) <==> NoTwoAtOnce(pre) && !Meet(FleetRun(pre).events, NewEvents(pre, s))
  {
    assert Init(pre + [s]) == pre && Last(pre + [s]) == s;
    hide FleetStep, Meet, Enumerates;
  }

  lemma NewEventsOf(pre: seq<Step>, s: Step)
    requires ValidRun(pre) && (s.Timeout? ==> Enumerates(s.order, FleetRun(pre).states.Keys))
    requires forall id | Concerns(s, id) :: StepTime(s) >= 0
    ensures var es := NewEvents(pre, s);
            DistinctIds(es) && Firsts(es) && forall i | 0 <= i < |es| :: IsEventOf(es[i], s)
  {
    hide FleetStep, DistinctIds, Firsts, IsEventOf, Concerns, StepTime, FleetRun;
    EnumerationEnables(FleetRun(pre).states, s);
    EnumerationIsDistinct(s, FleetRun(pre).states.Keys);
    StepIds(FleetRun(pre).states, s);
  }

  /** All identifiers of a multi-tag run are distinct if and only if no two of its steps emit
      events for the same tag at the same time. Steps that emit nothing, such as a repeated
      datagram, may share a time with others. */
  lemma {:induction false} IdsDistinctExactly(steps: seq<Step>)
    requires ValidRun(steps) && TimesInRange(steps)
    ensures DistinctIds(FleetRun(steps).events) <==> NoTwoAtOnce(steps)
    ensures Traced(FleetRun(steps).events, steps) && Firsts(FleetRun(steps).events)
  {
    hide Traced, DistinctIds, Firsts, IsEventOf, Meet, Concerns, TimesInRange, StepTime, NewEvents, NoTwoAtOnce,
         FleetRun, ValidRun, Enumerates;
    if steps == [] {
      NothingToTrace();
    } else {
      var pre, s := Init(steps), Last(steps);
      assert steps == pre + [s];
      TimesOfPrefix(pre, s);
      RunGrows(pre, s);
      IdsDistinctExactly(pre);
      NewEventsOf(pre, s);
      AppendDistinct(FleetRun(pre).events, NewEvents(pre, s), pre, s);
      TracedExtend(FleetRun(pre).events, NewEvents(pre, s), pre, s);
      FirstsExtend(FleetRun(pre).events, NewEvents(pre, s));
    }
  }

  lemma NothingToTrace()
    ensures ValidRun([]) && FleetRun([]).events == [] && NoTwoAtOnce([])
    ensures DistinctIds([]) && Traced([], []) && Firsts([])
  {
  }

  lemma EnumerationIsDistinct(s: Step, keys: set<string>)
    requires s.Timeout? ==> Enumerates(s.order, keys)
    ensures s.Timeout? ==> NoDup(s.order)
  {
  }

  lemma DistinctTimesApart(older: seq<Event>, newer: seq<Event>, pre: seq<Step>, s: Step)
    requires TimesDistinct(pre + [s]) && Traced(older, pre) && forall i | 0 <= i < |newer| :: IsEventOf(newer[i], s)
    ensures TimesDistinct(pre) && !Meet(older, newer)
  {
    hide Concerns, StepTime, EventId;
    var steps := pre + [s];
    assert steps[|pre|] == s && forall i | 0 <= i < |pre| :: steps[i] == pre[i];
    forall e, f | e in older && f in newer && e.actor.id == f.actor.id ensures e.timestamp != f.timestamp {
      var k :| 0 <= k < |pre| && IsEventOf(e, pre[k]);
      assert IsEventOf(f, s);
    }
  }

  /** In particular they are if the steps that concern a tag have distinct times. */
  lemma {:induction false} AllIdsDistinct(steps: seq<Step>)
    requires ValidRun(steps) && TimesDistinct(steps) && TimesInRange(steps)
    ensures NoTwoAtOnce(steps) && DistinctIds(FleetRun(steps).events)
  {
    hide Traced, DistinctIds, Firsts, IsEventOf, Meet, Concerns, TimesInRange, TimesDistinct, StepTime, NewEvents,
         NoTwoAtOnce, FleetRun, ValidRun, Enumerates;
    IdsDistinctExactly(steps);
    if steps == [] {
      NothingToTrace();
    } else {
      var pre, s := Init(steps), Last(steps);
      assert steps == pre + [s];
      TimesOfPrefix(pre, s);
      RunGrows(pre, s);
      NewEventsOf(pre, s);
      IdsDistinctExactly(pre);
      DistinctTimesApart(FleetRun(pre).events, NewEvents(pre, s), pre, s);
      AllIdsDistinct(pre);
    }
  }
}
