/** The offline sweep when the handler may refuse events, and how late a silent tag can be
    reported by a loop that sweeps only when a read times out. */
module Watchdog {
  import opened Domain
  import opened Zones
  import opened TagMachine
  import opened TagRuns
  import opened Fleet

  datatype Call = Call(now: Time, order: seq<string>, emit: Event -> bool)

  /** A sweep that stops part way flips exactly the tags whose event was accepted, and
      touches nothing else; it fails exactly when some due tag's event is refused. */
  lemma SweepFlipsAccepted(states: map<string, Tag>, c: Call, id: string)
    requires Enumerates(c.order, states.Keys) && Enabled(states, Timeout(c.now, c.order)) && id in states
    ensures var r := SweepAll(states, c.now, c.order, c.emit);
            var mine := OfActor(r.events, id);
            && r.states.Keys == states.Keys
            && r.states[id] == states[id].(online := states[id].online && mine == [])
            && (mine == [] || (mine == [OfflineEvent(id, states[id], c.now)]
                               && OfflineDue(states[id], c.now) && c.emit(mine[0])))
            && (!r.failed ==> (mine != [] <==> OfflineDue(states[id], c.now)))
  {
    SweepOneTag(states, c.now, c.order, c.emit, id);
    assert id in ToSet(c.order);
  }

  ghost predicate SomeRefused(states: map<string, Tag>, now: Time, order: seq<string>, emit: Event -> bool)
    requires forall id | id in order :: id in states
  {
    exists id | id in order :: OfflineDue(states[id], now) && !emit(OfflineEvent(id, states[id], now))
  }

  lemma {:induction false} SweepFailsExactly(states: map<string, Tag>, now: Time, order: seq<string>,
      emit: Event -> bool)
    requires NoDup(order) && forall id | id in order :: id in states
    ensures SweepAll(states, now, order, emit).failed <==> SomeRefused(states, now, order, emit)
  {
    if order != [] {
      var o, t, rest := order[0], states[order[0]], order[1..];
      assert order == [o] + rest && o !in rest;
      if OfflineDue(t, now) && emit(OfflineEvent(o, t, now)) {
        SweepFailsExactly(states[o := t.(online := false)], now, rest, emit);
      } else if !OfflineDue(t, now) {
        SweepFailsExactly(states, now, rest, emit);
      }
    }
  }

  lemma RefusedSplit(states: map<string, Tag>, states': map<string, Tag>, now: Time, o: string, tail: seq<string>,
      emit: Event -> bool)
    requires o in states && forall id | id in tail :: id in states && id in states' && states'[id] == states[id]
    ensures SomeRefused(states, now, [o] + tail, emit)
            <==> (|| (OfflineDue(states[o], now) && !emit(OfflineEvent(o, states[o], now)))
                  || SomeRefused(states', now, tail, emit))
  {
    var order := [o] + tail;
    assert o in order && forall id | id in tail :: id in order;
    assert forall id | id in order :: id == o || id in tail;
  }

  /** Which tags a sweep reports, exactly: those that are due and accepted, if no tag before
      them in the visiting order is refused. */
  lemma {:induction false} SweepAcceptsExactly(states: map<string, Tag>, now: Time, before: seq<string>, id: string,
                                               after: seq<string>, emit: Event -> bool)
    requires NoDup(before + [id] + after) && forall o | o in before + [id] + after :: o in states
    ensures OfActor(SweepAll(states, now, before + [id] + after, emit).events, id) != []
            <==> (&& OfflineDue(states[id], now) && emit(OfflineEvent(id, states[id], now))
                  && !SomeRefused(states, now, before, emit))
    decreases |before|
  {
    hide SweepAll, SomeRefused, OfActor, OfflineEvent, OfflineDue;
    var order := before + [id] + after;
    if before == [] {
      assert order[0] == id && order[1..] == after;
      SweepHead(states, now, order, emit, id);
      NotAgain(states, now, order, emit);
      NoneRefused(states, now, emit);
    } else {
      var o, tail := before[0], before[1..];
      var states' := if OfflineDue(states[o], now) then states[o := states[o].(online := false)] else states;
      assert order[0] == o && order[1..] == tail + [id] + after && before == [o] + tail;
      assert o !in tail + [id] + after by {
        assert order == [o] + (tail + [id] + after);
      }
      assert forall q | q in tail + [id] + after :: q in order;
      SweepHead(states, now, order, emit, id);
      RefusedSplit(states, states', now, o, tail, emit);
      SweepAcceptsExactly(states', now, tail, id, after, emit);
    }
  }

  /** The first visited tag's part in a sweep, seen from any tag. */
  lemma SweepHead(states: map<string, Tag>, now: Time, order: seq<string>, emit: Event -> bool, id: string)
    requires order != [] && forall o | o in order :: o in states
    ensures var o, t := order[0], states[order[0]]; var ev := OfflineEvent(o, t, now);
            OfActor(SweepAll(states, now, order, emit).events, id) ==
            if !OfflineDue(t, now) then OfActor(SweepAll(states, now, order[1..], emit).events, id)
            else if !emit(ev) then []
            else (if o == id then [ev] else [])
                 + OfActor(SweepAll(states[o := t.(online := false)], now, order[1..], emit).events, id)
  {
    var o, t := order[0], states[order[0]];
    var ev := OfflineEvent(o, t, now);
    OfActorOne(ev, id);
    OfActorConcat([ev], SweepAll(states[o := t.(online := false)], now, order[1..], emit).events, id);
  }

  lemma NotAgain(states: map<string, Tag>, now: Time, order: seq<string>, emit: Event -> bool)
    requires NoDup(order) && order != [] && forall o | o in order :: o in states
    ensures !OfflineDue(states[order[0]], now) ==>
            OfActor(SweepAll(states, now, order[1..], emit).events, order[0]) == []
  {
    SweepOneTag(states, now, order[1..], emit, order[0]);
  }

  lemma OfActorOne(e: Event, id: string)
    ensures OfActor([e], id) == if e.actor.id == id then [e] else []
  {
    assert Init([e]) == [] && Last([e]) == e;
  }

  lemma NoneRefused(states: map<string, Tag>, now: Time, emit: Event -> bool)
    ensures !SomeRefused(states, now, [], emit)
  {
  }

  datatype Sweeps = Sweeps(states: map<string, Tag>, events: seq<Event>, clean: bool)

  /** Sweeps one after another, no datagram between them. `clean` says that the last one met
      no refusal. */
  ghost function SweepRun(states: map<string, Tag>, calls: seq<Call>): Sweeps
    requires forall i | 0 <= i < |calls| :: Enumerates(calls[i].order, states.Keys)
    ensures SweepRun(states, calls).states.Keys == states.Keys
  {
    if calls == [] then Sweeps(states, [], false)
    else
      var before := SweepRun(states, Init(calls));
      var c := Last(calls);
      EnumerationEnables(before.states, Timeout(c.now, c.order));
      var r := SweepAll(before.states, c.now, c.order, c.emit);
      SweepKeepsKeys(before.states, c);
      Sweeps(r.states, before.events + r.events, !r.failed)
  }

  lemma SweepKeepsKeys(states: map<string, Tag>, c: Call)
    requires Enumerates(c.order, states.Keys) && Enabled(states, Timeout(c.now, c.order))
    ensures SweepAll(states, c.now, c.order, c.emit).states.Keys == states.Keys
  {
    SweepKeysOnly(states, c.now, c.order, c.emit);
  }

  lemma {:induction false} SweepKeysOnly(states: map<string, Tag>, now: Time, order: seq<string>, emit: Event -> bool)
    requires forall id | id in order :: id in states
    ensures SweepAll(states, now, order, emit).states.Keys == states.Keys
  {
    if order != [] {
      var o, t := order[0], states[order[0]];
      SweepKeysOnly(if OfflineDue(t, now) then states[o := t.(online := false)] else states, now, order[1..], emit);
      SweepKeysOnly(states, now, order[1..], emit);
    }
  }

  /** Over any sweeps, a tag is accepted at most once, and its record differs only in the
      online flag, which is down exactly if it was accepted or was down before. After a sweep
      that met no refusal, no tag left unaccepted is due. */
  lemma {:induction false} AcceptedAtMostOnce(states: map<string, Tag>, calls: seq<Call>, id: string)
    requires forall i | 0 <= i < |calls| :: Enumerates(calls[i].order, states.Keys)
    requires id in states
    ensures var r := SweepRun(states, calls); var mine := OfActor(r.events, id);
            && |mine| <= 1
            && r.states[id] == states[id].(online := states[id].online && mine == [])
            && (!states[id].online || LocationLost(states[id]) ==> mine == [])
            && (mine == [] && r.clean ==> !OfflineDue(states[id], Last(calls).now))
  {
    if calls != [] {
      var pre, c := Init(calls), Last(calls);
      AcceptedAtMostOnce(states, pre, id);
      var before := SweepRun(states, pre);
      EnumerationEnables(before.states, Timeout(c.now, c.order));
      SweepFlipsAccepted(before.states, c, id);
      OfActorConcat(before.events, SweepAll(before.states, c.now, c.order, c.emit).events, id);
    }
  }

  /** The sweep reaches a tag that is due and its event is accepted: no tag visited before it
      is refused. */
  ghost predicate Accepts(states: map<string, Tag>, c: Call, id: string)
    requires id in states && Enabled(states, Timeout(c.now, c.order))
  {
    && OfflineDue(states[id], c.now)
    && c.emit(OfflineEvent(id, states[id], c.now))
    && forall k | 0 <= k < |c.order| && c.order[k] == id :: !SomeRefused(states, c.now, c.order[..k], c.emit)
  }

  /** Sweep number i of the series accepts the tag, whatever it does about others. */
  ghost predicate AcceptedAt(states: map<string, Tag>, calls: seq<Call>, i: nat, id: string)
    requires forall j | 0 <= j < |calls| :: Enumerates(calls[j].order, states.Keys)
    requires id in states && i < |calls|
  {
    var before := SweepRun(states, calls[..i]).states;
    EnumerationEnables(before, Timeout(calls[i].now, calls[i].order));
    Accepts(before, calls[i], id)
  }

  lemma SweepAccepts(states: map<string, Tag>, c: Call, id: string)
    requires id in states && Enumerates(c.order, states.Keys) && Enabled(states, Timeout(c.now, c.order))
    ensures OfActor(SweepAll(states, c.now, c.order, c.emit).events, id)
         == if Accepts(states, c, id) then [OfflineEvent(id, states[id], c.now)] else []
  {
    assert id in ToSet(c.order);
    var k :| 0 <= k < |c.order| && c.order[k] == id;
    AcceptsByIndex(states, c, id, k);
    SplitAt(c.order, k);
    hide SweepAll, OfflineEvent, OfflineDue, OfActor, SomeRefused, Accepts;
    SweepAcceptsExactly(states, c.now, c.order[..k], id, c.order[k + 1..], c.emit);
    hide NoDup;
    SweepFlipsAccepted(states, c, id);
  }

  lemma SplitAt(s: seq<string>, k: nat)
    requires k < |s|
    ensures s == s[..k] + [s[k]] + s[k + 1..]
  {
  }

  lemma AcceptsByIndex(states: map<string, Tag>, c: Call, id: string, k: nat)
    requires id in states && NoDup(c.order) && Enabled(states, Timeout(c.now, c.order))
    requires k < |c.order| && c.order[k] == id
    ensures Accepts(states, c, id) <==> OfflineDue(states[id], c.now) && c.emit(OfflineEvent(id, states[id], c.now))
                                        && !SomeRefused(states, c.now, c.order[..k], c.emit)
  {
    hide OfflineEvent, OfflineDue, SomeRefused;
  }

  /** One more sweep: it adds the tag's one report if it accepts the tag, which it can only do
      while there is none yet. */
  lemma SweepRunStep(states: map<string, Tag>, calls: seq<Call>, i: nat, id: string)
    requires forall j | 0 <= j < |calls| :: Enumerates(calls[j].order, states.Keys)
    requires id in states && i < |calls|
    ensures var earlier := OfActor(SweepRun(states, calls[..i]).events, id);
            var mine := OfActor(SweepRun(states, calls[..i + 1]).events, id);
            if AcceptedAt(states, calls, i, id)
            then earlier == [] && mine == [OfflineEvent(id, states[id], calls[i].now)]
            else mine == earlier
  {
    hide OfflineEvent, Accepts, OfActor, SweepAll;
    var before, c := SweepRun(states, calls[..i]), calls[i];
    assert Init(calls[..i + 1]) == calls[..i] && Last(calls[..i + 1]) == c;
    EnumerationEnables(before.states, Timeout(c.now, c.order));
    OfActorConcat(before.events, SweepAll(before.states, c.now, c.order, c.emit).events, id);
    SweepAccepts(before.states, c, id);
    AcceptedAtMostOnce(states, calls[..i], id);
    if Accepts(before.states, c, id) {
      AcceptsOnline(before.states, c, id);
      assert before.states[id] == states[id];
    }
  }

  lemma AcceptsOnline(states: map<string, Tag>, c: Call, id: string)
    requires id in states && Enabled(states, Timeout(c.now, c.order)) && Accepts(states, c, id)
    ensures states[id].online
  {
  }

  /** Exactly once: over any sweeps a tag is reported if and only if one of them accepts it,
      and the sweep that does reports it for good: the whole series, however long it goes on
      and whatever happens to other tags, holds that one event for it. */
  lemma ExactlyOnce(states: map<string, Tag>, calls: seq<Call>, id: string)
    requires forall i | 0 <= i < |calls| :: Enumerates(calls[i].order, states.Keys)
    requires id in states
    ensures OfActor(SweepRun(states, calls).events, id) == []
            <==> forall i | 0 <= i < |calls| :: !AcceptedAt(states, calls, i, id)
    ensures forall i | 0 <= i < |calls| && AcceptedAt(states, calls, i, id) ::
              OfActor(SweepRun(states, calls).events, id) == [OfflineEvent(id, states[id], calls[i].now)]
  {
    hide AcceptedAt, SweepRun, OfflineEvent;
    assert calls[..|calls|] == calls;
    AcceptedUpTo(states, calls, |calls|, id);
  }

  lemma {:induction false} AcceptedUpTo(states: map<string, Tag>, calls: seq<Call>, n: nat, id: string)
    requires forall i | 0 <= i < |calls| :: Enumerates(calls[i].order, states.Keys)
    requires id in states && n <= |calls|
    ensures var mine := OfActor(SweepRun(states, calls[..n]).events, id);
            && (mine == [] <==> forall i | 0 <= i < n :: !AcceptedAt(states, calls, i, id))
            && forall i | 0 <= i < n && AcceptedAt(states, calls, i, id) ::
               mine == [OfflineEvent(id, states[id], calls[i].now)]
  {
    hide AcceptedAt, SweepRun, OfflineEvent, Enumerates, OfActor;
    if n == 0 {
      NothingSwept(states, calls[..0], id);
    } else {
      AcceptedUpTo(states, calls, n - 1, id);
      SweepRunStep(states, calls, n - 1, id);
    }
  }

  lemma NothingSwept(states: map<string, Tag>, calls: seq<Call>, id: string)
    requires calls == []
    ensures OfActor(SweepRun(states, calls).events, id) == []
  {
  }

  // How late the report can be.

  function SweepsAt(times: seq<Time>): seq<Input> {
    seq(|times|, i requires 0 <= i < |times| => Sweep(times[i]))
  }

  /** Before the deadline sweeps do nothing; after the report they do nothing more. */
  lemma {:induction false} SweepsReport(t: Tag, id: string, times: seq<Time>, k: nat)
    requires t.online && !LocationLost(t)
    requires forall i, j | 0 <= i <= j < |times| :: times[i] <= times[j]
    requires k <= |times|
    requires forall i | 0 <= i < k :: times[i] < t.lastPacketTS + OFFLINE_THRESHOLD
    requires forall i | k <= i < |times| :: times[i] >= t.lastPacketTS + OFFLINE_THRESHOLD
    ensures RunFrom(t, id, SweepsAt(times)).events == if k < |times| then [OfflineEvent(id, t, times[k])] else []
    ensures RunFrom(t, id, SweepsAt(times)).tag == t.(online := k == |times|)
  {
    if times != [] {
      var pre := Init(times);
      assert Init(SweepsAt(times)) == SweepsAt(pre) && Last(SweepsAt(times)) == Sweep(Last(times));
      SweepsReport(t, id, pre, if k < |times| then k else k - 1);
    }
  }

  function FirstAtOrAfter(times: seq<Time>, deadline: Time): (k: nat)
    ensures k <= |times|
    ensures forall i | 0 <= i < k :: times[i] < deadline
    ensures k < |times| ==> times[k] >= deadline
  {
    if times == [] then 0 else if times[0] >= deadline then 0
    else
      var rest := FirstAtOrAfter(times[1..], deadline);
      assert forall i | 0 < i < rest + 1 :: times[i] == times[1..][i - 1];
      rest + 1
  }

  /** Sweeps at most one tick apart, the first no later than the threshold after the last
      packet and the last no earlier: one report, at or after the threshold and less than a
      tick late. */
  lemma LatencyBound(t: Tag, id: string, times: seq<Time>, tick: Time) returns (at: Time)
    requires t.online && !LocationLost(t) && times != [] && tick > 0
    requires forall i, j | 0 <= i <= j < |times| :: times[i] <= times[j]
    requires forall i | 0 < i < |times| :: times[i] - times[i - 1] <= tick
    requires times[0] <= t.lastPacketTS + OFFLINE_THRESHOLD <= Last(times)
    ensures t.lastPacketTS + OFFLINE_THRESHOLD <= at < t.lastPacketTS + OFFLINE_THRESHOLD + tick
    ensures at in times && RunFrom(t, id, SweepsAt(times)).events == [OfflineEvent(id, t, at)]
  {
    var deadline := t.lastPacketTS + OFFLINE_THRESHOLD;
    var k := FirstAtOrAfter(times, deadline);
    assert k < |times| by {
      assert Last(times) == times[|times| - 1];
    }
    at := times[k];
    SweepsReport(t, id, times, k);
    if k > 0 {
      assert times[k] - times[k - 1] <= tick && times[k - 1] < deadline;
    }
  }
}
