/** When the read loop sweeps. Each read waits one tick; a datagram that arrives in time is
    handled and the wait starts afresh, and only a read that times out runs the watchdog. */
module ReadLoop {
  import opened Domain
  import opened TagMachine
  import opened TagRuns
  import opened Fleet
  import opened Watchdog

  datatype Arrival = Arrival(at: Time, msg: UdpMsg)

  datatype Turn = Received(msg: UdpMsg) | TimedOut(now: Time)

  function Turns(start: Time, arrivals: seq<Arrival>, stop: Time, tick: Time): seq<Turn>
    requires tick > 0
    decreases |arrivals|, stop - start
  {
    if arrivals != [] && arrivals[0].at < start + tick then
      [Received(arrivals[0].msg)] + Turns(arrivals[0].at, arrivals[1..], stop, tick)
    else if start + tick <= stop then
      [TimedOut(start + tick)] + Turns(start + tick, arrivals, stop, tick)
    else []
  }

  predicate InOrder(start: Time, arrivals: seq<Arrival>, stop: Time)
    decreases arrivals
  {
    if arrivals == [] then start <= stop
    else start <= arrivals[0].at && InOrder(arrivals[0].at, arrivals[1..], stop)
  }

  /** The socket is quiet for a whole tick somewhere between start and stop. */
  predicate HasQuietTick(start: Time, arrivals: seq<Arrival>, stop: Time, tick: Time)
    decreases arrivals
  {
    if arrivals == [] then stop - start >= tick
    else arrivals[0].at - start >= tick || HasQuietTick(arrivals[0].at, arrivals[1..], stop, tick)
  }

  predicate Swept(turns: seq<Turn>) {
    exists i | 0 <= i < |turns| :: turns[i].TimedOut?
  }

  lemma {:induction false} OrderBounds(start: Time, arrivals: seq<Arrival>, stop: Time)
    requires InOrder(start, arrivals, stop)
    ensures start <= stop
    ensures arrivals != [] ==> arrivals[0].at <= stop
    decreases arrivals
  {
    if arrivals != [] {
      OrderBounds(arrivals[0].at, arrivals[1..], stop);
    }
  }

  /** The loop sweeps at all exactly when the socket is quiet for a tick: under steady traffic
      from any tags it never does. */
  lemma {:induction false} SweepsExactlyWhenQuiet(start: Time, arrivals: seq<Arrival>, stop: Time, tick: Time)
    requires tick > 0 && InOrder(start, arrivals, stop)
    ensures Swept(Turns(start, arrivals, stop, tick)) <==> HasQuietTick(start, arrivals, stop, tick)
    decreases arrivals
  {
    var turns := Turns(start, arrivals, stop, tick);
    OrderBounds(start, arrivals, stop);
    if arrivals != [] && arrivals[0].at < start + tick {
      var rest := Turns(arrivals[0].at, arrivals[1..], stop, tick);
      SweepsExactlyWhenQuiet(arrivals[0].at, arrivals[1..], stop, tick);
      if Swept(rest) {
        var i :| 0 <= i < |rest| && rest[i].TimedOut?;
        assert turns[i + 1].TimedOut?;
      }
      if Swept(turns) {
        var i :| 0 <= i < |turns| && turns[i].TimedOut?;
        assert rest[i - 1].TimedOut?;
      }
    } else if start + tick <= stop {
      assert turns[0].TimedOut?;
    }
  }

  /** What a tag sees of one turn, and of the loop's turns. */
  function SeenOne(id: string, turn: Turn): seq<Input> {
    match turn
    case TimedOut(now) => [Sweep(now)]
    case Received(m) =>
      match Parse(m)
      case Err(_) => []
      case Ok(msg) => if msg.tagId == id then [Packet(msg)] else []
  }

  function Seen(id: string, turns: seq<Turn>): seq<Input> {
    if turns == [] then [] else SeenOne(id, turns[0]) + Seen(id, turns[1..])
  }

  // The loop's turns are the steps of a run over the tag map.

  predicate IsTurn(s: Step, turn: Turn) {
    match turn
    case Received(m) => s == Datagram(m)
    case TimedOut(now) => s.Timeout? && s.now == now
  }

  predicate Follows(steps: seq<Step>, turns: seq<Turn>) {
    |steps| == |turns| && forall i | 0 <= i < |turns| :: IsTurn(steps[i], turns[i])
  }

  /** What a tag sees of the turns is its projection of the run that follows them. */
  lemma {:induction false} SeenIsProjected(id: string, steps: seq<Step>, turns: seq<Turn>)
    requires Follows(steps, turns)
    ensures Seen(id, turns) == Project(id, steps)
  {
    if turns != [] {
      var s, rest := steps[0], steps[1..];
      assert IsTurn(s, turns[0]) && forall i | 0 <= i < |rest| :: IsTurn(rest[i], turns[1..][i]);
      SeenIsProjected(id, rest, turns[1..]);
      assert steps == [s] + rest;
      ProjectConcat(id, [s], rest);
      ProjectOne(id, s);
    }
  }

  /** No accepted datagram of this tag. Those of other tags and malformed ones all restart the
      wait. */
  predicate OthersOnly(id: string, arrivals: seq<Arrival>) {
    forall i | 0 <= i < |arrivals| :: Parse(arrivals[i].msg).Ok? ==> arrivals[i].msg.tagId != id
  }

  /** The times of the reads that time out. */
  function TimeoutTimes(start: Time, arrivals: seq<Arrival>, stop: Time, tick: Time): seq<Time>
    requires tick > 0
    decreases |arrivals|, stop - start
  {
    if arrivals != [] && arrivals[0].at < start + tick then TimeoutTimes(arrivals[0].at, arrivals[1..], stop, tick)
    else if start + tick <= stop then [start + tick] + TimeoutTimes(start + tick, arrivals, stop, tick)
    else []
  }

  lemma {:induction false} SilentTagSeesSweeps(id: string, start: Time, arrivals: seq<Arrival>, stop: Time, tick: Time)
    requires tick > 0 && OthersOnly(id, arrivals)
    ensures Seen(id, Turns(start, arrivals, stop, tick)) == SweepsAt(TimeoutTimes(start, arrivals, stop, tick))
    decreases |arrivals|, stop - start
  {
    hide Parse, SweepsAt;
    if arrivals != [] && arrivals[0].at < start + tick {
      assert forall i | 0 <= i < |arrivals[1..]| :: arrivals[1..][i] == arrivals[i + 1];
      SilentTagSeesSweeps(id, arrivals[0].at, arrivals[1..], stop, tick);
      SeenPrepend(id, Received(arrivals[0].msg), Turns(arrivals[0].at, arrivals[1..], stop, tick));
      ParseKeepsTag(arrivals[0].msg);
    } else if start + tick <= stop {
      SilentTagSeesSweeps(id, start + tick, arrivals, stop, tick);
      SeenPrepend(id, TimedOut(start + tick), Turns(start + tick, arrivals, stop, tick));
      SweepsPrepend(start + tick, TimeoutTimes(start + tick, arrivals, stop, tick));
    } else {
      NothingSwept();
    }
  }

  lemma SeenPrepend(id: string, turn: Turn, turns: seq<Turn>)
    ensures Seen(id, [turn] + turns) == SeenOne(id, turn) + Seen(id, turns)
  {
    assert ([turn] + turns)[1..] == turns;
  }

  lemma ParseKeepsTag(m: UdpMsg)
    ensures Parse(m).Ok? ==> Parse(m).value.tagId == m.tagId
  {
  }

  lemma SweepsPrepend(t: Time, ts: seq<Time>)
    ensures SweepsAt([t] + ts) == [Sweep(t)] + SweepsAt(ts)
  {
  }

  lemma NothingSwept()
    ensures SweepsAt([]) == []
  {
  }

  /** The first tick of a wait begun at `from` that is not before the deadline. */
  function NextTick(from: Time, deadline: Time, tick: Time): (t: Time)
    requires tick > 0
    ensures from + tick <= t && deadline <= t
    ensures from < deadline ==> t < deadline + tick
    ensures from >= deadline ==> t == from + tick
    decreases deadline - from
  {
    if from + tick >= deadline then from + tick else NextTick(from + tick, deadline, tick)
  }

  /** The end of the pause that begins at `start`: the next arrival, or the end of the run. */
  function PauseEnd(arrivals: seq<Arrival>, stop: Time): Time {
    if arrivals == [] then stop else arrivals[0].at
  }

  /** Some pause between arrivals lasts until its first tick that is not before the deadline, and
      that tick comes by the time given. */
  predicate QuietUntilTick(start: Time, arrivals: seq<Arrival>, stop: Time, tick: Time, deadline: Time, limit: Time)
    requires tick > 0
    decreases arrivals
  {
    (NextTick(start, deadline, tick) <= PauseEnd(arrivals, stop) && NextTick(start, deadline, tick) <= limit)
    || (arrivals != [] && QuietUntilTick(arrivals[0].at, arrivals[1..], stop, tick, deadline, limit))
  }

  /** The times do not decrease, and lie between `low` and `high`. */
  predicate Ascending(ts: seq<Time>, low: Time, high: Time) {
    (forall i | 0 <= i < |ts| :: low <= ts[i] <= high) && forall i, j | 0 <= i <= j < |ts| :: ts[i] <= ts[j]
  }

  lemma PrependAscending(t: Time, ts: seq<Time>, high: Time)
    requires Ascending(ts, t, high) && t <= high
    ensures Ascending([t] + ts, t, high)
  {
    var all := [t] + ts;
    assert all[0] == t && forall i | 0 < i < |all| :: all[i] == ts[i - 1];
  }

  lemma {:induction false} TimeoutsInOrder(start: Time, arrivals: seq<Arrival>, stop: Time, tick: Time)
    requires tick > 0 && InOrder(start, arrivals, stop)
    ensures Ascending(TimeoutTimes(start, arrivals, stop, tick), start + tick, stop)
    decreases |arrivals|, stop - start
  {
    OrderBounds(start, arrivals, stop);
    if arrivals != [] && arrivals[0].at < start + tick {
      TimeoutsInOrder(arrivals[0].at, arrivals[1..], stop, tick);
    } else if start + tick <= stop {
      var rest := TimeoutTimes(start + tick, arrivals, stop, tick);
      TimeoutsInOrder(start + tick, arrivals, stop, tick);
      PrependAscending(start + tick, rest, stop);
    }
  }

  ghost predicate SomeWithin(ts: seq<Time>, low: Time, high: Time) {
    exists i | 0 <= i < |ts| :: low <= ts[i] <= high
  }

  lemma SomePrepend(t: Time, ts: seq<Time>, low: Time, high: Time)
    ensures SomeWithin([t] + ts, low, high) <==> low <= t <= high || SomeWithin(ts, low, high)
  {
    var all := [t] + ts;
    assert all[0] == t && forall i | 0 <= i < |ts| :: all[i + 1] == ts[i];
    assert forall i | 0 < i < |all| :: all[i] == ts[i - 1];
  }

  lemma NoTimeouts(low: Time, high: Time)
    ensures !SomeWithin([], low, high)
  {
  }

  lemma {:induction false} TimeoutsAfterDeadline(start: Time, arrivals: seq<Arrival>, stop: Time, tick: Time,
                                                 deadline: Time, limit: Time)
    requires tick > 0 && InOrder(start, arrivals, stop)
    ensures SomeWithin(TimeoutTimes(start, arrivals, stop, tick), deadline, limit)
            <==> QuietUntilTick(start, arrivals, stop, tick, deadline, limit)
    decreases |arrivals|, stop - start
  {
    hide SomeWithin;
    OrderBounds(start, arrivals, stop);
    if arrivals != [] && arrivals[0].at < start + tick {
      TimeoutsAfterDeadline(arrivals[0].at, arrivals[1..], stop, tick, deadline, limit);
    } else if start + tick <= stop {
      TimeoutsAfterDeadline(start + tick, arrivals, stop, tick, deadline, limit);
      SomePrepend(start + tick, TimeoutTimes(start + tick, arrivals, stop, tick), deadline, limit);
      if start + tick >= deadline {
        LaterTick(start, arrivals, stop, tick, deadline, limit);
      }
    } else {
      NoTimeouts(deadline, limit);
    }
  }

  /** Once a wait's tick is past the deadline, its next one adds nothing. */
  lemma LaterTick(start: Time, arrivals: seq<Arrival>, stop: Time, tick: Time, deadline: Time, limit: Time)
    requires tick > 0 && start + tick >= deadline && start + tick <= PauseEnd(arrivals, stop)
    ensures QuietUntilTick(start, arrivals, stop, tick, deadline, limit)
            <==> start + tick <= limit || QuietUntilTick(start + tick, arrivals, stop, tick, deadline, limit)
  {
  }

  ghost predicate ReportedBy(es: seq<Event>, id: string, t: Tag, limit: Time) {
    exists at | t.lastPacketTS + OFFLINE_THRESHOLD <= at <= limit :: es == [OfflineEvent(id, t, at)]
  }

  /** When the loop reports a silent tag, exactly. Whatever else arrives, it is reported once, by
      a given time, if and only if some pause in the traffic lasts until its first tick after
      the deadline and that tick comes by then; and never if there is no such pause. */
  lemma ReportedExactly(t: Tag, id: string, start: Time, arrivals: seq<Arrival>, stop: Time, tick: Time, limit: Time)
    requires t.online && !LocationLost(t) && tick > 0
    requires InOrder(start, arrivals, stop) && OthersOnly(id, arrivals)
    ensures var r := RunFrom(t, id, Seen(id, Turns(start, arrivals, stop, tick)));
            var deadline := t.lastPacketTS + OFFLINE_THRESHOLD;
            && (ReportedBy(r.events, id, t, limit) <==> QuietUntilTick(start, arrivals, stop, tick, deadline, limit))
            && (r.events == [] <==> !QuietUntilTick(start, arrivals, stop, tick, deadline, stop))
            && (r.tag == t.(online := r.events == []))
  {
    var deadline := t.lastPacketTS + OFFLINE_THRESHOLD;
    SilentTagSeesSweeps(id, start, arrivals, stop, tick);
    TimeoutsInOrder(start, arrivals, stop, tick);
    TimeoutsAfterDeadline(start, arrivals, stop, tick, deadline, limit);
    TimeoutsAfterDeadline(start, arrivals, stop, tick, deadline, stop);
    hide *;
    SweepsReportBy(t, id, TimeoutTimes(start, arrivals, stop, tick), start + tick, stop, limit);
  }

  lemma SweepsReportBy(t: Tag, id: string, ts: seq<Time>, low: Time, high: Time, limit: Time)
    requires t.online && !LocationLost(t) && Ascending(ts, low, high)
    ensures var r := RunFrom(t, id, SweepsAt(ts)); var deadline := t.lastPacketTS + OFFLINE_THRESHOLD;
            && (ReportedBy(r.events, id, t, limit) <==> SomeWithin(ts, deadline, limit))
            && (r.events == [] <==> !SomeWithin(ts, deadline, high))
            && r.tag == t.(online := r.events == [])
  {
    var k := FirstAtOrAfter(ts, t.lastPacketTS + OFFLINE_THRESHOLD);
    SweepsReport(t, id, ts, k);
    hide RunFrom, OfflineEvent, SweepsAt;
    if k < |ts| {
      ReportTimeIsUnique(id, t, ts[k]);
    }
  }

  lemma ReportTimeIsUnique(id: string, t: Tag, at: Time)
    ensures forall other | OfflineEvent(id, t, at) == OfflineEvent(id, t, other) :: at == other
  {
  }

  /** The pause that the deadline falls into lasts until its next tick. */
  predicate QuietAcross(start: Time, arrivals: seq<Arrival>, stop: Time, tick: Time, deadline: Time)
    requires tick > 0
    decreases arrivals
  {
    (start <= deadline && NextTick(start, deadline, tick) <= PauseEnd(arrivals, stop))
    || (arrivals != [] && QuietAcross(arrivals[0].at, arrivals[1..], stop, tick, deadline))
  }

  lemma {:induction false} AcrossIsByTick(start: Time, arrivals: seq<Arrival>, stop: Time, tick: Time, deadline: Time)
    requires tick > 0
    ensures QuietAcross(start, arrivals, stop, tick, deadline)
            <==> QuietUntilTick(start, arrivals, stop, tick, deadline, deadline + tick)
    decreases arrivals
  {
    if arrivals != [] {
      AcrossIsByTick(arrivals[0].at, arrivals[1..], stop, tick, deadline);
    }
  }

  /** The documented worst case, a tick after the 12 seconds. Take any run of the provider and
      let it go on with the read loop's turns under any traffic in which a tag stays silent: the
      tag's next event is its offline report and comes within the bound, if and only if the
      pause that its deadline falls into lasts until its next tick; and there is none at all if
      and only if no pause lasts until a tick after the deadline. */
  lemma WorstCaseExactly(pre: seq<Step>, later: seq<Step>, id: string, start: Time, arrivals: seq<Arrival>, stop: Time,
                         tick: Time)
    requires ValidRun(pre) && ValidRun(pre + later) && tick > 0
    requires Follows(later, Turns(start, arrivals, stop, tick))
    requires InOrder(start, arrivals, stop) && OthersOnly(id, arrivals)
    requires var t := TagOf(FleetRun(pre).states, id); t.online && !LocationLost(t)
    ensures var t := TagOf(FleetRun(pre).states, id); var deadline := t.lastPacketTS + OFFLINE_THRESHOLD;
            var before, after := OfActor(FleetRun(pre).events, id), OfActor(FleetRun(pre + later).events, id);
            && before <= after
            && (ReportedBy(after[|before|..], id, t, deadline + tick)
               <==> QuietAcross(start, arrivals, stop, tick, deadline))
            && (after == before <==> !QuietUntilTick(start, arrivals, stop, tick, deadline, stop))
  {
    hide FleetRun, ValidRun, RunFrom, Seen, Turns, Project, OfActor, ReportedBy, QuietUntilTick, QuietAcross, Follows;
    var t, seen := TagOf(FleetRun(pre).states, id), Seen(id, Turns(start, arrivals, stop, tick));
    var deadline := t.lastPacketTS + OFFLINE_THRESHOLD;
    TagIsolation(id, pre);
    TagIsolation(id, pre + later);
    ProjectConcat(id, pre, later);
    SeenIsProjected(id, later, Turns(start, arrivals, stop, tick));
    RunFromConcat(FRESH_TAG, id, Project(id, pre), seen);
    ReportedExactly(t, id, start, arrivals, stop, tick, deadline + tick);
    AcrossIsByTick(start, arrivals, stop, tick, deadline);
    var before, new' := OfActor(FleetRun(pre).events, id), RunFrom(t, id, seen).events;
    assert OfActor(FleetRun(pre + later).events, id) == before + new';
    assert (before + new')[|before|..] == new';
  }

  lemma {:induction false} QuietImplies(start: Time, arrivals: seq<Arrival>, stop: Time, tick: Time, deadline: Time,
      limit: Time)
    requires tick > 0 && QuietUntilTick(start, arrivals, stop, tick, deadline, limit)
    ensures HasQuietTick(start, arrivals, stop, tick)
    decreases arrivals
  {
    if NextTick(start, deadline, tick) > PauseEnd(arrivals, stop) || NextTick(start, deadline, tick) > limit {
      QuietImplies(arrivals[0].at, arrivals[1..], stop, tick, deadline, limit);
    }
  }

  /** So under traffic with no quiet tick at all nothing happens to a silent tag. */
  lemma BusySocketHidesSilence(t: Tag, id: string, start: Time, arrivals: seq<Arrival>, stop: Time, tick: Time)
    requires tick > 0 && InOrder(start, arrivals, stop) && OthersOnly(id, arrivals)
    requires !HasQuietTick(start, arrivals, stop, tick)
    ensures RunFrom(t, id, Seen(id, Turns(start, arrivals, stop, tick))) == TagOutcome(t, [])
  {
    var ts := TimeoutTimes(start, arrivals, stop, tick);
    SilentTagSeesSweeps(id, start, arrivals, stop, tick);
    if ts != [] {
      TimeoutsAfterDeadline(start, arrivals, stop, tick, ts[0], ts[0]);
      QuietImplies(start, arrivals, stop, tick, ts[0], ts[0]);
    }
    NothingSwept();
  }

  /** A quiet tick before the deadline does not help, at the loop's own pace of two seconds: one
      datagram of another tag a second before the deadline and one half a second after it leave
      the tag unreported two seconds after the deadline. */
  lemma EarlierQuietIsNotEnough(t: Tag, id: string, other: UdpMsg)
    requires t.online && !LocationLost(t) && other.tagId != id
    ensures WATCHDOG_TICK == 2_000_000_000
    ensures var start, stop := t.lastPacketTS, t.lastPacketTS + 14_000_000_000;
            var arrivals := [Arrival(start + 11_000_000_000, other), Arrival(start + 12_500_000_000, other)];
            && HasQuietTick(start, arrivals, stop, WATCHDOG_TICK)
            && RunFrom(t, id, Seen(id, Turns(start, arrivals, stop, WATCHDOG_TICK))).events == []
  {
    var start, stop, d := t.lastPacketTS, t.lastPacketTS + 14_000_000_000, t.lastPacketTS + OFFLINE_THRESHOLD;
    var arrivals := [Arrival(start + 11_000_000_000, other), Arrival(start + 12_500_000_000, other)];
    var second := [arrivals[1]];
    assert arrivals[1..] == second && second[1..] == [];
    assert InOrder(second[0].at, [], stop) && InOrder(arrivals[0].at, second, stop);
    assert !QuietUntilTick(second[0].at, [], stop, WATCHDOG_TICK, d, stop);
    assert !QuietUntilTick(arrivals[0].at, second, stop, WATCHDOG_TICK, d, stop);
    ReportedExactly(t, id, start, arrivals, stop, WATCHDOG_TICK, stop);
    hide Turns, Seen;
  }

  /** Quiet for one tick from the deadline on is enough, whatever arrived before. */
  lemma {:induction false} QuietFromDeadline(start: Time, arrivals: seq<Arrival>, stop: Time, tick: Time,
      deadline: Time)
    requires tick > 0 && InOrder(start, arrivals, stop) && start < deadline && deadline + tick <= stop
    requires forall i | 0 <= i < |arrivals| :: !(deadline <= arrivals[i].at < deadline + tick)
    ensures QuietUntilTick(start, arrivals, stop, tick, deadline, deadline + tick - 1)
    decreases arrivals
  {
    if arrivals != [] && arrivals[0].at < deadline {
      assert forall i | 0 <= i < |arrivals[1..]| :: arrivals[1..][i] == arrivals[i + 1];
      QuietFromDeadline(arrivals[0].at, arrivals[1..], stop, tick, deadline);
    }
  }

  /** Then the loop itself reports the tag once, on time and less than a tick late. */
  lemma QuietSocketLatency(t: Tag, id: string, start: Time, arrivals: seq<Arrival>, stop: Time, tick: Time)
      returns (at: Time)
    requires t.online && !LocationLost(t) && tick > 0
    requires InOrder(start, arrivals, stop) && OthersOnly(id, arrivals)
    requires start < t.lastPacketTS + OFFLINE_THRESHOLD && stop >= t.lastPacketTS + OFFLINE_THRESHOLD + tick
    requires forall i | 0 <= i < |arrivals| ::
               !(t.lastPacketTS + OFFLINE_THRESHOLD <= arrivals[i].at < t.lastPacketTS + OFFLINE_THRESHOLD + tick)
    ensures t.lastPacketTS + OFFLINE_THRESHOLD <= at < t.lastPacketTS + OFFLINE_THRESHOLD + tick
    ensures RunFrom(t, id, Seen(id, Turns(start, arrivals, stop, tick))).events == [OfflineEvent(id, t, at)]
  {
    hide RunFrom, Seen, Turns, OfflineEvent, QuietUntilTick;
    var deadline := t.lastPacketTS + OFFLINE_THRESHOLD;
    QuietFromDeadline(start, arrivals, stop, tick, deadline);
    ReportedExactly(t, id, start, arrivals, stop, tick, deadline + tick - 1);
    at :| deadline <= at <= deadline + tick - 1
          && RunFrom(t, id, Seen(id, Turns(start, arrivals, stop, tick))).events == [OfflineEvent(id, t, at)];
  }
}
