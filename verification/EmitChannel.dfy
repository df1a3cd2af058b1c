/** The bounded channel between the read loop and the single goroutine that emits. The read
    loop never blocks: on a full channel it drops. The emitting side stops at the first
    emit that fails, and after the channel is closed it drains what is queued. */
module EmitChannel {
  import opened Domain

  const EMIT_CHAN_SIZE: nat := 1024

  /** `derived` and `kept` record what was handed to send and whether it was queued. */
  datatype Channel = Channel(
    queue: seq<Event>,
    inFlight: Option<Event>,
    emitted: seq<Event>,
    failed: Option<Event>,
    closed: bool,
    derived: seq<Event>,
    kept: seq<bool>)

  const EMPTY := Channel([], None, [], None, false, [], [])

  datatype Move = Send(ev: Event) | Take | Done(ok: bool) | Close

  /** A move that is not possible in a state (a blocked side) leaves it as it is. */
  function Next(c: Channel, m: Move): Channel {
    match m
    case Send(ev) =>
      if c.closed then c
      else if |c.queue| < EMIT_CHAN_SIZE then
        c.(queue := c.queue + [ev], derived := c.derived + [ev], kept := c.kept + [true])
      else c.(derived := c.derived + [ev], kept := c.kept + [false])
    case Take =>
      if c.inFlight.None? && c.failed.None? && c.queue != [] then
        c.(inFlight := Some(c.queue[0]), queue := c.queue[1..])
      else c
    case Done(ok) =>
      if c.inFlight.None? then c
      else if ok then c.(emitted := c.emitted + [c.inFlight.value], inFlight := None)
      else c.(failed := c.inFlight, inFlight := None)
    case Close => c.(closed := true)
  }

  function Run(c: Channel, moves: seq<Move>): Channel {
    if moves == [] then c else Next(Run(c, Init(moves)), Last(moves))
  }

  /** The elements of `es` whose flag is `flag`, in order. */
  function Select(es: seq<Event>, flags: seq<bool>, flag: bool): seq<Event>
    requires |es| == |flags|
  {
    if es == [] then []
    else Select(Init(es), Init(flags), flag) + if Last(flags) == flag then [Last(es)] else []
  }

  function AsSeq(e: Option<Event>): seq<Event> {
    if e.None? then [] else [e.value]
  }

  /** Everything that entered the channel, in the order it entered. */
  function Entered(c: Channel): seq<Event> {
    c.emitted + AsSeq(c.failed) + AsSeq(c.inFlight) + c.queue
  }

  /** The emitting goroutine has returned: after a failure, or on a closed and empty channel. */
  predicate Finished(c: Channel) {
    c.inFlight.None? && (c.failed.Some? || (c.closed && c.queue == []))
  }

  /** What every step keeps: the queue is bounded, the queued events are exactly the derived
      ones that were kept, in order, and nothing follows a failure. */
  predicate Conserved(c: Channel) {
    && |c.queue| <= EMIT_CHAN_SIZE
    && |c.kept| == |c.derived|
    && Select(c.derived, c.kept, true) == Entered(c)
    && (c.failed.Some? ==> c.inFlight.None?)
  }

  lemma SelectExtend(es: seq<Event>, flags: seq<bool>, ev: Event, flag: bool)
    requires |es| == |flags|
    ensures Select(es + [ev], flags + [flag], true) == Select(es, flags, true) + if flag then [ev] else []
  {
    assert Init(es + [ev]) == es && Init(flags + [flag]) == flags;
  }

  lemma NextConserves(c: Channel, m: Move)
    requires Conserved(c)
    ensures Conserved(Next(c, m))
  {
    hide Select;
    match m
    case Send(ev) =>
      SelectExtend(c.derived, c.kept, ev, |c.queue| < EMIT_CHAN_SIZE);
    case Take =>
      if c.inFlight.None? && c.failed.None? && c.queue != [] {
        TakeConserves(c);
      }
    case Done(_) =>
    case Close =>
  }

  lemma TakeConserves(c: Channel)
    requires c.inFlight.None? && c.failed.None? && c.queue != []
    ensures Entered(Next(c, Take)) == Entered(c)
  {
    assert [c.queue[0]] + c.queue[1..] == c.queue;
  }

  /** Conservation over every run: derived events split, by a mask that keeps their order,
      into dropped ones and emitted ++ failed ++ in flight ++ queued. The emitting side ends
      either by a failure or with every queued event emitted; with no drop it has then
      emitted exactly what was derived. */
  lemma {:induction false} Conservation(moves: seq<Move>)
    ensures var c := Run(EMPTY, moves);
            && Conserved(c)
            && c.emitted <= Select(c.derived, c.kept, true)
            && (Finished(c) && c.failed.None? ==> c.emitted == Select(c.derived, c.kept, true))
            && (Finished(c) && c.failed.None? && false !in c.kept ==> c.emitted == c.derived)
  {
    if moves != [] {
      Conservation(Init(moves));
      NextConserves(Run(EMPTY, Init(moves)), Last(moves));
    }
    var c := Run(EMPTY, moves);
    if false !in c.kept {
      SelectAll(c.derived, c.kept);
    }
  }

  lemma {:induction false} SelectAll(es: seq<Event>, flags: seq<bool>)
    requires |es| == |flags| && false !in flags
    ensures Select(es, flags, true) == es
  {
    if es != [] {
      assert Last(flags) in flags;
      assert flags == Init(flags) + [Last(flags)];
      SelectAll(Init(es), Init(flags));
      assert es == Init(es) + [Last(es)];
    }
  }

  lemma SelectLast(es: seq<Event>, flags: seq<bool>, flag: bool)
    requires |es| == |flags| && es != []
    ensures Select(es, flags, flag)
         == if Last(flags) == flag then Select(Init(es), Init(flags), flag) + [Last(es)]
            else Select(Init(es), Init(flags), flag)
  {
  }

  lemma CountedOnce(es: seq<Event>, e: Event)
    ensures multiset(es + [e]) == multiset(es) + multiset{e}
  {
  }

  lemma AddToEither(whole: multiset<Event>, a: multiset<Event>, b: multiset<Event>, e: multiset<Event>)
    requires whole == a + b
    ensures whole + e == (a + e) + b && whole + e == a + (b + e)
  {
  }

  lemma {:induction false} Partition(es: seq<Event>, flags: seq<bool>)
    requires |es| == |flags|
    ensures multiset(es) == multiset(Select(es, flags, true)) + multiset(Select(es, flags, false))
  {
    if es != [] {
      var pre, e := Init(es), Last(es);
      var kept, dropped := Select(pre, Init(flags), true), Select(pre, Init(flags), false);
      Partition(pre, Init(flags));
      SelectLast(es, flags, true);
      SelectLast(es, flags, false);
      assert es == pre + [e];
      hide Select, Init, Last;
      CountedOnce(pre, e);
      CountedOnce(kept, e);
      CountedOnce(dropped, e);
      AddToEither(multiset(pre), multiset(kept), multiset(dropped), multiset{e});
    }
  }

  /** No event is lost or invented: derived = emitted + failed + in flight + queued + dropped,
      as multisets, in every reachable state. */
  lemma NothingLost(moves: seq<Move>)
    ensures var c := Run(EMPTY, moves);
            |c.kept| == |c.derived| &&
            multiset(c.derived) == multiset(c.emitted) + multiset(AsSeq(c.failed)) + multiset(AsSeq(c.inFlight))
                                   + multiset(c.queue) + multiset(Select(c.derived, c.kept, false))
  {
    var c := Run(EMPTY, moves);
    Conservation(moves);
    Partition(c.derived, c.kept);
  }

  function Sends(events: seq<Event>): seq<Move> {
    seq(|events|, i requires 0 <= i < |events| => Send(events[i]))
  }

  /** A batch sent with room for all of it is queued whole. */
  lemma {:induction false} RoomForAll(c: Channel, events: seq<Event>)
    requires !c.closed && |c.queue| + |events| <= 1024
    ensures Run(c, Sends(events)).queue == c.queue + events
    ensures Run(c, Sends(events)).derived == c.derived + events
  {
    if events != [] {
      assert Init(Sends(events)) == Sends(Init(events));
      RoomForAll(c, Init(events));
      SendsStayOpen(c, Init(events));
      assert events == Init(events) + [Last(events)];
    }
  }

  lemma {:induction false} SendsStayOpen(c: Channel, events: seq<Event>)
    requires !c.closed
    ensures !Run(c, Sends(events)).closed && Run(c, Sends(events)).inFlight == c.inFlight
    ensures Run(c, Sends(events)).failed == c.failed && Run(c, Sends(events)).emitted == c.emitted
    ensures Run(c, Sends(events)).derived == c.derived + events
  {
    if events != [] {
      assert Init(Sends(events)) == Sends(Init(events));
      SendsStayOpen(c, Init(events));
      assert events == Init(events) + [Last(events)];
    }
  }

  lemma RunOne(c: Channel, m: Move)
    ensures Run(c, [m]) == Next(c, m)
  {
    assert Init([m]) == [] && Last([m]) == m;
    assert Run(c, []) == c;
  }

  lemma RunTwo(c: Channel, moves: seq<Move>, m: Move, n: Move)
    ensures Run(c, moves + [m, n]) == Next(Next(Run(c, moves), m), n)
  {
    assert Init(moves + [m, n]) == moves + [m] && Init(moves + [m]) == moves;
  }

  lemma {:induction false} RunConcat(c: Channel, a: seq<Move>, b: seq<Move>)
    ensures Run(c, a + b) == Run(Run(c, a), b)
  {
    if b == [] {
      assert a + b == a;
    } else {
      assert Init(a + b) == a + Init(b);
      RunConcat(c, a, Init(b));
    }
  }

  /** What the goroutine does with the handler's answers while the read loop waits: one event for
      each answer, until the queue is empty or an event is refused. */
  function Drain(c: Channel, answers: seq<bool>): Channel
    decreases |answers|
  {
    if answers == [] || c.queue == [] || c.failed.Some? then c
    else Drain(Next(Next(c, Take), Done(answers[0])), answers[1..])
  }

  /** What it does once the channel is closed, the answers being the handler's. */
  function DrainAll(c: Channel, accept: Event -> bool): Channel
    decreases |c.queue|
  {
    if c.queue == [] || c.failed.Some? || c.inFlight.Some? then c
    else DrainAll(Next(Next(c, Take), Done(accept(c.queue[0]))), accept)
  }

  lemma DrainStep(c: Channel, answers: seq<bool>)
    ensures answers == [] || c.queue == [] || c.failed.Some? ==> Drain(c, answers) == c
    ensures answers != [] && c.queue != [] && c.failed.None? ==>
              Drain(c, answers) == Drain(Next(Next(c, Take), Done(answers[0])), answers[1..])
  {
    hide Next;
  }

  lemma DrainAllStep(c: Channel, accept: Event -> bool)
    requires c.inFlight.None?
    ensures c.queue == [] || c.failed.Some? ==> DrainAll(c, accept) == c
    ensures c.queue != [] && c.failed.None? ==>
              DrainAll(c, accept) == DrainAll(Next(Next(c, Take), Done(accept(c.queue[0]))), accept)
  {
  }

  /** The emitting goroutine's side of the channel, and the read loop's send. */
  class EmitQueue {
    var queue: seq<Event>
    var inFlight: Option<Event>
    var emitted: seq<Event>
    var failed: Option<Event>
    var closed: bool
    ghost var derived: seq<Event>
    ghost var kept: seq<bool>

    ghost function View(): Channel
      reads this
    {
      Channel(queue, inFlight, emitted, failed, closed, derived, kept)
    }

    constructor ()
      ensures View() == EMPTY
    {
      queue, inFlight, emitted, failed, closed := [], None, [], None, false;
      derived, kept := [], [];
    }

    /** Non-blocking send: false when the event was dropped. */
    method TrySend(ev: Event) returns (ok: bool)
      requires !closed
      modifies this
      ensures View() == Next(old(View()), Send(ev))
      ensures ok <==> old(|queue|) < 1024
      ensures queue == if ok then old(queue) + [ev] else old(queue)
    {
      ok := |queue| < EMIT_CHAN_SIZE;
      derived, kept := derived + [ev], kept + [ok];
      if ok {
        queue := queue + [ev];
      }
    }

    /** Send a whole batch, as the read loop does with the events of one datagram. */
    method SendEach(events: seq<Event>)
      requires !closed
      modifies this
      ensures View() == Run(old(View()), Sends(events))
      ensures !closed
    {
      for i := 0 to |events|
        invariant View() == Run(old(View()), Sends(events[..i])) && !closed
      {
        var _ := TrySend(events[i]);
        assert Init(Sends(events[..i + 1])) == Sends(events[..i]);
      }
      assert events[..|events|] == events;
    }

    /** One turn of the emitting goroutine: receive an event and hand it upstream, where
        `accept` is the handler's answer. */
    method EmitOne(accept: bool)
      requires inFlight.None? && failed.None? && queue != []
      modifies this
      ensures View() == Next(Next(old(View()), Take), Done(accept))
    {
      inFlight, queue := Some(queue[0]), queue[1..];
      if accept {
        emitted, inFlight := emitted + [inFlight.value], None;
      } else {
        failed, inFlight := inFlight, None;
      }
    }

    /** Some turns of the emitting goroutine between two turns of the read loop, with the
        handler's answers. It takes events in order and stops at the first one refused, which
        is then the one that failed; `taken` is how many were accepted before that. */
    method EmitSome(answers: seq<bool>) returns (taken: nat, ghost moves: seq<Move>)
      requires inFlight.None?
      modifies this
      ensures View() == Run(old(View()), moves) && inFlight.None?
      ensures View() == Drain(old(View()), answers)
      ensures derived == old(derived) && kept == old(kept) && closed == old(closed)
      ensures taken <= |answers| && taken <= |old(queue)| && forall i | 0 <= i < taken :: answers[i]
      ensures emitted == old(emitted) + old(queue)[..taken]
      ensures old(failed).Some? ==> taken == 0 && failed == old(failed) && queue == old(queue)
      ensures old(failed).None? && (taken == |answers| || taken == |old(queue)|) ==>
                failed.None? && queue == old(queue)[taken..]
      ensures old(failed).None? && taken < |answers| && taken < |old(queue)| ==>
                !answers[taken] && failed == Some(old(queue)[taken]) && queue == old(queue)[taken + 1..]
    {
      hide Run, Drain;
      moves, taken := [], 0;
      NoMoves(View());
      DrainStep(View(), answers);
      if failed.Some? {
        return;
      }
      assert answers[0..] == answers;
      while taken < |answers| && queue != []
        invariant View() == Run(old(View()), moves) && inFlight.None? && failed.None?
        invariant derived == old(derived) && kept == old(kept) && closed == old(closed)
        invariant taken <= |answers| && taken <= |old(queue)| && forall i | 0 <= i < taken :: answers[i]
        invariant emitted == old(emitted) + old(queue)[..taken] && queue == old(queue)[taken..]
        invariant Drain(View(), answers[taken..]) == Drain(old(View()), answers)
      {
        DrainStep(View(), answers[taken..]);
        assert answers[taken..][1..] == answers[taken + 1..];
        EmitOne(answers[taken]);
        RunTwo(old(View()), moves, Take, Done(answers[taken]));
        moves := moves + [Take, Done(answers[taken])];
        if !answers[taken] {
          DrainStep(View(), answers[taken + 1..]);
          return;
        }
        taken := taken + 1;
      }
      DrainStep(View(), answers[taken..]);
    }

    /** Shutdown: close, then the goroutine drains the queue, until it is empty or an event is
        refused, which is then the one that failed. */
    method Shutdown(accept: Event -> bool) returns (taken: nat, ghost moves: seq<Move>)
      requires inFlight.None?
      modifies this
      ensures View() == Run(old(View()), moves) && Finished(View())
      ensures View() == DrainAll(Next(old(View()), Close), accept)
      ensures derived == old(derived) && kept == old(kept)
      ensures taken <= |old(queue)| && forall i | 0 <= i < taken :: accept(old(queue)[i])
      ensures emitted == old(emitted) + old(queue)[..taken]
      ensures old(failed).Some? ==> taken == 0 && failed == old(failed) && queue == old(queue)
      ensures old(failed).None? && taken == |old(queue)| ==> failed.None? && queue == []
      ensures old(failed).None? && taken < |old(queue)| ==>
                !accept(old(queue)[taken]) && failed == Some(old(queue)[taken]) && queue == old(queue)[taken + 1..]
    {
      hide Run, DrainAll;
      closed := true;
      moves, taken := [Close], 0;
      RunOne(old(View()), Close);
      DrainAllStep(View(), accept);
      if failed.Some? {
        return;
      }
      while queue != []
        invariant View() == Run(old(View()), moves) && inFlight.None? && closed && failed.None?
        invariant derived == old(derived) && kept == old(kept)
        invariant taken <= |old(queue)| && forall i | 0 <= i < taken :: accept(old(queue)[i])
        invariant emitted == old(emitted) + old(queue)[..taken] && queue == old(queue)[taken..]
        invariant DrainAll(View(), accept) == DrainAll(Next(old(View()), Close), accept)
        decreases |queue|
      {
        DrainAllStep(View(), accept);
        var answer := accept(queue[0]);
        EmitOne(answer);
        RunTwo(old(View()), moves, Take, Done(answer));
        moves := moves + [Take, Done(answer)];
        if !answer {
          DrainAllStep(View(), accept);
          return;
        }
        taken := taken + 1;
      }
      DrainAllStep(View(), accept);
    }
  }

  lemma NoMoves(c: Channel)
    ensures Run(c, []) == c
  {
  }
}
