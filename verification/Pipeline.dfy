/** The provider and the repository run one after the other, as the objects they are, and what
    every subscriber can then rely on. */
module Pipeline {
  import opened Domain
  import opened Zones
  import opened TagMachine
  import opened TagRuns
  import opened Fleet
  import opened EmitChannel
  import opened ReadLoop
  import opened QuuppaAdapter
  import R = RepositoryModel
  import opened Repository
  import opened PublishedView
  import opened Watch
  import opened EndToEnd

  /** The subscriber holds for the tag the zones its latest datagram reported, if no scan missed a
      change, and an Inactive exactly while the record says offline or lost. */
  predicate Sees(view: map<R.Subject, Event>, topics: set<R.Topic>, id: string, ins: seq<Input>, t: Tag) {
    && (R.ZoneTopic in topics && NothingMissed(id, ins) ==>
          ToSet(ViewZones(view, id)) == ToSet(ReportedZones(LatestPacket(ins))))
    && (R.PresenceTopic in topics ==>
          (ViewInactive(view, id) <==> LatestPacket(ins).Some? && (!t.online || LocationLost(t))))
  }

  lemma AllSee(steps: seq<Step>, moves: seq<Move>, flags: seq<bool>)
    requires ValidRun(steps)
    requires var c := EmitChannel.Run(EMPTY, moves);
             c.derived == FleetRun(steps).events && Finished(c) && c.failed.None? && |flags| == |c.emitted|
    ensures var c := EmitChannel.Run(EMPTY, moves); var log := LogOf(c.emitted, flags);
            forall d, replay, topics, id | Delivered(d, BacklogOf(log, replay), topics)
              && KeptFor(c.derived, c.kept, id) ::
              Sees(FoldView(d), topics, id, Project(id, steps), TagOf(FleetRun(steps).states, id))
  {
    hide FoldView, Delivered, NothingMissed, ViewZones, ViewInactive, LogOf, FleetRun, ValidRun, EmitChannel.Run,
         Finished, KeptFor;
    var c := EmitChannel.Run(EMPTY, moves);
    var log := LogOf(c.emitted, flags);
    forall d, replay, topics, id | Delivered(d, BacklogOf(log, replay), topics) && KeptFor(c.derived, c.kept, id)
      ensures Sees(FoldView(d), topics, id, Project(id, steps), TagOf(FleetRun(steps).states, id))
    {
      SubscriberSeesLatest(steps, Route(moves, flags, replay, topics, d), id);
    }
  }

  /** The read loop handles a script of turns, and an empty repository stores what its goroutine
      emitted, with any bucket updates lost. If no emit was refused, every subscriber holds, for
      every tag of which no event was dropped, the zones its latest datagram reported and the
      presence of its record. */
  method Process(turns: seq<Turn>, answers: seq<seq<bool>>, clock: Time, lost: Event -> bool)
    returns (adapter: Adapter, repo: EventRepository, handled: nat, ghost steps: seq<Step>, ghost moves: seq<Move>)
    requires |answers| == |turns|
    ensures handled <= |turns| && Follows(steps, turns[..handled]) && ValidRun(steps)
    ensures FleetRun(steps).states == adapter.Tags() && EmitChannel.Run(EMPTY, moves) == adapter.queue.View()
    ensures NoRefusal(answers) ==> adapter.queue.failed.None? && handled == |turns|
    ensures var es := adapter.queue.emitted;
            repo.View() == R.RunRepo(Writes(es, seq(|es|, i requires 0 <= i < |es| => lost(es[i]))))
    ensures adapter.queue.failed.None? ==>
              forall d, replay, topics, id |
                Delivered(d, BacklogOf(repo.log, replay), topics)
                  && KeptFor(adapter.queue.derived, adapter.queue.kept, id) ::
                Sees(FoldView(d), topics, id, Project(id, steps), TagOf(adapter.Tags(), id))
  {
    hide FleetRun, ValidRun, EmitChannel.Run, Finished, Follows, Delivered, FoldView, Sees, Project, Records, R.RunFrom,
         Writes, KeptFor;
    adapter := new Adapter();
    handled, steps, moves := adapter.RunScript(turns, answers, clock, _ => true);
    ghost var tags, c := adapter.Tags(), adapter.queue.View();
    repo := new EventRepository([], map[]);
    var es := adapter.queue.emitted;
    var flags := seq(|es|, i requires 0 <= i < |es| => lost(es[i]));
    repo.Serve(Writes(es, flags));
    if adapter.queue.failed.None? {
      assert adapter.Tags() == tags && adapter.queue.View() == c;
      assert repo.View().log == LogOf(es, flags);
      AllSee(steps, moves, flags);
    }
  }
}
