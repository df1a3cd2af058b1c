/** The change log without losses: each actor's change streams are that actor's events of the
    kind with consecutive repeats removed, and nothing else. */
module ChangeLog {
  import opened Domain
  import opened Zones
  import opened RepositoryModel
  import opened Repetition

  /** The events written for one actor and of one type, in order. */
  function Wrote(steps: seq<Step>, id: string, kind: EventType): seq<Event> {
    if steps == [] then []
    else
      Wrote(Init(steps), id, kind) +
      if Last(steps).WriteStep? && Last(steps).event.actor.id == id && Last(steps).event.kind == kind
      then [Last(steps).event] else []
  }

  /** The independent definition: an event stays unless it equals its immediate predecessor. */
  function DropRepeats(es: seq<Event>, k: Kind): seq<Event> {
    if es == [] then []
    else
      DropRepeats(Init(es), k) +
      if |es| > 1 && SameSnap(SnapOf(es[|es| - 2], k), SnapOf(Last(es), k)) then [] else [Last(es)]
  }

  /** What the repository does instead: an event is compared with the last one published. */
  function DropKnown(es: seq<Event>, k: Kind): seq<Event> {
    if es == [] then []
    else
      var kept := DropKnown(Init(es), k);
      if kept != [] && SameSnap(SnapOf(Last(kept), k), SnapOf(Last(es), k)) then kept else kept + [Last(es)]
  }

  ghost predicate ZonesNoDup(es: seq<Event>) {
    forall i | 0 <= i < |es| :: NoDup(es[i].Zones())
  }

  lemma SameSnapEquivalence(a: Event, b: Event, c: Event, k: Kind)
    requires NoDup(a.Zones()) && NoDup(b.Zones()) && NoDup(c.Zones())
    ensures SameSnap(SnapOf(a, k), SnapOf(a, k))
    ensures SameSnap(SnapOf(a, k), SnapOf(b, k)) ==> SameSnap(SnapOf(b, k), SnapOf(a, k))
    ensures SameSnap(SnapOf(a, k), SnapOf(b, k)) && SameSnap(SnapOf(b, k), SnapOf(c, k)) ==>
            SameSnap(SnapOf(a, k), SnapOf(c, k))
  {
    SameZonesEquivalence(a.Zones(), b.Zones(), c.Zones());
  }

  /** On lists without duplicates the two agree, because the comparison is an equivalence: the
      last kept event stands for every event since. */
  lemma {:induction false} KnownIsRepeat(es: seq<Event>, k: Kind)
    requires ZonesNoDup(es)
    ensures DropKnown(es, k) == DropRepeats(es, k)
    ensures es != [] ==> var kept := DropKnown(es, k);
                         kept != [] && Last(kept) in es && SameSnap(SnapOf(Last(kept), k), SnapOf(Last(es), k))
  {
    if es != [] {
      var pre, e := Init(es), Last(es);
      assert es == pre + [e];
      assert forall i | 0 <= i < |pre| :: pre[i] == es[i];
      assert e == es[|es| - 1];
      KnownIsRepeat(pre, k);
      SameSnapEquivalence(e, e, e, k);
      if pre != [] {
        var p, q := Last(DropKnown(pre, k)), Last(pre);
        assert p in pre && q == es[|es| - 2];
        SameSnapEquivalence(p, q, e, k);
        SameSnapEquivalence(q, p, e, k);
      }
    }
  }

  /** No publish and no lookup fails; updates of the bucket may, but a restart happens only
      after they have landed. */
  ghost predicate Lossless(steps: seq<Step>) {
    && LandedRestarts(steps)
    && forall i | 0 <= i < |steps| && steps[i].WriteStep? ::
         !steps[i].faults.raw && !steps[i].faults.lookup && !steps[i].faults.change
  }

  lemma LosslessInit(steps: seq<Step>)
    requires Lossless(steps) && steps != []
    ensures Lossless(Init(steps))
    ensures Last(steps).WriteStep? ==> var f := Last(steps).faults; !f.raw && !f.lookup && !f.change
  {
    assert steps[|steps| - 1] == Last(steps);
    assert forall i | 0 <= i < |Init(steps)| :: Init(steps)[i] == steps[i];
  }

  /** The refinement, for every interleaving over any actors: a change stream depends on the
      actor's events of that kind alone, and what detection remembers is its last element. */
  lemma {:induction false} StreamIsDropKnown(steps: seq<Step>, id: string, k: Kind)
    requires Lossless(steps)
    ensures KindStream(RunRepo(steps), id, k)
            == DropKnown(Wrote(steps, id, if k.ZoneKind? then EventZone else EventPresence), k)
    ensures Memory(Effective(RunRepo(steps), id), k) ==
            var published := KindStream(RunRepo(steps), id, k);
            if published == [] then None else Some(SnapOf(Last(published), k))
  {
    hide Write, KindStream, Effective, Memory, SnapOf, SameSnap;
    EmptyRun(id, k);
    if steps != [] {
      var pre, kind := Init(steps), if k.ZoneKind? then EventZone else EventPresence;
      var r := RunRepo(pre);
      LosslessInit(steps);
      StreamIsDropKnown(pre, id, k);
      var es := Wrote(pre, id, kind);
      match Last(steps)
      case RestartStep =>
        LandedRestart(r, id, k);
        assert es + [] == es;
      case WriteStep(e, f) =>
        LosslessWrite(r, e, f, id, k);
        if e.actor.id == id && e.kind == kind {
          assert Init(es + [e]) == es && Last(es + [e]) == e;
        } else {
          assert es + [] == es;
        }
    }
  }

  lemma LandedRestart(r: Repo, id: string, k: Kind)
    requires Landed(r)
    ensures Effective(Restart(r), id) == Effective(r, id) && KindStream(Restart(r), id, k) == KindStream(r, id, k)
  {
  }

  lemma EmptyRun(id: string, k: Kind)
    ensures KindStream(RunRepo([]), id, k) == [] && Memory(Effective(RunRepo([]), id), k) == None
  {
  }

  lemma LosslessWrite(r: Repo, e: Event, f: Faults, id: string, k: Kind)
    requires !f.raw && !f.lookup && !f.change
    requires Memory(Effective(r, id), k) == var published := KindStream(r, id, k);
                                            if published == [] then None else Some(SnapOf(Last(published), k))
    ensures var r' := Write(r, e, f).repo; var published := KindStream(r, id, k);
            && KindStream(r', id, k) ==
               (if e.actor.id == id && OfKind(e, k)
                 && !(published != [] && SameSnap(SnapOf(Last(published), k), SnapOf(e, k)))
                then published + [e] else published)
            && Memory(Effective(r', id), k) ==
               (if KindStream(r', id, k) == [] then None else Some(SnapOf(Last(KindStream(r', id, k)), k)))
  {
    RecallIsEffective(r, id);
    PublishesExactly(r, e, f, id, k);
    hide Write, Publishes, KindStream, Effective, Recall;
    WriteOnStream(r, e, f, id, k);
    WriteOnMemory(r, e, f, id, k);
    assert KindStream(r, id, k) + [] == KindStream(r, id, k);
  }

  lemma RecallIsEffective(r: Repo, id: string)
    ensures Recall(r, id, false).1 == Effective(r, id)
  {
  }

  lemma PublishesExactly(r: Repo, e: Event, f: Faults, id: string, k: Kind)
    requires !f.raw && !f.lookup && !f.change
    ensures Publishes(r, e, f, id, k) <==> e.actor.id == id && OfKind(e, k) && !Unchanged(Recall(r, id, false).1, e, k)
    ensures !LookupFails(r, e, f, id)
  {
  }

  /** Every change stream is exactly the actor's events of that kind, repeats removed. */
  lemma ChangeLogRefinement(steps: seq<Step>, id: string)
    requires Lossless(steps) && ZonesNoDup(Wrote(steps, id, EventZone))
    ensures Stream(RunRepo(steps).log, Subject(ZoneTopic, id)) == DropRepeats(Wrote(steps, id, EventZone), ZoneKind)
    ensures Stream(RunRepo(steps).log, Subject(PresenceTopic, id))
            == DropRepeats(Wrote(steps, id, EventPresence), PresenceKind)
    ensures Stream(RunRepo(steps).log, Subject(CommandTopic, id)) == Wrote(steps, id, EventCommand)
  {
    StreamIsDropKnown(steps, id, ZoneKind);
    StreamIsDropKnown(steps, id, PresenceKind);
    KnownIsRepeat(Wrote(steps, id, EventZone), ZoneKind);
    KnownPresenceIsRepeat(Wrote(steps, id, EventPresence));
    CommandsPass(steps, id);
  }

  /** Presence comparison is equality, so no condition on the events is needed. */
  lemma {:induction false} KnownPresenceIsRepeat(es: seq<Event>)
    ensures DropKnown(es, PresenceKind) == DropRepeats(es, PresenceKind)
    ensures es != [] ==> DropKnown(es, PresenceKind) != []
                         && SnapOf(Last(DropKnown(es, PresenceKind)), PresenceKind) == SnapOf(Last(es), PresenceKind)
  {
    if es != [] {
      KnownPresenceIsRepeat(Init(es));
      if |es| > 1 {
        assert Last(Init(es)) == es[|es| - 2];
      }
    }
  }

  lemma {:induction false} CommandsPass(steps: seq<Step>, id: string)
    requires Lossless(steps)
    ensures Stream(RunRepo(steps).log, Subject(CommandTopic, id)) == Wrote(steps, id, EventCommand)
  {
    if steps != [] {
      var pre := Init(steps);
      var r := RunRepo(pre);
      LosslessInit(steps);
      CommandsPass(pre, id);
      if Last(steps).WriteStep? {
        WriteOnCommands(r, Last(steps).event, Last(steps).faults, id);
      }
    }
  }

  lemma WriteOnCommands(r: Repo, e: Event, f: Faults, id: string)
    requires !f.raw && !f.change
    ensures Stream(Write(r, e, f).repo.log, Subject(CommandTopic, id))
         == Stream(r.log, Subject(CommandTopic, id)) + if e.actor.id == id && e.kind == EventCommand then [e] else []
  {
    hide Write, WrittenMessages;
    StreamAfterWrite(r, e, f, Subject(CommandTopic, id));
    WrittenOnSubject(r, e, f, Subject(CommandTopic, id));
  }

  /** The events for one actor whose raw copy could be stored. */
  function RawStored(steps: seq<Step>, id: string): seq<Event> {
    if steps == [] then []
    else
      RawStored(Init(steps), id) +
      if Last(steps).WriteStep? && Last(steps).event.actor.id == id && !Last(steps).faults.raw
      then [Last(steps).event] else []
  }

  lemma WriteOnRaw(r: Repo, e: Event, f: Faults, id: string)
    ensures Stream(Write(r, e, f).repo.log, Subject(Raw, id))
         == Stream(r.log, Subject(Raw, id)) + if e.actor.id == id && !f.raw then [e] else []
  {
    hide Write, WrittenMessages;
    StreamAfterWrite(r, e, f, Subject(Raw, id));
    WrittenOnSubject(r, e, f, Subject(Raw, id));
  }

  /** The raw history keeps everything: whatever else fails, and across restarts, an actor's
      raw stream is the sequence of its events whose raw publish succeeded. */
  lemma {:induction false} RawHistory(steps: seq<Step>, id: string)
    ensures Stream(RunRepo(steps).log, Subject(Raw, id)) == RawStored(steps, id)
  {
    if steps != [] {
      RawHistory(Init(steps), id);
      if Last(steps).WriteStep? {
        hide Write;
        WriteOnRaw(RunRepo(Init(steps)), Last(steps).event, Last(steps).faults, id);
      }
    }
  }
}
