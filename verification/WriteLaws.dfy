/** What one write answers and stores, written out for every kind of event and every
    combination of failing calls, and what restarts find in the bucket over whole runs. */
module WriteLaws {
  import opened Domain
  import opened Zones
  import opened OffsetCodec
  import opened RepositoryModel
  import opened Coherence
  import opened Repetition
  import opened ChangeLog

  /** What is known of an actor when its event arrives: the cached record, the bucket's on a
      miss, and nothing if there is none or the lookup fails. */
  function Known(r: Repo, id: string, lookupFails: bool): ActorState {
    if id in r.cache then r.cache[id]
    else if id in r.kv && !lookupFails then r.kv[id]
    else NO_STATE
  }

  /** A zone event is news unless its zones, location type and movement status are the known
      ones; a presence event unless its type is; a command always is. */
  predicate News(s: ActorState, e: Event) {
    match e.kind
    case EventZone =>
      || !s.hasZones
      || |s.zones| != |e.Zones()| || (exists z | z in s.zones :: z !in e.Zones())
      || s.locationType != e.Metadata("locationType") || s.movementStatus != e.Metadata("movementStatus")
    case EventPresence => !s.hasPresence || s.presence != e.state.presence.kind
    case EventCommand => true
    case EventUnspecified => false
  }

  predicate DetectsChanges(e: Event) {
    e.kind == EventZone || e.kind == EventPresence
  }

  function ChangeTopic(e: Event): Topic {
    match e.kind
    case EventZone => ZoneTopic
    case EventPresence => PresenceTopic
    case EventCommand => CommandTopic
    case EventUnspecified => Raw
  }

  /** The record after a published change: the new values for this kind, the known ones for the
      other. */
  predicate Updated(old': ActorState, s: ActorState, e: Event) {
    if e.kind == EventZone then
      s.hasZones && s.zones == e.Zones() && s.locationType == e.Metadata("locationType")
      && s.movementStatus == e.Metadata("movementStatus")
      && s.hasPresence == old'.hasPresence && s.presence == old'.presence
    else
      s.hasPresence && s.presence == e.state.presence.kind
      && s.hasZones == old'.hasZones && s.zones == old'.zones && s.locationType == old'.locationType
      && s.movementStatus == old'.movementStatus
  }

  lemma UnchangedIsNoNews(r: Repo, e: Event, f: Faults, k: Kind)
    requires OfKind(e, k)
    ensures Recall(r, e.actor.id, f.lookup).1 == Known(r, e.actor.id, f.lookup)
    ensures Unchanged(Known(r, e.actor.id, f.lookup), e, k) <==> !News(Known(r, e.actor.id, f.lookup), e)
  {
    var s := Known(r, e.actor.id, f.lookup);
    if k.ZoneKind? {
      assert |s.zones| == |e.Zones()| ==>
               (SameZones(s.zones, e.Zones()) <==> forall z | z in s.zones :: z in e.Zones());
    }
  }

  /** What a write adds to the stream: the raw copy, and the change if it is news. */
  lemma WriteStores(r: Repo, e: Event, f: Faults)
    ensures Write(r, e, f).repo.log == r.log +
            if f.raw then []
            else [Message(Subject(Raw, e.actor.id), e)] +
                 if News(Known(r, e.actor.id, f.lookup), e) && !f.change
                 then [Message(Subject(ChangeTopic(e), e.actor.id), e)] else []
  {
    hide Unchanged, News, Known, Write, Recall;
    WriteAppends(r, e, f);
    if DetectsChanges(e) {
      UnchangedIsNoNews(r, e, f, if e.kind == EventZone then ZoneKind else PresenceKind);
    }
    hide Write;
    OtherKindsAlways(r, e, f);
  }

  lemma OtherKindsAlways(r: Repo, e: Event, f: Faults)
    ensures e.kind == EventCommand ==> News(Known(r, e.actor.id, f.lookup), e)
    ensures e.kind == EventUnspecified ==> !News(Known(r, e.actor.id, f.lookup), e)
  {
  }

  /** When a write succeeds, and with what: the offset of the raw copy. It fails before storing
      anything if the raw publish does; and otherwise exactly if a change was news and could
      not be stored, so that the stream did not get it. Lookups and bucket updates never fail
      a write. */
  lemma WriteAnswers(r: Repo, e: Event, f: Faults)
    ensures f.raw ==> Write(r, e, f) == Written(r, Err(RawNotStored))
    ensures !f.raw && !f.change ==> Write(r, e, f).result == Ok(EncodeOffset(|r.log| + 1))
    ensures !f.raw ==> Write(r, e, f).result == if f.change && News(Known(r, e.actor.id, f.lookup), e)
                                                then Err(ChangeNotStored) else Ok(EncodeOffset(|r.log| + 1))
    ensures Write(r, e, f).result == Err(ChangeNotStored)
            <==> !f.raw && News(Known(r, e.actor.id, f.lookup), e) && |Write(r, e, f).repo.log| == |r.log| + 1
  {
    WriteStores(r, e, f);
    if DetectsChanges(e) {
      var r' := Append(r, Raw, e);
      UnchangedIsNoNews(r', e, f, if e.kind == EventZone then ZoneKind else PresenceKind);
      assert Known(r', e.actor.id, f.lookup) == Known(r, e.actor.id, f.lookup);
    }
    hide Unchanged, Known, EncodeOffset, Remember;
  }

  /** Cache and bucket after a write that published a change: the record in both, unless the
      bucket update failed, and nobody else's touched. */
  lemma PublishedIsRecorded(r: Repo, e: Event, f: Faults)
    requires !f.raw && !f.change && DetectsChanges(e) && News(Known(r, e.actor.id, f.lookup), e)
    ensures var r', id := Write(r, e, f).repo, e.actor.id;
            && id in r'.cache && Updated(Known(r, id, f.lookup), r'.cache[id], e)
            && r'.cache == r.cache[id := r'.cache[id]]
            && r'.kv == if f.persist then r.kv else r.kv[id := r'.cache[id]]
  {
    var r' := Append(r, Raw, e);
    UnchangedIsNoNews(r', e, f, if e.kind == EventZone then ZoneKind else PresenceKind);
    assert Known(r', e.actor.id, f.lookup) == Known(r, e.actor.id, f.lookup);
    hide Unchanged, News;
  }

  /** Cache and bucket after any other write: as before, but that an actor's bucket record is
      cached once it has been looked up. */
  lemma OtherwiseOnlyCached(r: Repo, e: Event, f: Faults)
    requires f.raw || f.change || !DetectsChanges(e) || !News(Known(r, e.actor.id, f.lookup), e)
    ensures var r', id := Write(r, e, f).repo, e.actor.id;
            && r'.kv == r.kv
            && r'.cache == if !f.raw && DetectsChanges(e) && id !in r.cache && !f.lookup && id in r.kv
                           then r.cache[id := r.kv[id]] else r.cache
  {
    if DetectsChanges(e) {
      var r' := Append(r, Raw, e);
      UnchangedIsNoNews(r', e, f, if e.kind == EventZone then ZoneKind else PresenceKind);
      assert Known(r', e.actor.id, f.lookup) == Known(r, e.actor.id, f.lookup);
    }
    hide Unchanged, News;
  }

  /** So after a published change whose bucket update succeeded, the bucket remembers it. */
  lemma BucketRemembers(r: Repo, e: Event, f: Faults, k: Kind)
    requires OfKind(e, k) && Publishes(r, e, f, e.actor.id, k) && !f.persist
    ensures var r', id := Write(r, e, f).repo, e.actor.id;
            id in r'.kv && r'.kv[id] == r'.cache[id] && Memory(r'.kv[id], k) == Some(SnapOf(e, k))
  {
    UnchangedIsNoNews(r, e, f, k);
    hide Write, Unchanged, News;
    PublishedIsRecorded(r, e, f);
  }

  // Over runs.

  /** What the cache holds for an actor the bucket holds too. */
  predicate LandedFor(r: Repo, id: string) {
    id in r.cache ==> id in r.kv && r.kv[id] == r.cache[id]
  }

  /** An actor's bucket record falls behind only by a failed update of that actor, and every
      successful one catches up. */
  lemma WriteLands(r: Repo, e: Event, f: Faults, id: string)
    ensures var mine := id == e.actor.id && (Publishes(r, e, f, id, ZoneKind) || Publishes(r, e, f, id, PresenceKind));
            && (mine && !f.persist ==> LandedFor(Write(r, e, f).repo, id))
            && (!mine ==> (LandedFor(Write(r, e, f).repo, id) <==> LandedFor(r, id)))
  {
    if DetectsChanges(e) {
      UnchangedIsNoNews(r, e, f, if e.kind == EventZone then ZoneKind else PresenceKind);
    }
    if !f.raw && !f.change && DetectsChanges(e) && News(Known(r, e.actor.id, f.lookup), e) {
      PublishedIsRecorded(r, e, f);
    } else {
      OtherwiseOnlyCached(r, e, f);
    }
    hide Write, Unchanged, News, Known;
  }

  /** No bucket update of the actor fails. */
  predicate UpdatesLand(steps: seq<Step>, id: string) {
    forall i | 0 <= i < |steps| && steps[i].WriteStep? && steps[i].event.actor.id == id :: !steps[i].faults.persist
  }

  /** Over any run in which no bucket update of an actor failed, whatever else did and however
      often the process restarted: the bucket has what the cache has for the actor, so that a
      restart brings back all that was known of it, of both kinds. */
  lemma {:induction false} RestartsForgetNothing(steps: seq<Step>, id: string)
    requires UpdatesLand(steps, id)
    ensures LandedFor(RunRepo(steps), id)
    ensures forall k :: Memory(Effective(Restart(RunRepo(steps)), id), k) == Memory(Effective(RunRepo(steps), id), k)
    ensures forall k :: LossyRestarts(steps, id, k) == 0
  {
    if steps != [] {
      var pre := Init(steps);
      assert forall i | 0 <= i < |pre| :: pre[i] == steps[i];
      assert Last(steps) == steps[|pre|];
      RestartsForgetNothing(pre, id);
      if Last(steps).WriteStep? {
        WriteLands(RunRepo(pre), Last(steps).event, Last(steps).faults, id);
      }
      hide Write, Memory, Publishes;
    }
  }

  predicate AllUpdatesLand(steps: seq<Step>) {
    forall i | 0 <= i < |steps| && steps[i].WriteStep? :: !steps[i].faults.persist
  }

  /** Then every restart finds bucket and cache in agreement: the hypothesis of the results
      about restarts holds of every run whose bucket updates succeed. */
  lemma {:induction false} UpdatesMakeRestartsSafe(steps: seq<Step>)
    requires AllUpdatesLand(steps)
    ensures LandedRestarts(steps) && Landed(RunRepo(steps)) && SafeRestarts(steps) && Coherent(RunRepo(steps))
  {
    hide Coherent, RunFrom;
    var r := RunRepo(steps);
    forall id | id in r.cache ensures id in r.kv && r.kv[id] == r.cache[id] {
      RestartsForgetNothing(steps, id);
    }
    if steps == [] {
      NoRestarts();
    } else {
      assert forall i | 0 <= i < |Init(steps)| :: Init(steps)[i] == steps[i];
      UpdatesMakeRestartsSafe(Init(steps));
    }
    LandedIsSafe(steps, "", ZoneKind);
    SafeRunIsCoherent(steps);
  }

  lemma NoRestarts()
    ensures LandedRestarts([])
  {
  }

  predicate NoFaultsIn(steps: seq<Step>) {
    forall i | 0 <= i < |steps| && steps[i].WriteStep? :: steps[i].faults == NO_FAULTS
  }

  /** Without faults the change streams are the events with consecutive repeats removed however
      often the process restarts between them. */
  lemma RestartsAreInvisible(steps: seq<Step>, id: string)
    requires NoFaultsIn(steps) && ZonesNoDup(Wrote(steps, id, EventZone))
    ensures Stream(RunRepo(steps).log, Subject(ZoneTopic, id)) == DropRepeats(Wrote(steps, id, EventZone), ZoneKind)
    ensures Stream(RunRepo(steps).log, Subject(PresenceTopic, id))
            == DropRepeats(Wrote(steps, id, EventPresence), PresenceKind)
    ensures Stream(RunRepo(steps).log, Subject(CommandTopic, id)) == Wrote(steps, id, EventCommand)
  {
    UpdatesMakeRestartsSafe(steps);
    ChangeLogRefinement(steps, id);
  }
}
