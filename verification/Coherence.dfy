/** Change detection under faults: over any sequence of writes, failed publishes, failed
    bucket reads and updates, and restarts, when does the memory agree with the log? */
module Coherence {
  import opened Domain
  import opened Zones
  import opened RepositoryModel

  predicate Agrees(memory: Option<Snap>, published: seq<Event>, k: Kind) {
    memory.Some? ==> published != [] && memory.value == SnapOf(Last(published), k)
  }

  /** What detection would use equals the last published message; and where the cached record
      has forgotten a kind, the bucket's record, which a restart would bring back, does too. */
  predicate CoherentFor(r: Repo, id: string, k: Kind) {
    && Agrees(Memory(Effective(r, id), k), KindStream(r, id, k), k)
    && (id in r.cache && id in r.kv && Memory(r.cache[id], k).None? ==>
          Agrees(Memory(r.kv[id], k), KindStream(r, id, k), k))
  }

  ghost predicate Coherent(r: Repo) {
    forall id, k :: CoherentFor(r, id, k)
  }

  lemma WriteOnBucket(r: Repo, e: Event, f: Faults, id: string)
    ensures var r' := Write(r, e, f).repo;
            && (id in r.cache ==> id in r'.cache)
            && (id in r'.kv ==> (id in r'.cache && r'.kv[id] == r'.cache[id]) || (id in r.kv && r'.kv[id] == r.kv[id]))
  {
    hide Unchanged, Remember;
  }

  lemma WriteKeepsCoherence(r: Repo, e: Event, f: Faults)
    requires Coherent(r)
    ensures Coherent(Write(r, e, f).repo)
  {
    hide Write, Publishes, KindStream;
    var r' := Write(r, e, f).repo;
    forall id, k ensures CoherentFor(r', id, k) {
      assert CoherentFor(r, id, k);
      WriteOnStream(r, e, f, id, k);
      WriteOnMemory(r, e, f, id, k);
      WriteOnBucket(r, e, f, id);
    }
  }

  /** Wherever bucket and cache both remember a kind, they remember the same. */
  ghost predicate BucketAgrees(r: Repo) {
    forall id, k :: id in r.cache && id in r.kv && Memory(r.cache[id], k).Some? && Memory(r.kv[id], k).Some? ==>
                      Memory(r.kv[id], k) == Memory(r.cache[id], k)
  }

  /** A restart is safe exactly when no bucket entry contradicts the cache it replaces. */
  lemma RestartSafeExactly(r: Repo)
    requires Coherent(r)
    ensures Coherent(Restart(r)) <==> BucketAgrees(r)
  {
    var r' := Restart(r);
    if BucketAgrees(r) {
      forall id, k ensures CoherentFor(r', id, k) {
        assert CoherentFor(r, id, k);
      }
    }
    if Coherent(r') {
      forall id, k | id in r.cache && id in r.kv && Memory(r.cache[id], k).Some? && Memory(r.kv[id], k).Some?
        ensures Memory(r.kv[id], k) == Memory(r.cache[id], k)
      {
        assert CoherentFor(r, id, k) && CoherentFor(r', id, k);
      }
    }
  }

  ghost predicate SafeRestarts(steps: seq<Step>) {
    steps == [] || (SafeRestarts(Init(steps)) && (Last(steps).RestartStep? ==> BucketAgrees(RunRepo(Init(steps)))))
  }

  /** Over whole runs, whatever fails: the repository is coherent after every step if and only
      if every restart found the bucket in agreement with the cache. */
  lemma {:induction false} CoherentThroughout(steps: seq<Step>)
    ensures SafeRestarts(steps) <==> forall n | 0 <= n <= |steps| :: Coherent(RunRepo(steps[..n]))
  {
    if steps == [] {
      assert Coherent(RunRepo([]));
      assert forall n | 0 <= n <= |steps| :: steps[..n] == [];
    } else {
      var pre := Init(steps);
      CoherentThroughout(pre);
      assert steps[..|steps|] == steps;
      assert forall n | 0 <= n <= |pre| :: pre[..n] == steps[..n];
      assert pre[..|pre|] == pre;
      if Coherent(RunRepo(pre)) {
        match Last(steps)
        case WriteStep(e, f) => WriteKeepsCoherence(RunRepo(pre), e, f);
        case RestartStep => RestartSafeExactly(RunRepo(pre));
      }
    }
  }

  lemma SafeRunIsCoherent(steps: seq<Step>)
    requires SafeRestarts(steps)
    ensures Coherent(RunRepo(steps))
  {
    CoherentThroughout(steps);
    assert steps[..|steps|] == steps;
  }

  /** A suppressed event is no news: in a coherent state, an event that reaches detection and
      is not published carries what the last published message of that kind carries, as a set
      of zones whenever that message listed no zone twice. */
  lemma SuppressedIsNoNews(r: Repo, e: Event, f: Faults, k: Kind)
    requires Coherent(r) && Reaches(e, f, e.actor.id, k)
    requires Write(r, e, f).result.Ok? && KindStream(Write(r, e, f).repo, e.actor.id, k) == KindStream(r, e.actor.id, k)
    ensures var published := KindStream(r, e.actor.id, k);
            published != [] && SameSnap(SnapOf(Last(published), k), SnapOf(e, k))
            && (k.ZoneKind? && NoDup(Last(published).Zones()) ==> ToSet(Last(published).Zones()) == ToSet(e.Zones()))
  {
    var id := e.actor.id;
    WriteOnStream(r, e, f, id, k);
    assert CoherentFor(r, id, k);
    assert Unchanged(Recall(r, id, f.lookup).1, e, k);
    assert Memory(Effective(r, id), k) == Memory(Recall(r, id, f.lookup).1, k);
    var published := KindStream(r, id, k);
    if k.ZoneKind? && NoDup(Last(published).Zones()) {
      SameZonesSound(Last(published).Zones(), e.Zones());
    }
  }

  /** A change that could not be stored leaves detection where it was: the write reports the
      failure, and a retry that meets no fault publishes it. */
  lemma FailedChangeIsRetried(r: Repo, e: Event, f: Faults, k: Kind)
    requires OfKind(e, k) && !f.lookup && Write(r, e, f).result == Err(ChangeNotStored)
    ensures Effective(Write(r, e, f).repo, e.actor.id) == Effective(r, e.actor.id)
    ensures KindStream(Write(r, e, f).repo, e.actor.id, k) == KindStream(r, e.actor.id, k)
    ensures KindStream(Write(Write(r, e, f).repo, e, NO_FAULTS).repo, e.actor.id, k)
            == KindStream(r, e.actor.id, k) + [e]
  {
    var id, r' := e.actor.id, Write(r, e, f).repo;
    WriteOnStream(r, e, f, id, k);
    WriteOnStream(r', e, NO_FAULTS, id, k);
    assert Recall(r', id, false).1 == Recall(r, id, false).1;
  }

  lemma RunExtend(pre: seq<Step>, s: Step)
    ensures RunRepo(pre + [s]) == StepRepo(RunRepo(pre), s)
    ensures pre == [] ==> RunRepo(pre) == EMPTY_REPO
  {
    assert Init(pre + [s]) == pre && Last(pre + [s]) == s;
  }

  lemma LostUpdateStates(p: Event, q: Event)
    requires p.kind == q.kind == EventPresence && p.actor.id == q.actor.id
    requires p.state.presence.kind != q.state.presence.kind
    ensures var id, lost := p.actor.id, NO_FAULTS.(persist := true);
            var r1 := Write(EMPTY_REPO, p, NO_FAULTS).repo; var r2 := Write(r1, q, lost).repo;
            && Publishes(EMPTY_REPO, p, NO_FAULTS, id, PresenceKind) && Publishes(r1, q, lost, id, PresenceKind)
            && !Publishes(Restart(r2), p, NO_FAULTS, id, PresenceKind) && !BucketAgrees(r2)
  {
    var id, lost := p.actor.id, NO_FAULTS.(persist := true);
    var r1 := Write(EMPTY_REPO, p, NO_FAULTS).repo;
    var r2 := Write(r1, q, lost).repo;
    assert Memory(r1.cache[id], PresenceKind) == Memory(r1.kv[id], PresenceKind) == Some(SnapOf(p, PresenceKind));
    assert Memory(r2.cache[id], PresenceKind) == Some(SnapOf(q, PresenceKind)) && r2.kv[id] == r1.kv[id];
  }

  /** Why restarts need the condition: an update of the bucket is lost, the process restarts,
      and a genuine change back is suppressed. Subscribers are left with the wrong presence. */
  lemma LostUpdateHidesChange(p: Event, q: Event)
    requires p.kind == q.kind == EventPresence && p.actor.id == q.actor.id
    requires p.state.presence.kind != q.state.presence.kind
    ensures var run := [WriteStep(p, NO_FAULTS), WriteStep(q, NO_FAULTS.(persist := true)), RestartStep,
            WriteStep(p, NO_FAULTS)];
            KindStream(RunRepo(run), p.actor.id, PresenceKind) == [p, q] && !SafeRestarts(run)
  {
    hide Write, Publishes, BucketAgrees, RunFrom;
    var id, k, lost := p.actor.id, PresenceKind, NO_FAULTS.(persist := true);
    var s1, s2, s3, s4 := WriteStep(p, NO_FAULTS), WriteStep(q, lost), RestartStep, WriteStep(p, NO_FAULTS);
    var r1 := Write(EMPTY_REPO, p, NO_FAULTS).repo;
    var r2 := Write(r1, q, lost).repo;
    LostUpdateStates(p, q);
    WriteOnStream(EMPTY_REPO, p, NO_FAULTS, id, k);
    WriteOnStream(r1, q, lost, id, k);
    WriteOnStream(Restart(r2), p, NO_FAULTS, id, k);
    assert [s1] == [] + [s1] && [s1, s2] == [s1] + [s2] && [s1, s2, s3] == [s1, s2] + [s3];
    assert [s1, s2, s3, s4] == [s1, s2, s3] + [s4];
    RunExtend([], s1);
    RunExtend([s1], s2);
    RunExtend([s1, s2], s3);
    RunExtend([s1, s2, s3], s4);
    assert Init([s1, s2, s3]) == [s1, s2] && Init([s1, s2, s3, s4]) == [s1, s2, s3];
  }
}
