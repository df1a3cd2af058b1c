/** What failed bucket lookups cost: bounded repetition in a change stream, never a wrong
    suppression. */
module Repetition {
  import opened Domain
  import opened RepositoryModel
  import opened Coherence

  function One(b: bool): nat {
    if b then 1 else 0
  }

  /** Adjacent pairs of a stream that change detection would call equal. */
  function Repeats(es: seq<Event>, k: Kind): nat {
    if |es| < 2 then 0
    else Repeats(Init(es), k) + One(SameSnap(SnapOf(es[|es| - 2], k), SnapOf(Last(es), k)))
  }

  /** The bucket lookups attempted for an actor that failed. */
  function FailedLookups(steps: seq<Step>, id: string): nat {
    if steps == [] then 0
    else
      FailedLookups(Init(steps), id) +
      One(Last(steps).WriteStep? && LookupFails(RunRepo(Init(steps)), Last(steps).event, Last(steps).faults, id))
  }

  predicate Forgets(r: Repo, id: string, k: Kind) {
    Memory(Effective(r, id), k).Some? && Memory(Effective(Restart(r), id), k).None?
  }

  /** The restarts that lost an actor's memory of a kind because its update never landed. */
  function LossyRestarts(steps: seq<Step>, id: string, k: Kind): nat {
    if steps == [] then 0
    else
      LossyRestarts(Init(steps), id, k) + One(Last(steps).RestartStep? && Forgets(RunRepo(Init(steps)), id, k))
  }

  /** A repeat is owed when something was published and detection no longer remembers it. */
  predicate Owed(r: Repo, id: string, k: Kind) {
    KindStream(r, id, k) != [] && Memory(Effective(r, id), k).None?
  }

  lemma RepeatsExtend(es: seq<Event>, e: Event, k: Kind)
    ensures Repeats(es + [e], k) == Repeats(es, k) + One(es != [] && SameSnap(SnapOf(Last(es), k), SnapOf(e, k)))
  {
    hide SnapOf, SameSnap;
    if es != [] {
      assert Init(es + [e]) == es;
    }
  }

  lemma WriteRepeats(r: Repo, e: Event, f: Faults, id: string, k: Kind)
    requires CoherentFor(r, id, k)
    ensures var r' := Write(r, e, f).repo;
            Repeats(KindStream(r', id, k), k) + One(Owed(r', id, k))
            <= Repeats(KindStream(r, id, k), k) + One(Owed(r, id, k)) + One(LookupFails(r, e, f, id))
  {
    hide Write, Publishes, KindStream, LookupFails;
    WriteOnStream(r, e, f, id, k);
    WriteOnMemory(r, e, f, id, k);
    RepeatsExtend(KindStream(r, id, k), e, k);
    PublishedAfresh(r, e, f, id, k);
    if !Publishes(r, e, f, id, k) {
      assert KindStream(r, id, k) + [] == KindStream(r, id, k);
    }
  }

  lemma PublishedAfresh(r: Repo, e: Event, f: Faults, id: string, k: Kind)
    requires CoherentFor(r, id, k)
    ensures Publishes(r, e, f, id, k) && KindStream(r, id, k) != []
            && SameSnap(SnapOf(Last(KindStream(r, id, k)), k), SnapOf(e, k))
            ==> Owed(r, id, k) || LookupFails(r, e, f, id)
  {
  }

  /** Over every run with safe restarts, the number of adjacent equal messages in an actor's
      change stream of either kind is at most the number of failed lookups for that actor,
      plus the restarts that lost an update that never landed. */
  lemma {:induction false} RepeatsAreBounded(steps: seq<Step>, id: string, k: Kind)
    requires SafeRestarts(steps)
    ensures Repeats(KindStream(RunRepo(steps), id, k), k) + One(Owed(RunRepo(steps), id, k))
            <= FailedLookups(steps, id) + LossyRestarts(steps, id, k)
  {
    if steps != [] {
      var pre := Init(steps);
      RepeatsAreBounded(pre, id, k);
      SafeRunIsCoherent(pre);
      assert CoherentFor(RunRepo(pre), id, k);
      if Last(steps).WriteStep? {
        WriteRepeats(RunRepo(pre), Last(steps).event, Last(steps).faults, id, k);
      }
    }
  }

  /** Every update of the cache has reached the bucket. */
  ghost predicate Landed(r: Repo) {
    forall id | id in r.cache :: id in r.kv && r.kv[id] == r.cache[id]
  }

  ghost predicate LandedRestarts(steps: seq<Step>) {
    steps == [] || (LandedRestarts(Init(steps)) && (Last(steps).RestartStep? ==> Landed(RunRepo(Init(steps)))))
  }

  lemma {:induction false} LandedIsSafe(steps: seq<Step>, id: string, k: Kind)
    requires LandedRestarts(steps)
    ensures SafeRestarts(steps) && LossyRestarts(steps, id, k) == 0
  {
    if steps != [] {
      LandedIsSafe(Init(steps), id, k);
    }
  }

  lemma {:induction false} NoRepeatsMeansAlternating(es: seq<Event>, k: Kind, i: nat)
    requires Repeats(es, k) == 0 && 0 < i < |es|
    ensures !SameSnap(SnapOf(es[i - 1], k), SnapOf(es[i], k))
  {
    if i < |es| - 1 {
      NoRepeatsMeansAlternating(Init(es), k, i);
    }
  }

  /** With no failed lookup for an actor and restarts only after its updates landed, its
      published streams never repeat a message, whatever events were written or lost on the
      way: presence strictly alternates. */
  lemma StreamsAlternate(steps: seq<Step>, id: string, k: Kind, i: nat)
    requires LandedRestarts(steps) && FailedLookups(steps, id) == 0
    requires 0 < i < |KindStream(RunRepo(steps), id, k)|
    ensures var published := KindStream(RunRepo(steps), id, k);
            !SameSnap(SnapOf(published[i - 1], k), SnapOf(published[i], k))
            && (k.PresenceKind? ==> published[i - 1].state.presence.kind != published[i].state.presence.kind)
  {
    LandedIsSafe(steps, id, k);
    RepeatsAreBounded(steps, id, k);
    NoRepeatsMeansAlternating(KindStream(RunRepo(steps), id, k), k, i);
  }
}
