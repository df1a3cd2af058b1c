/** The repository: a write-through cache over a key-value bucket, detecting changes against
    it and publishing them to an append-only stream. The server's answers (does this call
    fail?) are parameters. One writer at a time. */
module Repository {
  import opened Domain
  import opened Zones
  import opened OffsetCodec
  import opened RepositoryModel

  class EventRepository {
    var log: seq<Message>
    var kv: map<string, ActorState>
    var cache: map<string, ActorState>

    function View(): Repo
      reads this
    {
      Repo(log, cache, kv)
    }

    /** A repository over whatever stream and bucket the server already holds. */
    constructor (log: seq<Message>, kv: map<string, ActorState>)
      ensures View() == Repo(log, map[], kv)
    {
      this.log, this.kv, this.cache := log, kv, map[];
    }

    /** The process ends and a new one opens the same stream and bucket. */
    method Reopen()
      modifies this`cache
      ensures View() == RepositoryModel.Restart(old(View()))
    {
      cache := map[];
    }

    method Publish(topic: Topic, e: Event, fails: bool) returns (offset: Option<string>)
      modifies this`log
      ensures View() == if fails then old(View()) else Append(old(View()), topic, e)
      ensures offset == if fails then None else Some(EncodeOffset(|log|))
    {
      if fails {
        return None;
      }
      log := log + [Message(Subject(topic, e.actor.id), e)];
      offset := Some(EncodeOffset(|log|));
    }

    /** The cached record of an actor, falling back to the bucket on a miss. */
    method GetActorState(id: string, fails: bool) returns (s: ActorState, failed: bool)
      modifies this`cache
      ensures (View(), s) == Recall(old(View()), id, fails)
      ensures failed <==> id !in old(cache) && fails
    {
      if id in cache {
        return cache[id], false;
      }
      if fails {
        return NO_STATE, true;
      }
      if id !in kv {
        return NO_STATE, false;
      }
      s, failed := kv[id], false;
      cache := cache[id := s];
    }

    method SetActorState(id: string, s: ActorState)
      modifies this`cache
      ensures cache == old(cache)[id := s]
    {
      cache := cache[id := s];
    }

    method PersistActorState(id: string, s: ActorState, fails: bool) returns (ok: bool)
      modifies this`kv
      ensures kv == (if fails then old(kv) else old(kv)[id := s]) && ok == !fails
    {
      if fails {
        return false;
      }
      kv := kv[id := s];
      ok := true;
    }

    method HandleZoneChange(e: Event, f: Faults) returns (stored: bool)
      modifies this
      ensures HandleChange(old(View()), e, ZoneKind, f) == Handled(View(), stored)
    {
      var currZones := e.Zones();
      var currLocationType, currMovementStatus := e.Metadata("locationType"), e.Metadata("movementStatus");
      var prev, _ := GetActorState(e.actor.id, f.lookup);
      var same := ZonesEqual(prev.zones, currZones);
      if prev.hasZones && same && prev.locationType == currLocationType && prev.movementStatus == currMovementStatus {
        return true;
      }
      var offset := Publish(ZoneTopic, e, f.change);
      if offset.None? {
        return false;
      }
      prev := prev.(zones := currZones, locationType := currLocationType, movementStatus := currMovementStatus,
                    hasZones := true);
      SetActorState(e.actor.id, prev);
      var _ := PersistActorState(e.actor.id, prev, f.persist);
      stored := true;
    }

    method HandlePresenceChange(e: Event, f: Faults) returns (stored: bool)
      modifies this
      ensures HandleChange(old(View()), e, PresenceKind, f) == Handled(View(), stored)
    {
      var currPresence := e.state.presence.kind;
      var prev, _ := GetActorState(e.actor.id, f.lookup);
      if prev.hasPresence && prev.presence == currPresence {
        return true;
      }
      var offset := Publish(PresenceTopic, e, f.change);
      if offset.None? {
        return false;
      }
      prev := prev.(presence := currPresence, hasPresence := true);
      SetActorState(e.actor.id, prev);
      var _ := PersistActorState(e.actor.id, prev, f.persist);
      stored := true;
    }

    /** Store an event: the raw copy always, then a change message if it is news. */
    method WriteEvent(e: Event, f: Faults) returns (result: Result<string, WriteError>)
      modifies this
      ensures Write(old(View()), e, f) == Written(View(), result)
    {
      hide HandleChange;
      var rawOffset := Publish(Raw, e, f.raw);
      if rawOffset.None? {
        return Err(RawNotStored);
      }
      match e.kind {
        case EventZone =>
          var stored := HandleZoneChange(e, f);
          if !stored {
            return Err(ChangeNotStored);
          }
        case EventPresence =>
          var stored := HandlePresenceChange(e, f);
          if !stored {
            return Err(ChangeNotStored);
          }
        case EventCommand =>
          var offset := Publish(CommandTopic, e, f.change);
          if offset.None? {
            return Err(ChangeNotStored);
          }
        case EventUnspecified =>
      }
      result := Ok(rawOffset.value);
    }

    /** A history of the repository: writes one after another, and restarts between them. It is
        the run every statement about runs speaks of. */
    method Serve(steps: seq<Step>)
      modifies this
      ensures View() == RepositoryModel.RunFrom(old(View()), steps)
    {
      hide Write;
      for i := 0 to |steps|
        invariant View() == RepositoryModel.RunFrom(old(View()), steps[..i])
      {
        assert Init(steps[..i + 1]) == steps[..i];
        match steps[i] {
          case WriteStep(e, f) => var _ := WriteEvent(e, f);
          case RestartStep => Reopen();
        }
      }
      assert steps[..|steps|] == steps;
    }
  }
}
