# Verified model of the zonyx-core event path

zonyx-core turns positioning datagrams into zone and presence events, stores them in an
append-only stream with change detection, and serves subscribers a snapshot or a replay. This
project models that path in Dafny 4.11 and proves what a subscriber can rely on. Check it with
`dafny verify dfyconfig.toml`.

Three parts and their joint result:

- **The positioning provider.** `TagMachine` is one tag's state machine as functions, `TagRuns`
  proves what every run of it keeps, `Reports` says what every datagram and sweep reports as a
  function of what was received, with names, units and limits written out, `Fleet` runs it over the whole tag map, `Watchdog` and
  `ReadLoop` treat the offline sweep, `RepeatedDatagram` a datagram received twice,
  `EmitChannel` the bounded channel, `EventIds` the identifiers. `QuuppaAdapter` holds the
  mutable records and the read loop as classes and methods, proved against those functions.
- **The repository.** `RepositoryModel` describes a write and a restart over stream, cache and
  bucket, with any of the server calls failing; `WriteLaws` writes out what each write answers
  and stores and what restarts find; `Coherence`, `Repetition` and `ChangeLog` prove what
  change detection guarantees; `Repository` is the class, proved against the model.
- **Subscriptions.** `Decimal` and `OffsetCodec` are the resume offset; `Watch` is the subject
  filter, snapshot and replay; `Resume` is a subscription cut short anywhere and resumed.
- **Joined together.** `PublishedView` says what change detection leaves of a tag's zone events;
  `EndToEnd.SubscriberSeesLatest` and `EndToEnd.SubscribersRightExactly` say when what a
  subscriber reconstructs, through channel, repository and subscription, is what the latest
  datagrams and sweeps said, even if the channel drops other tags' events; `Drops` says what
  drops of its own cost a tag; `Pipeline` runs the two objects one after the other.

Conventions. Times are integers in nanoseconds since the epoch, with the language's zero time
(year 1) as the distinguished unset value. A tag not yet in the map is the zero record. What
fails is a parameter: the sweep's handler answers per event, and each write carries which of its
four server calls fail. A sweep's visiting order of the map is arbitrary. Every statement about
runs is for all interleavings of all steps.

Where `docs/QUUPPA.md` and the code differ the model follows the code: only `position` counts as
a fix (not `approximate`); the first datagram of a tag announces nothing about presence; zone
snapshots are sent on change and are not held back for stationary tags; a tag is offline at
exactly 12 s of silence, not only beyond it.

Statements that are false of the code, with their exact conditions:

- The zone comparison is not set equality on lists with duplicates. It never calls different
  sets equal, against any second list, exactly when its first argument has no duplicates
  (`Zones.ScanSoundExactly`); it decides set equality against every duplicate-free list exactly
  then, and against every list at all only if it is empty (`Zones.ScanDecidesExactly`).
- A subscriber's zones of a tag are therefore not always those of its latest datagram. They are,
  after every step of a run, exactly when neither comparison missed a change: the provider's, of a
  fix with the tag's record, and the repository's, of an announced snapshot with the last
  published one (`EndToEnd.SubscribersRightExactly`). Each can miss on its own: zones a, b and
  then a, a mislead the first (`TagRuns.DuplicateHidesExit`), a, a and then a, b the second
  (`PublishedView.DuplicateHidesEntry`). For the derived events alone only the first counts
  (`TagRuns.ViewRightExactly`).
- Restarting the repository is not always safe: it is exactly when no bucket entry contradicts
  the cache (`Coherence.RestartSafeExactly`, `Coherence.CoherentThroughout`,
  `Coherence.LostUpdateHidesChange`).
- The worst-case offline latency in the comment at `internal/adapters/quuppa/adapter.go:92` is
  not unconditional. With a silent tag's deadline 12 s after its last packet, it is met exactly
  when the pause in all traffic that the deadline falls into lasts until its next tick
  (`ReadLoop.WorstCaseExactly`); `ReadLoop.ReportedExactly` gives the condition for every other
  bound and for being reported at all. A quiet tick at some other time does not help
  (`ReadLoop.EarlierQuietIsNotEnough`).
- "Exactly once in offset order without gaps" (`internal/core/ports/ports.go:89-90`) does not
  hold of a subscription to several types that is resumed from the last offset received, since
  the types share one channel in any interleaving. Whatever was received and wherever it resumes,
  nothing is missed exactly when nothing asked for with a smaller number was missing, and what is
  repeated is what was received from that number on (`Resume.ResumeExactly`). Resuming from the
  last offset is safe wherever the subscription is cut exactly when all that was asked for is of
  one type (`Resume.LastOffsetSafeExactly`, `Resume.OvertakenIsLost`); the least of the types'
  last offsets always is (`Resume.LeastMarkResumes`).
- A tag's presence does not always alternate: it does exactly unless the tag's first fix comes
  after a sweep had found it silent for 12 s (`TagRuns.AlternatesExactly`,
  `TagRuns.TwoActivesHappen`).

## Model

| member | source | states |
|---|---|---|
| EndToEnd.SubscriberSeesLatest | internal/adapters/quuppa/derive.go:45-162 | for every provider run over any tags and every route of its events that refused nothing and dropped nothing of this tag (any channel schedule, written in order with any bucket updates lost, a snapshot or a full replay delivered): the view's zones of the tag are those of its latest datagram if that was a fix and none otherwise, provided no comparison missed a change, and it says Inactive exactly while the tag is offline or lost |
| EndToEnd.SubscribersRightExactly | internal/repositories/jetstream/repository.go:200-240 | every subscriber's zones of a tag are right after every step of a run, if and only if neither the provider's nor the repository's comparison ever missed a change of that tag |
| EndToEnd.DistinctZonesSeeLatest | internal/adapters/quuppa/derive.go:92-107 | in particular they are right if no accepted fix lists a zone twice |
| Pipeline.Process | internal/core/services/service.go:56-92 | the provider's loop run as an object, its emitted events written by the repository object: without a refusal every subscriber sees, for every tag of which no event was dropped, what the run's datagrams and the tag's record say |
| PublishedView.ShownRightExactly | internal/repositories/jetstream/repository.go:200-240 | the same condition for one tag's machine: what is last published has the latest datagram's zones after every input, if and only if no fix is blind against the record and no announced snapshot against the one last published |
| PublishedView.ShownIsPublished | internal/repositories/jetstream/repository.go:208-234 | the snapshot computed from a tag's inputs is the one change detection leaves last of its derived zone events |
| PublishedView.DuplicateHidesEntry | internal/repositories/jetstream/repository.go:426-441 | a concrete pair of fixes whose derived events are right, while the second is never published and the tag's new zone stays hidden |
| Drops.RightDespiteDropsExactly | internal/adapters/quuppa/adapter.go:157-167 | whatever the channel dropped, with duplicate-free fixes: a subscriber's zones of a tag are right if and only if the tag's last emitted zone event has the zones of its last derived one, and its presence likewise |
| Drops.RecoversWithLastEvent | internal/adapters/quuppa/adapter.go:157-167 | so zones are right as soon as the tag's last zone event was kept, and presence as soon as its last presence event was |
| EndToEnd.KeptForSelects | internal/adapters/quuppa/adapter.go:157-167 | drops of other tags' events are invisible: what is emitted for a tag is all that was derived for it |
| EndToEnd.ChannelIsTransparent | internal/adapters/quuppa/adapter.go:131-167 | on every channel schedule that dropped nothing, the events written are the run's events in order once the goroutine has finished without failure |
| EndToEnd.PublishedPresenceAlternates | internal/repositories/jetstream/repository.go:242-267 | whatever the channel drops and whichever publishes fail, without a failed lookup a tag's published presence alternates strictly between Active and Inactive |
| EndToEnd.PublishedZones | internal/repositories/jetstream/repository.go:200-240 | the last message on a tag's zone subject has the same zone set as the last zone event written for it |
| Reports.RunSays | internal/adapters/quuppa/derive.go:45-121 | over every run of the whole tag map, what an accepted datagram says (its events in order, each with its kind, presence type and zones) is a function of its own tag's history, written out case by case: return from silence, location lost or regained, and zones only when they are news |
| Reports.DatagramSays | internal/adapters/quuppa/derive.go:45-121 | the same of one tag's machine |
| Reports.NoZonesNoSnapshot | internal/adapters/quuppa/derive.go:92-100 | a datagram gives at most one zone list, and none when neither it nor the one before it lists a zone, whatever else changed |
| Reports.DatagramTells | internal/adapters/quuppa/derive.go:174-257 | every event of a datagram has its actor, its response time in nanoseconds, exactly its non-empty names, location type and movement status under their keys, and with a zone list its three coordinates in order |
| Reports.SweepReportsExactly | internal/adapters/quuppa/derive.go:128-138 | the online flag, and whether a sweep reports the tag, from its history alone: 12,000,000,000 ns after the last packet, unless it is reported offline already or its location is lost |
| Reports.ReportedAfterTwelveSeconds | internal/adapters/quuppa/derive.go:136-138 | in the datagram's own milliseconds: at 12,000 or more, and not before |
| Reports.RunSweepReports | internal/adapters/quuppa/adapter.go:189-204 | over the whole map, a sweep of the read loop reports exactly the tags whose own histories have them silent too long, each once |
| Reports.SweepTells | internal/adapters/quuppa/derive.go:140-155 | what an offline report carries: identifier, the sweep's time, the latest datagram's zones, the latest located fix's coordinates, the names last given |
| Reports.RecordTimes | internal/adapters/quuppa/derive.go:76-118 | every time in a record, in nanoseconds, from the history: last packet, last response, last located fix, and when the location was lost |
| TagRuns.ReachableState | internal/adapters/quuppa/derive.go:66-106 | in every reachable state the record mirrors the latest datagram; the location is lost exactly when the tag has had a fix and its latest datagram is none; a lost tag is online and no sweep reports it |
| TagRuns.ViewRightExactly | internal/adapters/quuppa/derive.go:66-107 | folding a tag's derived zone events gives the zones of the latest datagram (none without a fix) after every input, if and only if no two consecutive fixes are taken for equal though their zone sets differ |
| TagRuns.ZoneViewFollowsLatest | internal/adapters/quuppa/derive.go:66-107 | so the view is right in every run whose fixes list no zone twice, even if other datagrams carry zones |
| TagRuns.DuplicateHidesExit | internal/adapters/quuppa/state.go:26-40 | a concrete pair of fixes with a repeated zone id after which the view keeps a zone the tag has left |
| TagRuns.PresenceCharacterised | internal/adapters/quuppa/derive.go:49-83 | the last presence emitted for a tag is Inactive exactly when the tag has been seen and is offline or lost |
| TagRuns.PresenceRepeats | internal/adapters/quuppa/derive.go:57-83 | a presence event that repeats its predecessor is an Active, emitted for a tag that had no fix before that input |
| TagRuns.NoTwoInactives | internal/adapters/quuppa/derive.go:128-162 | no run reports a tag Inactive twice in a row |
| TagRuns.AlternatesExactly | internal/adapters/quuppa/derive.go:57-83 | a tag's presence alternates strictly throughout a run, if and only if its first fix does not come after a sweep that found it silent for 12 s |
| TagRuns.FixFirstAlternates | internal/adapters/quuppa/derive.go:57-83 | in particular a tag first seen with a fix alternates |
| TagRuns.TwoActivesHappen | internal/adapters/quuppa/derive.go:57-83 | the inputs of the exception: a tag without a fix goes offline and is announced Active twice by its first fix |
| TagRuns.LossReportedOnEmptyView | internal/adapters/quuppa/derive.go:69-77 | in every run, duplicates or not, the Inactive of a location loss is emitted when the zone view is already empty, and carries the zones the tag was last in |
| TagRuns.ComebackReported | internal/adapters/quuppa/derive.go:57-83 | a tag coming back is announced first and with its previous zones; the only other Active is a restored location's, with the fix's zones |
| TagRuns.OfflineReport | internal/adapters/quuppa/derive.go:128-158 | an offline report comes after at least 12 s of silence and carries the zones of the latest datagram, the coordinates of the latest fix that had any, and the names last given |
| TagRuns.RecordRemembers | internal/adapters/quuppa/derive.go:103-118 | over every run the record holds the latest located fix's coordinates and the latest non-empty names |
| RepeatedDatagram.RepeatChangesNothing | internal/adapters/quuppa/derive.go:92-107 | an immediate repeat with reordered zones emits nothing and leaves the rest of a sweep-free run's events as they are, identifiers and timestamps included, up to zone order; with equal packet time and location also runs with sweeps |
| TagMachine.Parse | internal/adapters/quuppa/parser.go:39-62 | which decoded datagrams are accepted and how the others are refused; a positive response time is kept, and one that is missing is the time last seen or else the last packet's |
| Zones.ZonesEqual | internal/adapters/quuppa/state.go:26-40 | the nested scan decides equal length plus one-way containment |
| Zones.SameZonesSound | internal/adapters/quuppa/state.go:26-40 | pigeonhole: if the first list has no duplicates the two are equal sets and the second has none either |
| Zones.SameZonesDecides | internal/repositories/jetstream/repository.go:426-441 | on duplicate-free lists the scan is set equality |
| Zones.SameZonesEquivalence | internal/repositories/jetstream/repository.go:426-441 | on duplicate-free lists it is an equivalence relation |
| Zones.ScanSoundExactly | internal/adapters/quuppa/state.go:26-40 | the scan never calls different sets equal, whatever the second list, if and only if the first has no duplicates |
| Zones.ScanDecidesExactly | internal/adapters/quuppa/state.go:26-40 | it decides set equality against every duplicate-free list if and only if the first has no duplicates, and against every list if and only if the first is empty |
| Fleet.TagIsolation | internal/adapters/quuppa/adapter.go:169-234 | in every interleaved run the events and final record of one tag are those of the single-tag machine on its datagrams and all sweeps |
| Fleet.VisitingOrderIrrelevant | internal/adapters/quuppa/derive.go:128-162 | runs that differ only in the order sweeps visit the map give every tag the same events and record |
| Watchdog.SweepFlipsAccepted | internal/adapters/quuppa/derive.go:128-162 | a sweep, complete or stopped, takes offline exactly the tags whose event was accepted and changes nothing else |
| Watchdog.SweepAcceptsExactly | internal/adapters/quuppa/derive.go:129-160 | a tag is reported exactly if it is due, its event is accepted, and no tag before it in the order was refused |
| Watchdog.SweepFailsExactly | internal/adapters/quuppa/derive.go:156-158 | a sweep fails exactly if some due tag's event is refused |
| Watchdog.AcceptedAtMostOnce | internal/adapters/quuppa/derive.go:128-162 | over any sequence of sweeps a tag is accepted at most once, and never if it was offline or lost |
| Watchdog.ExactlyOnce | internal/adapters/quuppa/derive.go:128-162 | over any sweeps a tag has a report if and only if some sweep finds it due, has its event accepted and refused no tag before it; it is then that sweep's one event and never another, whatever happens to other tags |
| Watchdog.LatencyBound | internal/adapters/quuppa/derive.go:136-138 | with sweeps at most a tick apart, starting within the threshold, a silent tag is reported once, at or after 12 s and less than a tick late |
| ReadLoop.SweepsExactlyWhenQuiet | internal/adapters/quuppa/adapter.go:180-207 | the loop sweeps at all if and only if the socket is quiet for a whole tick |
| ReadLoop.ReportedExactly | internal/adapters/quuppa/adapter.go:180-207 | under any traffic of other tags and malformed datagrams, a silent tag is reported by a given time if and only if some pause lasts until its first tick after the deadline and that tick comes by then; and never without such a pause |
| ReadLoop.WorstCaseExactly | internal/adapters/quuppa/adapter.go:92 | any run of the provider, continued by the read loop's turns while a tag stays silent: the tag's next event is its offline report within the documented threshold plus tick if and only if the pause the deadline falls into lasts until its next tick, and there is no event at all if and only if no pause reaches a tick after the deadline |
| ReadLoop.SeenIsProjected | internal/adapters/quuppa/adapter.go:169-234 | what a tag sees of the loop's turns is its projection of the run that the loop makes of them |
| ReadLoop.EarlierQuietIsNotEnough | internal/adapters/quuppa/adapter.go:186-203 | a concrete traffic with a quiet tick before the deadline in which the bound is missed |
| ReadLoop.BusySocketHidesSilence | internal/adapters/quuppa/adapter.go:92 | under traffic with no quiet tick nothing at all happens to a silent tag |
| ReadLoop.QuietSocketLatency | internal/adapters/quuppa/adapter.go:180-207 | if nothing arrives for one tick from the deadline on, whatever arrived before, the loop reports the tag once, on time and less than a tick late |
| EmitChannel.Conservation | internal/adapters/quuppa/adapter.go:131-167 | in every reachable state the kept events, in order, are emitted ++ failed ++ in flight ++ queued, the queue is bounded, and a goroutine that ends without failure has emitted all of them |
| EmitChannel.NothingLost | internal/adapters/quuppa/adapter.go:131-167 | derived events are, as multisets, exactly emitted, failed, in flight, queued and dropped together |
| EmitChannel.EmitQueue.TrySend | internal/adapters/quuppa/adapter.go:159-167 | an event is dropped exactly when 1024 are queued, and queued last otherwise |
| EmitChannel.RoomForAll | internal/adapters/quuppa/adapter.go:159-167 | a batch that fits is queued whole and in order |
| EmitChannel.EmitQueue.SendEach | internal/adapters/quuppa/adapter.go:231-233 | sending a batch is sending its events one by one |
| EmitChannel.EmitQueue.EmitSome | internal/adapters/quuppa/adapter.go:137-149 | the goroutine emits the queued events in order up to the first one refused, which is the one that failed, and takes nothing after it |
| EmitChannel.EmitQueue.Shutdown | internal/adapters/quuppa/adapter.go:150-155 | closing lets the goroutine finish: everything queued is emitted in order up to the first event refused, which is the one that failed |
| QuuppaAdapter.DeriveEvents | internal/adapters/quuppa/derive.go:45-121 | the mutable record and the event list change as the model's functions say |
| QuuppaAdapter.TagState.MoveTo | internal/adapters/quuppa/derive.go:102-118 | the record takes over the datagram's fields and keeps what the datagram does not carry |
| QuuppaAdapter.RunWatchdog | internal/adapters/quuppa/derive.go:128-162 | the sweep over the map is the model's sweep for some visiting order, with the same accepted events and failure |
| QuuppaAdapter.Adapter.OnDatagram | internal/adapters/quuppa/adapter.go:209-233 | one datagram: skipped if malformed, else one step of the run with its events sent |
| QuuppaAdapter.Adapter.OnTimeout | internal/adapters/quuppa/adapter.go:189-204 | one timed-out read: one accepting sweep with its events sent |
| QuuppaAdapter.Adapter.RunScript | internal/adapters/quuppa/adapter.go:134-235 | the whole loop with the emitting goroutine: the tag map and the derived events are those of a valid run of its turns, the channel state is reachable and finished at return, and without a refusal every turn is handled and nothing fails |
| EventIds.IdsDistinctExactly | internal/adapters/quuppa/derive.go:274-280 | for times in the non-negative 64-bit range, all identifiers of a multi-tag run are distinct if and only if no step emits an event for a tag at a time at which an earlier step already did |
| EventIds.AllIdsDistinct | internal/adapters/quuppa/derive.go:274-280 | in particular if the steps that concern a tag have distinct times |
| EventIds.EventIdInjective | internal/adapters/quuppa/derive.go:274-280 | an identifier determines actor, time and number even if actor ids contain dashes, for times that are not negative |
| EventIds.EqualIdsExactly | internal/adapters/quuppa/derive.go:278-280 | two identifiers are equal if and only if the numbers are, the sizes of the times are, and the actors followed by the times' signs are |
| EventIds.IdsTellApartExactly | internal/adapters/quuppa/derive.go:278-280 | identifiers of events at two given times tell actor, time and number for all actors and numbers, if and only if the times are not opposite |
| EventIds.DatagramNumbers | internal/adapters/quuppa/derive.go:45-121 | a datagram yields at most three events, numbered from 0 in order |
| EventIds.DatagramIdentifiers | internal/adapters/quuppa/derive.go:274-280 | the identifier spelled out: prefix, actor, response time in nanoseconds, place in the datagram |
| EventIds.IdLength | internal/adapters/quuppa/derive.go:274-280 | identifiers of 12-character tags stay within 3 to 64 characters |
| Coherence.CoherentThroughout | internal/repositories/jetstream/repository.go:175-400 | over any run of writes, failing calls and restarts, detection's memory equals the last published message of each kind after every step, if and only if every restart found bucket and cache in agreement |
| Coherence.WriteKeepsCoherence | internal/repositories/jetstream/repository.go:175-267 | a write keeps that agreement whichever of its calls fail |
| Coherence.RestartSafeExactly | internal/repositories/jetstream/repository.go:344-378 | a restart keeps it exactly if no bucket entry contradicts the cache |
| Coherence.SuppressedIsNoNews | internal/repositories/jetstream/repository.go:214-218 | a suppressed event carries what the last published message carries, as a zone set if that one has no duplicates |
| Coherence.FailedChangeIsRetried | internal/repositories/jetstream/repository.go:226-239 | a change that could not be stored leaves detection as it was, and a retry publishes it |
| Coherence.LostUpdateHidesChange | internal/repositories/jetstream/repository.go:380-400 | a lost bucket update followed by a restart suppresses a real change |
| Repetition.RepeatsAreBounded | internal/repositories/jetstream/repository.go:208-234 | adjacent equal messages in an actor's stream of either kind number at most its failed lookups plus the restarts that lost an update |
| Repetition.StreamsAlternate | internal/repositories/jetstream/repository.go:245-261 | with neither, no published stream ever repeats a message |
| ChangeLog.ChangeLogRefinement | internal/repositories/jetstream/repository.go:162-267 | without losses, for every interleaving over any actors, each change stream is the actor's events of that kind with consecutive repeats removed, and commands pass unchanged |
| ChangeLog.StreamIsDropKnown | internal/repositories/jetstream/repository.go:200-267 | the same against the last published event, for lists with duplicates too, and what detection remembers is the stream's last element |
| ChangeLog.KnownIsRepeat | internal/repositories/jetstream/repository.go:214-218 | comparing with the last published event is comparing with the immediate predecessor, on duplicate-free lists |
| ChangeLog.RawHistory | internal/repositories/jetstream/repository.go:175-180 | whatever else fails, and across restarts, an actor's raw stream is all its events whose raw publish succeeded |
| WriteLaws.WriteAnswers | internal/repositories/jetstream/repository.go:175-198 | when a write succeeds, for every kind of event: a failed raw publish answers so and changes nothing; otherwise it answers the raw copy's offset, unless a change or command was owed and the stream did not get it |
| WriteLaws.WriteStores | internal/repositories/jetstream/repository.go:175-267 | the stream after a write: the raw copy and, if the event is news to what is known of the actor, the change under its own subject |
| WriteLaws.PublishedIsRecorded | internal/repositories/jetstream/repository.go:230-261 | a published change is recorded in the cache and, unless that fails, in the bucket, keeps what was known of the other kind, and touches no other actor |
| WriteLaws.OtherwiseOnlyCached | internal/repositories/jetstream/repository.go:344-378 | any other write leaves the bucket alone, and the cache but for a bucket record looked up |
| WriteLaws.BucketRemembers | internal/repositories/jetstream/repository.go:380-400 | after a published change whose update succeeded the bucket remembers it, of either kind |
| WriteLaws.RestartsForgetNothing | internal/repositories/jetstream/repository.go:344-400 | over any run in which no bucket update of an actor failed, whatever else did, bucket and cache agree on it and every restart brings back all that was known, of both kinds |
| WriteLaws.UpdatesMakeRestartsSafe | internal/repositories/jetstream/repository.go:344-400 | if no update failed at all, every restart of the run is safe and every state coherent |
| WriteLaws.RestartsAreInvisible | internal/repositories/jetstream/repository.go:162-267 | without faults every change stream is the actor's events with consecutive repeats removed, however often the process restarted |
| RepositoryModel.WriteOnMemory | internal/repositories/jetstream/repository.go:208-234 | a write changes an actor's memory of a kind only by publishing that kind, or by forgetting it after a failed lookup |
| RepositoryModel.SubjectNames | internal/repositories/jetstream/codec.go:21-24 | the four subject names |
| RepositoryModel.TextInjective | internal/repositories/jetstream/codec.go:21-24 | different subjects have different names whatever the actor id |
| Repository.EventRepository.WriteEvent | internal/repositories/jetstream/repository.go:175-198 | the method's result and new stream, cache and bucket are the model's write |
| Repository.EventRepository.HandleZoneChange | internal/repositories/jetstream/repository.go:200-240 | likewise for zone change detection |
| Repository.EventRepository.HandlePresenceChange | internal/repositories/jetstream/repository.go:242-267 | likewise for presence change detection |
| Repository.EventRepository.GetActorState | internal/repositories/jetstream/repository.go:344-378 | the record recalled and the cache after it, and when a lookup counts as failed |
| Repository.EventRepository.Serve | internal/repositories/jetstream/repository.go:162-198 | a history of writes and restarts of the object is the model's run |
| Watch.WatchSubjects | internal/repositories/jetstream/codec.go:35-63 | the patterns: all three by name for no types, else one per known type in order of first mention, no repeats, never raw |
| Watch.PatternsByName | internal/repositories/jetstream/codec.go:43-56 | a type asked for yields its pattern by name and nothing else does; unknown types alone yield none |
| Watch.PatternsInOrder | internal/repositories/jetstream/codec.go:57-62 | naming more types only adds patterns at the end |
| Watch.PatternCoversTopic | internal/repositories/jetstream/codec.go:26-33 | a pattern covers exactly its topic's subjects of non-empty actor ids |
| Watch.SnapshotIsLatest | internal/repositories/jetstream/repository.go:294-296 | a subscription without an offset starts, however its subscriptions interleave, with the latest message of every subject asked for, once, and nothing else |
| Watch.SnapshotEqualsReplay | internal/repositories/jetstream/repository.go:294-341 | for any stream and topics and any interleaving, what a subscription without an offset starts with folds to the same view as what one from the first offset replays |
| Watch.ResumeFromText | internal/repositories/jetstream/repository.go:294-303 | from which texts a subscription can resume: digit strings for 1 to 2^64-1, padded or not; it then starts with the message of that number, or with nothing if the stream is shorter |
| Watch.ViewIsMemory | internal/repositories/jetstream/repository.go:230-261 | in a lossless run that view is what the repository remembers |
| Watch.ChangesFollowRaw | internal/repositories/jetstream/repository.go:175-198 | in every run every change message directly follows the raw copy of the same event, on the subject of its actor and type |
| Watch.OffsetsIncrease | internal/repositories/jetstream/repository.go:402-412 | offsets of successful writes strictly increase |
| Watch.ResumeFromWrite | internal/repositories/jetstream/repository.go:294-303 | from the offset a write returned, each subscription replays exactly that write's change message and every later one |
| Watch.ResumeRedelivers | internal/repositories/jetstream/repository.go:297-303 | resuming from a delivered message's offset starts with that message again |
| Resume.ResumeExactly | internal/repositories/jetstream/repository.go:280-341 | whatever part of each topic was received in whatever interleaving, and from whatever number it is resumed: nothing asked for is missed if and only if nothing with a smaller number was missing, and exactly what was received from that number on comes again |
| Resume.LastOffsetSafeExactly | internal/core/ports/ports.go:84-91 | resuming from the last offset received skips nothing wherever the subscription was cut, if and only if everything asked for is of one topic |
| Resume.ReceivedGrows | internal/repositories/jetstream/repository.go:315-341 | what was received stays a possible first part while messages go on arriving, so all this holds of the stream at the time of resuming |
| Resume.OneTopicResumes | internal/core/ports/ports.go:84-91 | with one topic nothing is missed and exactly the last message is repeated |
| Resume.LeastMarkResumes | internal/repositories/jetstream/repository.go:280-341 | with several topics, resuming no later than each topic's last number misses nothing |
| Resume.OvertakenIsLost | internal/repositories/jetstream/repository.go:304-313 | concretely: a presence message received before an earlier zone message, and resumed from, loses the zone message for good |
| Resume.AllReceivedDelivers | internal/repositories/jetstream/repository.go:294-303 | these statements about numbers are about deliveries of what an offset's text yields |
| OffsetCodec.RoundTrip | internal/repositories/jetstream/codec.go:65-85 | every sequence number from 1 to 2^64-1 survives encoding and decoding in 3 to 20 characters; 0 is rejected |
| OffsetCodec.DecodeAccepts | internal/repositories/jetstream/codec.go:75-85 | decoding succeeds exactly on digit strings with a non-zero digit and value below 2^64; strings of zeros denote sequence zero, a text whose leading digits are worth 2^64 or more is out of range whatever follows, and every other text is malformed |
| OffsetCodec.EncodeKeepsOrder | internal/repositories/jetstream/codec.go:65-73 | encoding is injective, and length-then-text order is number order |

## Left out

- Sockets, read deadlines as system calls, context cancellation and process supervision: only the resulting turns (datagram, timeout, shutdown) are modelled, with no time spent handling a turn.
- The stream server: assumed to be an append-only log numbered from 1 with last-per-subject and start-at-sequence delivery; ageing, time-to-live and acknowledgements are not modelled, and a publish that reports an error is taken to have stored nothing.
- Concurrent writes for one actor: the model has one writer, as the emitting goroutine provides.
- The order in which separate subscriptions interleave: any interleaving is admitted, and only order within a topic is claimed.
- Live delivery after the backlog, and the blocking loop of a subscription.
- JSON and wire-format conversion: the conversions copy fields; absent and empty lists and maps are one value here, except for a datagram's location, whose absence matters.
- Floating point: coordinates are reals that are copied and never computed with.
- End-to-end agreement across a restart of the provider: its tag map is lost, so restart results are about the repository alone.
- EventIds.IdsDistinctExactly: claims nothing for times outside the non-negative 64-bit nanosecond range, where the printed number is undefined.
- Pipeline.Process: the emitted events are written after the loop has ended, so no write's error answers an emit; with no failing call there is none.
- QuuppaAdapter.Adapter.RunScript: the goroutine's turns are placed between the read loop's turns, and its failure is noticed at the next turn.
- The gRPC side, the pass-through service but for its wiring of emit to write, configuration, health checks, the simulator and deployment: wrappers without state of their own.
