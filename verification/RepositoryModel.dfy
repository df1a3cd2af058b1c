/** The event repository as functions: the append-only stream, the per-actor cache, the
    key-value bucket behind it, and what one write or one restart does to them. The class in
    Repository.dfy is proved against these. */
module RepositoryModel {
  import opened Domain
  import opened Zones
  import opened OffsetCodec

  datatype Topic = Raw | ZoneTopic | PresenceTopic | CommandTopic

  /** A subject of the stream; `Text` is its name on the wire. */
  datatype Subject = Subject(topic: Topic, actor: string)
  {
    function Text(): string {
      Prefix(topic) + actor
    }
  }

  function Prefix(t: Topic): string {
    match t
    case Raw => "zonyx.raw."
    case ZoneTopic => "zonyx.zone."
    case PresenceTopic => "zonyx.presence."
    case CommandTopic => "zonyx.command."
  }

  /** The names on the wire. */
  lemma SubjectNames(actor: string)
    ensures Subject(Raw, actor).Text() == "zonyx.raw." + actor
    ensures Subject(ZoneTopic, actor).Text() == "zonyx.zone." + actor
    ensures Subject(PresenceTopic, actor).Text() == "zonyx.presence." + actor
    ensures Subject(CommandTopic, actor).Text() == "zonyx.command." + actor
  {
  }

  /** Different subjects have different names, whatever characters the actor id contains. */
  lemma TextInjective(s: Subject, t: Subject)
    ensures s.Text() == t.Text() ==> s == t
  {
    if s.Text() == t.Text() {
      assert s.Text()[6] == t.Text()[6];
      assert s.Text()[6] == Prefix(s.topic)[6] && t.Text()[6] == Prefix(t.topic)[6];
      assert s.topic == t.topic;
      assert s.actor == s.Text()[|Prefix(s.topic)|..];
      assert t.actor == t.Text()[|Prefix(t.topic)|..];
    }
  }

  datatype Message = Message(subject: Subject, event: Event)

  datatype ActorState = ActorState(
    zones: seq<string>,
    presence: PresenceType,
    locationType: string,
    movementStatus: string,
    hasZones: bool,
    hasPresence: bool)

  const NO_STATE := ActorState([], PresenceUnspecified, "", "", false, false)

  /** The two kinds of change that are detected, and what is compared for each. */
  datatype Kind = ZoneKind | PresenceKind

  datatype Snap = ZoneSnap(zones: seq<string>, locationType: string, movementStatus: string)
                | PresenceSnap(presence: PresenceType)

  function TopicOf(k: Kind): Topic {
    if k.ZoneKind? then ZoneTopic else PresenceTopic
  }

  function SnapOf(e: Event, k: Kind): Snap {
    if k.ZoneKind? then ZoneSnap(e.Zones(), e.Metadata("locationType"), e.Metadata("movementStatus"))
    else PresenceSnap(e.state.presence.kind)
  }

  /** The scan for zones, equality for everything else. */
  predicate SameSnap(prev: Snap, curr: Snap) {
    if prev.ZoneSnap? && curr.ZoneSnap? then
      SameZones(prev.zones, curr.zones) && prev.locationType == curr.locationType
      && prev.movementStatus == curr.movementStatus
    else prev == curr
  }

  /** What a record remembers of a kind, if its flag for that kind is set. */
  function Memory(s: ActorState, k: Kind): Option<Snap> {
    if k.ZoneKind? then
      if s.hasZones then Some(ZoneSnap(s.zones, s.locationType, s.movementStatus)) else None
    else
      if s.hasPresence then Some(PresenceSnap(s.presence)) else None
  }

  function Remember(s: ActorState, e: Event, k: Kind): ActorState {
    if k.ZoneKind? then
      s.(zones := e.Zones(), locationType := e.Metadata("locationType"),
         movementStatus := e.Metadata("movementStatus"), hasZones := true)
    else
      s.(presence := e.state.presence.kind, hasPresence := true)
  }

  datatype Repo = Repo(log: seq<Message>, cache: map<string, ActorState>, kv: map<string, ActorState>)

  const EMPTY_REPO := Repo([], map[], map[])

  /** Which of the calls a write makes fail: the raw publish, the bucket lookup, the publish
      of the change, the bucket update. A failed publish stores nothing. */
  datatype Faults = Faults(raw: bool, lookup: bool, change: bool, persist: bool)

  const NO_FAULTS := Faults(false, false, false, false)

  datatype WriteError = RawNotStored | ChangeNotStored

  function Append(r: Repo, topic: Topic, e: Event): Repo {
    r.(log := r.log + [Message(Subject(topic, e.actor.id), e)])
  }

  /** The state a handler starts from: the cached record; on a miss the bucket's, which is
      then cached; an empty one, not cached, if the bucket has none or cannot be read. */
  function Recall(r: Repo, id: string, lookupFails: bool): (Repo, ActorState)
  {
    if id in r.cache then (r, r.cache[id])
    else if lookupFails || id !in r.kv then (r, NO_STATE)
    else (r.(cache := r.cache[id := r.kv[id]]), r.kv[id])
  }

  predicate Unchanged(s: ActorState, e: Event, k: Kind) {
    Memory(s, k).Some? && SameSnap(Memory(s, k).value, SnapOf(e, k))
  }

  datatype Handled = Handled(repo: Repo, stored: bool)

  function HandleChange(r: Repo, e: Event, k: Kind, f: Faults): Handled {
    var id := e.actor.id;
    var (r', prev) := Recall(r, id, f.lookup);
    if Unchanged(prev, e, k) then Handled(r', true)
    else if f.change then Handled(r', false)
    else
      var curr := Remember(prev, e, k);
      Handled(Append(r', TopicOf(k), e).(cache := r'.cache[id := curr],
                                         kv := if f.persist then r'.kv else r'.kv[id := curr]), true)
  }

  datatype Written = Written(repo: Repo, result: Result<string, WriteError>)

  function Write(r: Repo, e: Event, f: Faults): Written {
    if f.raw then Written(r, Err(RawNotStored))
    else
      var offset := EncodeOffset(|r.log| + 1);
      var r' := Append(r, Raw, e);
      match e.kind
      case EventZone =>
        var h := HandleChange(r', e, ZoneKind, f);
        Written(h.repo, if h.stored then Ok(offset) else Err(ChangeNotStored))
      case EventPresence =>
        var h := HandleChange(r', e, PresenceKind, f);
        Written(h.repo, if h.stored then Ok(offset) else Err(ChangeNotStored))
      case EventCommand =>
        if f.change then Written(r', Err(ChangeNotStored)) else Written(Append(r', CommandTopic, e), Ok(offset))
      case EventUnspecified => Written(r', Ok(offset))
  }

  /** A new process over the same stream and bucket. */
  function Restart(r: Repo): Repo {
    r.(cache := map[])
  }

  datatype Step = WriteStep(event: Event, faults: Faults) | RestartStep

  function StepRepo(r: Repo, s: Step): Repo {
    match s
    case WriteStep(e, f) => Write(r, e, f).repo
    case RestartStep => Restart(r)
  }

  function RunFrom(r: Repo, steps: seq<Step>): Repo {
    if steps == [] then r else StepRepo(RunFrom(r, Init(steps)), Last(steps))
  }

  function RunRepo(steps: seq<Step>): Repo {
    RunFrom(EMPTY_REPO, steps)
  }

  /** The events published on one subject, in order. */
  function Stream(log: seq<Message>, s: Subject): seq<Event> {
    if log == [] then [] else Stream(Init(log), s) + if Last(log).subject == s then [Last(log).event] else []
  }

  lemma StreamAppend(log: seq<Message>, m: Message, s: Subject)
    ensures Stream(log + [m], s) == Stream(log, s) + if m.subject == s then [m.event] else []
  {
    assert Init(log + [m]) == log && Last(log + [m]) == m;
  }

  /** Where detection stands for an actor: its cached record, or else the bucket's. */
  function Effective(r: Repo, id: string): ActorState {
    if id in r.cache then r.cache[id] else if id in r.kv then r.kv[id] else NO_STATE
  }

  function KindStream(r: Repo, id: string, k: Kind): seq<Event> {
    Stream(r.log, Subject(TopicOf(k), id))
  }

  predicate OfKind(e: Event, k: Kind) {
    e.kind == if k.ZoneKind? then EventZone else EventPresence
  }

  /** Whether this write reaches change detection of this kind, for this actor. */
  predicate Reaches(e: Event, f: Faults, id: string, k: Kind) {
    !f.raw && e.actor.id == id && OfKind(e, k)
  }

  /** Whether a bucket lookup is attempted for this actor and fails. */
  predicate LookupFails(r: Repo, e: Event, f: Faults, id: string) {
    !f.raw && f.lookup && e.actor.id == id && (e.kind == EventZone || e.kind == EventPresence) && id !in r.cache
  }

  /** Whether a write publishes a change of this kind for this actor. */
  predicate Publishes(r: Repo, e: Event, f: Faults, id: string, k: Kind) {
    Reaches(e, f, id, k) && !f.change && !Unchanged(Recall(r, id, f.lookup).1, e, k)
  }

  /** The messages a write appends: the raw copy, then at most one change of the same event. */
  function WrittenMessages(r: Repo, e: Event, f: Faults): seq<Message> {
    var id := e.actor.id;
    if f.raw then []
    else
      [Message(Subject(Raw, id), e)]
      + if Publishes(r, e, f, id, ZoneKind) then [Message(Subject(ZoneTopic, id), e)]
        else if Publishes(r, e, f, id, PresenceKind) then [Message(Subject(PresenceTopic, id), e)]
        else if e.kind == EventCommand && !f.change then [Message(Subject(CommandTopic, id), e)]
        else []
  }

  lemma HandleAppends(r: Repo, e: Event, k: Kind, f: Faults)
    ensures HandleChange(r, e, k, f).repo.log ==
            r.log + if !f.change && !Unchanged(Recall(r, e.actor.id, f.lookup).1, e, k)
                    then [Message(Subject(TopicOf(k), e.actor.id), e)] else []
  {
    hide Unchanged, Remember;
  }

  lemma WriteAppends(r: Repo, e: Event, f: Faults)
    ensures Write(r, e, f).repo.log == r.log + WrittenMessages(r, e, f)
  {
    hide Unchanged, HandleChange;
    var r' := Append(r, Raw, e);
    HandleAppends(r', e, ZoneKind, f);
    HandleAppends(r', e, PresenceKind, f);
    assert Recall(r', e.actor.id, f.lookup).1 == Recall(r, e.actor.id, f.lookup).1;
  }

  lemma {:induction false} StreamConcat(a: seq<Message>, b: seq<Message>, s: Subject)
    ensures Stream(a + b, s) == Stream(a, s) + Stream(b, s)
  {
    if b == [] {
      assert a + b == a;
    } else {
      assert Init(a + b) == a + Init(b);
      StreamConcat(a, Init(b), s);
    }
  }

  lemma StreamOfOne(m: Message, s: Subject)
    ensures Stream([m], s) == if m.subject == s then [m.event] else []
  {
    StreamAppend([], m, s);
    assert [] + [m] == [m];
  }

  lemma StreamOfFew(m: Message, n: Message, s: Subject)
    ensures Stream([m] + [], s) == if m.subject == s then [m.event] else []
    ensures Stream([m] + [n], s) == (if m.subject == s then [m.event] else [])
            + if n.subject == s then [n.event] else []
  {
    assert [m] + [] == [m];
    StreamOfOne(m, s);
    StreamOfOne(n, s);
    StreamConcat([m], [n], s);
  }

  /** The stream of any subject after a write. */
  lemma StreamAfterWrite(r: Repo, e: Event, f: Faults, s: Subject)
    ensures Stream(Write(r, e, f).repo.log, s) == Stream(r.log, s) + Stream(WrittenMessages(r, e, f), s)
  {
    WriteAppends(r, e, f);
    StreamConcat(r.log, WrittenMessages(r, e, f), s);
  }

  lemma OneKind(r: Repo, e: Event, f: Faults, id: string)
    ensures Publishes(r, e, f, id, ZoneKind) ==> !f.raw && e.kind == EventZone
    ensures Publishes(r, e, f, id, PresenceKind) ==> !f.raw && e.kind == EventPresence
  {
  }

  lemma StreamOfNothing(s: Subject)
    ensures Stream([], s) == []
  {
  }

  lemma WrittenOnSubject(r: Repo, e: Event, f: Faults, s: Subject)
    ensures Stream(WrittenMessages(r, e, f), s) ==
            if f.raw || s.actor != e.actor.id then []
            else match s.topic
                 case Raw => [e]
                 case ZoneTopic => if Publishes(r, e, f, s.actor, ZoneKind) then [e] else []
                 case PresenceTopic => if Publishes(r, e, f, s.actor, PresenceKind) then [e] else []
                 case CommandTopic => if e.kind == EventCommand && !f.change then [e] else []
  {
    hide Unchanged, Stream, Publishes;
    OneKind(r, e, f, e.actor.id);
    StreamOfNothing(s);
    var raw := Message(Subject(Raw, e.actor.id), e);
    StreamOfFew(raw, Message(Subject(ZoneTopic, e.actor.id), e), s);
    StreamOfFew(raw, Message(Subject(PresenceTopic, e.actor.id), e), s);
    StreamOfFew(raw, Message(Subject(CommandTopic, e.actor.id), e), s);
  }

  /** One write, seen on one actor's change stream of one kind. */
  lemma WriteOnStream(r: Repo, e: Event, f: Faults, id: string, k: Kind)
    ensures KindStream(Write(r, e, f).repo, id, k) == KindStream(r, id, k)
            + if Publishes(r, e, f, id, k) then [e] else []
  {
    hide Write, WrittenMessages, Unchanged;
    StreamAfterWrite(r, e, f, Subject(TopicOf(k), id));
    WrittenOnSubject(r, e, f, Subject(TopicOf(k), id));
  }

  lemma HandleOnMemory(r: Repo, e: Event, kind: Kind, f: Faults, id: string, k: Kind)
    ensures var r' := HandleChange(r, e, kind, f).repo; var prev := Recall(r, e.actor.id, f.lookup).1;
            var published := !f.change && !Unchanged(prev, e, kind);
            && (id != e.actor.id ==> Effective(r', id) == Effective(r, id))
            && (!published ==> Effective(r', id) == Effective(r, id))
            && (published ==> e.actor.id in r'.cache && Effective(r', e.actor.id) == Remember(prev, e, kind))
  {
    hide Unchanged, Remember;
  }

  lemma RememberOne(s: ActorState, e: Event, kind: Kind, k: Kind)
    ensures Memory(Remember(s, e, kind), k) == if kind == k then Some(SnapOf(e, k)) else Memory(s, k)
  {
  }

  /** One write, seen on one actor's memory: unchanged unless something is published; then the
      published kind is remembered, and the other kind is kept unless the lookup failed. */
  lemma WriteOnMemory(r: Repo, e: Event, f: Faults, id: string, k: Kind)
    ensures Publishes(r, e, f, id, k) ==>
              Memory(Effective(Write(r, e, f).repo, id), k) == Some(SnapOf(e, k)) && id in Write(r, e, f).repo.cache
    ensures !Publishes(r, e, f, id, k) ==>
              Memory(Effective(Write(r, e, f).repo, id), k) == Memory(Effective(r, id), k)
              || (LookupFails(r, e, f, id) && Memory(Effective(Write(r, e, f).repo, id), k) == None)
  {
    hide Unchanged, HandleChange, Remember;
    var r' := Append(r, Raw, e);
    HandleOnMemory(r', e, ZoneKind, f, id, k);
    HandleOnMemory(r', e, PresenceKind, f, id, k);
    var prev := Recall(r, e.actor.id, f.lookup).1;
    assert Recall(r', e.actor.id, f.lookup).1 == prev;
    RememberOne(prev, e, ZoneKind, k);
    RememberOne(prev, e, PresenceKind, k);
  }
}
