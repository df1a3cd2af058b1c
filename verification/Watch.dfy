/** What a subscriber gets: a snapshot of the last message per subject, or a replay from an
    offset. One subscription per topic feeds a shared channel, so only the order within a
    topic is kept; a subscriber folds what it receives into its latest event per subject. */
module Watch {
  import opened Domain
  import opened Decimal
  import opened OffsetCodec
  import opened RepositoryModel
  import opened Coherence
  import opened ChangeLog

  const CHANGE_TOPICS := {ZoneTopic, PresenceTopic, CommandTopic}

  // Which subjects a subscription covers.

  function Pattern(t: Topic): string {
    Prefix(t) + ">"
  }

  /** A pattern ending in the full wildcard covers the names that extend its prefix. */
  predicate Matches(pattern: string, name: string)
    requires pattern != []
  {
    |name| >= |pattern| && name[..|pattern| - 1] == pattern[..|pattern| - 1]
  }

  lemma PatternCoversTopic(t: Topic, s: Subject)
    ensures Matches(Pattern(t), s.Text()) <==> s.topic == t && s.actor != ""
  {
    var p, name := Prefix(t), s.Text();
    assert Pattern(t)[..|p|] == p;
    assert name[..|Prefix(s.topic)|] == Prefix(s.topic);
    if Matches(Pattern(t), name) {
      assert name[..|p|] == p;
      assert p[6] == name[6] && name[6] == Prefix(s.topic)[6];
      assert s.topic == t;
    }
  }

  function TopicFor(kind: EventType): Option<Topic> {
    match kind
    case EventZone => Some(ZoneTopic)
    case EventPresence => Some(PresenceTopic)
    case EventCommand => Some(CommandTopic)
    case EventUnspecified => None
  }

  /** The patterns of the known types, in order of first mention. */
  function PatternsOf(types: seq<EventType>): seq<string> {
    if types == [] then []
    else
      var before, topic := PatternsOf(Init(types)), TopicFor(Last(types));
      if topic.None? || Pattern(topic.value) in before then before else before + [Pattern(topic.value)]
  }

  /** The patterns of a subscription: all three for no types; otherwise one per known type, in
      order of first mention, without repeats. Unknown types are ignored, and raw subjects
      are never covered. */
  method WatchSubjects(types: seq<EventType>) returns (out: seq<string>)
    ensures forall i, j | 0 <= i < j < |out| :: out[i] != out[j]
    ensures forall p :: p in out <==> exists t :: t in CHANGE_TOPICS && p == Pattern(t) &&
                                        (types == [] || exists i :: 0 <= i < |types| && TopicFor(types[i]) == Some(t))
    ensures Pattern(Raw) !in out
    ensures types != [] ==> out == PatternsOf(types)
    ensures types == [] ==> out == ["zonyx.zone.>", "zonyx.presence.>", "zonyx.command.>"]
  {
    PatternsDiffer();
    PatternNames();
    hide Pattern;
    if types == [] {
      out := [Pattern(ZoneTopic), Pattern(PresenceTopic), Pattern(CommandTopic)];
      return;
    }
    var seen: set<string> := {};
    out := [];
    for n := 0 to |types|
      invariant forall p :: p in seen <==> p in out
      invariant out == PatternsOf(types[..n])
      invariant forall i, j | 0 <= i < j < |out| :: out[i] != out[j]
      invariant forall p :: p in out <==> exists t :: t in CHANGE_TOPICS && p == Pattern(t) &&
                                            exists i :: 0 <= i < n && TopicFor(types[i]) == Some(t)
    {
      assert Init(types[..n + 1]) == types[..n];
      var topic := TopicFor(types[n]);
      if topic.None? {
        continue;
      }
      var s := Pattern(topic.value);
      if s !in seen {
        seen := seen + {s};
        out := out + [s];
      }
    }
    assert types[..|types|] == types;
  }

  lemma PatternNames()
    ensures Pattern(ZoneTopic) == "zonyx.zone.>" && Pattern(PresenceTopic) == "zonyx.presence.>"
    ensures Pattern(CommandTopic) == "zonyx.command.>" && Pattern(Raw) == "zonyx.raw.>"
  {
  }

  lemma PatternsExtend(types: seq<EventType>, t: EventType)
    ensures PatternsOf(types + [t]) ==
            if TopicFor(t).None? || Pattern(TopicFor(t).value) in PatternsOf(types) then PatternsOf(types)
            else PatternsOf(types) + [Pattern(TopicFor(t).value)]
  {
    hide Pattern, TopicFor;
    assert Init(types + [t]) == types && Last(types + [t]) == t;
  }

  lemma NoPatterns()
    ensures PatternsOf([]) == []
  {
  }

  /** By name: a type that is asked for yields its pattern, and nothing else does; unknown types
      alone yield none. */
  lemma {:induction false} PatternsByName(types: seq<EventType>)
    ensures "zonyx.zone.>" in PatternsOf(types) <==> EventZone in types
    ensures "zonyx.presence.>" in PatternsOf(types) <==> EventPresence in types
    ensures "zonyx.command.>" in PatternsOf(types) <==> EventCommand in types
    ensures forall p | p in PatternsOf(types) :: p in {"zonyx.zone.>", "zonyx.presence.>", "zonyx.command.>"}
    ensures (forall t | t in types :: t == EventUnspecified) ==> PatternsOf(types) == []
  {
    hide PatternsOf;
    if types == [] {
      NoPatterns();
    } else {
      var pre, t := Init(types), Last(types);
      assert types == pre + [t];
      PatternsByName(pre);
      PatternsExtend(pre, t);
      PatternNames();
      hide Pattern;
      NamesDiffer();
    }
  }

  lemma NamesDiffer()
    ensures "zonyx.zone.>" != "zonyx.presence.>" && "zonyx.zone.>" != "zonyx.command.>"
    ensures "zonyx.presence.>" != "zonyx.command.>"
  {
    assert "zonyx.zone.>"[6] == 'z' && "zonyx.presence.>"[6] == 'p' && "zonyx.command.>"[6] == 'c';
  }

  /** Patterns stand in the order of first mention: naming more types only adds at the end. */
  lemma {:induction false} PatternsInOrder(types: seq<EventType>, n: nat)
    requires n <= |types|
    ensures PatternsOf(types[..n]) <= PatternsOf(types)
  {
    if n == |types| {
      assert types[..n] == types;
    } else {
      var pre, t := Init(types), Last(types);
      assert types == pre + [t] && pre[..n] == types[..n];
      hide PatternsOf;
      PatternsInOrder(pre, n);
      PatternsExtend(pre, t);
    }
  }

  lemma PatternsDiffer()
    ensures forall t, u: Topic {:trigger Pattern(t), Pattern(u)} :: Pattern(t) == Pattern(u) ==> t == u
  {
    forall t: Topic, u: Topic | Pattern(t) == Pattern(u) ensures t == u {
      assert Pattern(t)[6] == Pattern(u)[6];
    }
  }

  // What each subscription delivers.

  function Topical(msgs: seq<Message>, t: Topic): seq<Message> {
    if msgs == [] then [] else Topical(Init(msgs), t) + if Last(msgs).subject.topic == t then [Last(msgs)] else []
  }

  lemma TopicalExtend(msgs: seq<Message>, m: Message, t: Topic)
    ensures Topical(msgs + [m], t) == Topical(msgs, t) + if m.subject.topic == t then [m] else []
  {
    assert Init(msgs + [m]) == msgs && Last(msgs + [m]) == m;
  }

  predicate Mentions(msgs: seq<Message>, s: Subject) {
    exists i | 0 <= i < |msgs| :: msgs[i].subject == s
  }

  /** The messages that are the last on their subject, in stream order. */
  function LastPerSubject(log: seq<Message>): seq<Message> {
    if log == [] then []
    else (if Mentions(log[1..], log[0].subject) then [] else [log[0]]) + LastPerSubject(log[1..])
  }

  /** Everything from a sequence number on; the first message of the stream has number 1. */
  function From(log: seq<Message>, n: nat): seq<Message>
    requires n >= 1
  {
    if n - 1 <= |log| then log[n - 1..] else []
  }

  lemma DecodedIsPositive(offset: string)
    ensures DecodeOffset(offset).Ok? ==> DecodeOffset(offset).value >= 1
  {
    DecodeAccepts(offset);
    if DecodeOffset(offset).Ok? {
      TrimmedIsPositive(offset);
    }
  }

  /** What a subscription starts with: the snapshot without an offset, a replay from a valid
      one, and an error for any other. Later messages follow live. */
  function Backlog(log: seq<Message>, offset: Option<string>): Result<seq<Message>, OffsetError> {
    match offset
    case None => Ok(LastPerSubject(log))
    case Some(text) =>
      DecodedIsPositive(text);
      match DecodeOffset(text)
      case Ok(n) => Ok(From(log, n))
      case Err(e) => Err(e)
  }

  /** What resuming from any text does. It is refused unless the text is a digit string for a
      number from 1 to 2^64-1, zero-padded or not; otherwise the replay starts with the message
      of that number, or is empty if the stream is shorter. */
  lemma ResumeFromText(log: seq<Message>, text: string)
    ensures Backlog(log, Some(text)).Ok? <==> AllDigits(text) && 1 <= Value(text) < TWO_64
    ensures Backlog(log, Some(text)).Ok? ==>
              Backlog(log, Some(text)).value == if Value(text) <= |log| then log[Value(text) - 1..] else []
  {
    DecodeAccepts(text);
    if AllDigits(text) {
      if HasNonZero(text) {
        TrimmedIsPositive(text);
      } else {
        ZerosAreWorthNothing(text);
      }
    }
    hide DecodeOffset, Value;
  }

  /** A subscriber received `d`: for each topic asked for, that subscription's messages in
      their order; the subscriptions interleave arbitrarily. */
  ghost predicate Delivered(d: seq<Message>, source: seq<Message>, topics: set<Topic>) {
    && (forall i | 0 <= i < |d| :: d[i].subject.topic in topics)
    && forall t | t in topics :: Topical(d, t) == Topical(source, t)
  }

  function FoldView(d: seq<Message>): map<Subject, Event> {
    if d == [] then map[] else FoldView(Init(d))[Last(d).subject := Last(d).event]
  }

  lemma {:induction false} FoldViewAt(d: seq<Message>, s: Subject)
    ensures s in FoldView(d) <==> Stream(d, s) != []
    ensures s in FoldView(d) ==> FoldView(d)[s] == Last(Stream(d, s))
  {
    if d != [] {
      FoldViewAt(Init(d), s);
    }
  }

  lemma {:induction false} TopicalStream(d: seq<Message>, t: Topic, s: Subject)
    ensures Stream(Topical(d, t), s) == if s.topic == t then Stream(d, s) else []
  {
    if d != [] {
      TopicalStream(Init(d), t, s);
      if Last(d).subject.topic == t {
        StreamAppend(Topical(Init(d), t), Last(d), s);
      } else {
        assert Topical(d, t) == Topical(Init(d), t);
      }
    }
  }

  lemma {:induction false} UncoveredStream(d: seq<Message>, topics: set<Topic>, s: Subject)
    requires forall i | 0 <= i < |d| :: d[i].subject.topic in topics
    requires s.topic !in topics
    ensures Stream(d, s) == []
  {
    if d != [] {
      assert d[|d| - 1] == Last(d);
      UncoveredStream(Init(d), topics, s);
    }
  }

  lemma {:induction false} StreamMentions(log: seq<Message>, s: Subject)
    ensures Mentions(log, s) <==> Stream(log, s) != []
  {
    if log != [] {
      StreamMentions(Init(log), s);
      if Mentions(Init(log), s) {
        var i :| 0 <= i < |Init(log)| && Init(log)[i].subject == s;
        assert log[i].subject == s;
      }
      if Mentions(log, s) {
        var i :| 0 <= i < |log| && log[i].subject == s;
        assert i < |log| - 1 ==> Init(log)[i].subject == s;
      }
    }
  }

  lemma SnapshotPrepend(m: Message, rest: seq<Message>)
    ensures LastPerSubject([m] + rest)
         == if Mentions(rest, m.subject) then LastPerSubject(rest) else [m] + LastPerSubject(rest)
  {
    hide Mentions;
    assert ([m] + rest)[0] == m && ([m] + rest)[1..] == rest;
  }

  lemma NothingStored(s: Subject)
    ensures LastPerSubject([]) == [] && Stream([], s) == []
  {
  }

  lemma {:induction false} SnapshotStream(log: seq<Message>, s: Subject)
    ensures Stream(LastPerSubject(log), s) == if Stream(log, s) == [] then [] else [Last(Stream(log, s))]
  {
    hide Mentions, LastPerSubject, Stream;
    if log == [] {
      NothingStored(s);
    } else {
      var m, rest := log[0], log[1..];
      assert log == [m] + rest;
      SnapshotStream(rest, s);
      SnapshotPrepend(m, rest);
      StreamMentions(rest, m.subject);
      StreamOfOne(m, s);
      StreamConcat([m], rest, s);
      StreamConcat([m], LastPerSubject(rest), s);
    }
  }

  lemma DeliveredView(d: seq<Message>, source: seq<Message>, topics: set<Topic>, s: Subject)
    requires Delivered(d, source, topics)
    ensures Stream(d, s) == if s.topic in topics then Stream(source, s) else []
  {
    if s.topic in topics {
      TopicalStream(d, s.topic, s);
      TopicalStream(source, s.topic, s);
    } else {
      UncoveredStream(d, topics, s);
    }
  }

  /** What any delivery of a snapshot folds to: the last message of every subject covered. */
  lemma SnapshotView(log: seq<Message>, topics: set<Topic>, d: seq<Message>, s: Subject)
    requires Delivered(d, LastPerSubject(log), topics)
    ensures s in FoldView(d) <==> s.topic in topics && Stream(log, s) != []
    ensures s in FoldView(d) ==> FoldView(d)[s] == Last(Stream(log, s))
  {
    FoldViewAt(d, s);
    DeliveredView(d, LastPerSubject(log), topics, s);
    SnapshotStream(log, s);
  }

  lemma ReplayView(log: seq<Message>, topics: set<Topic>, d: seq<Message>, s: Subject)
    requires Delivered(d, log, topics)
    ensures s in FoldView(d) <==> s.topic in topics && Stream(log, s) != []
    ensures s in FoldView(d) ==> FoldView(d)[s] == Last(Stream(log, s))
  {
    FoldViewAt(d, s);
    DeliveredView(d, log, topics, s);
  }

  /** A subscription without an offset and one from the first offset are both accepted, the
      second with the whole stream. */
  lemma StartsAreAccepted(log: seq<Message>)
    ensures Backlog(log, None).Ok?
    ensures Backlog(log, Some(EncodeOffset(1))) == Ok(log)
  {
    RoundTrip(1);
    hide DecodeOffset, EncodeOffset;
    assert From(log, 1) == log;
  }

  /** What a subscription without an offset starts with: however its subscriptions interleave,
      of every subject asked for its latest message, once, and nothing else. */
  lemma SnapshotIsLatest(log: seq<Message>, topics: set<Topic>, d: seq<Message>, s: Subject)
    ensures Backlog(log, None).Ok?
    ensures Delivered(d, Backlog(log, None).value, topics) ==>
              Stream(d, s) == if s.topic in topics && Stream(log, s) != [] then [Last(Stream(log, s))] else []
  {
    if Delivered(d, Backlog(log, None).value, topics) {
      DeliveredView(d, LastPerSubject(log), topics, s);
      SnapshotStream(log, s);
    }
  }

  /** For any stream, any topics, and however the subscriptions interleave: folding what a
      subscription without an offset starts with gives the same view as folding the whole
      change log from the first offset. */
  lemma SnapshotEqualsReplay(log: seq<Message>, topics: set<Topic>, snapshot: seq<Message>, replay: seq<Message>)
    ensures Backlog(log, None).Ok? && Backlog(log, Some(EncodeOffset(1))).Ok?
    ensures Delivered(snapshot, Backlog(log, None).value, topics)
            && Delivered(replay, Backlog(log, Some(EncodeOffset(1))).value, topics) ==>
              FoldView(snapshot) == FoldView(replay)
  {
    StartsAreAccepted(log);
    if Delivered(snapshot, LastPerSubject(log), topics) && Delivered(replay, log, topics) {
      forall s ensures s in FoldView(snapshot) <==> s in FoldView(replay)
               ensures s in FoldView(snapshot) ==> FoldView(snapshot)[s] == FoldView(replay)[s]
      {
        SnapshotView(log, topics, snapshot, s);
        ReplayView(log, topics, replay, s);
      }
    }
  }

  /** In a lossless run the repository's own memory is that view too. */
  lemma ViewIsMemory(steps: seq<Step>, topics: set<Topic>, d: seq<Message>, id: string, k: Kind)
    requires Lossless(steps) && TopicOf(k) in topics
    ensures Backlog(RunRepo(steps).log, None).Ok?
    ensures Delivered(d, Backlog(RunRepo(steps).log, None).value, topics) ==>
              var s := Subject(TopicOf(k), id);
              Memory(Effective(RunRepo(steps), id), k)
              == if s in FoldView(d) then Some(SnapOf(FoldView(d)[s], k)) else None
  {
    if Delivered(d, Backlog(RunRepo(steps).log, None).value, topics) {
      StreamIsDropKnown(steps, id, k);
      SnapshotView(RunRepo(steps).log, topics, d, Subject(TopicOf(k), id));
    }
  }

  // The shape of the log, and resuming from an offset.

  /** A change message directly follows the raw copy of the same event, under its subject. */
  predicate FollowsRaw(log: seq<Message>, i: nat)
    requires i < |log|
  {
    var m := log[i];
    m.subject.topic == Raw ||
    (i > 0 && log[i - 1] == Message(Subject(Raw, m.subject.actor), m.event)
     && m.event.actor.id == m.subject.actor && TopicFor(m.event.kind) == Some(m.subject.topic))
  }

  lemma WrittenFollowsRaw(r: Repo, e: Event, f: Faults, i: nat)
    requires i < |r.log + WrittenMessages(r, e, f)|
    requires i < |r.log| ==> FollowsRaw(r.log, i)
    ensures FollowsRaw(r.log + WrittenMessages(r, e, f), i)
  {
    hide Unchanged;
    var log := r.log + WrittenMessages(r, e, f);
    assert i < |r.log| ==> log[i] == r.log[i] && (i > 0 ==> log[i - 1] == r.log[i - 1]);
  }

  /** Whatever fails and however often the process restarts. */
  lemma {:induction false} ChangesFollowRaw(steps: seq<Step>, i: nat)
    requires i < |RunRepo(steps).log|
    ensures FollowsRaw(RunRepo(steps).log, i)
  {
    hide Write, WrittenMessages, FollowsRaw;
    var before := RunRepo(Init(steps));
    if i < |before.log| {
      ChangesFollowRaw(Init(steps), i);
    }
    if Last(steps).WriteStep? {
      var e, f := Last(steps).event, Last(steps).faults;
      WriteAppends(before, e, f);
      WrittenFollowsRaw(before, e, f, i);
    }
  }

  lemma {:induction false} LogGrows(steps: seq<Step>, n: nat)
    requires n <= |steps|
    ensures RunRepo(steps[..n]).log <= RunRepo(steps).log
  {
    if n == |steps| {
      assert steps[..n] == steps;
    } else {
      LogGrows(Init(steps), n);
      assert Init(steps)[..n] == steps[..n];
      if Last(steps).WriteStep? {
        hide Write;
        WriteAppends(RunRepo(Init(steps)), Last(steps).event, Last(steps).faults);
      }
    }
  }

  /** What the write at a position of a run returned. */
  function ResultAt(steps: seq<Step>, i: nat): Result<string, WriteError>
    requires i < |steps| && steps[i].WriteStep?
  {
    Write(RunRepo(steps[..i]), steps[i].event, steps[i].faults).result
  }

  lemma SuccessfulWrite(steps: seq<Step>, i: nat)
    requires i < |steps| && steps[i].WriteStep? && ResultAt(steps, i).Ok?
    ensures ResultAt(steps, i) == Ok(EncodeOffset(|RunRepo(steps[..i]).log| + 1))
    ensures RunRepo(steps[..i + 1]).log
            == RunRepo(steps[..i]).log + WrittenMessages(RunRepo(steps[..i]), steps[i].event, steps[i].faults)
    ensures |RunRepo(steps[..i]).log| < |RunRepo(steps[..i + 1]).log|
  {
    assert steps[..i + 1] == steps[..i] + [steps[i]];
    RunExtend(steps[..i], steps[i]);
    WriteAppends(RunRepo(steps[..i]), steps[i].event, steps[i].faults);
  }

  /** Offsets of successful writes strictly increase, as text and as sequence numbers. */
  lemma OffsetsIncrease(steps: seq<Step>, i: nat, j: nat)
    requires i < j < |steps| && steps[i].WriteStep? && steps[j].WriteStep?
    requires ResultAt(steps, i).Ok? && ResultAt(steps, j).Ok?
    ensures OffsetLess(ResultAt(steps, i).value, ResultAt(steps, j).value)
  {
    hide Write, RunFrom, EncodeOffset, OffsetLess, WrittenMessages;
    SuccessfulWrite(steps, i);
    SuccessfulWrite(steps, j);
    LogGrows(steps[..j], i + 1);
    assert steps[..j][..i + 1] == steps[..i + 1];
    EncodeKeepsOrder(|RunRepo(steps[..i]).log| + 1, |RunRepo(steps[..j]).log| + 1);
  }

  lemma {:induction false} TopicalConcat(a: seq<Message>, b: seq<Message>, t: Topic)
    ensures Topical(a + b, t) == Topical(a, t) + Topical(b, t)
  {
    if b == [] {
      assert a + b == a;
    } else {
      assert Init(a + b) == a + Init(b);
      TopicalConcat(a, Init(b), t);
    }
  }

  /** Resuming misses nothing and repeats nothing: from the offset a write returned, each
      subscription replays exactly what came after the log as it was before that write, that
      is, the write's own change message and every later one. */
  lemma ResumeFromWrite(steps: seq<Step>, i: nat, t: Topic)
    requires i < |steps| && steps[i].WriteStep? && ResultAt(steps, i).Ok?
    requires |RunRepo(steps).log| < TWO_64
    ensures var log := RunRepo(steps).log; var resumed := Backlog(log, Some(ResultAt(steps, i).value));
            && resumed.Ok?
            && Topical(log, t) == Topical(RunRepo(steps[..i]).log, t) + Topical(resumed.value, t)
            && WrittenMessages(RunRepo(steps[..i]), steps[i].event, steps[i].faults) <= resumed.value
  {
    var before, log := RunRepo(steps[..i]).log, RunRepo(steps).log;
    SuccessfulWrite(steps, i);
    LogGrows(steps, i + 1);
    RoundTrip(|before| + 1);
    hide Write, RunFrom, EncodeOffset, DecodeOffset, WrittenMessages;
    assert before <= log;
    assert log == before + From(log, |before| + 1);
    TopicalConcat(before, From(log, |before| + 1), t);
  }

  /** Resuming from the offset of a delivered message starts with that message again. */
  lemma ResumeRedelivers(log: seq<Message>, n: nat)
    requires 1 <= n <= |log| < TWO_64
    ensures var t := log[n - 1].subject.topic; var resumed := Backlog(log, Some(EncodeOffset(n)));
            resumed.Ok? && Topical(resumed.value, t) == [log[n - 1]] + Topical(From(log, n + 1), t)
  {
    hide EncodeOffset, DecodeOffset;
    RoundTrip(n);
    FromStartsWith(log, n);
  }

  lemma FromStartsWith(log: seq<Message>, n: nat)
    requires 1 <= n <= |log|
    ensures var t := log[n - 1].subject.topic; Topical(From(log, n), t) == [log[n - 1]] + Topical(From(log, n + 1), t)
  {
    var m, rest := log[n - 1], From(log, n + 1);
    assert From(log, n) == [m] + rest;
    TopicalConcat([m], rest, m.subject.topic);
    assert Init([m]) == [] && Topical([m], m.subject.topic) == [m];
  }
}
