/** A subscription cut short and resumed. A subscriber knows a message by its offset, that is by
    its number in the stream, and receives one topic's messages in order but several topics
    interleaved in any way. */
module Resume {
  import opened Domain
  import opened Decimal
  import opened OffsetCodec
  import opened RepositoryModel
  import opened Watch

  predicate HasTopic(log: seq<Message>, n: nat, t: Topic) {
    1 <= n <= |log| && log[n - 1].subject.topic == t
  }

  /** What a subscription from a number on asks for. */
  predicate Wanted(log: seq<Message>, from: nat, topics: set<Topic>, n: nat) {
    1 <= n <= |log| && from <= n && log[n - 1].subject.topic in topics
  }

  /** The numbers of one topic's messages from a number on: what its subscription delivers. */
  function Numbers(log: seq<Message>, from: nat, t: Topic): seq<nat> {
    if log == [] then []
    else Numbers(Init(log), from, t) + if from <= |log| && Last(log).subject.topic == t then [|log|] else []
  }

  function OnTopic(log: seq<Message>, d: seq<nat>, t: Topic): seq<nat> {
    if d == [] then [] else OnTopic(log, Init(d), t) + IfOnTopic(log, Last(d), t)
  }

  function IfOnTopic(log: seq<Message>, n: nat, t: Topic): seq<nat> {
    if HasTopic(log, n, t) then [n] else []
  }

  /** What a subscriber may have received at some moment: of each topic a first part. */
  ghost predicate Received(log: seq<Message>, from: nat, topics: set<Topic>, d: seq<nat>) {
    && (forall n | n in d :: Wanted(log, from, topics, n))
    && forall t | t in topics :: OnTopic(log, d, t) <= Numbers(log, from, t)
  }

  /** Of each topic everything. */
  ghost predicate AllReceived(log: seq<Message>, from: nat, topics: set<Topic>, d: seq<nat>) {
    Received(log, from, topics, d) && forall t | t in topics :: OnTopic(log, d, t) == Numbers(log, from, t)
  }

  predicate Increasing(d: seq<nat>) {
    forall i, j | 0 <= i < j < |d| :: d[i] < d[j]
  }

  lemma NumbersExtend(log: seq<Message>, m: Message, from: nat, t: Topic)
    ensures Numbers(log + [m], from, t)
         == Numbers(log, from, t) + if from <= |log| + 1 && m.subject.topic == t then [|log| + 1] else []
  {
    assert Init(log + [m]) == log && Last(log + [m]) == m;
  }

  lemma NothingNumbered(from: nat, t: Topic)
    ensures Numbers([], from, t) == []
  {
  }

  lemma {:induction false} NumbersAre(log: seq<Message>, from: nat, t: Topic)
    ensures forall n :: n in Numbers(log, from, t) <==> HasTopic(log, n, t) && from <= n
    ensures Increasing(Numbers(log, from, t))
  {
    hide Numbers;
    if log == [] {
      NothingNumbered(from, t);
    } else {
      var pre, m, before := Init(log), Last(log), Numbers(Init(log), from, t);
      assert log == pre + [m];
      NumbersAre(pre, from, t);
      NumbersExtend(pre, m, from, t);
      assert forall i | 0 <= i < |before| :: before[i] in before;
    }
  }

  lemma OnTopicExtend(log: seq<Message>, d: seq<nat>, n: nat, t: Topic)
    ensures OnTopic(log, d + [n], t) == OnTopic(log, d, t) + IfOnTopic(log, n, t)
  {
    hide IfOnTopic;
    assert Init(d + [n]) == d && Last(d + [n]) == n;
  }

  lemma NothingReceived(log: seq<Message>, t: Topic)
    ensures OnTopic(log, [], t) == [] && Messages(log, []) == [] && Topical([], t) == []
  {
  }

  lemma {:induction false} OnTopicAre(log: seq<Message>, d: seq<nat>, t: Topic)
    ensures forall n :: n in OnTopic(log, d, t) <==> n in d && HasTopic(log, n, t)
  {
    hide OnTopic, HasTopic;
    if d == [] {
      NothingReceived(log, t);
    } else {
      var pre, n := Init(d), Last(d);
      assert d == pre + [n];
      OnTopicAre(log, pre, t);
      OnTopicExtend(log, pre, n, t);
    }
  }

  /** A subscription that ran to the end has delivered exactly what was asked for. */
  lemma AllReceivedAre(log: seq<Message>, from: nat, topics: set<Topic>, d: seq<nat>, n: nat)
    requires AllReceived(log, from, topics, d)
    ensures n in d <==> Wanted(log, from, topics, n)
  {
    if Wanted(log, from, topics, n) {
      var t := log[n - 1].subject.topic;
      NumbersAre(log, from, t);
      OnTopicAre(log, d, t);
    }
  }

  /** Within a topic nothing is received before everything earlier is. */
  lemma NoGapOnTopic(log: seq<Message>, from: nat, topics: set<Topic>, d: seq<nat>, m: nat, n: nat, t: Topic)
    requires Received(log, from, topics, d) && m in d && t in topics
    requires HasTopic(log, m, t) && HasTopic(log, n, t) && from <= n <= m
    ensures n in d
  {
    var some, all := OnTopic(log, d, t), Numbers(log, from, t);
    NumbersAre(log, from, t);
    OnTopicAre(log, d, t);
    assert some <= all;
    hide OnTopic, Numbers, Received;
    var i :| 0 <= i < |some| && some[i] == m;
    var j :| 0 <= j < |all| && all[j] == n;
    assert all[i] == m;
    assert j <= i;
    assert some[j] in some;
  }

  lemma {:induction false} OnTopicOfPrefix(log: seq<Message>, m: Message, d: seq<nat>, t: Topic)
    requires forall n | n in d :: n <= |log|
    ensures OnTopic(log + [m], d, t) == OnTopic(log, d, t)
  {
    hide OnTopic;
    if d == [] {
      NothingReceived(log, t);
      NothingReceived(log + [m], t);
    } else {
      var pre, n := Init(d), Last(d);
      assert d == pre + [n];
      assert n in d && forall k | k in pre :: k in d;
      OnTopicOfPrefix(log, m, pre, t);
      OnTopicExtend(log, pre, n, t);
      OnTopicExtend(log + [m], pre, n, t);
    }
  }

  /** What was received stays a possible first part as the stream grows. */
  lemma ReceivedGrows(log: seq<Message>, m: Message, from: nat, topics: set<Topic>, d: seq<nat>)
    requires Received(log, from, topics, d)
    ensures Received(log + [m], from, topics, d)
  {
    forall n | n in d ensures Wanted(log + [m], from, topics, n) {
      assert (log + [m])[n - 1] == log[n - 1];
    }
    forall t | t in topics ensures OnTopic(log + [m], d, t) <= Numbers(log + [m], from, t) {
      OnTopicOfPrefix(log, m, d, t);
      NumbersExtend(log, m, from, t);
    }
  }

  /** The subscriber ends up with everything it asked for at first. */
  ghost predicate Complete(log: seq<Message>, from: nat, topics: set<Topic>, d: seq<nat>, rest: seq<nat>) {
    forall n: nat | Wanted(log, from, topics, n) :: n in d || n in rest
  }

  /** Something asked for, of a smaller number, had not been received yet. */
  ghost predicate Skips(log: seq<Message>, from: nat, topics: set<Topic>, d: seq<nat>, resume: nat) {
    exists n: nat | Wanted(log, from, topics, n) && n < resume :: n !in d
  }

  function Messages(log: seq<Message>, d: seq<nat>): seq<Message> {
    if d == [] then [] else Messages(log, Init(d)) + MessageAt(log, Last(d))
  }

  function MessageAt(log: seq<Message>, n: nat): seq<Message> {
    if 1 <= n <= |log| then [log[n - 1]] else []
  }

  lemma MessagesExtend(log: seq<Message>, d: seq<nat>, n: nat)
    ensures Messages(log, d + [n]) == Messages(log, d) + MessageAt(log, n)
  {
    hide MessageAt;
    assert Init(d + [n]) == d && Last(d + [n]) == n;
  }

  lemma {:induction false} MessagesOnTopic(log: seq<Message>, d: seq<nat>, t: Topic)
    ensures Topical(Messages(log, d), t) == Messages(log, OnTopic(log, d, t))
  {
    hide Topical, Messages, OnTopic;
    if d == [] {
      NothingReceived(log, t);
    } else {
      var pre, n := Init(d), Last(d);
      var some, before := OnTopic(log, pre, t), Messages(log, pre);
      assert d == pre + [n];
      MessagesOnTopic(log, pre, t);
      OnTopicExtend(log, pre, n, t);
      MessagesExtend(log, pre, n);
      MessagesExtend(log, some, n);
      assert some + [] == some && before + [] == before && Messages(log, some) + [] == Messages(log, some);
      if 1 <= n <= |log| {
        TopicalExtend(before, log[n - 1], t);
      }
    }
  }

  lemma {:induction false} MessagesOfPrefix(log: seq<Message>, m: Message, d: seq<nat>)
    requires forall n | n in d :: n <= |log|
    ensures Messages(log + [m], d) == Messages(log, d)
  {
    hide Messages;
    if d == [] {
      NothingReceived(log, Raw);
      NothingReceived(log + [m], Raw);
    } else {
      var pre, n := Init(d), Last(d);
      assert d == pre + [n];
      assert n in d && forall k | k in pre :: k in d;
      MessagesOfPrefix(log, m, pre);
      MessagesExtend(log, pre, n);
      MessagesExtend(log + [m], pre, n);
    }
  }

  lemma FromExtend(log: seq<Message>, m: Message, from: nat)
    requires from >= 1
    ensures From(log + [m], from) == if from <= |log| + 1 then From(log, from) + [m] else From(log, from)
  {
  }

  lemma {:induction false} MessagesFrom(log: seq<Message>, from: nat, t: Topic)
    requires from >= 1
    ensures Topical(From(log, from), t) == Messages(log, Numbers(log, from, t))
  {
    hide Topical, Numbers, Messages;
    if log == [] {
      assert From(log, from) == [];
      NothingNumbered(from, t);
      NothingReceived(log, t);
    } else {
      var pre, m := Init(log), Last(log);
      var before := Numbers(pre, from, t);
      assert log == pre + [m];
      hide From;
      MessagesFrom(pre, from, t);
      NumbersAre(pre, from, t);
      MessagesOfPrefix(pre, m, before);
      MessagesExtend(log, before, |log|);
      NumbersExtend(pre, m, from, t);
      FromExtend(pre, m, from);
      assert MessageAt(log, |log|) == [m];
      hide MessageAt;
      if from <= |log| {
        TopicalExtend(From(pre, from), m, t);
      }
      if !(from <= |log| && m.subject.topic == t) {
        assert before + [] == before && Messages(log, before) + [] == Messages(log, before);
      }
    }
  }

  lemma {:induction false} MessagesAre(log: seq<Message>, topics: set<Topic>, d: seq<nat>, from: nat)
    requires forall n | n in d :: Wanted(log, from, topics, n)
    ensures forall m | m in Messages(log, d) :: m.subject.topic in topics
  {
    if d != [] {
      assert Last(d) in d && forall n | n in Init(d) :: n in d;
      MessagesAre(log, topics, Init(d), from);
    }
  }

  /** These numbers are those of a delivery of what the repository sends for the offset. */
  lemma AllReceivedDelivers(log: seq<Message>, topics: set<Topic>, resume: nat, d: seq<nat>)
    requires 1 <= resume < TWO_64 && AllReceived(log, resume, topics, d)
    ensures Backlog(log, Some(EncodeOffset(resume))).Ok?
    ensures Delivered(Messages(log, d), Backlog(log, Some(EncodeOffset(resume))).value, topics)
  {
    RoundTrip(resume);
    hide EncodeOffset, DecodeOffset, Topical, Messages;
    MessagesAre(log, topics, d, resume);
    forall t | t in topics ensures Topical(Messages(log, d), t) == Topical(From(log, resume), t) {
      MessagesOnTopic(log, d, t);
      MessagesFrom(log, resume, t);
    }
  }

  /** Resuming, exactly. Whatever was received when a subscription was cut short, and from
      whatever number it is resumed: it ends up complete if and only if nothing asked for with a
      smaller number was still missing, and it receives again exactly what it had from that
      number on. */
  lemma ResumeExactly(log: seq<Message>, from: nat, topics: set<Topic>, d: seq<nat>, resume: nat, rest: seq<nat>)
    requires Received(log, from, topics, d) && AllReceived(log, resume, topics, rest)
    ensures Complete(log, from, topics, d, rest) <==> !Skips(log, from, topics, d, resume)
    ensures forall n | n in d :: n in rest <==> n >= resume
  {
    hide AllReceived, OnTopic, Numbers;
    forall n ensures n in rest <==> Wanted(log, resume, topics, n) {
      AllReceivedAre(log, resume, topics, rest, n);
    }
  }

  /** With one topic, resuming from the last offset received misses nothing and repeats exactly
      that message. */
  lemma OneTopicResumes(log: seq<Message>, from: nat, t: Topic, d: seq<nat>, rest: seq<nat>)
    requires Received(log, from, {t}, d) && d != [] && AllReceived(log, Last(d), {t}, rest)
    ensures Complete(log, from, {t}, d, rest)
    ensures forall n | n in d :: n in rest <==> n == Last(d)
  {
    ResumeExactly(log, from, {t}, d, Last(d), rest);
    OneTopicInOrder(log, from, t, d);
    forall n: nat | Wanted(log, from, {t}, n) && n < Last(d) ensures n in d {
      assert Last(d) in d;
      NoGapOnTopic(log, from, {t}, d, Last(d), n, t);
    }
  }

  lemma {:induction false} OnlyTopic(log: seq<Message>, d: seq<nat>, t: Topic)
    requires forall n | n in d :: HasTopic(log, n, t)
    ensures OnTopic(log, d, t) == d
  {
    hide OnTopic, HasTopic;
    if d == [] {
      NothingReceived(log, t);
    } else {
      var pre, n := Init(d), Last(d);
      assert d == pre + [n];
      OnlyTopic(log, pre, t);
      OnTopicExtend(log, pre, n, t);
    }
  }

  lemma {:induction false} OtherTopic(log: seq<Message>, d: seq<nat>, t: Topic, u: Topic)
    requires t != u && forall n | n in d :: HasTopic(log, n, t)
    ensures OnTopic(log, d, u) == []
  {
    if d == [] {
      NothingReceived(log, u);
    } else {
      var pre, n := Init(d), Last(d);
      assert d == pre + [n];
      assert n in d && HasTopic(log, n, t);
      OtherTopic(log, pre, t, u);
      OnTopicExtend(log, pre, n, u);
      hide OnTopic;
    }
  }

  lemma OneTopicInOrder(log: seq<Message>, from: nat, t: Topic, d: seq<nat>)
    requires Received(log, from, {t}, d) && d != []
    ensures forall n | n in d :: n <= Last(d)
  {
    OnlyTopic(log, d, t);
    NumbersAre(log, from, t);
    assert forall i | 0 <= i < |d| :: d[i] == Numbers(log, from, t)[i];
  }

  lemma {:induction false} NumbersUpTo(log: seq<Message>, from: nat, t: Topic, m: nat)
    requires m <= |log|
    ensures Numbers(log[..m], from, t) <= Numbers(log, from, t)
  {
    if m == |log| {
      assert log[..m] == log;
    } else {
      NumbersUpTo(Init(log), from, t, m);
      assert Init(log)[..m] == log[..m];
    }
  }

  /** A subscriber may have received one topic up to a message and nothing of the others. */
  lemma OnlyOneTopicReceived(log: seq<Message>, from: nat, topics: set<Topic>, m: nat, t: Topic) returns (d: seq<nat>)
    requires Wanted(log, from, topics, m) && HasTopic(log, m, t)
    ensures Received(log, from, topics, d) && d != [] && Last(d) == m
    ensures forall n | n in d :: HasTopic(log, n, t)
  {
    var upTo := log[..m];
    d := Numbers(upTo, from, t);
    assert upTo == log[..m - 1] + [log[m - 1]];
    NumbersExtend(log[..m - 1], log[m - 1], from, t);
    hide Numbers, OnTopic;
    NumbersAre(upTo, from, t);
    NumbersUpTo(log, from, t, m);
    forall n | n in d ensures HasTopic(log, n, t) && Wanted(log, from, topics, n) {
      assert upTo[n - 1] == log[n - 1];
    }
    OnlyTopic(log, d, t);
    forall u | u in topics && u != t ensures OnTopic(log, d, u) == [] {
      OtherTopic(log, d, t, u);
    }
  }

  lemma MixedSkips(log: seq<Message>, from: nat, topics: set<Topic>, n: nat, m: nat) returns (d: seq<nat>)
    requires Wanted(log, from, topics, n) && Wanted(log, from, topics, m) && n < m
    requires log[n - 1].subject.topic != log[m - 1].subject.topic
    ensures Received(log, from, topics, d) && d != [] && Skips(log, from, topics, d, Last(d))
  {
    d := OnlyOneTopicReceived(log, from, topics, m, log[m - 1].subject.topic);
    assert n !in d;
  }

  /** Resuming from the last offset received never skips anything, wherever the subscription was
      cut, if and only if all that was asked for is of one topic. */
  lemma LastOffsetSafeExactly(log: seq<Message>, from: nat, topics: set<Topic>)
    ensures (forall d | Received(log, from, topics, d) && d != [] :: !Skips(log, from, topics, d, Last(d)))
            <==> forall n, m | Wanted(log, from, topics, n) && Wanted(log, from, topics, m) && n < m ::
                   log[n - 1].subject.topic == log[m - 1].subject.topic
  {
    if n, m :| Wanted(log, from, topics, n) && Wanted(log, from, topics, m) && n < m
               && log[n - 1].subject.topic != log[m - 1].subject.topic {
      var d := MixedSkips(log, from, topics, n, m);
      assert Skips(log, from, topics, d, Last(d));
    } else {
      forall d | Received(log, from, topics, d) && d != [] ensures !Skips(log, from, topics, d, Last(d)) {
        assert Last(d) in d;
        forall n: nat | Wanted(log, from, topics, n) && n < Last(d) ensures n in d {
          NoGapOnTopic(log, from, topics, d, Last(d), n, log[n - 1].subject.topic);
        }
      }
    }
  }

  /** How far a topic has been received: its last number, or where the subscription began. */
  function Mark(log: seq<Message>, from: nat, d: seq<nat>, t: Topic): nat {
    var some := OnTopic(log, d, t);
    if some == [] then from else Last(some)
  }

  /** With several topics, resuming from the least of their marks misses nothing. */
  lemma LeastMarkResumes(log: seq<Message>, from: nat, topics: set<Topic>, d: seq<nat>, resume: nat, rest: seq<nat>)
    requires Received(log, from, topics, d) && AllReceived(log, resume, topics, rest)
    requires forall t | t in topics :: resume <= Mark(log, from, d, t)
    ensures Complete(log, from, topics, d, rest)
  {
    ResumeExactly(log, from, topics, d, resume, rest);
    forall n: nat | Wanted(log, from, topics, n) && n < resume ensures n in d {
      var t := log[n - 1].subject.topic;
      assert n < Mark(log, from, d, t);
      OnTopicAre(log, d, t);
      hide Received;
      assert Last(OnTopic(log, d, t)) in OnTopic(log, d, t);
      NoGapOnTopic(log, from, topics, d, Mark(log, from, d, t), n, t);
    }
  }

  /** Two topics, concretely: the presence message overtakes the earlier zone message on the
      shared channel, the subscriber resumes from it, and never receives the zone message. */
  lemma OvertakenIsLost(log: seq<Message>) returns (d: seq<nat>)
    requires |log| == 4 && log[0].subject.topic == Raw && log[1].subject.topic == ZoneTopic
    requires log[2].subject.topic == Raw && log[3].subject.topic == PresenceTopic
    ensures var topics := {ZoneTopic, PresenceTopic};
            && Received(log, 1, topics, d) && d != [] && Last(d) == 4
            && forall rest | AllReceived(log, 4, topics, rest) :: Wanted(log, 1, topics, 2) && 2 !in d && 2 !in rest
  {
    var topics := {ZoneTopic, PresenceTopic};
    d := OnlyOneTopicReceived(log, 1, topics, 4, PresenceTopic);
    hide AllReceived, Received;
    forall rest | AllReceived(log, 4, topics, rest) ensures 2 !in rest {
      AllReceivedAre(log, 4, topics, rest, 2);
    }
  }
}
