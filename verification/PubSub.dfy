/**
 The pub/sub registry: two maps per direction (topic to subscribers, subscriber to topics), once for exact
 channels and once for patterns. The two maps of a direction are kept exact inverses of each other.
 */
module PubSub {
  import opened Prelude
  import opened Ordering
  import Glob

  /** Who subscribes to what, indexed both ways. */
  datatype Index = Index(subscribers: map<Bytes, set<nat>>, topics: map<nat, set<Bytes>>)

  const EMPTY_INDEX := Index(map[], map[])

  predicate Subscribed(ix: Index, id: nat, t: Bytes) {
    t in ix.subscribers && id in ix.subscribers[t]
  }

  function TopicsOf(ix: Index, id: nat): set<Bytes> {
    if id in ix.topics then ix.topics[id] else {}
  }

  function SubscribersOf(ix: Index, t: Bytes): set<nat> {
    if t in ix.subscribers then ix.subscribers[t] else {}
  }

  /** The two maps are inverse and no topic is kept without subscribers. */
  ghost predicate Mirrored(ix: Index) {
    && (forall id, t :: t in TopicsOf(ix, id) <==> Subscribed(ix, id, t))
    && (forall t :: t in ix.subscribers ==> ix.subscribers[t] != {})
  }

  /** No subscriber other than `id` is kept without topics. */
  ghost predicate TidyExcept(ix: Index, id: nat) {
    forall i :: i in ix.topics && i != id ==> ix.topics[i] != {}
  }

  ghost predicate IndexValid(ix: Index) {
    Mirrored(ix) && forall i :: i in ix.topics ==> ix.topics[i] != {}
  }

  // ----- one topic -----

  function AddTopic(ix: Index, id: nat, t: Bytes): Index {
    Index(ix.subscribers[t := SubscribersOf(ix, t) + {id}], ix.topics[id := TopicsOf(ix, id) + {t}])
  }

  /** Removes `id` from the subscribers of `t`; a topic without subscribers goes. */
  function DropSubscriber(subs: map<Bytes, set<nat>>, id: nat, t: Bytes): map<Bytes, set<nat>> {
    if t !in subs then subs
    else if subs[t] - {id} == {} then subs - {t}
    else subs[t := subs[t] - {id}]
  }

  function DropTopic(ix: Index, id: nat, t: Bytes): Index {
    Index(DropSubscriber(ix.subscribers, id, t),
          if id in ix.topics then ix.topics[id := ix.topics[id] - {t}] else ix.topics)
  }

  /** A subscriber left without topics goes. */
  function Tidy(ix: Index, id: nat): Index {
    if TopicsOf(ix, id) == {} then ix.(topics := ix.topics - {id}) else ix
  }

  lemma {:induction false} AddKeeps(ix: Index, id: nat, t: Bytes)
    requires IndexValid(ix)
    ensures IndexValid(AddTopic(ix, id, t))
    ensures TopicsOf(AddTopic(ix, id, t), id) == TopicsOf(ix, id) + {t}
    ensures forall i :: i != id ==> TopicsOf(AddTopic(ix, id, t), i) == TopicsOf(ix, i)
  {
    var ix' := AddTopic(ix, id, t);
    forall i, u ensures u in TopicsOf(ix', i) <==> Subscribed(ix', i, u) {
      assert u in TopicsOf(ix, i) <==> Subscribed(ix, i, u);
    }
  }

  lemma {:induction false} DropKeeps(ix: Index, id: nat, t: Bytes)
    requires Mirrored(ix) && TidyExcept(ix, id)
    ensures Mirrored(DropTopic(ix, id, t)) && TidyExcept(DropTopic(ix, id, t), id)
    ensures TopicsOf(DropTopic(ix, id, t), id) == TopicsOf(ix, id) - {t}
    ensures forall i :: i != id ==> TopicsOf(DropTopic(ix, id, t), i) == TopicsOf(ix, i)
  {
    var ix' := DropTopic(ix, id, t);
    forall i, u ensures u in TopicsOf(ix', i) <==> Subscribed(ix', i, u) {
      assert u in TopicsOf(ix, i) <==> Subscribed(ix, i, u);
      if u == t && t in ix.subscribers {
        assert i in ix.subscribers[t] - {id} <==> i in ix.subscribers[t] && i != id;
      }
    }
  }

  lemma {:induction false} TidyKeeps(ix: Index, id: nat)
    requires Mirrored(ix) && TidyExcept(ix, id)
    ensures IndexValid(Tidy(ix, id))
    ensures forall i :: TopicsOf(Tidy(ix, id), i) == TopicsOf(ix, i)
  {
    var ix' := Tidy(ix, id);
    forall i, u ensures u in TopicsOf(ix', i) <==> Subscribed(ix', i, u) {
      assert u in TopicsOf(ix, i) <==> Subscribed(ix, i, u);
    }
  }

  // ----- lists of topics -----

  function AddTopics(ix: Index, id: nat, ts: seq<Bytes>): Index {
    if ts == [] then ix else AddTopic(AddTopics(ix, id, ts[..|ts| - 1]), id, ts[|ts| - 1])
  }

  function DropTopics(ix: Index, id: nat, ts: seq<Bytes>): Index {
    if ts == [] then ix else DropTopic(DropTopics(ix, id, ts[..|ts| - 1]), id, ts[|ts| - 1])
  }

  lemma {:induction false} AddTopicsKeeps(ix: Index, id: nat, ts: seq<Bytes>)
    requires IndexValid(ix)
    ensures IndexValid(AddTopics(ix, id, ts))
    ensures TopicsOf(AddTopics(ix, id, ts), id) == TopicsOf(ix, id) + Elems(ts)
    ensures forall i :: i != id ==> TopicsOf(AddTopics(ix, id, ts), i) == TopicsOf(ix, i)
  {
    if ts == [] {
      assert Elems(ts) == {};
    } else {
      var n := |ts| - 1;
      AddTopicsKeeps(ix, id, ts[..n]);
      AddKeeps(AddTopics(ix, id, ts[..n]), id, ts[n]);
      ElemsPrefix(ts, n);
      assert ts[..n + 1] == ts;
    }
  }

  lemma {:induction false} DropTopicsKeeps(ix: Index, id: nat, ts: seq<Bytes>)
    requires IndexValid(ix)
    ensures Mirrored(DropTopics(ix, id, ts)) && TidyExcept(DropTopics(ix, id, ts), id)
    ensures TopicsOf(DropTopics(ix, id, ts), id) == TopicsOf(ix, id) - Elems(ts)
    ensures forall i :: i != id ==> TopicsOf(DropTopics(ix, id, ts), i) == TopicsOf(ix, i)
  {
    if ts == [] {
      assert Elems(ts) == {};
    } else {
      var n := |ts| - 1;
      DropTopicsKeeps(ix, id, ts[..n]);
      DropKeeps(DropTopics(ix, id, ts[..n]), id, ts[n]);
      ElemsPrefix(ts, n);
      assert ts[..n + 1] == ts;
      assert TopicsOf(ix, id) - Elems(ts[..n]) - {ts[n]} == TopicsOf(ix, id) - (Elems(ts[..n]) + {ts[n]});
    }
  }

  // ----- replies -----

  /** One reply per topic: its name and how many topics the subscriber then has, plus `other` of the other kind. */
  function Counted(states: seq<(Bytes, set<Bytes>)>, other: nat): seq<(Bytes, nat)> {
    if states == [] then []
    else
      var last := states[|states| - 1];
      Counted(states[..|states| - 1], other) + [(last.0, |last.1| + other)]
  }

  lemma {:induction false} CountedSnoc(states: seq<(Bytes, set<Bytes>)>, t: Bytes, s: set<Bytes>, other: nat)
    ensures Counted(states + [(t, s)], other) == Counted(states, other) + [(t, |s| + other)]
  {
  }

  /** The subscriber's entry in the index after each topic. */
  function AddStates(ix: Index, id: nat, ts: seq<Bytes>): seq<(Bytes, set<Bytes>)> {
    if ts == [] then [] else AddStates(ix, id, ts[..|ts| - 1]) + [(ts[|ts| - 1], TopicsOf(AddTopics(ix, id, ts), id))]
  }

  function DropStates(ix: Index, id: nat, ts: seq<Bytes>): seq<(Bytes, set<Bytes>)> {
    if ts == [] then [] else DropStates(ix, id, ts[..|ts| - 1]) + [(ts[|ts| - 1], TopicsOf(DropTopics(ix, id, ts), id))]
  }

  /** What a subscriber with topics `start` has after adding, or dropping, each of `ts`: plain sets, no index. */
  function SetsAdding(start: set<Bytes>, ts: seq<Bytes>): seq<(Bytes, set<Bytes>)> {
    if ts == [] then [] else SetsAdding(start, ts[..|ts| - 1]) + [(ts[|ts| - 1], start + Elems(ts))]
  }

  function SetsDropping(start: set<Bytes>, ts: seq<Bytes>): seq<(Bytes, set<Bytes>)> {
    if ts == [] then [] else SetsDropping(start, ts[..|ts| - 1]) + [(ts[|ts| - 1], start - Elems(ts))]
  }

  /** Every reply is about the true set of subscriptions at that moment. */
  lemma {:induction false} AddRepliesTrue(ix: Index, id: nat, ts: seq<Bytes>)
    requires IndexValid(ix)
    ensures AddStates(ix, id, ts) == SetsAdding(TopicsOf(ix, id), ts)
  {
    if ts != [] {
      AddRepliesTrue(ix, id, ts[..|ts| - 1]);
      assert TopicsOf(AddTopics(ix, id, ts), id) == TopicsOf(ix, id) + Elems(ts) by { AddTopicsKeeps(ix, id, ts); }
    }
  }

  lemma {:induction false} DropRepliesTrue(ix: Index, id: nat, ts: seq<Bytes>)
    requires IndexValid(ix)
    ensures DropStates(ix, id, ts) == SetsDropping(TopicsOf(ix, id), ts)
  {
    if ts != [] {
      DropRepliesTrue(ix, id, ts[..|ts| - 1]);
      assert TopicsOf(DropTopics(ix, id, ts), id) == TopicsOf(ix, id) - Elems(ts) by { DropTopicsKeeps(ix, id, ts); }
    }
  }

  lemma {:induction false} AddStep(ix: Index, id: nat, ts: seq<Bytes>, i: nat)
    requires i < |ts|
    ensures AddTopics(ix, id, ts[..i + 1]) == AddTopic(AddTopics(ix, id, ts[..i]), id, ts[i])
    ensures AddStates(ix, id, ts[..i + 1]) ==
            AddStates(ix, id, ts[..i]) + [(ts[i], TopicsOf(AddTopics(ix, id, ts[..i + 1]), id))]
  {
    assert ts[..i + 1][..i] == ts[..i];
  }

  /** Inserts into both maps. */
  method AddOne(ix: Index, id: nat, t: Bytes) returns (r: Index, mine: set<Bytes>)
    ensures r == AddTopic(ix, id, t) && mine == TopicsOf(r, id)
  {
    r := Index(ix.subscribers[t := SubscribersOf(ix, t) + {id}], ix.topics);
    mine := TopicsOf(r, id) + {t};
    r := Index(r.subscribers, r.topics[id := mine]);
  }

  /** The loop of SUBSCRIBE and PSUBSCRIBE. */
  method AddLoop(ix: Index, id: nat, ts: seq<Bytes>, other: nat) returns (r: Index, replies: seq<(Bytes, nat)>)
    ensures r == AddTopics(ix, id, ts)
    ensures replies == Counted(AddStates(ix, id, ts), other)
  {
    r, replies := ix, [];
    for i := 0 to |ts|
      invariant r == AddTopics(ix, id, ts[..i])
      invariant replies == Counted(AddStates(ix, id, ts[..i]), other)
    {
      var mine;
      AddStep(ix, id, ts, i);
      r, mine := AddOne(r, id, ts[i]);
      CountedSnoc(AddStates(ix, id, ts[..i]), ts[i], mine, other);
      replies := replies + [(ts[i], |mine| + other)];
    }
    assert ts[..|ts|] == ts;
  }

  /** The loop of UNSUBSCRIBE and PUNSUBSCRIBE, with its clean-up. */
  method DropLoop(ix: Index, id: nat, ts: seq<Bytes>, other: nat) returns (r: Index, replies: seq<(Bytes, nat)>)
    ensures r == DropAndTidy(ix, id, ts)
    ensures replies == Counted(DropStates(ix, id, ts), other)
  {
    r, replies := ix, [];
    for i := 0 to |ts|
      invariant r == DropTopics(ix, id, ts[..i])
      invariant replies == Counted(DropStates(ix, id, ts[..i]), other)
    {
      assert ts[..i + 1][..i] == ts[..i];
      CountedSnoc(DropStates(ix, id, ts[..i]), ts[i], TopicsOf(DropTopics(ix, id, ts[..i + 1]), id), other);
      r := Index(DropSubscriber(r.subscribers, id, ts[i]), r.topics);
      if id in r.topics {
        r := Index(r.subscribers, r.topics[id := r.topics[id] - {ts[i]}]);
      }
      replies := replies + [(ts[i], |TopicsOf(r, id)| + other)];
    }
    assert ts[..|ts|] == ts;
    if TopicsOf(r, id) == {} {
      r := Index(r.subscribers, r.topics - {id});
    }
  }

  // ----- runs -----

  datatype Registry = Registry(channels: Index, patterns: Index)

  const EMPTY_REGISTRY := Registry(EMPTY_INDEX, EMPTY_INDEX)

  /** `ts` lists the topics given, or for an empty list all topics of the subscriber in HashSet order. */
  datatype Op =
    | Sub(id: nat, ts: seq<Bytes>)
    | Unsub(id: nat, ts: seq<Bytes>)
    | PSub(id: nat, ts: seq<Bytes>)
    | PUnsub(id: nat, ts: seq<Bytes>)
    | StopListener(id: nat, channels: seq<Bytes>, patterns: seq<Bytes>)

  function DropAndTidy(ix: Index, id: nat, ts: seq<Bytes>): Index {
    Tidy(DropTopics(ix, id, ts), id)
  }

  function Step(r: Registry, op: Op): Registry {
    match op
    case Sub(id, ts) => r.(channels := AddTopics(r.channels, id, ts))
    case Unsub(id, ts) => r.(channels := DropAndTidy(r.channels, id, ts))
    case PSub(id, ts) => r.(patterns := AddTopics(r.patterns, id, ts))
    case PUnsub(id, ts) => r.(patterns := DropAndTidy(r.patterns, id, ts))
    case StopListener(id, cs, ps) => Registry(DropAndTidy(r.channels, id, cs), DropAndTidy(r.patterns, id, ps))
  }

  function Run(r: Registry, ops: seq<Op>): Registry
    decreases |ops|
  {
    if ops == [] then r else Run(Step(r, ops[0]), ops[1..])
  }

  ghost predicate RegistryValid(r: Registry) {
    IndexValid(r.channels) && IndexValid(r.patterns)
  }

  /** The subscriptions a run should have left, computed without any index. */
  ghost function ChannelsAfter(id: nat, start: set<Bytes>, ops: seq<Op>): set<Bytes>
    decreases |ops|
  {
    if ops == [] then start
    else
      var op := ops[0];
      var next :=
        if op.id != id then start
        else match op
             case Sub(_, ts) => start + Elems(ts)
             case Unsub(_, ts) => start - Elems(ts)
             case StopListener(_, cs, _) => start - Elems(cs)
             case _ => start;
      ChannelsAfter(id, next, ops[1..])
  }

  ghost function PatternsAfter(id: nat, start: set<Bytes>, ops: seq<Op>): set<Bytes>
    decreases |ops|
  {
    if ops == [] then start
    else
      var op := ops[0];
      var next :=
        if op.id != id then start
        else match op
             case PSub(_, ts) => start + Elems(ts)
             case PUnsub(_, ts) => start - Elems(ts)
             case StopListener(_, _, ps) => start - Elems(ps)
             case _ => start;
      PatternsAfter(id, next, ops[1..])
  }

  lemma {:induction false} DropAndTidyKeeps(ix: Index, id: nat, ts: seq<Bytes>)
    requires IndexValid(ix)
    ensures IndexValid(DropAndTidy(ix, id, ts))
    ensures TopicsOf(DropAndTidy(ix, id, ts), id) == TopicsOf(ix, id) - Elems(ts)
    ensures forall i :: i != id ==> TopicsOf(DropAndTidy(ix, id, ts), i) == TopicsOf(ix, i)
  {
    DropTopicsKeeps(ix, id, ts);
    TidyKeeps(DropTopics(ix, id, ts), id);
  }

  /**
   After any run of subscribe, unsubscribe, psubscribe, punsubscribe and listener stop both pairs of maps are exact
   inverses without empty entries, and each subscriber has exactly the topics the run left it.
   */
  lemma {:induction false} RunKeepsInverse(r: Registry, ops: seq<Op>)
    requires RegistryValid(r)
    ensures RegistryValid(Run(r, ops))
    ensures forall id :: TopicsOf(Run(r, ops).channels, id) == ChannelsAfter(id, TopicsOf(r.channels, id), ops)
    ensures forall id :: TopicsOf(Run(r, ops).patterns, id) == PatternsAfter(id, TopicsOf(r.patterns, id), ops)
    decreases |ops|
  {
    if ops != [] {
      match ops[0] {
        case Sub(id, ts) => AddTopicsKeeps(r.channels, id, ts);
        case Unsub(id, ts) => DropAndTidyKeeps(r.channels, id, ts);
        case PSub(id, ts) => AddTopicsKeeps(r.patterns, id, ts);
        case PUnsub(id, ts) => DropAndTidyKeeps(r.patterns, id, ts);
        case StopListener(id, cs, ps) =>
          DropAndTidyKeeps(r.channels, id, cs);
          DropAndTidyKeeps(r.patterns, id, ps);
      }
      RunKeepsInverse(Step(r, ops[0]), ops[1..]);
    }
  }

  // ----- PUBLISH -----

  /** All (pattern, subscriber) pairs whose pattern matches the channel. */
  ghost function Matching(ix: Index, channel: Bytes): set<(Bytes, nat)> {
    set p, id | p in ix.subscribers && id in ix.subscribers[p] && Glob.Matches(p, channel) :: (p, id)
  }

  /** The pairs among the patterns in `done`. */
  ghost function MatchingIn(ix: Index, channel: Bytes, done: set<Bytes>): set<(Bytes, nat)> {
    set x | x in Matching(ix, channel) && x.0 in done
  }

  lemma {:induction false} OnePattern(ix: Index, channel: Bytes, done: set<Bytes>, p: Bytes)
    requires p in ix.subscribers && p !in done
    ensures |MatchingIn(ix, channel, done + {p})| ==
            |MatchingIn(ix, channel, done)| + (if Glob.Matches(p, channel) then |ix.subscribers[p]| else 0)
  {
    var old_ := MatchingIn(ix, channel, done);
    var all := MatchingIn(ix, channel, done + {p});
    if Glob.Matches(p, channel) {
      var mine := Pairs(p, ix.subscribers[p]);
      forall x ensures x in all <==> x in old_ || x in mine {
        if x in mine { assert x == (p, x.1) && x in Matching(ix, channel); }
      }
      assert all == old_ + mine && old_ !! mine;
      PairsSize(p, ix.subscribers[p]);
    } else {
      assert all == old_;
    }
  }

  ghost function Pairs(p: Bytes, s: set<nat>): set<(Bytes, nat)> {
    set id | id in s :: (p, id)
  }

  lemma {:induction false} PairsSize(p: Bytes, s: set<nat>)
    ensures |Pairs(p, s)| == |s|
    decreases |s|
  {
    if s == {} {
      assert Pairs(p, s) == {};
    } else {
      var x :| x in s;
      PairsSize(p, s - {x});
      assert Pairs(p, s) == Pairs(p, s - {x}) + {(p, x)};
      assert (p, x) !in Pairs(p, s - {x});
    }
  }

  // ----- the registry object -----

  class PubSubRegistry {
    var channels: Index
    var patterns: Index

    ghost function Value(): Registry
      reads this
    {
      Registry(channels, patterns)
    }

    constructor ()
      ensures Value() == EMPTY_REGISTRY && RegistryValid(Value())
    {
      channels, patterns := EMPTY_INDEX, EMPTY_INDEX;
    }

    method Subscribe(id: nat, ts: seq<Bytes>) returns (replies: seq<(Bytes, nat)>)
      requires RegistryValid(Value())
      modifies this`channels
      ensures Value() == Step(old(Value()), Sub(id, ts)) && RegistryValid(Value())
      ensures replies == Counted(SetsAdding(old(TopicsOf(channels, id)), ts), |TopicsOf(patterns, id)|)
    {
      AddTopicsKeeps(channels, id, ts);
      AddRepliesTrue(channels, id, ts);
      channels, replies := AddLoop(channels, id, ts, |TopicsOf(patterns, id)|);
    }

    method Psubscribe(id: nat, ts: seq<Bytes>) returns (replies: seq<(Bytes, nat)>)
      requires RegistryValid(Value())
      modifies this`patterns
      ensures Value() == Step(old(Value()), PSub(id, ts)) && RegistryValid(Value())
      ensures replies == Counted(SetsAdding(old(TopicsOf(patterns, id)), ts), |TopicsOf(channels, id)|)
    {
      AddTopicsKeeps(patterns, id, ts);
      AddRepliesTrue(patterns, id, ts);
      patterns, replies := AddLoop(patterns, id, ts, |TopicsOf(channels, id)|);
    }

    /** An empty list stands for all channels of the subscriber; `ts` reports the list used. */
    method Unsubscribe(id: nat, given: seq<Bytes>) returns (replies: seq<(Bytes, nat)>, ts: seq<Bytes>)
      requires RegistryValid(Value())
      modifies this`channels
      ensures if given == [] then Elems(ts) == old(TopicsOf(channels, id)) else ts == given
      ensures Value() == Step(old(Value()), Unsub(id, ts)) && RegistryValid(Value())
      ensures replies == Counted(SetsDropping(old(TopicsOf(channels, id)), ts), |TopicsOf(patterns, id)|)
    {
      ts := given;
      if given == [] {
        ts := ListOf(TopicsOf(channels, id));
      }
      DropAndTidyKeeps(channels, id, ts);
      DropRepliesTrue(channels, id, ts);
      channels, replies := DropLoop(channels, id, ts, |TopicsOf(patterns, id)|);
    }

    method Punsubscribe(id: nat, given: seq<Bytes>) returns (replies: seq<(Bytes, nat)>, ts: seq<Bytes>)
      requires RegistryValid(Value())
      modifies this`patterns
      ensures if given == [] then Elems(ts) == old(TopicsOf(patterns, id)) else ts == given
      ensures Value() == Step(old(Value()), PUnsub(id, ts)) && RegistryValid(Value())
      ensures replies == Counted(SetsDropping(old(TopicsOf(patterns, id)), ts), |TopicsOf(channels, id)|)
    {
      ts := given;
      if given == [] {
        ts := ListOf(TopicsOf(patterns, id));
      }
      DropAndTidyKeeps(patterns, id, ts);
      DropRepliesTrue(patterns, id, ts);
      patterns, replies := DropLoop(patterns, id, ts, |TopicsOf(channels, id)|);
    }

    /** Forgets a subscriber: nothing is left of it in any of the four maps. */
    method StopSubscriber(id: nat) returns (ghost cs: seq<Bytes>, ghost ps: seq<Bytes>)
      requires RegistryValid(Value())
      modifies this
      ensures Elems(cs) == old(TopicsOf(channels, id)) && Elems(ps) == old(TopicsOf(patterns, id))
      ensures Value() == Step(old(Value()), StopListener(id, cs, ps)) && RegistryValid(Value())
      ensures TopicsOf(channels, id) == {} && TopicsOf(patterns, id) == {}
      ensures id !in channels.topics && id !in patterns.topics
      ensures forall i :: i != id ==>
              TopicsOf(channels, i) == old(TopicsOf(channels, i)) && TopicsOf(patterns, i) == old(TopicsOf(patterns, i))
    {
      channels, cs := Forget(channels, id);
      patterns, ps := Forget(patterns, id);
    }

    /** PUBLISH: exact subscribers plus, over the matching patterns, their subscribers. */
    method Publish(channel: Bytes) returns (count: nat, pmessages: seq<Bytes>, message: bool)
      requires RegistryValid(Value())
      ensures count ==
              |set id | id in channels.topics && channel in channels.topics[id]| + |Matching(patterns, channel)|
      ensures SentFor(patterns.subscribers.Keys, channel, pmessages)
      ensures message <==> SubscribersOf(channels, channel) != {}
    {
      var exact := |SubscribersOf(channels, channel)|;
      assert (set id | id in channels.topics && channel in channels.topics[id]) == SubscribersOf(channels, channel) by {
        ExactSubscribers(channels, channel);
      }
      message := exact > 0;
      var matched: nat;
      matched, pmessages := CountPatterns(patterns, channel);
      count := exact + matched;
    }
  }

  lemma {:induction false} ExactSubscribers(ix: Index, channel: Bytes)
    requires IndexValid(ix)
    ensures (set id | id in ix.topics && channel in ix.topics[id]) == SubscribersOf(ix, channel)
  {
    forall id ensures id in (set i | i in ix.topics && channel in ix.topics[i]) <==> id in SubscribersOf(ix, channel) {
      assert channel in TopicsOf(ix, id) <==> Subscribed(ix, id, channel);
    }
  }

  /** `sent` lists, once each, the patterns of `done` that match. */
  ghost predicate SentFor(done: set<Bytes>, channel: Bytes, sent: seq<Bytes>) {
    && (forall p :: p in sent <==> p in done && Glob.Matches(p, channel))
    && (forall i, j :: 0 <= i < j < |sent| ==> sent[i] != sent[j])
  }

  /** The pattern loop of PUBLISH. */
  method CountPatterns(ix: Index, channel: Bytes) returns (count: nat, sent: seq<Bytes>)
    ensures count == |Matching(ix, channel)|
    ensures SentFor(ix.subscribers.Keys, channel, sent)
  {
    count, sent := 0, [];
    var rest := ix.subscribers.Keys;
    ghost var done: set<Bytes> := {};
    assert MatchingIn(ix, channel, {}) == {};
    while rest != {}
      invariant done !! rest && done + rest == ix.subscribers.Keys
      invariant count == |MatchingIn(ix, channel, done)|
      invariant SentFor(done, channel, sent)
      decreases rest
    {
      var p :| p in rest;
      OnePattern(ix, channel, done, p);
      SentMore(done, channel, sent, p);
      var matched, _ := Glob.GlobMatch(p, channel);
      if matched {
        count := count + |ix.subscribers[p]|;
        sent := sent + [p];
      }
      MoveOne(done, rest, p);
      rest, done := rest - {p}, done + {p};
    }
    assert done == done + rest;
    EveryPattern(ix, channel);
  }

  lemma {:induction false} MoveOne(done: set<Bytes>, rest: set<Bytes>, p: Bytes)
    requires p in rest && done !! rest
    ensures (done + {p}) + (rest - {p}) == done + rest
    ensures (done + {p}) !! (rest - {p})
  {
  }

  lemma {:induction false} SentMore(done: set<Bytes>, channel: Bytes, sent: seq<Bytes>, p: Bytes)
    requires SentFor(done, channel, sent) && p !in done
    ensures SentFor(done + {p}, channel, if Glob.Matches(p, channel) then sent + [p] else sent)
  {
  }

  lemma {:induction false} EveryPattern(ix: Index, channel: Bytes)
    ensures MatchingIn(ix, channel, ix.subscribers.Keys) == Matching(ix, channel)
  {
  }

  method ListOf(s: set<Bytes>) returns (r: seq<Bytes>)
    ensures Elems(r) == s
  {
    r := [];
    var rest := s;
    while rest != {}
      invariant Elems(r) + rest == s
      decreases rest
    {
      var x :| x in rest;
      var next := r + [x];
      assert Elems(next) == Elems(r) + {x};
      assert Elems(next) + (rest - {x}) == s;
      r, rest := next, rest - {x};
    }
    assert Elems(r) + rest == Elems(r);
  }

  /** Takes the subscriber's topic set out first, then removes it from each topic. */
  method Forget(ix: Index, id: nat) returns (r: Index, ghost used: seq<Bytes>)
    requires IndexValid(ix)
    ensures Elems(used) == TopicsOf(ix, id)
    ensures r == DropAndTidy(ix, id, used) && IndexValid(r)
    ensures id !in r.topics && forall i :: i != id ==> TopicsOf(r, i) == TopicsOf(ix, i)
  {
    if id !in ix.topics {
      r, used := ix, [];
      assert ix.topics - {id} == ix.topics;
    } else {
      var ts := ListOf(ix.topics[id]);
      var subs := ix.subscribers;
      for i := 0 to |ts|
        invariant subs == DropTopics(ix, id, ts[..i]).subscribers
      {
        subs := DropSubscriber(subs, id, ts[i]);
        assert ts[..i + 1][..i] == ts[..i];
      }
      assert ts[..|ts|] == ts;
      r, used := Index(subs, ix.topics - {id}), ts;
      DropAndTidyKeeps(ix, id, ts);
      DropTopicsTopics(ix, id, ts);
      assert r == DropAndTidy(ix, id, ts);
    }
  }

  lemma {:induction false} DropTopicsTopics(ix: Index, id: nat, ts: seq<Bytes>)
    requires id in ix.topics
    ensures DropTopics(ix, id, ts).topics == ix.topics[id := ix.topics[id] - Elems(ts)]
  {
    if ts == [] {
      assert ix.topics[id] - Elems(ts) == ix.topics[id];
    } else {
      var n := |ts| - 1;
      DropTopicsTopics(ix, id, ts[..n]);
      ElemsPrefix(ts, n);
      assert ts[..n + 1] == ts;
      assert ix.topics[id] - Elems(ts[..n]) - {ts[n]} == ix.topics[id] - (Elems(ts[..n]) + {ts[n]});
    }
  }
}
