/** Streams and consumer groups as the commands hold them: objects updated in place by loops. */
module StreamObjects {
  import opened Prelude
  import opened Ordering
  import opened Values
  import opened Groups
  import opened Autoclaim
  import opened Streams

  /** BTreeMap `range((Excluded(cursor), Unbounded)).take(count)` over the ids of a stream. */
  method RangeAfter(entries: map<StreamId, Fields>, cursor: StreamId, count: Option<nat>) returns (ids: seq<StreamId>)
    ensures ids == Take(SortedIds(set id | id in entries && IdLess(cursor, id)), count)
  {
    var keys := SortedIds(entries.Keys);
    var i := 0;
    while i < |keys| && IdLeq(keys[i], cursor)
      invariant i <= |keys|
      invariant forall k :: 0 <= k < i ==> IdLeq(keys[k], cursor)
    {
      i := i + 1;
    }
    TailAfter(keys, cursor, i);
    IsSortedIds(keys[i..], set id | id in entries && IdLess(cursor, id));
    ids := Take(keys[i..], count);
  }

  lemma {:induction false} TailAfter(keys: seq<StreamId>, cursor: StreamId, i: nat)
    requires i <= |keys| && Ascending(keys, IdLess)
    requires forall k :: 0 <= k < i ==> IdLeq(keys[k], cursor)
    requires i < |keys| ==> !IdLeq(keys[i], cursor)
    ensures Ascending(keys[i..], IdLess)
    ensures forall id :: id in keys[i..] <==> id in keys && IdLess(cursor, id)
  {
  }

  class ConsumerGroup {
    var lastDelivered: StreamId
    var consumers: map<Bytes, Pel>

    ghost function Value(): Group
      reads this
    {
      Group(lastDelivered, consumers)
    }

    constructor (g: Group)
      ensures Value() == g
    {
      lastDelivered, consumers := g.lastDelivered, g.consumers;
    }

    /** `entry(consumer).or_insert_with(..)` followed by one insert into its pending list. */
    method InsertPending(consumer: Bytes, id: StreamId, p: Pending)
      modifies this`consumers
      ensures consumers == old(consumers)[consumer := PelOf(old(Value()), consumer)[id := p]]
    {
      if consumer !in consumers {
        consumers := consumers[consumer := map[]];
      }
      consumers := consumers[consumer := consumers[consumer][id := p]];
    }

    /** XREADGROUP with ">". */
    method Deliver(entries: map<StreamId, Fields>, consumer: Bytes, count: Option<nat>,
                   now: Time) returns (ids: seq<StreamId>)
      modifies this
      ensures ids == NewIds(entries, old(Value()), count)
      ensures Value() == Delivered(old(Value()), ids, consumer, now)
    {
      ids := RangeAfter(entries, lastDelivered, count);
      if ids != [] {
        Hand(ids, consumer, now);
      }
    }

    /** The delivery loop: advances the cursor and fills the consumer's pending list id by id. */
    method Hand(ids: seq<StreamId>, consumer: Bytes, now: Time)
      requires ids != []
      modifies this
      ensures Value() == Delivered(old(Value()), ids, consumer, now)
    {
      ghost var g := Value();
      ghost var pel := PelOf(g, consumer);
      if consumer !in consumers {
        consumers := consumers[consumer := map[]];
      }
      var mine := consumers[consumer];
      FreshPelEmpty(pel, now);
      for i := 0 to |ids|
        invariant mine == pel + FreshPel(ids[..i], now)
        invariant lastDelivered == if i == 0 then g.lastDelivered else ids[i - 1]
        invariant consumers == g.consumers[consumer := pel]
      {
        lastDelivered := ids[i];
        mine := mine[ids[i] := Pending(now, 1)];
        FreshPelPrefix(pel, ids, i, now);
      }
      consumers := consumers[consumer := mine];
      assert ids[..|ids|] == ids;
    }

    /** Searches the consumers in HashMap order for one whose pending list holds `id`. */
    method FindHolder(id: StreamId) returns (r: Option<Bytes>)
      ensures r.Some? ==> Holds(Value(), r.value, id)
      ensures r.None? ==> id !in PendingIds(Value())
    {
      var rest := consumers.Keys;
      while rest != {}
        invariant rest <= consumers.Keys
        invariant forall c :: c in consumers && c !in rest ==> !Holds(Value(), c, id)
        decreases rest
      {
        var c :| c in rest;
        if id in consumers[c] {
          return Some(c);
        }
        rest := rest - {c};
      }
      return None;
    }

    /** XACK. The ghost result names the consumer each search found. */
    method Ack(ids: seq<StreamId>) returns (count: nat, ghost hints: seq<Bytes>)
      modifies this
      ensures Value() == AckAll(old(Value()), ids, hints)
      ensures count == |Acked(old(Value()), ids, hints)|
    {
      ghost var g := Value();
      count, hints := 0, [];
      for i := 0 to |ids|
        invariant |hints| == i
        invariant Value() == AckAll(g, ids[..i], hints)
        invariant count == |Acked(g, ids[..i], hints)|
      {
        var r := FindHolder(ids[i]);
        ghost var before := hints;
        hints := hints + [if r.Some? then r.value else []];
        AckHints(g, ids[..i], before, hints);
        assert ids[..i + 1][..|ids[..i + 1]| - 1] == ids[..i];
        if r.Some? {
          consumers := consumers[r.value := consumers[r.value] - {ids[i]}];
          count := count + 1;
        }
      }
      assert ids[..|ids|] == ids;
    }

    /** XCLAIM. */
    method Claim(entries: map<StreamId, Fields>, ids: seq<StreamId>, a: ClaimArgs, now: Time)
      returns (claimed: seq<ClaimedItem>, ghost hints: seq<Bytes>)
      modifies this
      ensures Value() == ClaimAll(entries, old(Value()), ids, a, now, hints)
      ensures claimed == ClaimReply(entries, old(Value()), ids, a, now, hints)
    {
      ghost var g := Value();
      claimed, hints := [], [];
      for i := 0 to |ids|
        invariant |hints| == i
        invariant Value() == ClaimAll(entries, g, ids[..i], a, now, hints)
        invariant claimed == ClaimReply(entries, g, ids[..i], a, now, hints)
      {
        var id := ids[i];
        var r := FindHolder(id);
        ghost var hint := if r.Some? then r.value else [];
        ClaimStep(entries, g, ids, i, a, now, hints, hint);
        hints := hints + [hint];
        var item := ClaimId(entries, id, a, now, r);
        claimed := claimed + item;
      }
      assert ids[..|ids|] == ids;
    }

    /** One id of XCLAIM, once the search has found `r`. */
    method ClaimId(entries: map<StreamId, Fields>, id: StreamId, a: ClaimArgs, now: Time,
                   r: Option<Bytes>) returns (item: seq<ClaimedItem>)
      requires r.Some? ==> Holds(Value(), r.value, id)
      requires r.None? ==> id !in PendingIds(Value())
      modifies this
      ensures forall hint :: (r.Some? ==> hint == r.value) ==>
                && Value() == ClaimOne(entries, old(Value()), id, a, now, hint)
                && item == if KindOf(entries, old(Value()), id, a, now, hint).Skip? then []
                  else ReplyItem(entries, id, a.justId)
    {
      item := [];
      if r.None? {
        if a.force && id in entries {
          InsertPending(a.consumer, id, CreatedEntry(a, now));
          item := ReplyItem(entries, id, a.justId);
        }
      } else if a.force || IdleFor(consumers[r.value][id], now) >= a.minIdle {
        var pe := consumers[r.value][id];
        consumers := consumers[r.value := consumers[r.value] - {id}];
        InsertPending(a.consumer, id, MovedEntry(pe, a, now));
        item := ReplyItem(entries, id, a.justId);
      }
    }

    /** XAUTOCLAIM. `order` is the HashMap order in which the collection pass saw the consumers. */
    method Autoclaim(entries: map<StreamId, Fields>, target: Bytes, minIdle: Time, start: StreamId, count: Option<nat>,
                     now: Time)
      returns (next: StreamId, claimed: seq<(StreamId, Fields)>, deleted: seq<StreamId>, order: seq<Bytes>)
      modifies this
      ensures var p := AutoPage(old(Value()), target, minIdle, start, count, now, order);
              && Value() == p.group && next == p.next
              && claimed == ClaimedEntries(entries, IdsOf(p.taken))
              && deleted == DeletedIds(entries, IdsOf(p.taken))
    {
      var g := Group(lastDelivered, consumers);
      var qualifying;
      qualifying, order := Collect(g, start, minIdle, now);
      var all := SortedCandidates(qualifying, order);
      var taken := Take(all, count);
      next := if |taken| < |all| then all[|taken|].id else ZERO_ID;
      assert forall x :: x in taken ==> x in all;
      claimed, deleted := Process(entries, g, taken, target, now);
    }

    /** The claiming pass: every candidate moves, whether or not its entry still exists. */
    method Process(entries: map<StreamId, Fields>, g: Group, taken: seq<Candidate>, target: Bytes, now: Time)
      returns (claimed: seq<(StreamId, Fields)>, deleted: seq<StreamId>)
      requires Value() == g
      requires forall x :: x in taken ==> Holds(g, x.owner, x.id)
      modifies this
      ensures Value() == TransferAll(g, taken, target, now)
      ensures claimed == ClaimedEntries(entries, IdsOf(taken)) && deleted == DeletedIds(entries, IdsOf(taken))
    {
      claimed, deleted := [], [];
      for i := 0 to |taken|
        invariant forall x :: x in taken[..i] ==> Holds(g, x.owner, x.id)
        invariant Value() == TransferAll(g, taken[..i], target, now)
        invariant claimed == ClaimedEntries(entries, IdsOf(taken)[..i])
        invariant deleted == DeletedIds(entries, IdsOf(taken)[..i])
      {
        var x := taken[i];
        TransferPrefix(g, taken, i, target, now);
        ReplyPrefix(entries, IdsOf(taken), i);
        consumers := consumers[x.owner := consumers[x.owner] - {x.id}];
        if x.id in entries {
          claimed := claimed + [(x.id, entries[x.id])];
        } else {
          deleted := deleted + [x.id];
        }
        InsertPending(target, x.id, Pending(now, Succ64(g.consumers[x.owner][x.id].deliveryCount)));
      }
      assert taken[..|taken|] == taken && IdsOf(taken)[..|taken|] == IdsOf(taken);
    }
  }

  /** The collection pass of XAUTOCLAIM: every consumer in HashMap order. */
  method Collect(g: Group, start: StreamId, minIdle: Time, now: Time) returns (qualifying: set<Candidate>,
                 order: seq<Bytes>)
    ensures qualifying == Candidates(g, start, minIdle, now)
  {
    qualifying, order := {}, [];
    var rest := g.consumers.Keys;
    while rest != {}
      invariant rest <= g.consumers.Keys
      invariant forall x :: x in qualifying <==> x.owner !in rest && Qualifies(g, x, start, minIdle, now)
      decreases rest
    {
      var c :| c in rest;
      var pel := g.consumers[c];
      var found := set id | id in pel && IdLeq(start, id) && IdleFor(pel[id], now) >= minIdle :: Candidate(id, c);
      assert forall x :: x in found <==> x.owner == c && Qualifies(g, x, start, minIdle, now) by {
        forall x ensures x in found <==> x.owner == c && Qualifies(g, x, start, minIdle, now) {
          if x.owner == c && Qualifies(g, x, start, minIdle, now) { assert x == Candidate(x.id, c); }
        }
      }
      qualifying := qualifying + found;
      order := order + [c];
      rest := rest - {c};
    }
  }

  lemma {:induction false} FreshPelEmpty(pel: Pel, now: Time)
    ensures pel + FreshPel([], now) == pel
  {
  }

  lemma {:induction false} FreshPelPrefix(pel: Pel, ids: seq<StreamId>, i: nat, now: Time)
    requires i < |ids|
    ensures pel + FreshPel(ids[..i + 1], now) == (pel + FreshPel(ids[..i], now))[ids[i] := Pending(now, 1)]
  {
  }

  lemma {:induction false} TransferPrefix(g: Group, xs: seq<Candidate>, i: nat, target: Bytes, now: Time)
    requires i < |xs| && forall x :: x in xs ==> Holds(g, x.owner, x.id)
    ensures forall x :: x in xs[..i] ==> Holds(g, x.owner, x.id)
    ensures forall x :: x in xs[..i + 1] ==> Holds(g, x.owner, x.id)
    ensures xs[i].owner in TransferAll(g, xs[..i], target, now).consumers
    ensures TransferAll(g, xs[..i + 1], target, now) ==
            Transfer(g, TransferAll(g, xs[..i], target, now), xs[i], target, now)
  {
    assert xs[i] in xs;
    assert xs[..i + 1][..i] == xs[..i];
  }

  lemma {:induction false} ReplyPrefix(entries: map<StreamId, Fields>, ids: seq<StreamId>, i: nat)
    requires i < |ids|
    ensures ClaimedEntries(entries, ids[..i + 1]) ==
            ClaimedEntries(entries, ids[..i]) + (if ids[i] in entries then [(ids[i], entries[ids[i]])] else [])
    ensures DeletedIds(entries, ids[..i + 1]) ==
            DeletedIds(entries, ids[..i]) + (if ids[i] in entries then [] else [ids[i]])
  {
    assert ids[..i + 1][..i] == ids[..i];
  }

  // ----- longer hint lists mean the same for the ids they cover -----

  lemma {:induction false} AckHints(g: Group, ids: seq<StreamId>, hints: seq<Bytes>, more: seq<Bytes>)
    requires |ids| <= |hints| && hints <= more
    ensures AckAll(g, ids, more) == AckAll(g, ids, hints) && Acked(g, ids, more) == Acked(g, ids, hints)
  {
    if ids != [] {
      AckHints(g, ids[..|ids| - 1], hints, more);
    }
  }

  lemma {:induction false} ClaimHints(entries: map<StreamId, Fields>, g: Group, ids: seq<StreamId>, a: ClaimArgs,
                                      now: Time, hints: seq<Bytes>, more: seq<Bytes>)
    requires |ids| <= |hints| && hints <= more
    ensures ClaimAll(entries, g, ids, a, now, more) == ClaimAll(entries, g, ids, a, now, hints)
    ensures ClaimReply(entries, g, ids, a, now, more) == ClaimReply(entries, g, ids, a, now, hints)
  {
    if ids != [] {
      ClaimHints(entries, g, ids[..|ids| - 1], a, now, hints, more);
    }
  }

  /** One more id, with one more hint for it. */
  lemma {:induction false} ClaimStep(entries: map<StreamId, Fields>, g: Group, ids: seq<StreamId>, i: nat, a: ClaimArgs,
                                     now: Time, hints: seq<Bytes>, hint: Bytes)
    requires i < |ids| && |hints| == i
    ensures var g' := ClaimAll(entries, g, ids[..i], a, now, hints);
            && ClaimAll(entries, g, ids[..i + 1], a, now, hints + [hint]) == ClaimOne(entries, g', ids[i], a, now, hint)
            && ClaimReply(entries, g, ids[..i + 1], a, now, hints + [hint]) ==
               ClaimReply(entries, g, ids[..i], a, now, hints)
               + if KindOf(entries, g', ids[i], a, now, hint).Skip? then [] else ReplyItem(entries, ids[i], a.justId)
  {
    var more := hints + [hint];
    ClaimHints(entries, g, ids[..i], a, now, hints, more);
    assert ids[..i + 1][..i] == ids[..i];
    assert HintAt(more, i) == hint;
  }

  // ----- XPENDING -----

  /** Ids pending for the consumers in `cs`. */
  function PendingOf(g: Group, cs: set<Bytes>): set<StreamId> {
    set id | id in PendingIds(g) && exists c :: c in cs && Holds(g, c, id)
  }

  /** What XPENDING reports about the consumers in `done`. */
  ghost predicate SummaryOf(g: Group, done: set<Bytes>, total: nat, least: Option<StreamId>, greatest: Option<StreamId>,
                            counts: map<Bytes, nat>) {
    && (Exclusive(g) ==> total == |PendingOf(g, done)|)
    && Bounds(PendingOf(g, done), least, greatest)
    && CountsOf(g, done, counts)
  }

  /**
   XPENDING's summary: with exclusive ownership the per-consumer counts add up to the size of the
   pending set, and the two bounds are its least and greatest id.
   */
  method PendingSummary(g: Group) returns (total: nat, least: Option<StreamId>, greatest: Option<StreamId>,
                        counts: map<Bytes, nat>)
    ensures Exclusive(g) ==> total == |PendingIds(g)|
    ensures Bounds(PendingIds(g), least, greatest)
    ensures CountsOf(g, g.consumers.Keys, counts)
  {
    total, least, greatest, counts := 0, None, None, map[];
    var rest := g.consumers.Keys;
    ghost var done: set<Bytes> := {};
    NoConsumers(g);
    while rest != {}
      invariant rest !! done && done + rest == g.consumers.Keys
      invariant SummaryOf(g, done, total, least, greatest, counts)
      decreases rest
    {
      var c :| c in rest;
      total, least, greatest, counts := AddConsumer(g, done, c, total, least, greatest, counts);
      MoveOver(done, rest, c);
      rest := rest - {c};
      done := done + {c};
    }
    assert done == done + rest;
    AllConsumers(g);
  }

  lemma {:induction false} NoConsumers(g: Group)
    ensures SummaryOf(g, {}, 0, None, None, map[])
  {
  }

  /** One round of the summary loop. */
  method AddConsumer(g: Group, ghost done: set<Bytes>, c: Bytes, total0: nat, least0: Option<StreamId>,
                     greatest0: Option<StreamId>, counts0: map<Bytes, nat>)
    returns (total: nat, least: Option<StreamId>, greatest: Option<StreamId>, counts: map<Bytes, nat>)
    requires c in g.consumers && c !in done
    requires SummaryOf(g, done, total0, least0, greatest0, counts0)
    ensures SummaryOf(g, done + {c}, total, least, greatest, counts)
  {
    total, least, greatest, counts := total0, least0, greatest0, counts0;
    var pel := g.consumers[c];
    if |pel| > 0 {
      least, greatest := Widen(PendingOf(g, done), pel, least, greatest);
      SummaryMore(g, done, c, total, counts, least, greatest);
      counts := counts[c := |pel|];
      total := total + |pel|;
    } else {
      SummarySame(g, done, c, total, least, greatest, counts);
    }
  }

  lemma {:induction false} SummaryMore(g: Group, done: set<Bytes>, c: Bytes, total: nat, counts: map<Bytes, nat>,
                                       least: Option<StreamId>, greatest: Option<StreamId>)
    requires c in g.consumers && c !in done && |g.consumers[c]| > 0
    requires (Exclusive(g) ==> total == |PendingOf(g, done)|) && CountsOf(g, done, counts)
    requires Bounds(PendingOf(g, done) + g.consumers[c].Keys, least, greatest)
    ensures SummaryOf(g, done + {c}, total + |g.consumers[c]|, least, greatest, counts[c := |g.consumers[c]|])
  {
    OneMore(g, done, c);
    CountOne(g, done, c, counts);
  }

  lemma {:induction false} SummarySame(g: Group, done: set<Bytes>, c: Bytes, total: nat, least: Option<StreamId>,
                                       greatest: Option<StreamId>, counts: map<Bytes, nat>)
    requires c in g.consumers && c !in done && |g.consumers[c]| == 0
    requires SummaryOf(g, done, total, least, greatest, counts)
    ensures SummaryOf(g, done + {c}, total, least, greatest, counts)
  {
    assert g.consumers[c].Keys == {};
    assert PendingOf(g, done + {c}) == PendingOf(g, done);
    CountOne(g, done, c, counts);
  }

  lemma {:induction false} CountOne(g: Group, done: set<Bytes>, c: Bytes, counts: map<Bytes, nat>)
    requires c in g.consumers && c !in done && CountsOf(g, done, counts)
    ensures CountsOf(g, done + {c}, if |g.consumers[c]| > 0 then counts[c := |g.consumers[c]|] else counts)
  {
  }

  /** A count for each consumer of `done` that has something pending. */
  ghost predicate CountsOf(g: Group, done: set<Bytes>, counts: map<Bytes, nat>) {
    && (forall c :: c in counts <==> c in done && c in g.consumers && g.consumers[c] != map[])
    && (forall c :: c in counts ==> counts[c] == |g.consumers[c]|)
  }

  lemma {:induction false} AllConsumers(g: Group)
    ensures PendingOf(g, g.consumers.Keys) == PendingIds(g)
  {
  }

  ghost predicate Bounds(s: set<StreamId>, least: Option<StreamId>, greatest: Option<StreamId>) {
    && (least.None? <==> s == {}) && (greatest.None? <==> s == {})
    && (least.Some? ==> least.value in s && forall id :: id in s ==> IdLeq(least.value, id))
    && (greatest.Some? ==> greatest.value in s && forall id :: id in s ==> IdLeq(id, greatest.value))
  }

  /** The inner loop: widen the bounds by one consumer's pending ids. */
  method Widen(ghost s: set<StreamId>, pel: Pel, least0: Option<StreamId>, greatest0: Option<StreamId>)
    returns (least: Option<StreamId>, greatest: Option<StreamId>)
    requires Bounds(s, least0, greatest0)
    ensures Bounds(s + pel.Keys, least, greatest)
  {
    least, greatest := least0, greatest0;
    var rest := pel.Keys;
    ghost var seen := s;
    while rest != {}
      invariant seen + rest == s + pel.Keys
      invariant Bounds(seen, least, greatest)
      decreases rest
    {
      var id :| id in rest;
      BoundsAdd(seen, id, least, greatest);
      if least.None? || IdLess(id, least.value) {
        least := Some(id);
      }
      if greatest.None? || IdLess(greatest.value, id) {
        greatest := Some(id);
      }
      MoveOver(seen, rest, id);
      seen, rest := seen + {id}, rest - {id};
    }
    assert seen == seen + rest;
  }

  lemma {:induction false} MoveOver<T>(seen: set<T>, rest: set<T>, x: T)
    requires x in rest
    ensures (seen + {x}) + (rest - {x}) == seen + rest
  {
  }

  lemma {:induction false} BoundsAdd(s: set<StreamId>, id: StreamId, least: Option<StreamId>,
                                     greatest: Option<StreamId>)
    requires Bounds(s, least, greatest)
    ensures Bounds(s + {id},
                   if least.None? || IdLess(id, least.value) then Some(id) else least,
                   if greatest.None? || IdLess(greatest.value, id) then Some(id) else greatest)
  {
  }

  lemma {:induction false} OneMore(g: Group, done: set<Bytes>, c: Bytes)
    requires c in g.consumers && c !in done
    ensures PendingOf(g, done + {c}) == PendingOf(g, done) + g.consumers[c].Keys
    ensures Exclusive(g) ==> |PendingOf(g, done + {c})| == |PendingOf(g, done)| + |g.consumers[c]|
  {
    var mine := g.consumers[c].Keys;
    forall id ensures id in PendingOf(g, done + {c}) <==> id in PendingOf(g, done) || id in mine {
      if id in mine { assert Holds(g, c, id); }
    }
    if Exclusive(g) {
      assert PendingOf(g, done) !! mine by {
        forall id | id in mine ensures id !in PendingOf(g, done) {
          assert Holds(g, c, id);
        }
      }
    }
  }

  // ----- the stream itself -----

  class StreamLog {
    var entries: map<StreamId, Fields>
    var lastId: StreamId
    var groups: map<Bytes, Group>

    ghost function Value(): Stream
      reads this
    {
      Stream(entries, lastId, groups)
    }

    constructor (s: Stream)
      ensures Value() == s
    {
      entries, lastId, groups := s.entries, s.lastId, s.groups;
    }

    /** XADD; `None` is the error reply. */
    method Xadd(fields: Fields, explicit: Option<StreamId>, ms: u64) returns (r: Option<StreamId>)
      modifies this
      ensures r == NextId(old(Value()), explicit, ms)
      ensures Value() == Added(old(Value()), fields, explicit, ms)
    {
      var newId;
      if explicit.Some? {
        if IdLeq(explicit.value, lastId) {
          return None;
        }
        newId := explicit.value;
      } else if ms > lastId.ms {
        newId := StreamId(ms, 0);
      } else {
        newId := StreamId(lastId.ms, Succ64(lastId.seqNo));
      }
      entries := entries[newId := fields];
      lastId := newId;
      return Some(newId);
    }

    /** XDEL: replies how many of the ids were really stored. */
    method Xdel(ids: seq<StreamId>) returns (count: nat)
      modifies this
      ensures Value() == Deleted(old(Value()), ids)
      ensures count == |old(entries)| - |entries|
    {
      entries, count := DropIds(entries, ids);
    }

    /** XTRIM: drop the first entry while there are too many, then everything below the minimum id. */
    method Xtrim(max: Option<nat>, minId: Option<StreamId>) returns (removed: nat)
      modifies this
      ensures Value() == Trimmed(old(Value()), max, minId)
      ensures removed == |old(entries)| - |entries|
    {
      var kept;
      kept, removed := DropOldest(entries, max);
      if minId.Some? {
        removed := removed + BelowMinimum(kept, minId.value);
        kept := FromMinimum(kept, minId);
      }
      entries := kept;
    }
  }

  /** The XDEL loop. */
  method DropIds(before: map<StreamId, Fields>, ids: seq<StreamId>) returns (entries: map<StreamId, Fields>, count: nat)
    ensures entries == before - Elems(ids)
    ensures count == |before| - |entries|
  {
    entries, count := before, 0;
    DropStart(before, ids);
    for i := 0 to |ids|
      invariant Dropped(before, ids, i, entries, count)
    {
      var id := ids[i];
      DropNext(before, ids, i, entries, count);
      if id in entries {
        entries, count := entries - {id}, count + 1;
      } else {
        DropAbsent(entries, id);
      }
    }
    DropEnd(before, ids, entries, count);
  }

  lemma {:induction false} DropAbsent(m: map<StreamId, Fields>, id: StreamId)
    requires id !in m
    ensures m - {id} == m
  {
  }

  lemma {:induction false} DropEnd(m: map<StreamId, Fields>, ids: seq<StreamId>, left: map<StreamId, Fields>,
                                   count: int)
    requires Dropped(m, ids, |ids|, left, count)
    ensures left == m - Elems(ids) && count == |m| - |left|
  {
    assert ids[..|ids|] == ids;
  }

  /** The MAXLEN loop: while there are too many entries, drop the first. */
  method DropOldest(before: map<StreamId, Fields>, max: Option<nat>) returns (entries: map<StreamId, Fields>,
                    removed: nat)
    ensures entries == Restrict(before, LargestIds(before, max))
    ensures removed == |before| - |entries|
  {
    ghost var all := SortedIds(before.Keys);
    entries, removed := before, 0;
    RestrictAll(before);
    if max.Some? {
      while |entries| > max.value
        invariant removed + |entries| == |before| == |all|
        invariant removed > 0 ==> |entries| >= max.value
        invariant entries == Restrict(before, all[removed..])
        decreases |entries|
      {
        FirstLeft(before, removed);
        var first := SortedIds(entries.Keys)[0];
        entries := entries - {first};
        removed := removed + 1;
      }
    }
    CutIsLargest(before, max, removed);
  }

  lemma {:induction false} CutIsLargest(before: map<StreamId, Fields>, max: Option<nat>, removed: nat)
    requires removed <= |before|
    requires if max.None? then removed == 0
             else |before| - removed <= max.value && (removed > 0 ==> |before| - removed >= max.value)
    ensures |SortedIds(before.Keys)| == |before|
    ensures SortedIds(before.Keys)[removed..] == LargestIds(before, max)
  {
  }

  lemma {:induction false} RestrictAll(before: map<StreamId, Fields>)
    ensures SortedIds(before.Keys)[0..] == SortedIds(before.Keys)
    ensures Restrict(before, SortedIds(before.Keys)) == before
    ensures |SortedIds(before.Keys)| == |before|
  {
  }

  /** How many entries `range(..min)` lists; removing them leaves the rest. */
  function BelowMinimum(entries: map<StreamId, Fields>, min: StreamId): (n: nat)
    ensures n == |entries| - |FromMinimum(entries, Some(min))|
  {
    var below := set id | id in entries && IdLess(id, min);
    SplitAtMinimum(entries, min, below);
    |below|
  }

  lemma {:induction false} SplitAtMinimum(entries: map<StreamId, Fields>, min: StreamId, below: set<StreamId>)
    requires below == set id | id in entries && IdLess(id, min)
    ensures |below| == |entries| - |FromMinimum(entries, Some(min))|
  {
    var kept := FromMinimum(entries, Some(min)).Keys;
    assert kept == entries.Keys - below by {
      IdOrder();
    }
    assert below <= entries.Keys;
    assert |FromMinimum(entries, Some(min))| == |kept|;
  }

  lemma {:induction false} DropOne(m: map<StreamId, Fields>, done: set<StreamId>, id: StreamId)
    ensures m - (done + {id}) == (m - done) - {id}
    ensures |m - (done + {id})| == |m - done| - (if id in m - done then 1 else 0)
  {
  }

  /** With the first `i` ids handled, `left` is what stays and `count` what went. */
  ghost predicate Dropped(m: map<StreamId, Fields>, ids: seq<StreamId>, i: nat, left: map<StreamId, Fields>, count: int)
    requires i <= |ids|
  {
    left == m - Elems(ids[..i]) && count == |m| - |left|
  }

  lemma {:induction false} DropStart(m: map<StreamId, Fields>, ids: seq<StreamId>)
    ensures Dropped(m, ids, 0, m, 0)
  {
    assert Elems(ids[..0]) == {};
  }

  lemma {:induction false} DropNext(m: map<StreamId, Fields>, ids: seq<StreamId>, i: nat, left: map<StreamId, Fields>,
                                    count: int)
    requires i < |ids| && Dropped(m, ids, i, left, count)
    ensures Dropped(m, ids, i + 1, left - {ids[i]}, if ids[i] in left then count + 1 else count)
  {
    ElemsPrefix(ids, i);
    DropOne(m, Elems(ids[..i]), ids[i]);
  }

  /** Dropping the first of the remaining entries leaves the rest of the original order. */
  lemma {:induction false} RestrictTail(before: map<StreamId, Fields>, x: StreamId, tail: seq<StreamId>)
    requires x in before && x !in tail
    ensures Restrict(before, [x] + tail) - {x} == Restrict(before, tail)
    ensures |Restrict(before, [x] + tail)| == |Restrict(before, tail)| + 1
  {
  }

  lemma {:induction false} RestrictSorted(before: map<StreamId, Fields>, tail: seq<StreamId>)
    requires Ascending(tail, IdLess) && forall id :: id in tail ==> id in before
    ensures SortedIds(Restrict(before, tail).Keys) == tail
  {
    IsSortedIds(tail, Restrict(before, tail).Keys);
  }

  /** After `k` removals the first entry left is the next one in the original order. */
  lemma {:induction false} FirstLeft(before: map<StreamId, Fields>, k: nat)
    requires k < |SortedIds(before.Keys)|
    ensures var all := SortedIds(before.Keys);
            var left := Restrict(before, all[k..]);
            && SortedIds(left.Keys) == all[k..]
            && left - {all[k]} == Restrict(before, all[k + 1..])
            && |left| == |left - {all[k]}| + 1
  {
    var all := SortedIds(before.Keys);
    var tail := all[k + 1..];
    SplitTail(all, k);
    RestrictTail(before, all[k], tail);
    RestrictSorted(before, all[k..]);
  }

  lemma {:induction false} SplitTail(all: seq<StreamId>, k: nat)
    requires k < |all| && Ascending(all, IdLess)
    ensures all[k..] == [all[k]] + all[k + 1..]
    ensures all[k] !in all[k + 1..] && all[k] in all
    ensures forall id :: id in all[k..] ==> id in all
    ensures Ascending(all[k..], IdLess)
  {
  }
}
