/**
 Consumer groups: who holds which pending stream entry. Functions give the meaning of
 XREADGROUP ">", XACK and XCLAIM on a group value; class `ConsumerGroup` runs the loops.

 A HashMap is searched in an unspecified order. Where that order decides which consumer is
 found, a `hint` names the consumer found; every hint is allowed, so a statement for all
 hints covers every iteration order.
 */
module Groups {
  import opened Prelude
  import opened Ordering
  import opened Values

  // ----- reading a group -----

  predicate Holds(g: Group, c: Bytes, id: StreamId) {
    c in g.consumers && id in g.consumers[c]
  }

  function PelOf(g: Group, c: Bytes): Pel {
    if c in g.consumers then g.consumers[c] else map[]
  }

  function WithPel(g: Group, c: Bytes, pel: Pel): Group {
    g.(consumers := g.consumers[c := pel])
  }

  /** Every id pending for some consumer of the group. */
  function PendingIds(g: Group): (r: set<StreamId>)
    ensures forall id :: id in r <==> exists c :: Holds(g, c, id)
  {
    var r := set c, id | c in g.consumers && id in g.consumers[c] :: id;
    assert forall c, id :: Holds(g, c, id) ==> id in g.consumers[c] && id in r;
    assert forall c, id :: c in g.consumers && id in g.consumers[c] ==> Holds(g, c, id);
    r
  }

  /** No id is pending for two consumers. */
  ghost predicate Exclusive(g: Group) {
    forall c, d, id :: Holds(g, c, id) && Holds(g, d, id) ==> c == d
  }

  /** Every pending id is a real id that was already passed by the group's cursor. */
  ghost predicate Bounded(g: Group) {
    forall c, id :: Holds(g, c, id) ==> IdLess(ZERO_ID, id) && IdLeq(id, g.lastDelivered)
  }

  ghost predicate GroupInv(g: Group) {
    Exclusive(g) && Bounded(g)
  }

  /** The consumer a search for `id` finds: any holder, `hint` if it is one. */
  ghost function Holder(g: Group, id: StreamId, hint: Bytes): (r: Option<Bytes>)
    ensures r.Some? ==> Holds(g, r.value, id)
    ensures r.None? <==> id !in PendingIds(g)
    ensures Holds(g, hint, id) ==> r == Some(hint)
  {
    if Holds(g, hint, id) then Some(hint)
    else if c :| Holds(g, c, id) then Some(c)
    else None
  }

  function HintAt(hints: seq<Bytes>, i: nat): Bytes {
    if i < |hints| then hints[i] else []
  }

  /** Moving `x` out of a set of pending ids and onto a list keeps the total. */
  lemma {:induction false} TakeOut<T>(all: multiset<T>, out: seq<T>, left: set<T>, x: T)
    requires all == multiset(out) + multiset(left) && x in left
    ensures all == multiset(out + [x]) + multiset(left - {x})
  {
  }

  /** Adding `x` to a set of pending ids and to a list keeps the difference. */
  lemma {:induction false} PutIn<T>(before: set<T>, put: seq<T>, now: set<T>, x: T)
    requires multiset(now) == multiset(before) + multiset(put) && x !in now
    ensures multiset(now + {x}) == multiset(before) + multiset(put + [x])
  {
    assert multiset(now + {x}) == multiset(now) + multiset{x};
  }

  // ----- XREADGROUP ">" -----

  /** The undelivered ids of a stream, oldest first, at most `count`. */
  function NewIds(entries: map<StreamId, Fields>, g: Group, count: Option<nat>): seq<StreamId> {
    Take(SortedIds(set id | id in entries && IdLess(g.lastDelivered, id)), count)
  }

  function FreshPel(ids: seq<StreamId>, now: Time): Pel {
    map id | id in ids :: Pending(now, 1)
  }

  /** Hands `ids` to consumer `c`; nothing changes, not even the consumer list, when there are none. */
  function Delivered(g: Group, ids: seq<StreamId>, c: Bytes, now: Time): Group {
    if ids == [] then g
    else Group(ids[|ids| - 1], g.consumers[c := PelOf(g, c) + FreshPel(ids, now)])
  }

  lemma {:induction false} NewIdsAbove(entries: map<StreamId, Fields>, g: Group, count: Option<nat>)
    ensures Ascending(NewIds(entries, g, count), IdLess)
    ensures forall id :: id in NewIds(entries, g, count) ==> id in entries && IdLess(g.lastDelivered, id)
    ensures forall id :: id in entries && IdLess(g.lastDelivered, id) && id !in NewIds(entries, g, count) ==>
                         forall x :: x in NewIds(entries, g, count) ==> IdLess(x, id)
  {
    var newer := set id | id in entries && IdLess(g.lastDelivered, id);
    var all := SortedIds(newer);
    PrefixBelow(all, |NewIds(entries, g, count)|);
    assert NewIds(entries, g, count) == all[..|NewIds(entries, g, count)|];
    assert forall id :: id in entries && IdLess(g.lastDelivered, id) ==> id in newer && id in all;
  }

  /** The first `n` of an ascending list: ascending, and below everything left out. */
  lemma {:induction false} PrefixBelow(all: seq<StreamId>, n: nat)
    requires n <= |all| && Ascending(all, IdLess)
    ensures Ascending(all[..n], IdLess)
    ensures forall id :: id in all[..n] ==> id in all
    ensures forall id, x :: id in all && id !in all[..n] && x in all[..n] ==> IdLess(x, id)
  {
    InPrefix(all, n);
    forall id, x | id in all && id !in all[..n] && x in all[..n] ensures IdLess(x, id) {
      var i :| 0 <= i < |all| && all[i] == id;
      var j :| 0 <= j < n && all[j] == x;
    }
  }

  lemma {:induction false} InPrefix(all: seq<StreamId>, n: nat)
    requires n <= |all|
    ensures forall i :: 0 <= i < n ==> all[i] in all[..n]
  {
    forall i | 0 <= i < n ensures all[i] in all[..n] {
      assert all[..n][i] == all[i];
    }
  }

  lemma {:induction false} DeliveredHolds(g: Group, ids: seq<StreamId>, c: Bytes, now: Time)
    ensures forall d, id :: Holds(Delivered(g, ids, c, now), d, id) <==> Holds(g, d, id) || (d == c && id in ids)
    ensures PendingIds(Delivered(g, ids, c, now)) == PendingIds(g) + Elems(ids)
  {
    var g' := Delivered(g, ids, c, now);
    forall d, id ensures Holds(g', d, id) <==> Holds(g, d, id) || (d == c && id in ids) {
    }
    forall id ensures id in PendingIds(g') <==> id in PendingIds(g) + Elems(ids) {
      if id in ids { assert Holds(g', c, id); }
      if d :| Holds(g, d, id) { assert Holds(g', d, id); }
    }
  }

  lemma {:induction false} AscendingLast(ids: seq<StreamId>)
    requires Ascending(ids, IdLess) && ids != []
    ensures forall id :: id in ids ==> IdLeq(id, ids[|ids| - 1])
  {
  }

  /** Delivery keeps ownership exclusive because the cursor is above everything pending. */
  lemma {:induction false} DeliveredKeeps(g: Group, ids: seq<StreamId>, c: Bytes, now: Time)
    requires GroupInv(g)
    requires Ascending(ids, IdLess)
    requires forall id :: id in ids ==> IdLess(g.lastDelivered, id)
    ensures GroupInv(Delivered(g, ids, c, now))
    ensures PendingIds(Delivered(g, ids, c, now)) == PendingIds(g) + Elems(ids)
    ensures PendingIds(g) !! Elems(ids)
  {
    if ids == [] {
      assert Elems(ids) == {};
    } else {
      DeliveredHolds(g, ids, c, now);
      AboveIsFresh(g, ids);
      DeliveredInv(g, ids, c, now);
    }
  }

  /** Ids above the cursor are pending for nobody. */
  lemma {:induction false} AboveIsFresh(g: Group, ids: seq<StreamId>)
    requires Bounded(g) && forall id :: id in ids ==> IdLess(g.lastDelivered, id)
    ensures PendingIds(g) !! Elems(ids)
    ensures forall d, id :: id in ids ==> !Holds(g, d, id)
  {
    forall d, id | id in ids ensures !Holds(g, d, id) {
    }
  }

  lemma {:induction false} DeliveredInv(g: Group, ids: seq<StreamId>, c: Bytes, now: Time)
    requires GroupInv(g) && ids != [] && Ascending(ids, IdLess)
    requires forall id :: id in ids ==> IdLess(g.lastDelivered, id)
    requires forall d, id :: id in ids ==> !Holds(g, d, id)
    ensures GroupInv(Delivered(g, ids, c, now))
  {
    var g' := Delivered(g, ids, c, now);
    DeliveredHolds(g, ids, c, now);
    AscendingLast(ids);
    var last := ids[|ids| - 1];
    assert last in ids && g'.lastDelivered == last;
    forall d, id | Holds(g', d, id) ensures IdLess(ZERO_ID, id) && IdLeq(id, last) {
      assert Holds(g, d, id) || id in ids;
    }
  }

  /**
   What a delivery at `now` leaves: the ids are pending for `c`, delivered once and just now; every other pending
   entry of every consumer is as it was; the cursor is at the last id.
   */
  lemma {:induction false} DeliveredMeaning(g: Group, ids: seq<StreamId>, c: Bytes, now: Time)
    ensures var g' := Delivered(g, ids, c, now);
            && (forall id :: id in ids ==>
                  Holds(g', c, id) && g'.consumers[c][id].deliveryTime == now && g'.consumers[c][id].deliveryCount == 1)
            && (forall d, x :: !(d == c && x in ids) ==> (Holds(g', d, x) <==> Holds(g, d, x)))
            && (forall d, x :: !(d == c && x in ids) && Holds(g, d, x) ==> g'.consumers[d][x] == g.consumers[d][x])
            && g'.lastDelivered == if ids == [] then g.lastDelivered else ids[|ids| - 1]
  {
  }

  // ----- XACK -----

  ghost function AckOne(g: Group, id: StreamId, hint: Bytes): Group {
    match Holder(g, id, hint)
    case None => g
    case Some(c) => WithPel(g, c, g.consumers[c] - {id})
  }

  ghost function AckAll(g: Group, ids: seq<StreamId>, hints: seq<Bytes>): Group {
    if ids == [] then g
    else AckOne(AckAll(g, ids[..|ids| - 1], hints), ids[|ids| - 1], HintAt(hints, |ids| - 1))
  }

  /** The ids XACK really acknowledged, in the order given; its reply is their number. */
  ghost function Acked(g: Group, ids: seq<StreamId>, hints: seq<Bytes>): seq<StreamId> {
    if ids == [] then []
    else
      var init := ids[..|ids| - 1];
      var last := ids[|ids| - 1];
      Acked(g, init, hints) + (if last in PendingIds(AckAll(g, init, hints)) then [last] else [])
  }

  lemma {:induction false} AckOneKeeps(g: Group, id: StreamId, hint: Bytes)
    requires GroupInv(g)
    ensures GroupInv(AckOne(g, id, hint))
    ensures PendingIds(AckOne(g, id, hint)) == PendingIds(g) - {id}
    ensures AckOne(g, id, hint).lastDelivered == g.lastDelivered
  {
    var g' := AckOne(g, id, hint);
    forall d, x ensures Holds(g', d, x) <==> Holds(g, d, x) && x != id {
      if Holds(g, d, x) && x == id {
        assert x in PendingIds(g);
        assert Holder(g, id, hint).value == d;
      }
    }
    forall x ensures x in PendingIds(g') <==> x in PendingIds(g) && x != id {
      if x in PendingIds(g) && x != id {
        var d :| Holds(g, d, x);
        assert Holds(g', d, x);
      }
    }
  }

  lemma {:induction false} AckPending(g: Group, ids: seq<StreamId>, hints: seq<Bytes>)
    requires GroupInv(g)
    ensures GroupInv(AckAll(g, ids, hints))
    ensures AckAll(g, ids, hints).lastDelivered == g.lastDelivered
    ensures PendingIds(AckAll(g, ids, hints)) == PendingIds(g) - Elems(ids)
  {
    if ids == [] {
      assert Elems(ids) == {};
    } else {
      var n := |ids| - 1;
      AckPending(g, ids[..n], hints);
      AckOneKeeps(AckAll(g, ids[..n], hints), ids[n], HintAt(hints, n));
      ElemsPrefix(ids, n);
      assert ids[..n + 1] == ids;
      MinusTwice(PendingIds(g), Elems(ids[..n]), ids[n]);
    }
  }

  lemma {:induction false} MinusTwice<T>(s: set<T>, a: set<T>, x: T)
    ensures s - a - {x} == s - (a + {x})
  {
  }

  /** XACK: what is pending splits into what was acknowledged and what is left. */
  lemma {:induction false} AckKeeps(g: Group, ids: seq<StreamId>, hints: seq<Bytes>)
    requires GroupInv(g)
    ensures GroupInv(AckAll(g, ids, hints))
    ensures AckAll(g, ids, hints).lastDelivered == g.lastDelivered
    ensures PendingIds(AckAll(g, ids, hints)) == PendingIds(g) - Elems(ids)
    ensures multiset(PendingIds(g)) == multiset(Acked(g, ids, hints)) + multiset(PendingIds(AckAll(g, ids, hints)))
  {
    AckPending(g, ids, hints);
    if ids != [] {
      var init, last := ids[..|ids| - 1], ids[|ids| - 1];
      AckKeeps(g, init, hints);
      var mid := AckAll(g, init, hints);
      assert PendingIds(AckAll(g, ids, hints)) == PendingIds(mid) - {last} by {
        AckOneKeeps(mid, last, HintAt(hints, |ids| - 1));
      }
      if last in PendingIds(mid) {
        TakeOut(multiset(PendingIds(g)), Acked(g, init, hints), PendingIds(mid), last);
      } else {
        assert Acked(g, ids, hints) == Acked(g, init, hints);
        assert PendingIds(mid) - {last} == PendingIds(mid);
      }
    }
  }

  lemma {:induction false} AckOneOthers(g: Group, id: StreamId, hint: Bytes, d: Bytes, x: StreamId)
    requires x != id
    ensures var g' := AckOne(g, id, hint);
            (Holds(g', d, x) <==> Holds(g, d, x)) && (Holds(g, d, x) ==> g'.consumers[d][x] == g.consumers[d][x])
  {
  }

  /** XACK leaves every pending entry it does not name as it was. */
  lemma {:induction false} AckOthers(g: Group, ids: seq<StreamId>, hints: seq<Bytes>, d: Bytes, x: StreamId)
    requires x !in ids
    ensures var g' := AckAll(g, ids, hints);
            (Holds(g', d, x) <==> Holds(g, d, x)) && (Holds(g, d, x) ==> g'.consumers[d][x] == g.consumers[d][x])
  {
    if ids != [] {
      var n := |ids| - 1;
      assert ids[n] in ids;
      AckOthers(g, ids[..n], hints, d, x);
      AckOneOthers(AckAll(g, ids[..n], hints), ids[n], HintAt(hints, n), d, x);
    }
  }

  // ----- XCLAIM -----

  /** Times are in nanoseconds; `idle` and `retryCount` are the IDLE and RETRYCOUNT options. */
  datatype ClaimArgs = ClaimArgs(consumer: Bytes, minIdle: Time, idle: Option<nat>, retryCount: Option<u64>,
                                 force: bool, justId: bool)

  /** `Instant::duration_since`, which saturates at zero. */
  function IdleFor(p: Pending, now: Time): Time {
    if now >= p.deliveryTime then now - p.deliveryTime else 0
  }

  datatype ClaimKind = Skip | Move(from: Bytes) | Create

  ghost function KindOf(entries: map<StreamId, Fields>, g: Group, id: StreamId, a: ClaimArgs, now: Time,
                        hint: Bytes): (k: ClaimKind)
    ensures k.Move? ==> Holds(g, k.from, id)
    ensures k.Create? <==> a.force && id !in PendingIds(g) && id in entries
  {
    match Holder(g, id, hint)
    case None => if a.force && id in entries then Create else Skip
    case Some(c) => if a.force || IdleFor(g.consumers[c][id], now) >= a.minIdle then Move(c) else Skip
  }

  function CreatedEntry(a: ClaimArgs, now: Time): Pending {
    Pending(if a.idle.Some? then now - a.idle.value else now, if a.retryCount.Some? then a.retryCount.value else 1)
  }

  function MovedEntry(p: Pending, a: ClaimArgs, now: Time): Pending {
    Pending(if a.idle.Some? then now - a.idle.value else p.deliveryTime,
            if a.retryCount.Some? then a.retryCount.value else Succ64(p.deliveryCount))
  }

  /** Moves `id` from consumer `from` to consumer `to` with a new pending entry. */
  function Moved(g: Group, id: StreamId, from: Bytes, to: Bytes, p: Pending): Group
    requires from in g.consumers
  {
    var g1 := WithPel(g, from, g.consumers[from] - {id});
    WithPel(g1, to, PelOf(g1, to)[id := p])
  }

  ghost function ClaimOne(entries: map<StreamId, Fields>, g: Group, id: StreamId, a: ClaimArgs, now: Time,
                          hint: Bytes): Group {
    match KindOf(entries, g, id, a, now, hint)
    case Skip => g
    case Create => WithPel(g, a.consumer, PelOf(g, a.consumer)[id := CreatedEntry(a, now)])
    case Move(from) => Moved(g, id, from, a.consumer, MovedEntry(g.consumers[from][id], a, now))
  }

  ghost function ClaimAll(entries: map<StreamId, Fields>, g: Group, ids: seq<StreamId>, a: ClaimArgs,
                          now: Time, hints: seq<Bytes>): Group
  {
    if ids == [] then g
    else
      var n := |ids| - 1;
      ClaimOne(entries, ClaimAll(entries, g, ids[..n], a, now, hints), ids[n], a, now, HintAt(hints, n))
  }

  /** The ids for which FORCE created a pending entry that no delivery had put there. */
  ghost function Forced(entries: map<StreamId, Fields>, g: Group, ids: seq<StreamId>, a: ClaimArgs, now: Time,
                        hints: seq<Bytes>): seq<StreamId> {
    if ids == [] then []
    else
      var init := ids[..|ids| - 1];
      var last := ids[|ids| - 1];
      Forced(entries, g, init, a, now, hints) +
      (if KindOf(entries, ClaimAll(entries, g, init, a, now, hints), last, a, now, HintAt(hints, |ids| - 1)).Create?
        then [last] else [])
  }

  datatype ClaimedItem = ClaimedItem(id: StreamId, fields: Option<Fields>)

  function ReplyItem(entries: map<StreamId, Fields>, id: StreamId, justId: bool): seq<ClaimedItem> {
    if justId then [ClaimedItem(id, None)]
    else if id in entries then [ClaimedItem(id, Some(entries[id]))]
    else []
  }

  ghost function ClaimReply(entries: map<StreamId, Fields>, g: Group, ids: seq<StreamId>, a: ClaimArgs, now: Time,
                            hints: seq<Bytes>): seq<ClaimedItem> {
    if ids == [] then []
    else
      var init := ids[..|ids| - 1];
      var last := ids[|ids| - 1];
      ClaimReply(entries, g, init, a, now, hints) +
      (if KindOf(entries, ClaimAll(entries, g, init, a, now, hints), last, a, now, HintAt(hints, |ids| - 1)).Skip?
        then []
       else ReplyItem(entries, last, a.justId))
  }

  lemma {:induction false} MovedHolds(g: Group, id: StreamId, from: Bytes, to: Bytes, p: Pending)
    requires Exclusive(g) && Holds(g, from, id)
    ensures forall d, x :: Holds(Moved(g, id, from, to, p), d, x) <==> if x == id then d == to else Holds(g, d, x)
    ensures Exclusive(Moved(g, id, from, to, p))
    ensures PendingIds(Moved(g, id, from, to, p)) == PendingIds(g)
    ensures Moved(g, id, from, to, p).lastDelivered == g.lastDelivered
    ensures Moved(g, id, from, to, p).consumers[to][id] == p
    ensures forall d, x :: x != id && Holds(g, d, x) ==> Moved(g, id, from, to, p).consumers[d][x] == g.consumers[d][x]
  {
    var g' := Moved(g, id, from, to, p);
    forall d, x ensures Holds(g', d, x) <==> if x == id then d == to else Holds(g, d, x) {
      assert Holds(g, d, id) <==> d == from;
    }
    forall x ensures x in PendingIds(g') <==> x in PendingIds(g) {
      if x in PendingIds(g) {
        var d :| Holds(g, d, x);
        assert Holds(g', if x == id then to else d, x);
      }
      if x in PendingIds(g') {
        var d :| Holds(g', d, x);
        assert Holds(g, if x == id then from else d, x);
      }
    }
  }

  /** FORCE may only create entries above 0-0 and at or below the cursor; moves are always safe. */
  ghost predicate ForceWithin(entries: map<StreamId, Fields>, g: Group, ids: seq<StreamId>, a: ClaimArgs) {
    a.force ==>
      forall id :: id in ids && id in entries && id !in PendingIds(g) ==>
                   IdLess(ZERO_ID, id) && IdLeq(id, g.lastDelivered)
  }

  lemma {:induction false} ClaimOneEffect(entries: map<StreamId, Fields>, g: Group, id: StreamId, a: ClaimArgs,
                                          now: Time, hint: Bytes)
    requires Exclusive(g)
    ensures Exclusive(ClaimOne(entries, g, id, a, now, hint))
    ensures ClaimOne(entries, g, id, a, now, hint).lastDelivered == g.lastDelivered
    ensures PendingIds(ClaimOne(entries, g, id, a, now, hint)) ==
            if KindOf(entries, g, id, a, now, hint).Create? then PendingIds(g) + {id} else PendingIds(g)
  {
    var g' := ClaimOne(entries, g, id, a, now, hint);
    var k := KindOf(entries, g, id, a, now, hint);
    match k
    case Skip =>
    case Move(from) => MovedHolds(g, id, from, a.consumer, MovedEntry(g.consumers[from][id], a, now));
    case Create =>
      forall d, x ensures Holds(g', d, x) <==> Holds(g, d, x) || (d == a.consumer && x == id) {}
      forall x ensures x in PendingIds(g') <==> x in PendingIds(g) || x == id {
        if x == id { assert Holds(g', a.consumer, id); }
        if x in PendingIds(g) {
          var d :| Holds(g, d, x);
          assert Holds(g', d, x);
        }
      }
      assert forall d :: Holds(g, d, id) ==> id in PendingIds(g);
  }

  lemma {:induction false} PendingBounds(g: Group)
    ensures Bounded(g) <==> forall id :: id in PendingIds(g) ==> IdLess(ZERO_ID, id) && IdLeq(id, g.lastDelivered)
  {
  }

  /** Neither XACK nor XCLAIM moves the cursor, whoever holds what. */
  lemma {:induction false} AckCursor(g: Group, ids: seq<StreamId>, hints: seq<Bytes>)
    ensures AckAll(g, ids, hints).lastDelivered == g.lastDelivered
  {
    if ids != [] {
      AckCursor(g, ids[..|ids| - 1], hints);
    }
  }

  lemma {:induction false} ClaimCursor(entries: map<StreamId, Fields>, g: Group, ids: seq<StreamId>, a: ClaimArgs,
                                       now: Time, hints: seq<Bytes>)
    ensures ClaimAll(entries, g, ids, a, now, hints).lastDelivered == g.lastDelivered
  {
    if ids != [] {
      ClaimCursor(entries, g, ids[..|ids| - 1], a, now, hints);
    }
  }

  /** What XCLAIM leaves pending: what was pending, plus what FORCE created. */
  lemma {:induction false} ClaimEffect(entries: map<StreamId, Fields>, g: Group, ids: seq<StreamId>, a: ClaimArgs,
                                       now: Time, hints: seq<Bytes>)
    requires Exclusive(g)
    ensures Exclusive(ClaimAll(entries, g, ids, a, now, hints))
    ensures ClaimAll(entries, g, ids, a, now, hints).lastDelivered == g.lastDelivered
    ensures multiset(PendingIds(ClaimAll(entries, g, ids, a, now, hints))) ==
            multiset(PendingIds(g)) + multiset(Forced(entries, g, ids, a, now, hints))
  {
    if ids != [] {
      var init := ids[..|ids| - 1];
      var last := ids[|ids| - 1];
      var hint := HintAt(hints, |ids| - 1);
      ClaimEffect(entries, g, init, a, now, hints);
      var mid := ClaimAll(entries, g, init, a, now, hints);
      ClaimOneEffect(entries, mid, last, a, now, hint);
      var before := Forced(entries, g, init, a, now, hints);
      if KindOf(entries, mid, last, a, now, hint).Create? {
        PutIn(PendingIds(g), before, PendingIds(mid), last);
      } else {
        assert Forced(entries, g, ids, a, now, hints) == before;
      }
    }
  }

  /** The ids FORCE may create entries for: named, in the stream, pending for nobody. */
  ghost function Creatable(entries: map<StreamId, Fields>, g: Group, ids: seq<StreamId>, a: ClaimArgs): set<StreamId> {
    set id | id in ids && a.force && id in entries && id !in PendingIds(g)
  }

  lemma {:induction false} CreatableSnoc(entries: map<StreamId, Fields>, g: Group, init: seq<StreamId>, last: StreamId,
                                         a: ClaimArgs)
    ensures Creatable(entries, g, init + [last], a) ==
            Creatable(entries, g, init, a) +
            (if a.force && last in entries && last !in PendingIds(g) then {last} else {})
  {
  }

  lemma {:induction false} ClaimPending(entries: map<StreamId, Fields>, g: Group, ids: seq<StreamId>, a: ClaimArgs,
                                        now: Time, hints: seq<Bytes>)
    requires Exclusive(g)
    ensures PendingIds(ClaimAll(entries, g, ids, a, now, hints)) == PendingIds(g) + Creatable(entries, g, ids, a)
  {
    if ids != [] {
      var init := ids[..|ids| - 1];
      var last := ids[|ids| - 1];
      ClaimPending(entries, g, init, a, now, hints);
      var mid := ClaimAll(entries, g, init, a, now, hints);
      assert Exclusive(mid) by { ClaimEffect(entries, g, init, a, now, hints); }
      ClaimOneEffect(entries, mid, last, a, now, HintAt(hints, |ids| - 1));
      CreatableSnoc(entries, g, init, last, a);
      assert ids == init + [last];
    }
  }

  /** A delivery count after `k` more deliveries. */
  function Bumped(n: u64, k: nat): u64 {
    if k == 0 then n else Succ64(Bumped(n, k - 1))
  }

  /** What `times` claims with options `a` make of pending entry `p`: its idle time and its delivery count. */
  ghost predicate Reclaimed(p: Pending, q: Pending, a: ClaimArgs, now: Time, times: nat) {
    && q.deliveryCount == (if a.retryCount.Some? then a.retryCount.value else Bumped(p.deliveryCount, times))
    && IdleFor(q, now) == if a.idle.Some? then a.idle.value else IdleFor(p, now)
  }

  /** An entry just claimed qualifies again when its id is named again, unless IDLE made it too fresh. */
  predicate Again(a: ClaimArgs) {
    a.force || a.idle.None? || a.idle.value >= a.minIdle
  }

  /** How often a qualifying entry is really claimed by a list of ids that names it. */
  function ClaimTimes(ids: seq<StreamId>, x: StreamId, a: ClaimArgs): nat {
    if Again(a) then multiset(ids)[x] else 1
  }

  ghost predicate Distinct(ids: seq<StreamId>) {
    forall i, j :: 0 <= i < j < |ids| ==> ids[i] != ids[j]
  }

  /** One id of XCLAIM changes only that id. */
  lemma {:induction false} ClaimOneOwner(entries: map<StreamId, Fields>, g: Group, id: StreamId, a: ClaimArgs,
                                         now: Time, hint: Bytes, c: Bytes, x: StreamId)
    requires Exclusive(g) && Holds(g, c, x)
    ensures var g' := ClaimOne(entries, g, id, a, now, hint);
            if x == id && (a.force || IdleFor(g.consumers[c][x], now) >= a.minIdle)
            then Holds(g', a.consumer, x) && Reclaimed(g.consumers[c][x], g'.consumers[a.consumer][x], a, now, 1)
            else Holds(g', c, x) && g'.consumers[c][x] == g.consumers[c][x]
  {
  }

  /**
   Who holds a pending entry after XCLAIM: named and idle long enough (or FORCE), the claiming consumer, with the
   idle time and delivery count it asked for; otherwise whoever held it, unchanged. Ids may be named repeatedly.
   */
  lemma {:induction false} ClaimOwner(entries: map<StreamId, Fields>, g: Group, ids: seq<StreamId>, a: ClaimArgs,
                                      now: Time, hints: seq<Bytes>, c: Bytes, x: StreamId)
    requires Exclusive(g) && Holds(g, c, x)
    ensures var g' := ClaimAll(entries, g, ids, a, now, hints);
            if x in ids && (a.force || IdleFor(g.consumers[c][x], now) >= a.minIdle)
            then && Holds(g', a.consumer, x)
                 && Reclaimed(g.consumers[c][x], g'.consumers[a.consumer][x], a, now, ClaimTimes(ids, x, a))
            else Holds(g', c, x) && g'.consumers[c][x] == g.consumers[c][x]
  {
    if ids != [] {
      var n := |ids| - 1;
      var mid := ClaimAll(entries, g, ids[..n], a, now, hints);
      ClaimOwner(entries, g, ids[..n], a, now, hints, c, x);
      assert Exclusive(mid) by { ClaimEffect(entries, g, ids[..n], a, now, hints); }
      SplitIds(ids, x);
      var owner := if Holds(mid, c, x) then c else a.consumer;
      ClaimOneOwner(entries, mid, ids[n], a, now, HintAt(hints, n), owner, x);
      if ids[n] == x && x in ids[..n] && (a.force || IdleFor(g.consumers[c][x], now) >= a.minIdle) {
        assert owner == a.consumer;
        var g' := ClaimOne(entries, mid, x, a, now, HintAt(hints, n));
        ClaimedTwice(g.consumers[c][x], mid.consumers[owner][x], g'.consumers[a.consumer][x], a, now, ids);
      }
    }
  }

  /** One more claim of an entry the same list has claimed before. */
  lemma {:induction false} ClaimedTwice(p: Pending, q: Pending, r: Pending, a: ClaimArgs, now: Time, ids: seq<StreamId>)
    requires ids != [] && ids[|ids| - 1] in ids[..|ids| - 1]
    requires a.force || IdleFor(p, now) >= a.minIdle
    requires Reclaimed(p, q, a, now, ClaimTimes(ids[..|ids| - 1], ids[|ids| - 1], a))
    requires a.force || IdleFor(q, now) >= a.minIdle ==> Reclaimed(q, r, a, now, 1)
    requires !(a.force || IdleFor(q, now) >= a.minIdle) ==> r == q
    ensures Reclaimed(p, r, a, now, ClaimTimes(ids, ids[|ids| - 1], a))
  {
    var n, x := |ids| - 1, ids[|ids| - 1];
    SplitIds(ids, x);
    var k := multiset(ids[..n])[x];
    assert Bumped(p.deliveryCount, k + 1) == Succ64(Bumped(p.deliveryCount, k));
    assert Bumped(q.deliveryCount, 1) == Succ64(Bumped(q.deliveryCount, 0));
  }

  lemma {:induction false} SplitIds(ids: seq<StreamId>, x: StreamId)
    requires ids != []
    ensures var n := |ids| - 1;
            && (x in ids <==> x in ids[..n] || x == ids[n])
            && multiset(ids)[x] == multiset(ids[..n])[x] + (if x == ids[n] then 1 else 0)
            && (Distinct(ids) ==> Distinct(ids[..n]) && ids[n] !in ids[..n])
  {
    var n := |ids| - 1;
    assert ids == ids[..n] + [ids[n]];
  }

  /** An id nobody held is held afterwards exactly when FORCE may create it, and then by the claiming consumer. */
  lemma {:induction false} ClaimCreates(entries: map<StreamId, Fields>, g: Group, ids: seq<StreamId>, a: ClaimArgs,
                                        now: Time, hints: seq<Bytes>, x: StreamId)
    requires Exclusive(g) && x !in PendingIds(g)
    ensures var g' := ClaimAll(entries, g, ids, a, now, hints);
            && (x in PendingIds(g') <==> x in ids && a.force && x in entries)
            && (x in PendingIds(g') ==> Holds(g', a.consumer, x))
  {
    ClaimPending(entries, g, ids, a, now, hints);
    if ids != [] {
      var n := |ids| - 1;
      var mid := ClaimAll(entries, g, ids[..n], a, now, hints);
      ClaimCreates(entries, g, ids[..n], a, now, hints, x);
      assert Exclusive(mid) by { ClaimEffect(entries, g, ids[..n], a, now, hints); }
      SplitIds(ids, x);
      if x in PendingIds(mid) {
        ClaimOneOwner(entries, mid, ids[n], a, now, HintAt(hints, n), a.consumer, x);
      }
    }
  }

  /** The first naming of an id FORCE creates: idle as asked or not at all, delivered as often as asked or once. */
  ghost predicate FreshlyCreated(q: Pending, a: ClaimArgs, now: Time, times: nat) {
    && q.deliveryCount == (if a.retryCount.Some? then a.retryCount.value else Bumped(1, times))
    && IdleFor(q, now) == if a.idle.Some? then a.idle.value else 0
  }

  lemma {:induction false} ClaimOneCreates(entries: map<StreamId, Fields>, g: Group, x: StreamId, a: ClaimArgs,
                                           now: Time, hint: Bytes)
    requires x !in PendingIds(g) && a.force && x in entries
    ensures var g' := ClaimOne(entries, g, x, a, now, hint);
            Holds(g', a.consumer, x) && FreshlyCreated(g'.consumers[a.consumer][x], a, now, 0)
  {
    assert Bumped(1, 0) == 1;
  }

  /** The entry FORCE creates has the IDLE and RETRYCOUNT asked for; naming the id again delivers it once more. */
  lemma {:induction false} ClaimCreatedEntry(entries: map<StreamId, Fields>, g: Group, ids: seq<StreamId>,
                                             a: ClaimArgs, now: Time, hints: seq<Bytes>, x: StreamId)
    requires Exclusive(g) && x !in PendingIds(g) && a.force && x in ids && x in entries
    ensures var g' := ClaimAll(entries, g, ids, a, now, hints);
            && Holds(g', a.consumer, x)
            && FreshlyCreated(g'.consumers[a.consumer][x], a, now, multiset(ids)[x] - 1)
  {
    var n := |ids| - 1;
    var mid := ClaimAll(entries, g, ids[..n], a, now, hints);
    SplitIds(ids, x);
    assert Exclusive(mid) by { ClaimEffect(entries, g, ids[..n], a, now, hints); }
    if x in ids[..n] {
      ClaimCreatedEntry(entries, g, ids[..n], a, now, hints, x);
      ClaimOneOwner(entries, mid, ids[n], a, now, HintAt(hints, n), a.consumer, x);
      if ids[n] == x {
        ClaimedAgain(mid.consumers[a.consumer][x],
                     ClaimOne(entries, mid, x, a, now, HintAt(hints, n)).consumers[a.consumer][x],
                     a, now, multiset(ids[..n])[x] - 1);
      }
    } else {
      ClaimCreates(entries, g, ids[..n], a, now, hints, x);
      ClaimOneCreates(entries, mid, x, a, now, HintAt(hints, n));
    }
  }

  lemma {:induction false} ClaimedAgain(q: Pending, r: Pending, a: ClaimArgs, now: Time, times: nat)
    requires FreshlyCreated(q, a, now, times) && Reclaimed(q, r, a, now, 1)
    ensures FreshlyCreated(r, a, now, times + 1)
  {
    assert Bumped(1, times + 1) == Succ64(Bumped(1, times));
    assert Bumped(q.deliveryCount, 1) == Succ64(Bumped(q.deliveryCount, 0));
  }

  /** XCLAIM grants `id` when someone holds it idle long enough (or FORCE), or FORCE creates it. */
  ghost predicate Grants(entries: map<StreamId, Fields>, g: Group, id: StreamId, a: ClaimArgs, now: Time) {
    || (exists c :: Holds(g, c, id) && (a.force || IdleFor(g.consumers[c][id], now) >= a.minIdle))
    || (a.force && id in entries)
  }

  lemma {:induction false} GrantsIsKind(entries: map<StreamId, Fields>, g: Group, id: StreamId, a: ClaimArgs, now: Time,
                                        hint: Bytes)
    requires Exclusive(g)
    ensures Grants(entries, g, id, a, now) <==> !KindOf(entries, g, id, a, now, hint).Skip?
  {
  }

  /** The reply of an XCLAIM that judges every id by the group as it was before the command. */
  ghost function Granted(entries: map<StreamId, Fields>, g: Group, ids: seq<StreamId>, a: ClaimArgs,
                         now: Time): seq<ClaimedItem> {
    if ids == [] then []
    else Granted(entries, g, ids[..|ids| - 1], a, now)
         + (if Grants(entries, g, ids[|ids| - 1], a, now) then ReplyItem(entries, ids[|ids| - 1], a.justId) else [])
  }

  /** Claims of other ids do not change what is granted for `x`. */
  lemma {:induction false} GrantUnchanged(entries: map<StreamId, Fields>, g: Group, ids: seq<StreamId>, a: ClaimArgs,
                                          now: Time, hints: seq<Bytes>, x: StreamId)
    requires Exclusive(g) && x !in ids
    ensures Grants(entries, ClaimAll(entries, g, ids, a, now, hints), x, a, now) <==> Grants(entries, g, x, a, now)
  {
    var g' := ClaimAll(entries, g, ids, a, now, hints);
    assert Exclusive(g') by { ClaimEffect(entries, g, ids, a, now, hints); }
    if x in PendingIds(g) {
      var c :| Holds(g, c, x);
      ClaimOwner(entries, g, ids, a, now, hints, c, x);
    } else {
      ClaimCreates(entries, g, ids, a, now, hints, x);
    }
  }

  /** With each id named once, the reply lists in order exactly the ids granted by the group as it was. */
  lemma {:induction false} ClaimReplyIsGranted(entries: map<StreamId, Fields>, g: Group, ids: seq<StreamId>,
                                               a: ClaimArgs, now: Time, hints: seq<Bytes>)
    requires Exclusive(g) && Distinct(ids)
    ensures ClaimReply(entries, g, ids, a, now, hints) == Granted(entries, g, ids, a, now)
  {
    if ids != [] {
      var n := |ids| - 1;
      var mid := ClaimAll(entries, g, ids[..n], a, now, hints);
      SplitIds(ids, ids[n]);
      ClaimReplyIsGranted(entries, g, ids[..n], a, now, hints);
      assert Exclusive(mid) by { ClaimEffect(entries, g, ids[..n], a, now, hints); }
      GrantUnchanged(entries, g, ids[..n], a, now, hints, ids[n]);
      GrantsIsKind(entries, mid, ids[n], a, now, HintAt(hints, n));
    }
  }

  /** The ids of a list that satisfy `p`, in order. */
  ghost function Selected(ids: seq<StreamId>, p: StreamId -> bool): seq<StreamId> {
    if ids == [] then []
    else
      var last := ids[|ids| - 1];
      Selected(ids[..|ids| - 1], p) + (if p(last) then [last] else [])
  }

  /**
   With JUSTID every granted id and no fields, without it exactly the granted ids still in the stream, each with its
   stored fields; in the order named.
   */
  ghost predicate TellsGranted(entries: map<StreamId, Fields>, g: Group, ids: seq<StreamId>, a: ClaimArgs, now: Time,
                               reply: seq<ClaimedItem>) {
    var told := Selected(ids, id => Grants(entries, g, id, a, now) && (a.justId || id in entries));
    && |reply| == |told|
    && forall i :: 0 <= i < |told| ==>
         && reply[i].id == told[i]
         && (a.justId ==> reply[i].fields == None)
         && (!a.justId ==> told[i] in entries && reply[i].fields == Some(entries[told[i]]))
  }

  /** What XCLAIM tells, each id named once. */
  lemma {:induction false} ClaimReplyMeaning(entries: map<StreamId, Fields>, g: Group, ids: seq<StreamId>,
                                             a: ClaimArgs, now: Time, hints: seq<Bytes>)
    requires Exclusive(g) && Distinct(ids)
    ensures TellsGranted(entries, g, ids, a, now, ClaimReply(entries, g, ids, a, now, hints))
  {
    ClaimReplyIsGranted(entries, g, ids, a, now, hints);
    GrantedMeaning(entries, g, ids, a, now);
  }

  lemma {:induction false} GrantedMeaning(entries: map<StreamId, Fields>, g: Group, ids: seq<StreamId>, a: ClaimArgs,
                                          now: Time)
    ensures TellsGranted(entries, g, ids, a, now, Granted(entries, g, ids, a, now))
  {
    if ids != [] {
      GrantedMeaning(entries, g, ids[..|ids| - 1], a, now);
    }
  }

  /**
   XCLAIM keeps the group invariant exactly when FORCE names no undelivered, unowned entry of
   the stream (nor 0-0): the guard a caller can check beforehand.
   */
  lemma {:induction false} ClaimKeepsIff(entries: map<StreamId, Fields>, g: Group, ids: seq<StreamId>, a: ClaimArgs,
                                         now: Time, hints: seq<Bytes>)
    requires GroupInv(g)
    ensures GroupInv(ClaimAll(entries, g, ids, a, now, hints)) <==> ForceWithin(entries, g, ids, a)
  {
    ClaimEffect(entries, g, ids, a, now, hints);
    ClaimPending(entries, g, ids, a, now, hints);
    var g' := ClaimAll(entries, g, ids, a, now, hints);
    PendingBounds(g);
    PendingBounds(g');
    if !ForceWithin(entries, g, ids, a) {
      var id :| a.force && id in ids && id in entries && id !in PendingIds(g)
                && !(IdLess(ZERO_ID, id) && IdLeq(id, g.lastDelivered));
      assert id in Creatable(entries, g, ids, a) && id in PendingIds(g');
    }
  }

  /**
   Why the guard matters: an entry pending above the cursor and still in the stream is handed
   out again, so another consumer that reads without a count shares it.
   */
  lemma {:induction false} AboveCursorIsShared(entries: map<StreamId, Fields>, g: Group, owner: Bytes, id: StreamId,
                                               reader: Bytes, now: Time)
    requires Holds(g, owner, id) && reader != owner
    requires id in entries && IdLess(g.lastDelivered, id)
    ensures !Exclusive(Delivered(g, NewIds(entries, g, None), reader, now))
  {
    var ids := NewIds(entries, g, None);
    assert id in ids;
    var g' := Delivered(g, ids, reader, now);
    assert Holds(g', owner, id) && Holds(g', reader, id);
  }
}
