/**
 XAUTOCLAIM: one page takes over the oldest idle pending entries and returns a cursor;
 following the cursor is a scan of the whole group.
 */
module Autoclaim {
  import opened Prelude
  import opened Ordering
  import opened Values
  import opened Groups

  /** A pending entry found by the collection pass, with the consumer it was found at. */
  datatype Candidate = Candidate(id: StreamId, owner: Bytes)

  predicate Qualifies(g: Group, x: Candidate, start: StreamId, minIdle: Time, now: Time) {
    Holds(g, x.owner, x.id) && IdLeq(start, x.id) && IdleFor(g.consumers[x.owner][x.id], now) >= minIdle
  }

  function Candidates(g: Group, start: StreamId, minIdle: Time, now: Time): (r: set<Candidate>)
    ensures forall x :: x in r <==> Qualifies(g, x, start, minIdle, now)
  {
    var all := set c, id | c in g.consumers && id in g.consumers[c] :: Candidate(id, c);
    assert forall c, id :: c in g.consumers && id in g.consumers[c] ==> Candidate(id, c) in all;
    var r := set x | x in all && Qualifies(g, x, start, minIdle, now);
    assert forall x: Candidate :: Holds(g, x.owner, x.id) ==> x == Candidate(x.id, x.owner) && x in all;
    r
  }

  /** Position of a consumer in the HashMap's iteration order. */
  function Rank(order: seq<Bytes>, c: Bytes): nat {
    if order == [] || order[0] == c then 0 else 1 + Rank(order[1..], c)
  }

  /** The stable sort by id of entries collected in iteration order. */
  predicate CandidateLess(order: seq<Bytes>, a: Candidate, b: Candidate) {
    IdLess(a.id, b.id) ||
    (a.id == b.id &&
     (Rank(order, a.owner) < Rank(order, b.owner) ||
      (Rank(order, a.owner) == Rank(order, b.owner) && BytesLess(a.owner, b.owner))))
  }

  function CandidateOrder(order: seq<Bytes>): (Candidate, Candidate) -> bool {
    (a, b) => CandidateLess(order, a, b)
  }

  lemma {:induction false} CandidateOrderStrict(order: seq<Bytes>)
    ensures StrictOrder(CandidateOrder(order))
  {
    var lt := CandidateOrder(order);
    forall x: Candidate ensures !lt(x, x) {
      BytesIrreflexive(x.owner);
    }
    forall x: Candidate, y: Candidate ensures x == y || lt(x, y) || lt(y, x) {
      BytesTotal(x.owner, y.owner);
    }
    forall x: Candidate, y: Candidate, z: Candidate | lt(x, y) && lt(y, z) ensures lt(x, z) {
      if BytesLess(x.owner, y.owner) && BytesLess(y.owner, z.owner) {
        BytesTransitive(x.owner, y.owner, z.owner);
      }
    }
  }

  function SortedCandidates(s: set<Candidate>, order: seq<Bytes>): (r: seq<Candidate>)
    ensures Ascending(r, CandidateOrder(order)) && |r| == |s|
    ensures forall x :: x in r <==> x in s
  {
    CandidateOrderStrict(order);
    var r := Sorted(s, CandidateOrder(order));
    assert forall x :: x in r <==> x in Elems(r);
    r
  }

  // ----- one page -----

  /** Takes one candidate over; its delivery count is the one seen by the collection pass. */
  function Transfer(g0: Group, g: Group, x: Candidate, target: Bytes, now: Time): Group
    requires Holds(g0, x.owner, x.id) && x.owner in g.consumers
  {
    Moved(g, x.id, x.owner, target, Pending(now, Succ64(g0.consumers[x.owner][x.id].deliveryCount)))
  }

  function TransferAll(g: Group, xs: seq<Candidate>, target: Bytes, now: Time): (r: Group)
    requires forall x :: x in xs ==> Holds(g, x.owner, x.id)
    ensures g.consumers.Keys <= r.consumers.Keys && r.lastDelivered == g.lastDelivered
  {
    if xs == [] then g
    else
      assert xs[|xs| - 1] in xs;
      Transfer(g, TransferAll(g, xs[..|xs| - 1], target, now), xs[|xs| - 1], target, now)
  }

  datatype Page = Page(group: Group, next: StreamId, taken: seq<Candidate>)

  function AutoPage(g: Group, target: Bytes, minIdle: Time, start: StreamId, count: Option<nat>, now: Time,
                    order: seq<Bytes>): Page {
    var all := SortedCandidates(Candidates(g, start, minIdle, now), order);
    var taken := Take(all, count);
    assert forall x :: x in taken ==> x in all;
    Page(TransferAll(g, taken, target, now), if |taken| < |all| then all[|taken|].id else ZERO_ID, taken)
  }

  function IdsOf(xs: seq<Candidate>): (r: seq<StreamId>)
    ensures |r| == |xs|
    ensures forall i :: 0 <= i < |xs| ==> r[i] == xs[i].id
  {
    seq(|xs|, i requires 0 <= i < |xs| => xs[i].id)
  }

  /** The reply lists the claimed entries that still exist ... */
  function ClaimedEntries(entries: map<StreamId, Fields>, ids: seq<StreamId>): seq<(StreamId, Fields)> {
    if ids == [] then []
    else
      var last := ids[|ids| - 1];
      ClaimedEntries(entries, ids[..|ids| - 1]) + (if last in entries then [(last, entries[last])] else [])
  }

  /** ... and, apart, the ids whose entries were deleted from the stream. */
  function DeletedIds(entries: map<StreamId, Fields>, ids: seq<StreamId>): seq<StreamId> {
    if ids == [] then []
    else
      var last := ids[|ids| - 1];
      DeletedIds(entries, ids[..|ids| - 1]) + (if last in entries then [] else [last])
  }

  /** With exclusive ownership the collected ids are distinct, whatever the iteration order. */
  lemma {:induction false} CandidateIdsAscend(g: Group, xs: seq<Candidate>, order: seq<Bytes>)
    requires Exclusive(g)
    requires Ascending(xs, CandidateOrder(order))
    requires forall x :: x in xs ==> Holds(g, x.owner, x.id)
    ensures Ascending(IdsOf(xs), IdLess)
  {
    forall i, j | 0 <= i < j < |xs| ensures IdLess(IdsOf(xs)[i], IdsOf(xs)[j]) {
      assert CandidateLess(order, xs[i], xs[j]) && xs[i] in xs && xs[j] in xs;
      BytesIrreflexive(xs[i].owner);
    }
  }

  /** Everything a sequence of transfers does to a group with exclusive ownership. */
  ghost predicate TransferEffect(g: Group, g': Group, ids: seq<StreamId>, target: Bytes, now: Time) {
    && Exclusive(g')
    && g'.lastDelivered == g.lastDelivered
    && PendingIds(g') == PendingIds(g)
    && (forall c, id :: id !in ids ==> (Holds(g', c, id) <==> Holds(g, c, id)))
    && (forall c, id :: id !in ids && Holds(g, c, id) ==> g'.consumers[c][id] == g.consumers[c][id])
    && (forall c, id :: id in ids && Holds(g, c, id) ==>
          Holds(g', target, id) && g'.consumers[target][id] == Pending(now, Succ64(g.consumers[c][id].deliveryCount)))
  }

  lemma {:induction false} OneTransfer(g: Group, id: StreamId, owner: Bytes, target: Bytes, now: Time)
    requires Exclusive(g) && Holds(g, owner, id)
    ensures TransferEffect(g, Moved(g, id, owner, target, Pending(now, Succ64(g.consumers[owner][id].deliveryCount))),
            [id], target, now)
  {
    MovedHolds(g, id, owner, target, Pending(now, Succ64(g.consumers[owner][id].deliveryCount)));
  }

  lemma {:induction false} TransfersCompose(g: Group, mid: Group, g': Group, ids: seq<StreamId>, id: StreamId,
                                            target: Bytes, now: Time)
    requires TransferEffect(g, mid, ids, target, now) && TransferEffect(mid, g', [id], target, now)
    requires id !in ids
    ensures TransferEffect(g, g', ids + [id], target, now)
  {
  }

  lemma {:induction false} IdsOfSnoc(xs: seq<Candidate>)
    requires xs != [] && Ascending(IdsOf(xs), IdLess)
    ensures IdsOf(xs) == IdsOf(xs[..|xs| - 1]) + [xs[|xs| - 1].id]
    ensures Ascending(IdsOf(xs[..|xs| - 1]), IdLess)
    ensures xs[|xs| - 1].id !in IdsOf(xs[..|xs| - 1])
  {
  }

  lemma {:induction false} TransfersKeep(g: Group, xs: seq<Candidate>, target: Bytes, now: Time)
    requires Exclusive(g)
    requires forall x :: x in xs ==> Holds(g, x.owner, x.id)
    requires Ascending(IdsOf(xs), IdLess)
    ensures TransferEffect(g, TransferAll(g, xs, target, now), IdsOf(xs), target, now)
  {
    if xs != [] {
      var init := xs[..|xs| - 1];
      var x := xs[|xs| - 1];
      IdsOfSnoc(xs);
      var ids := IdsOf(init);
      TransfersKeep(g, init, target, now);
      assert Holds(g, x.owner, x.id) by { assert x in xs; }
      var mid := TransferAll(g, init, target, now);
      assert Holds(mid, x.owner, x.id);
      OneTransfer(mid, x.id, x.owner, target, now);
      TransfersCompose(g, mid, TransferAll(g, xs, target, now), ids, x.id, target, now);
    }
  }

  /** What a page takes and where its cursor points, for a group that satisfies the invariant. */
  ghost predicate PageCovers(g: Group, p: Page, minIdle: Time, start: StreamId, now: Time) {
    && Ascending(IdsOf(p.taken), IdLess)
    && (forall x :: x in p.taken ==> Qualifies(g, x, start, minIdle, now))
    && (forall x :: Qualifies(g, x, start, minIdle, now) ==> x in p.taken || (p.next != ZERO_ID && IdLeq(p.next, x.id)))
    && (p.next != ZERO_ID ==>
          p.next in PendingIds(g) && IdLeq(start, p.next) && forall x :: x in p.taken ==> IdLess(x.id, p.next))
  }

  lemma {:induction false} PrefixCovers(g: Group, all: seq<Candidate>, n: nat, p: Page, minIdle: Time, start: StreamId,
                                        now: Time)
    requires n <= |all| && p.taken == all[..n]
    requires p.next == if n < |all| then all[n].id else ZERO_ID
    requires Ascending(IdsOf(all), IdLess)
    requires forall x :: x in all <==> Qualifies(g, x, start, minIdle, now)
    requires ZERO_ID !in PendingIds(g)
    ensures PageCovers(g, p, minIdle, start, now)
  {
    PrefixIds(all, n);
    forall x | x in p.taken
      ensures Qualifies(g, x, start, minIdle, now) && (n < |all| ==> IdLess(x.id, all[n].id)) {
      var i :| 0 <= i < n && all[i] == x;
      assert x in all;
      assert n < |all| ==> IdLess(IdsOf(all)[i], IdsOf(all)[n]);
    }
    if n < |all| {
      assert all[n] in all && Holds(g, all[n].owner, all[n].id);
    }
    forall x | Qualifies(g, x, start, minIdle, now) ensures x in p.taken || (n < |all| && IdLeq(all[n].id, x.id)) {
      assert x in all;
      var i :| 0 <= i < |all| && all[i] == x;
      if i < n {
        assert p.taken[i] == x;
      } else if n < i {
        assert IdLess(IdsOf(all)[n], IdsOf(all)[i]);
      }
    }
  }

  lemma {:induction false} PrefixIds(all: seq<Candidate>, n: nat)
    requires n <= |all| && Ascending(IdsOf(all), IdLess)
    ensures Ascending(IdsOf(all[..n]), IdLess)
  {
    forall i, j | 0 <= i < j < n ensures IdLess(IdsOf(all[..n])[i], IdsOf(all[..n])[j]) {
      assert IdsOf(all[..n])[i] == IdsOf(all)[i] && IdsOf(all[..n])[j] == IdsOf(all)[j];
    }
  }

  /** One page: it covers everything below its cursor and moves exactly what it takes. */
  lemma {:induction false} PageEffect(g: Group, target: Bytes, minIdle: Time, start: StreamId, count: Option<nat>,
                                      now: Time, order: seq<Bytes>)
    requires GroupInv(g)
    ensures var p := AutoPage(g, target, minIdle, start, count, now, order);
            && GroupInv(p.group)
            && TransferEffect(g, p.group, IdsOf(p.taken), target, now)
            && (p.next == ZERO_ID <==> |p.taken| == |Candidates(g, start, minIdle, now)|)
            && PageCovers(g, p, minIdle, start, now)
  {
    var p := AutoPage(g, target, minIdle, start, count, now, order);
    var all := SortedCandidates(Candidates(g, start, minIdle, now), order);
    assert forall x :: x in all <==> Qualifies(g, x, start, minIdle, now);
    CandidateIdsAscend(g, all, order);
    var n := |p.taken|;
    assert p.taken == all[..n];
    PendingBounds(g);
    assert n < |all| ==> all[n] in all && Holds(g, all[n].owner, all[n].id) && all[n].id in PendingIds(g);
    PrefixCovers(g, all, n, p, minIdle, start, now);
    TransfersKeep(g, p.taken, target, now);
    PendingBounds(p.group);
  }

  // ----- following the cursor -----

  function AtOrAbove(g: Group, start: StreamId): set<StreamId> {
    set id | id in PendingIds(g) && IdLeq(start, id)
  }

  lemma {:induction false} FewerAbove(g: Group, g': Group, start: StreamId, next: StreamId, id: StreamId)
    requires PendingIds(g') == PendingIds(g)
    requires id in PendingIds(g) && IdLeq(start, id) && IdLess(id, next)
    ensures |AtOrAbove(g', next)| < |AtOrAbove(g, start)|
  {
    var small, big := AtOrAbove(g', next), AtOrAbove(g, start);
    forall x | x in small ensures x in big && x != id {}
    Smaller(small, big, id);
  }

  lemma {:induction false} PageShrinks(g: Group, target: Bytes, minIdle: Time, start: StreamId, count: Option<nat>,
                                       now: Time, order: seq<Bytes>)
    requires GroupInv(g)
    requires count.Some? ==> count.value > 0
    ensures var p := AutoPage(g, target, minIdle, start, count, now, order);
            p.next != ZERO_ID ==> |AtOrAbove(p.group, p.next)| < |AtOrAbove(g, start)|
  {
    PageEffect(g, target, minIdle, start, count, now, order);
    var p := AutoPage(g, target, minIdle, start, count, now, order);
    if p.next != ZERO_ID {
      assert p.taken != [];
      var x := p.taken[0];
      assert x in p.taken && Holds(g, x.owner, x.id) && x.id in PendingIds(g);
      FewerAbove(g, p.group, start, p.next, x.id);
    }
  }

  lemma {:induction false} Smaller<T>(small: set<T>, big: set<T>, x: T)
    requires x in big && small <= big - {x}
    ensures |small| < |big|
  {
    assert small + (big - small) == big;
    assert x in big - small;
  }

  /**
   The whole scan: call XAUTOCLAIM with the returned cursor until it is (0,0). Call `i` happens at
   `clock(i)` and sees HashMap order `orders(i)`. Returns the final group and the ids claimed, in order.
   */
  ghost function Scan(g: Group, target: Bytes, minIdle: Time, start: StreamId, count: Option<nat>,
                      clock: nat -> Time, orders: nat -> seq<Bytes>, i: nat): (Group, seq<StreamId>)
    requires GroupInv(g)
    requires count.Some? ==> count.value > 0
    decreases |AtOrAbove(g, start)|
  {
    var p := AutoPage(g, target, minIdle, start, count, clock(i), orders(i));
    PageEffect(g, target, minIdle, start, count, clock(i), orders(i));
    PageShrinks(g, target, minIdle, start, count, clock(i), orders(i));
    if p.next == ZERO_ID then (p.group, IdsOf(p.taken))
    else
      var (g', ids) := Scan(p.group, target, minIdle, p.next, count, clock, orders, i + 1);
      (g', IdsOf(p.taken) + ids)
  }

  ghost predicate Monotone(clock: nat -> Time) {
    forall i, j :: i <= j ==> clock(i) <= clock(j)
  }

  /** The original entry of `id`, which the scan must have found idle long enough at some call. */
  ghost predicate WasIdle(g: Group, id: StreamId, minIdle: Time, clock: nat -> Time, i: nat) {
    exists c, k :: i <= k && Holds(g, c, id) && IdleFor(g.consumers[c][id], clock(k)) >= minIdle
  }

  ghost predicate ScanResult(g: Group, g': Group, ids: seq<StreamId>, target: Bytes, minIdle: Time, start: StreamId,
                             clock: nat -> Time, i: nat) {
    && GroupInv(g')
    && g'.lastDelivered == g.lastDelivered
    && PendingIds(g') == PendingIds(g)
    && Ascending(ids, IdLess)
    && (forall id :: id in ids ==>
          id in PendingIds(g) && IdLeq(start, id) && Holds(g', target, id) && WasIdle(g, id, minIdle, clock, i))
    && (forall x :: Qualifies(g, x, start, minIdle, clock(i)) ==> x.id in ids)
    && (forall c, id :: id in ids && Holds(g, c, id) ==>
          Holds(g', target, id) && g'.consumers[target][id].deliveryCount == Succ64(g.consumers[c][id].deliveryCount))
    && (forall c, id :: id !in ids ==> (Holds(g', c, id) <==> Holds(g, c, id)))
    && (forall c, id :: id !in ids && Holds(g, c, id) ==> g'.consumers[c][id] == g.consumers[c][id])
  }

  /** One page alone meets the result of the whole scan when its cursor is (0,0). */
  lemma {:induction false} LastPage(g: Group, p: Page, target: Bytes, minIdle: Time, start: StreamId,
                                    clock: nat -> Time, i: nat)
    requires GroupInv(g) && GroupInv(p.group)
    requires TransferEffect(g, p.group, IdsOf(p.taken), target, clock(i))
    requires PageCovers(g, p, minIdle, start, clock(i)) && p.next == ZERO_ID
    ensures ScanResult(g, p.group, IdsOf(p.taken), target, minIdle, start, clock, i)
  {
  }

  lemma {:induction false} TakenIds(g: Group, p: Page, minIdle: Time, start: StreamId, clock: nat -> Time, i: nat)
    requires PageCovers(g, p, minIdle, start, clock(i))
    ensures forall id :: id in IdsOf(p.taken) ==>
                         id in PendingIds(g) && IdLeq(start, id) && WasIdle(g, id, minIdle, clock, i)
    ensures forall id :: id in IdsOf(p.taken) && p.next != ZERO_ID ==> IdLess(id, p.next)
    ensures forall x :: x in p.taken ==> x.id in IdsOf(p.taken)
  {
  }

  /** What qualified at a page and was not taken still qualifies at the next one. */
  lemma {:induction false} StillQualifies(g: Group, p: Page, x: Candidate, target: Bytes, minIdle: Time,
                                          start: StreamId, now: Time, later: Time)
    requires GroupInv(g) && now <= later
    requires TransferEffect(g, p.group, IdsOf(p.taken), target, now)
    requires PageCovers(g, p, minIdle, start, now) && p.next != ZERO_ID
    requires Qualifies(g, x, start, minIdle, now) && x.id !in IdsOf(p.taken)
    ensures Qualifies(p.group, x, p.next, minIdle, later)
  {
  }

  /** A page followed by a scan from its cursor is a scan: coverage and order. */
  lemma {:induction false} PageThenScan(g: Group, p: Page, g': Group, ids: seq<StreamId>, target: Bytes, minIdle: Time,
                                        start: StreamId, clock: nat -> Time, i: nat)
    requires GroupInv(g) && Monotone(clock)
    requires TransferEffect(g, p.group, IdsOf(p.taken), target, clock(i))
    requires PageCovers(g, p, minIdle, start, clock(i)) && p.next != ZERO_ID
    requires ScanResult(p.group, g', ids, target, minIdle, p.next, clock, i + 1)
    ensures Ascending(IdsOf(p.taken) + ids, IdLess)
    ensures forall id :: id in IdsOf(p.taken) ==> id !in ids
    ensures forall x :: Qualifies(g, x, start, minIdle, clock(i)) ==> x.id in IdsOf(p.taken) + ids
  {
    var first := IdsOf(p.taken);
    TakenIds(g, p, minIdle, start, clock, i);
    AscendingConcat(first, ids, IdLess);
    assert clock(i) <= clock(i + 1);
    forall x | Qualifies(g, x, start, minIdle, clock(i)) ensures x.id in first + ids {
      if x.id !in first {
        StillQualifies(g, p, x, target, minIdle, start, clock(i), clock(i + 1));
      }
    }
  }

  /** ... origin ... */
  lemma {:induction false} PageThenScanOrigin(g: Group, p: Page, g': Group, ids: seq<StreamId>, target: Bytes,
                                              minIdle: Time, start: StreamId, clock: nat -> Time, i: nat)
    requires TransferEffect(g, p.group, IdsOf(p.taken), target, clock(i))
    requires IdLeq(start, p.next)
    requires ScanResult(p.group, g', ids, target, minIdle, p.next, clock, i + 1)
    requires forall id :: id in IdsOf(p.taken) ==> id !in ids
    ensures forall id :: id in ids ==> id in PendingIds(g) && IdLeq(start, id) && WasIdle(g, id, minIdle, clock, i)
  {
  }

  /** ... and ownership. */
  lemma {:induction false} PageThenScanOwners(g: Group, mid: Group, g': Group, first: seq<StreamId>, ids: seq<StreamId>,
                                              target: Bytes, now: Time)
    requires TransferEffect(g, mid, first, target, now)
    requires forall id :: id in first ==> id !in ids
    requires forall c, id :: id in ids && Holds(mid, c, id) ==>
               Holds(g', target, id) && g'.consumers[target][id].deliveryCount ==
                 Succ64(mid.consumers[c][id].deliveryCount)
    requires forall c, id :: id !in ids ==> (Holds(g', c, id) <==> Holds(mid, c, id))
    requires forall c, id :: id !in ids && Holds(mid, c, id) ==>
             Holds(g', c, id) && g'.consumers[c][id] == mid.consumers[c][id]
    ensures forall c, id :: id in first + ids && Holds(g, c, id) ==>
               Holds(g', target, id) && g'.consumers[target][id].deliveryCount ==
                 Succ64(g.consumers[c][id].deliveryCount)
    ensures forall c, id :: id !in first + ids ==> (Holds(g', c, id) <==> Holds(g, c, id))
    ensures forall c, id :: id !in first + ids && Holds(g, c, id) ==>
            Holds(g', c, id) && g'.consumers[c][id] == g.consumers[c][id]
  {
  }

  /**
   Following the cursor claims every entry that was idle long enough at the first call exactly once, in
   ascending order, claims nothing that was not idle long enough at some call, leaves the set of pending
   ids as it was, and touches no other entry; the end marker is never a pending id. It holds for every count of
   at least one, every HashMap order and every clock that does not run backwards.
   */
  lemma {:induction false} ScanClaimsEachOnce(g: Group, target: Bytes, minIdle: Time, start: StreamId,
                                              count: Option<nat>, 
                                              clock: nat -> Time, orders: nat -> seq<Bytes>, i: nat)
    requires GroupInv(g) && Monotone(clock)
    requires count.Some? ==> count.value > 0
    ensures var (g', ids) := Scan(g, target, minIdle, start, count, clock, orders, i);
            ZERO_ID !in PendingIds(g) && ScanResult(g, g', ids, target, minIdle, start, clock, i)
    decreases |AtOrAbove(g, start)|
  {
    var p := AutoPage(g, target, minIdle, start, count, clock(i), orders(i));
    PageEffect(g, target, minIdle, start, count, clock(i), orders(i));
    PageShrinks(g, target, minIdle, start, count, clock(i), orders(i));
    if p.next == ZERO_ID {
      LastPage(g, p, target, minIdle, start, clock, i);
    } else {
      ScanClaimsEachOnce(p.group, target, minIdle, p.next, count, clock, orders, i + 1);
      var (g', ids) := Scan(p.group, target, minIdle, p.next, count, clock, orders, i + 1);
      PageThenScan(g, p, g', ids, target, minIdle, start, clock, i);
      PageThenScanOrigin(g, p, g', ids, target, minIdle, start, clock, i);
      PageThenScanOwners(g, p.group, g', IdsOf(p.taken), ids, target, clock(i));
      TakenIds(g, p, minIdle, start, clock, i);
      ScanOwned(g, g', IdsOf(p.taken) + ids, target);
    }
  }

  lemma {:induction false} ScanOwned(g: Group, g': Group, ids: seq<StreamId>, target: Bytes)
    requires forall id :: id in ids ==> id in PendingIds(g)
    requires forall c, id :: id in ids && Holds(g, c, id) ==> Holds(g', target, id)
    ensures forall id :: id in ids ==> Holds(g', target, id)
  {
  }

  /** With the clock standing still the scan claims exactly the qualifying ids. */
  lemma {:induction false} ScanAtOneInstant(g: Group, target: Bytes, minIdle: Time, start: StreamId, count: Option<nat>,
                                            clock: nat -> Time, orders: nat -> seq<Bytes>)
    requires GroupInv(g)
    requires count.Some? ==> count.value > 0
    requires forall i :: clock(i) == clock(0)
    ensures Scan(g, target, minIdle, start, count, clock, orders, 0).1 ==
            SortedIds(set x | x in Candidates(g, start, minIdle, clock(0)) :: x.id)
  {
    ScanClaimsEachOnce(g, target, minIdle, start, count, clock, orders, 0);
    var (g', ids) := Scan(g, target, minIdle, start, count, clock, orders, 0);
    InstantIds(g, g', ids, target, minIdle, start, clock);
  }

  lemma {:induction false} InstantIds(g: Group, g': Group, ids: seq<StreamId>, target: Bytes, minIdle: Time,
                                      start: StreamId, clock: nat -> Time)
    requires ScanResult(g, g', ids, target, minIdle, start, clock, 0)
    requires forall i :: clock(i) == clock(0)
    ensures ids == SortedIds(set x | x in Candidates(g, start, minIdle, clock(0)) :: x.id)
  {
    var want := set x | x in Candidates(g, start, minIdle, clock(0)) :: x.id;
    forall id | id in ids ensures id in want {
      assert WasIdle(g, id, minIdle, clock, 0);
      var c, k :| 0 <= k && Holds(g, c, id) && IdleFor(g.consumers[c][id], clock(k)) >= minIdle;
      var x := Candidate(id, c);
      assert Qualifies(g, x, start, minIdle, clock(0));
      assert x in Candidates(g, start, minIdle, clock(0));
    }
    IdOrder();
    AscendingUnique(ids, SortedIds(want), IdLess);
  }

  // ----- when following the cursor ends -----

  /** The returned cursor is (0,0) after at most `n` calls. */
  ghost predicate EndsWithin(g: Group, target: Bytes, minIdle: Time, start: StreamId, count: Option<nat>,
                             clock: nat -> Time, orders: nat -> seq<Bytes>, i: nat, n: nat)
    decreases n
  {
    && n > 0
    && var p := AutoPage(g, target, minIdle, start, count, clock(i), orders(i));
       p.next == ZERO_ID || EndsWithin(p.group, target, minIdle, p.next, count, clock, orders, i + 1, n - 1)
  }

  /** With COUNT 0 a page takes nothing, and its cursor is a candidate that will still be one at the next call. */
  lemma {:induction false} EmptyPage(g: Group, target: Bytes, minIdle: Time, start: StreamId, now: Time, later: Time,
                                     order: seq<Bytes>)
    requires now <= later && Bounded(g) && Candidates(g, start, minIdle, now) != {}
    ensures var p := AutoPage(g, target, minIdle, start, Some(0), now, order);
            && p.group == g && p.taken == [] && p.next != ZERO_ID
            && Candidates(g, p.next, minIdle, later) != {}
  {
    var all := SortedCandidates(Candidates(g, start, minIdle, now), order);
    var x := all[0];
    assert x in all && Qualifies(g, x, start, minIdle, now);
    assert Qualifies(g, x, x.id, minIdle, later);
    assert x in Candidates(g, x.id, minIdle, later);
  }

  /** A count of zero with something to claim: following the cursor never ends, however late the calls. */
  lemma {:induction false} ZeroCountStalls(g: Group, target: Bytes, minIdle: Time, start: StreamId,
                                           clock: nat -> Time, orders: nat -> seq<Bytes>, i: nat, n: nat)
    requires Bounded(g) && Monotone(clock)
    requires Candidates(g, start, minIdle, clock(i)) != {}
    ensures !EndsWithin(g, target, minIdle, start, Some(0), clock, orders, i, n)
    decreases n
  {
    if n > 0 {
      assert clock(i) <= clock(i + 1);
      EmptyPage(g, target, minIdle, start, clock(i), clock(i + 1), orders(i));
      var p := AutoPage(g, target, minIdle, start, Some(0), clock(i), orders(i));
      ZeroCountStalls(g, target, minIdle, p.next, clock, orders, i + 1, n - 1);
    }
  }

  lemma {:induction false} PositiveCountEnds(g: Group, target: Bytes, minIdle: Time, start: StreamId,
                                             count: Option<nat>, clock: nat -> Time, orders: nat -> seq<Bytes>, i: nat)
    returns (n: nat)
    requires GroupInv(g) && (count.Some? ==> count.value > 0)
    ensures EndsWithin(g, target, minIdle, start, count, clock, orders, i, n)
    decreases |AtOrAbove(g, start)|
  {
    var p := AutoPage(g, target, minIdle, start, count, clock(i), orders(i));
    PageEffect(g, target, minIdle, start, count, clock(i), orders(i));
    PageShrinks(g, target, minIdle, start, count, clock(i), orders(i));
    n := 1;
    if p.next != ZERO_ID {
      var m := PositiveCountEnds(p.group, target, minIdle, p.next, count, clock, orders, i + 1);
      n := m + 1;
    }
  }

  lemma {:induction false} NothingToClaim(g: Group, target: Bytes, minIdle: Time, start: StreamId,
                                          count: Option<nat>, clock: nat -> Time, orders: nat -> seq<Bytes>, i: nat)
    returns (n: nat)
    requires Candidates(g, start, minIdle, clock(i)) == {}
    ensures EndsWithin(g, target, minIdle, start, count, clock, orders, i, n)
  {
    n := 1;
  }

  /** The scan ends if and only if the count is not zero or there is nothing to claim at the first call. */
  lemma {:induction false} ScanEndsIff(g: Group, target: Bytes, minIdle: Time, start: StreamId, count: Option<nat>,
                                       clock: nat -> Time, orders: nat -> seq<Bytes>, i: nat)
    requires GroupInv(g) && Monotone(clock)
    ensures (exists n :: EndsWithin(g, target, minIdle, start, count, clock, orders, i, n)) <==>
            (count != Some(0) || Candidates(g, start, minIdle, clock(i)) == {})
  {
    if count != Some(0) {
      var n := PositiveCountEnds(g, target, minIdle, start, count, clock, orders, i);
      assert exists m :: EndsWithin(g, target, minIdle, start, count, clock, orders, i, m);
    } else if Candidates(g, start, minIdle, clock(i)) == {} {
      var n := NothingToClaim(g, target, minIdle, start, count, clock, orders, i);
      assert exists m :: EndsWithin(g, target, minIdle, start, count, clock, orders, i, m);
    } else {
      forall n: nat ensures !EndsWithin(g, target, minIdle, start, count, clock, orders, i, n) {
        ZeroCountStalls(g, target, minIdle, start, clock, orders, i, n);
      }
    }
  }
}
