/** XAUTOCLAIM as commands: a client that calls it with the cursor of the last reply until that is 0-0. */
module Paging {
  import opened Prelude
  import opened Ordering
  import opened Values
  import opened Groups
  import opened Autoclaim
  import opened Commands
  import opened Expiry
  import Reachable
  import Streams

  /** The key holds a stream with the group, and is live at call `i` and at every later one. */
  ghost predicate Ready(ks: Keyspace, key: Bytes, group: Bytes, clock: nat -> Time, i: nat) {
    && key in ks && ks[key].value.Log? && group in ks[key].value.stream.groups
    && forall j :: i <= j ==> !Expired(ks[key], clock(j))
  }

  function StreamOf(ks: Keyspace, key: Bytes): Stream
    requires key in ks && ks[key].value.Log?
  {
    ks[key].value.stream
  }

  /** The keyspace with one group replaced. */
  function WithGroupAt(ks: Keyspace, key: Bytes, group: Bytes, g: Group): Keyspace
    requires key in ks && ks[key].value.Log?
  {
    ks[key := ks[key].(value := Log(Streams.WithGroup(ks[key].value.stream, group, g)))]
  }

  ghost function Call(ks: Keyspace, now: Time, key: Bytes, group: Bytes, target: Bytes, minIdle: Time, start: StreamId,
                      count: Option<nat>, order: seq<Bytes>): (Keyspace, Reply) {
    Exec(ks, now, One(key, OnStream(XAutoclaim(group, target, minIdle, start, count, order))))
  }

  /** One call is one page, and its reply tells the cursor, the entries claimed and the ids whose entries are gone. */
  lemma {:induction false} CallIsPage(ks: Keyspace, now: Time, key: Bytes, group: Bytes, target: Bytes, minIdle: Time,
                                      start: StreamId, count: Option<nat>, order: seq<Bytes>)
    requires key in ks && ks[key].value.Log? && group in ks[key].value.stream.groups && !Expired(ks[key], now)
    ensures var s := StreamOf(ks, key);
            var p := AutoPage(s.groups[group], target, minIdle, start, count, now, order);
            Call(ks, now, key, group, target, minIdle, start, count, order) ==
            (WithGroupAt(ks, key, group, p.group),
             AutoClaimed(p.next, ClaimedEntries(s.entries, IdsOf(p.taken)), DeletedIds(s.entries, IdsOf(p.taken))))
  {
    var op := XAutoclaim(group, target, minIdle, start, count, order);
    var s := StreamOf(ks, key);
    StreamCall(ks, now, key, op);
    Reachable.WritesBack(op, s, now);
    PageReply(op, s, now);
  }

  lemma {:induction false} StreamCall(ks: Keyspace, now: Time, key: Bytes, op: StreamOp)
    requires key in ks && ks[key].value.Log? && !Expired(ks[key], now) && op.XAutoclaim?
    ensures var r := ApplyStreamValue(op, StreamOf(ks, key), now);
            Exec(ks, now, One(key, OnStream(op))) == (ks[key := ks[key].(value := Log(r.0))], r.1)
  {
  }

  lemma {:induction false} PageReply(op: StreamOp, s: Stream, now: Time)
    requires op.XAutoclaim? && op.group in s.groups
    ensures var p := AutoPage(s.groups[op.group], op.target, op.minIdle, op.start, op.count, now, op.order);
            && ApplyGroup(op, s, s.groups[op.group], now).0 == p.group
            && ApplyStreamValue(op, s, now).1 ==
               AutoClaimed(p.next, ClaimedEntries(s.entries, IdsOf(p.taken)), DeletedIds(s.entries, IdsOf(p.taken)))
  {
    GroupReply(op, s, s.groups[op.group], now);
    assert ApplyStreamValue(op, s, now).1 == ApplyGroup(op, s, s.groups[op.group], now).1;
  }

  lemma {:induction false} GroupReply(op: StreamOp, s: Stream, g: Group, now: Time)
    requires op.XAutoclaim?
    ensures var p := AutoPage(g, op.target, op.minIdle, op.start, op.count, now, op.order);
            ApplyGroup(op, s, g, now) ==
            (p.group,
             AutoClaimed(p.next, ClaimedEntries(s.entries, IdsOf(p.taken)), DeletedIds(s.entries, IdsOf(p.taken))))
  {
  }

  /** What one call leaves for the next. */
  lemma {:induction false} CallStep(ks: Keyspace, key: Bytes, group: Bytes, target: Bytes, minIdle: Time,
                                    start: StreamId, count: Option<nat>, clock: nat -> Time, order: seq<Bytes>, i: nat)
    requires Ready(ks, key, group, clock, i) && GroupInv(StreamOf(ks, key).groups[group])
    requires count.Some? ==> count.value > 0
    ensures var r := Call(ks, clock(i), key, group, target, minIdle, start, count, order);
            && r.1.AutoClaimed?
            && Ready(r.0, key, group, clock, i + 1) && GroupInv(StreamOf(r.0, key).groups[group])
            && (r.1.next != ZERO_ID ==>
                  |AtOrAbove(StreamOf(r.0, key).groups[group], r.1.next)| <
                  |AtOrAbove(StreamOf(ks, key).groups[group], start)|)
  {
    CallIsPage(ks, clock(i), key, group, target, minIdle, start, count, order);
    PageEffect(StreamOf(ks, key).groups[group], target, minIdle, start, count, clock(i), order);
    PageShrinks(StreamOf(ks, key).groups[group], target, minIdle, start, count, clock(i), order);
  }

  /** Follows the cursor in the replies; returns the keyspace and all entries and deleted ids the replies listed. */
  ghost function Follow(ks: Keyspace, key: Bytes, group: Bytes, target: Bytes, minIdle: Time, start: StreamId,
                        count: Option<nat>, clock: nat -> Time, orders: nat -> seq<Bytes>, i: nat)
    : (Keyspace, seq<(StreamId, Fields)>, seq<StreamId>)
    requires Ready(ks, key, group, clock, i) && GroupInv(StreamOf(ks, key).groups[group])
    requires count.Some? ==> count.value > 0
    decreases |AtOrAbove(StreamOf(ks, key).groups[group], start)|
  {
    CallStep(ks, key, group, target, minIdle, start, count, clock, orders(i), i);
    var r := Call(ks, clock(i), key, group, target, minIdle, start, count, orders(i));
    if r.1.next == ZERO_ID then (r.0, r.1.taken, r.1.deleted)
    else
      var rest := Follow(r.0, key, group, target, minIdle, r.1.next, count, clock, orders, i + 1);
      (rest.0, r.1.taken + rest.1, r.1.deleted + rest.2)
  }

  lemma {:induction false} RepliesConcat(entries: map<StreamId, Fields>, a: seq<StreamId>, b: seq<StreamId>)
    ensures ClaimedEntries(entries, a + b) == ClaimedEntries(entries, a) + ClaimedEntries(entries, b)
    ensures DeletedIds(entries, a + b) == DeletedIds(entries, a) + DeletedIds(entries, b)
    decreases |b|
  {
    if b == [] {
      assert a + b == a;
    } else {
      var init, last := b[..|b| - 1], b[|b| - 1];
      assert (a + b)[..|a + b| - 1] == a + init && (a + b)[|a + b| - 1] == last;
      RepliesConcat(entries, a, init);
    }
  }

  /**
   Paging over commands: the replies, followed to the end, list all claimed ids in order - with their fields where
   the entry still exists, apart where it was deleted - and leave the group as the scan does. So every entry idle
   long enough at the first call is in exactly one of the two lists, once, and no other id is in either.
   */
  lemma {:induction false} FollowIsScan(ks: Keyspace, key: Bytes, group: Bytes, target: Bytes, minIdle: Time,
                                        start: StreamId, count: Option<nat>, clock: nat -> Time,
                                        orders: nat -> seq<Bytes>, i: nat)
    requires Ready(ks, key, group, clock, i) && GroupInv(StreamOf(ks, key).groups[group])
    requires count.Some? ==> count.value > 0
    ensures var s := StreamOf(ks, key);
            var (g', ids) := Scan(s.groups[group], target, minIdle, start, count, clock, orders, i);
            Follow(ks, key, group, target, minIdle, start, count, clock, orders, i) ==
            (WithGroupAt(ks, key, group, g'), ClaimedEntries(s.entries, ids), DeletedIds(s.entries, ids))
    decreases |AtOrAbove(StreamOf(ks, key).groups[group], start)|
  {
    var s := StreamOf(ks, key);
    var g := s.groups[group];
    var p := AutoPage(g, target, minIdle, start, count, clock(i), orders(i));
    CallIsPage(ks, clock(i), key, group, target, minIdle, start, count, orders(i));
    PageEffect(g, target, minIdle, start, count, clock(i), orders(i));
    PageShrinks(g, target, minIdle, start, count, clock(i), orders(i));
    if p.next != ZERO_ID {
      var ks' := WithGroupAt(ks, key, group, p.group);
      FollowIsScan(ks', key, group, target, minIdle, p.next, count, clock, orders, i + 1);
      var (g', ids) := Scan(p.group, target, minIdle, p.next, count, clock, orders, i + 1);
      RepliesConcat(s.entries, IdsOf(p.taken), ids);
      WriteTwice(ks, key, group, p.group, g');
    }
  }

  lemma {:induction false} WriteTwice(ks: Keyspace, key: Bytes, group: Bytes, a: Group, b: Group)
    requires key in ks && ks[key].value.Log?
    ensures WithGroupAt(WithGroupAt(ks, key, group, a), key, group, b) == WithGroupAt(ks, key, group, b)
  {
    var s := ks[key].value.stream;
    assert s.groups[group := a][group := b] == s.groups[group := b];
  }

  /** Which ids the replies list: exactly the claimed ones, stored entries and deleted ids apart, each in order. */
  lemma {:induction false} FollowClaimsEachOnce(ks: Keyspace, key: Bytes, group: Bytes, target: Bytes, minIdle: Time,
                                                start: StreamId, count: Option<nat>, clock: nat -> Time,
                                                orders: nat -> seq<Bytes>, i: nat)
    returns (ids: seq<StreamId>)
    requires Ready(ks, key, group, clock, i) && GroupInv(StreamOf(ks, key).groups[group]) && Monotone(clock)
    requires count.Some? ==> count.value > 0
    ensures var s := StreamOf(ks, key);
            var r := Follow(ks, key, group, target, minIdle, start, count, clock, orders, i);
            && r.1 == ClaimedEntries(s.entries, ids) && r.2 == DeletedIds(s.entries, ids)
            && key in r.0 && r.0[key].value.Log? && group in r.0[key].value.stream.groups
            && ScanResult(s.groups[group], r.0[key].value.stream.groups[group], ids, target, minIdle, start, clock, i)
  {
    var s := StreamOf(ks, key);
    FollowIsScan(ks, key, group, target, minIdle, start, count, clock, orders, i);
    ScanClaimsEachOnce(s.groups[group], target, minIdle, start, count, clock, orders, i);
    ids := Scan(s.groups[group], target, minIdle, start, count, clock, orders, i).1;
  }
}
