/**
 XREADGROUP over several keys. The keys are read in order, each delivery taking effect at once; the first key
 without a live stream that has the group ends the call with an error, and the client is told nothing of what
 the earlier keys delivered.
 */
module GroupReads {
  import opened Prelude
  import opened Ordering
  import opened Values
  import opened Groups
  import opened Commands
  import opened Expiry
  import Reachable
  import Streams

  function ReadOp(group: Bytes, consumer: Bytes, from: Option<StreamId>, count: Option<nat>): StreamOp {
    if from.None? then XReadNew(group, consumer, count) else XReadHistory(group, consumer, from.value, count)
  }

  /** One step per key: `None` stands for ">". */
  function ReadSteps(group: Bytes, consumer: Bytes, keys: seq<(Bytes, Option<StreamId>)>, count: Option<nat>)
    : seq<(Bytes, KeyOp)>
  {
    seq(|keys|, i requires 0 <= i < |keys| => (keys[i].0, OnStream(ReadOp(group, consumer, keys[i].1, count))))
  }

  function ReadCommand(group: Bytes, consumer: Bytes, keys: seq<(Bytes, Option<StreamId>)>, count: Option<nat>)
    : Command
  {
    Many(ReadSteps(group, consumer, keys, count), AtError)
  }

  // ----- what a caller can look at before the call -----

  /** The stream and the group a call reaches on a key. */
  function GroupAt(ks: Keyspace, now: Time, k: Bytes, group: Bytes): Option<(Stream, Group)> {
    var slot := LiveSlot(ks, now, k);
    if slot.Some? && slot.value.value.Log? && group in slot.value.value.stream.groups
    then Some((slot.value.value.stream, slot.value.value.stream.groups[group]))
    else None
  }

  ghost predicate AnyNewer(entries: map<StreamId, Fields>, cursor: StreamId) {
    exists id :: id in entries && IdLess(cursor, id)
  }

  /** A ">" read of the key would deliver something. */
  ghost predicate HasNew(ks: Keyspace, now: Time, k: Bytes, group: Bytes, count: Option<nat>) {
    && count != Some(0)
    && var found := GroupAt(ks, now, k, group);
       found.Some? && AnyNewer(found.value.0.entries, found.value.1.lastDelivered)
  }

  /** The first key that cannot be read, or the number of keys. */
  function FirstBad(ks: Keyspace, now: Time, group: Bytes, keys: seq<(Bytes, Option<StreamId>)>): (n: nat)
    ensures n <= |keys|
    ensures n < |keys| ==> GroupAt(ks, now, keys[n].0, group).None?
    ensures forall i :: 0 <= i < n ==> GroupAt(ks, now, keys[i].0, group).Some?
  {
    if keys == [] || GroupAt(ks, now, keys[0].0, group).None? then 0 else 1 + FirstBad(ks, now, group, keys[1..])
  }

  /** Key `i` is read with ">" before the call can fail, and has something new. */
  ghost predicate DeliversAt(ks: Keyspace, now: Time, group: Bytes, keys: seq<(Bytes, Option<StreamId>)>,
                             count: Option<nat>, i: int) {
    0 <= i < FirstBad(ks, now, group, keys) && keys[i].1.None? && HasNew(ks, now, keys[i].0, group, count)
  }

  // ----- one key -----

  /** Nothing is new exactly when the ">" read would list nothing. */
  lemma {:induction false} NewIdsIff(entries: map<StreamId, Fields>, g: Group, count: Option<nat>)
    ensures NewIds(entries, g, count) != [] <==>
            count != Some(0) && AnyNewer(entries, g.lastDelivered)
  {
    var newer := set id | id in entries && IdLess(g.lastDelivered, id);
    assert forall id :: id in entries && IdLess(g.lastDelivered, id) ==> id in newer;
    if newer == {} {
      assert SortedIds(newer) == [];
    } else {
      var id :| id in newer;
      assert id in SortedIds(newer);
    }
  }

  /** What a read leaves at its key. */
  function AfterRead(s: Stream, g: Group, group: Bytes, consumer: Bytes, from: Option<StreamId>, count: Option<nat>,
                     now: Time): Stream {
    if from.Some? then s
    else s.(groups := s.groups[group := Delivered(g, NewIds(s.entries, g, count), consumer, now)])
  }

  /** The slot a read leaves at its key. */
  function SlotAfterRead(ks: Keyspace, now: Time, k: Bytes, group: Bytes, consumer: Bytes, from: Option<StreamId>,
                         count: Option<nat>): Slot {
    var slot, found := LiveSlot(ks, now, k), GroupAt(ks, now, k, group);
    if found.None? then slot
    else Keep(slot.value, Log(AfterRead(found.value.0, found.value.1, group, consumer, from, count, now)))
  }

  lemma {:induction false} ReadEffect(ks: Keyspace, now: Time, k: Bytes, group: Bytes, consumer: Bytes,
                                      from: Option<StreamId>, count: Option<nat>)
    ensures var r := ApplyStream(ReadOp(group, consumer, from, count), LiveSlot(ks, now, k), now);
            && (r.1.Fail? <==> GroupAt(ks, now, k, group).None?)
            && r.0 == SlotAfterRead(ks, now, k, group, consumer, from, count)
  {
    var slot := LiveSlot(ks, now, k);
    var op := ReadOp(group, consumer, from, count);
    if slot.Some? && slot.value.value.Log? {
      var s := slot.value.value.stream;
      Reachable.CommandIsStep(op, slot.value, now);
      if group in s.groups {
        if from.None? {
          Streams.StepOnGroup(s, Reachable.StepOf(op, now));
        }
      } else {
        NoGroupFails(op, s, now);
      }
    }
  }

  lemma {:induction false} NoGroupFails(op: StreamOp, s: Stream, now: Time)
    requires (op.XReadNew? || op.XReadHistory?) && op.group !in s.groups
    ensures ApplyStreamValue(op, s, now) == (s, Fail(NoGroup))
  {
  }

  ghost predicate CursorUp(a: Keyspace, b: Keyspace, now: Time, j: Bytes, group: Bytes) {
    var x, y := GroupAt(a, now, j, group), GroupAt(b, now, j, group);
    && (x.Some? <==> y.Some?)
    && (x.Some? ==> x.value.0.entries == y.value.0.entries && IdLeq(x.value.1.lastDelivered, y.value.1.lastDelivered))
  }

  lemma {:induction false} ReadSlots(ks: Keyspace, now: Time, k: Bytes, group: Bytes, consumer: Bytes,
                                     from: Option<StreamId>, count: Option<nat>)
    ensures var after := OnKey(ks, now, k, OnStream(ReadOp(group, consumer, from, count)));
            && (after.1.Fail? <==> GroupAt(ks, now, k, group).None?)
            && (forall j :: j != k ==> LiveSlot(after.0, now, j) == LiveSlot(ks, now, j))
            && LiveSlot(after.0, now, k) == SlotAfterRead(ks, now, k, group, consumer, from, count)
  {
    var op := OnStream(ReadOp(group, consumer, from, count));
    ReadEffect(ks, now, k, group, consumer, from, count);
    forall j ensures LiveSlot(OnKey(ks, now, k, op).0, now, j) ==
                     if j == k then SlotAfterRead(ks, now, k, group, consumer, from, count) else LiveSlot(ks, now, j) {
      OnKeyLive(ks, now, k, op, j);
    }
  }

  /** `after` moved some cursor of the group at `k` up, or looks the same. */
  ghost predicate CursorMoved(ks: Keyspace, after: Keyspace, now: Time, k: Bytes, group: Bytes, delivers: bool) {
    && (forall j :: CursorUp(ks, after, now, j, group))
    && (if delivers
        then && GroupAt(ks, now, k, group).Some? && GroupAt(after, now, k, group).Some?
             && IdLess(GroupAt(ks, now, k, group).value.1.lastDelivered,
                       GroupAt(after, now, k, group).value.1.lastDelivered)
        else SameLive(ks, after, now))
  }

  /** A read that delivers nothing leaves its key as it was. */
  lemma {:induction false} QuietRead(ks: Keyspace, now: Time, k: Bytes, group: Bytes, consumer: Bytes,
                                     from: Option<StreamId>, count: Option<nat>)
    requires !(from.None? && HasNew(ks, now, k, group, count))
    ensures SlotAfterRead(ks, now, k, group, consumer, from, count) == LiveSlot(ks, now, k)
  {
    var found := GroupAt(ks, now, k, group);
    if found.Some? && from.None? {
      NewIdsIff(found.value.0.entries, found.value.1, count);
      DeliveredCursor(found.value.0, found.value.1, group, consumer, count, now);
    }
  }

  /** A read that delivers leaves the entries alone and moves the cursor up. */
  lemma {:induction false} LoudRead(ks: Keyspace, after: Keyspace, now: Time, k: Bytes, group: Bytes, consumer: Bytes,
                                    count: Option<nat>)
    requires HasNew(ks, now, k, group, count)
    requires LiveSlot(after, now, k) == SlotAfterRead(ks, now, k, group, consumer, None, count)
    ensures GroupAt(after, now, k, group).Some?
    ensures var x, y := GroupAt(ks, now, k, group).value, GroupAt(after, now, k, group).value;
            x.0.entries == y.0.entries && IdLess(x.1.lastDelivered, y.1.lastDelivered)
  {
    var found := GroupAt(ks, now, k, group);
    NewIdsIff(found.value.0.entries, found.value.1, count);
    DeliveredCursor(found.value.0, found.value.1, group, consumer, count, now);
  }

  lemma {:induction false} SameAllOver(a: Keyspace, b: Keyspace, now: Time, group: Bytes)
    requires forall k :: LiveSlot(a, now, k) == LiveSlot(b, now, k)
    ensures SameLive(a, b, now) && forall j :: CursorUp(a, b, now, j, group)
  {
  }

  lemma {:induction false} SlotMoves(ks: Keyspace, after: Keyspace, now: Time, k: Bytes, group: Bytes,
                                     consumer: Bytes, from: Option<StreamId>, count: Option<nat>)
    requires forall j :: j != k ==> LiveSlot(after, now, j) == LiveSlot(ks, now, j)
    requires LiveSlot(after, now, k) == SlotAfterRead(ks, now, k, group, consumer, from, count)
    ensures CursorMoved(ks, after, now, k, group, from.None? && HasNew(ks, now, k, group, count))
  {
    if from.None? && HasNew(ks, now, k, group, count) {
      LoudRead(ks, after, now, k, group, consumer, count);
    } else {
      QuietRead(ks, now, k, group, consumer, from, count);
      SameAllOver(ks, after, now, group);
    }
  }

  /** A read delivers at its own key or changes nothing visible, and moves no cursor back. */
  lemma {:induction false} ReadStep(ks: Keyspace, now: Time, k: Bytes, group: Bytes, consumer: Bytes,
                                    from: Option<StreamId>, count: Option<nat>)
    ensures var after := OnKey(ks, now, k, OnStream(ReadOp(group, consumer, from, count)));
            && (after.1.Fail? <==> GroupAt(ks, now, k, group).None?)
            && (forall j :: j != k ==> LiveSlot(after.0, now, j) == LiveSlot(ks, now, j))
            && CursorMoved(ks, after.0, now, k, group, from.None? && HasNew(ks, now, k, group, count))
  {
    ReadSlots(ks, now, k, group, consumer, from, count);
    var after := OnKey(ks, now, k, OnStream(ReadOp(group, consumer, from, count))).0;
    SlotMoves(ks, after, now, k, group, consumer, from, count);
  }

  /** A delivery of something moves the cursor up; a delivery of nothing changes nothing. */
  lemma {:induction false} DeliveredCursor(s: Stream, g: Group, group: Bytes, consumer: Bytes, count: Option<nat>,
                                           now: Time)
    requires group in s.groups && s.groups[group] == g
    ensures var ids := NewIds(s.entries, g, count);
            if ids == [] then AfterRead(s, g, group, consumer, None, count, now) == s
            else IdLess(g.lastDelivered, Delivered(g, ids, consumer, now).lastDelivered)
  {
    var ids := NewIds(s.entries, g, count);
    if ids == [] {
      assert s.groups[group := g] == s.groups;
    } else {
      NewIdsAbove(s.entries, g, count);
      assert ids[|ids| - 1] in ids;
    }
  }

  // ----- all keys -----

  lemma {:induction false} StepsTail(group: Bytes, consumer: Bytes, keys: seq<(Bytes, Option<StreamId>)>,
                                     count: Option<nat>)
    requires keys != []
    ensures ReadSteps(group, consumer, keys, count)[1..] == ReadSteps(group, consumer, keys[1..], count)
  {
  }

  /** The first bad key of the rest, when the first key is good, and reading it moved cursors up only. */
  lemma {:induction false} BadTail(ks: Keyspace, after: Keyspace, now: Time, group: Bytes,
                                   keys: seq<(Bytes, Option<StreamId>)>)
    requires forall j :: CursorUp(ks, after, now, j, group)
    ensures FirstBad(after, now, group, keys) == FirstBad(ks, now, group, keys)
    decreases |keys|
  {
    if keys != [] {
      assert CursorUp(ks, after, now, keys[0].0, group);
      BadTail(ks, after, now, group, keys[1..]);
    }
  }

  /** The call fails if and only if some key has no live stream with the group. */
  lemma {:induction false} CallFailsIff(ks: Keyspace, now: Time, group: Bytes, consumer: Bytes,
                                        keys: seq<(Bytes, Option<StreamId>)>, count: Option<nat>)
    ensures var rs := RunMany(ks, now, ReadSteps(group, consumer, keys, count), AtError).1;
            EndsInError(AtError, rs) <==> FirstBad(ks, now, group, keys) < |keys|
    decreases |keys|
  {
    if keys != [] {
      var after := OnKey(ks, now, keys[0].0, OnStream(ReadOp(group, consumer, keys[0].1, count)));
      ReadStep(ks, now, keys[0].0, group, consumer, keys[0].1, count);
      StepsTail(group, consumer, keys, count);
      if !after.1.Fail? {
        CallFailsIff(after.0, now, group, consumer, keys[1..], count);
        BadTail(ks, after.0, now, group, keys[1..]);
        var rest := RunMany(after.0, now, ReadSteps(group, consumer, keys[1..], count), AtError).1;
        LastOf(after.1, rest);
      }
    }
  }

  lemma {:induction false} LastOf(first: Reply, rest: seq<Reply>)
    requires !first.Fail?
    ensures EndsInError(AtError, [first] + rest) <==> EndsInError(AtError, rest)
  {
    if rest != [] {
      assert ([first] + rest)[|rest|] == rest[|rest| - 1];
    }
  }

  lemma {:induction false} CursorsUp(ks: Keyspace, now: Time, group: Bytes, consumer: Bytes,
                                     keys: seq<(Bytes, Option<StreamId>)>, count: Option<nat>, j: Bytes)
    ensures CursorUp(ks, RunMany(ks, now, ReadSteps(group, consumer, keys, count), AtError).0, now, j, group)
    decreases |keys|
  {
    if keys != [] {
      var after := OnKey(ks, now, keys[0].0, OnStream(ReadOp(group, consumer, keys[0].1, count)));
      ReadStep(ks, now, keys[0].0, group, consumer, keys[0].1, count);
      StepsTail(group, consumer, keys, count);
      if !after.1.Fail? {
        CursorsUp(after.0, now, group, consumer, keys[1..], count, j);
        var end := RunMany(after.0, now, ReadSteps(group, consumer, keys[1..], count), AtError).0;
        assert CursorUp(ks, after.0, now, j, group) && CursorUp(after.0, end, now, j, group);
      }
    }
  }

  /** Whether later keys deliver does not depend on an earlier key that delivered nothing. */
  lemma {:induction false} DeliversTail(ks: Keyspace, after: Keyspace, now: Time, group: Bytes,
                                        keys: seq<(Bytes, Option<StreamId>)>, count: Option<nat>)
    requires keys != [] && GroupAt(ks, now, keys[0].0, group).Some? && SameLive(ks, after, now)
    requires !(keys[0].1.None? && HasNew(ks, now, keys[0].0, group, count))
    ensures (exists i :: DeliversAt(ks, now, group, keys, count, i)) <==>
            (exists i :: DeliversAt(after, now, group, keys[1..], count, i))
  {
    forall j ensures GroupAt(ks, now, j, group) == GroupAt(after, now, j, group) {
      assert LiveSlot(ks, now, j) == LiveSlot(after, now, j);
    }
    SameBad(ks, after, now, group, keys[1..]);
    if i :| DeliversAt(ks, now, group, keys, count, i) {
      assert keys[1..][i - 1] == keys[i];
      assert DeliversAt(after, now, group, keys[1..], count, i - 1);
    }
    if i :| DeliversAt(after, now, group, keys[1..], count, i) {
      assert keys[1..][i] == keys[i + 1];
      assert DeliversAt(ks, now, group, keys, count, i + 1);
    }
  }

  lemma {:induction false} SameBad(a: Keyspace, b: Keyspace, now: Time, group: Bytes,
                                   keys: seq<(Bytes, Option<StreamId>)>)
    requires forall j :: GroupAt(a, now, j, group) == GroupAt(b, now, j, group)
    ensures FirstBad(a, now, group, keys) == FirstBad(b, now, group, keys)
    decreases |keys|
  {
    if keys != [] {
      assert GroupAt(a, now, keys[0].0, group) == GroupAt(b, now, keys[0].0, group);
      SameBad(a, b, now, group, keys[1..]);
    }
  }

  /**
   An XREADGROUP call, whether it fails or not, changes the visible store if and only if some key before the
   first bad one is read with ">" and has something new.
   */
  lemma {:induction false} CallWritesIff(ks: Keyspace, now: Time, group: Bytes, consumer: Bytes,
                                         keys: seq<(Bytes, Option<StreamId>)>, count: Option<nat>)
    ensures SameLive(ks, RunMany(ks, now, ReadSteps(group, consumer, keys, count), AtError).0, now) <==>
            !exists i :: DeliversAt(ks, now, group, keys, count, i)
    decreases |keys|
  {
    if keys != [] {
      var k := keys[0].0;
      var after := OnKey(ks, now, k, OnStream(ReadOp(group, consumer, keys[0].1, count)));
      ReadStep(ks, now, k, group, consumer, keys[0].1, count);
      StepsTail(group, consumer, keys, count);
      if !after.1.Fail? {
        var end := RunMany(after.0, now, ReadSteps(group, consumer, keys[1..], count), AtError).0;
        if keys[0].1.None? && HasNew(ks, now, k, group, count) {
          assert DeliversAt(ks, now, group, keys, count, 0);
          CursorsUp(after.0, now, group, consumer, keys[1..], count, k);
          assert LiveSlot(ks, now, k) != LiveSlot(end, now, k);
        } else {
          CallWritesIff(after.0, now, group, consumer, keys[1..], count);
          DeliversTail(ks, after.0, now, group, keys, count);
          SameLiveThrough(ks, after.0, end, now);
        }
      }
    }
  }

  lemma {:induction false} SameLiveThrough(a: Keyspace, b: Keyspace, c: Keyspace, now: Time)
    requires SameLive(a, b, now)
    ensures SameLive(a, c, now) <==> SameLive(b, c, now)
  {
    forall k ensures LiveSlot(a, now, k) == LiveSlot(b, now, k) {}
  }
}
