/**
 Error replies and the store. A refused command should change nothing; two families of single-key commands and
 XREADGROUP over several keys do change what clients see although they reply an error.
 */
module Refusals {
  import opened Prelude
  import opened Ordering
  import opened Values
  import opened SortedSets
  import opened Commands
  import opened Expiry
  import opened GroupReads
  import Reachable
  import Streams

  /** The value is of the type the operation works on. */
  predicate Fits(op: KeyOp, v: Value) {
    match op
    case OnHash(_) => v.Hash?
    case OnMembers(_) => v.Members?
    case OnZset(_) => v.SortedSet?
    case OnList(_) => v.List?
    case OnStream(_) => v.Log?
    case OnString(_) => v.Str?
    case OnAny(_) => true
  }

  /** The commands that end with `remove_if_empty` whatever they found. */
  predicate CleansUp(op: KeyOp) {
    || (op.OnHash? && op.hash.HDel?)
    || (op.OnMembers? && op.set_.SRem?)
    || (op.OnZset? && (op.zset.ZAdd? || op.zset.ZRem? || op.zset.ZRemRange?))
  }

  /** XADD refuses its id on a key that is not there. */
  predicate RefusedOnMissing(op: KeyOp, slot: Slot) {
    && op.OnStream? && op.stream.XAdd? && slot.None?
    && Streams.NextId(EMPTY_STREAM, op.stream.explicit, op.stream.ms).None?
  }

  /** A command that cleans up meets an empty container of another type. */
  predicate CleansUpOther(op: KeyOp, slot: Slot) {
    CleansUp(op) && slot.Some? && EmptyContainer(slot.value.value) && !Fits(op, slot.value.value)
  }

  /** What a caller can check beforehand: an error reply will change the store. */
  predicate FailureWrites(op: KeyOp, slot: Slot) {
    RefusedOnMissing(op, slot) || CleansUpOther(op, slot)
  }

  // ----- type by type -----

  lemma {:induction false} HashFailure(op: HashOp, slot: Slot)
    requires ApplyHash(op, slot).1.Fail?
    ensures ApplyHash(op, slot).0 == slot <==> !FailureWrites(OnHash(op), slot)
  {
  }

  lemma {:induction false} SetFailure(op: SetOp, slot: Slot)
    requires ApplySet(op, slot).1.Fail?
    ensures ApplySet(op, slot).0 == slot <==> !FailureWrites(OnMembers(op), slot)
  {
  }

  lemma {:induction false} ListFailure(op: ListOp, slot: Slot)
    requires ApplyList(op, slot).1.Fail?
    ensures ApplyList(op, slot).0 == slot
  {
  }

  lemma {:induction false} ZsetFailure(op: ZsetOp, slot: Slot)
    requires ApplyZset(op, slot).1.Fail?
    ensures ApplyZset(op, slot).0 == slot <==> !FailureWrites(OnZset(op), slot)
  {
  }

  /** XADD and XGROUP CREATE, the two that make a stream. */
  lemma {:induction false} MakerFailure(op: StreamOp, slot: Slot, now: Time)
    requires (op.XAdd? || op.XGroupCreate?) && ApplyStream(op, slot, now).1.Fail?
    ensures ApplyStream(op, slot, now).0 == slot <==> !FailureWrites(OnStream(op), slot)
  {
  }

  lemma {:induction false} StreamFailure(op: StreamOp, slot: Slot, now: Time)
    requires !op.XAdd? && !op.XGroupCreate? && ApplyStream(op, slot, now).1.Fail?
    ensures ApplyStream(op, slot, now).0 == slot
  {
    if slot.Some? && slot.value.value.Log? {
      ValueFailure(op, slot.value.value.stream, now);
    }
  }

  /** On a stream the only error left is a missing group. */
  lemma {:induction false} ValueFailure(op: StreamOp, s: Stream, now: Time)
    requires !op.XAdd? && !op.XGroupCreate? && ApplyStreamValue(op, s, now).1.Fail?
    ensures ApplyStreamValue(op, s, now).0 == s
  {
  }

  lemma {:induction false} SlotFailure(op: KeyOp, slot: Slot, now: Time)
    requires Apply(op, slot, now).1.Fail?
    ensures Apply(op, slot, now).0 == slot <==> !FailureWrites(op, slot)
  {
    match op
    case OnHash(h) => HashFailure(h, slot);
    case OnMembers(m) => SetFailure(m, slot);
    case OnList(l) => ListFailure(l, slot);
    case OnZset(z) => ZsetFailure(z, slot);
    case OnStream(x) =>
      if x.XAdd? || x.XGroupCreate? {
        MakerFailure(x, slot, now);
      } else {
        StreamFailure(x, slot, now);
      }
    case _ =>
  }

  /** What a failing command leaves when it does write. */
  lemma {:induction false} WrittenSlot(op: KeyOp, slot: Slot, now: Time)
    requires Apply(op, slot, now).1.Fail? && FailureWrites(op, slot)
    ensures Apply(op, slot, now).0 == if slot.None? then Some(Entry(Log(EMPTY_STREAM), None)) else None
  {
  }

  /**
   An error reply to a single-key command leaves the visible store as it was if and only if the command is
   neither an XADD refused on a missing key nor a cleaning command on an empty container of another type.
   */
  lemma {:induction false} FailureChangesNothingIff(ks: Keyspace, now: Time, key: Bytes, op: KeyOp)
    requires Exec(ks, now, One(key, op)).1.Fail?
    ensures SameLive(ks, Exec(ks, now, One(key, op)).0, now) <==> !FailureWrites(op, LiveSlot(ks, now, key))
  {
    var slot := LiveSlot(ks, now, key);
    var after := OnKey(ks, now, key, op).0;
    SlotFailure(op, slot, now);
    if FailureWrites(op, slot) {
      WrittenSlot(op, slot, now);
      PutLive(ks, now, key, Apply(op, slot, now).0, key);
      assert LiveSlot(after, now, key) != LiveSlot(ks, now, key);
    } else {
      forall k ensures LiveSlot(ks, now, k) == LiveSlot(after, now, k) {
        PutLive(ks, now, key, slot, k);
      }
    }
  }

  // ----- commands over several keys -----

  /**
   A failed XREADGROUP over several keys leaves the visible store as it was if and only if no key before the first
   bad one was read with ">" and had something new; XREAD never changes it.
   */
  lemma {:induction false} FailedCallChangesNothingIff(ks: Keyspace, now: Time, group: Bytes, consumer: Bytes,
                                                       keys: seq<(Bytes, Option<StreamId>)>, count: Option<nat>)
    requires Exec(ks, now, ReadCommand(group, consumer, keys, count)).1.Fail?
    ensures FirstBad(ks, now, group, keys) < |keys|
    ensures SameLive(ks, Exec(ks, now, ReadCommand(group, consumer, keys, count)).0, now) <==>
            !exists i :: DeliversAt(ks, now, group, keys, count, i)
  {
    CallFailsIff(ks, now, group, consumer, keys, count);
    CallWritesIff(ks, now, group, consumer, keys, count);
  }

  /** A batch of reads, failed or not, changes nothing visible. */
  lemma {:induction false} ReadsChangeNothing(ks: Keyspace, now: Time, steps: seq<(Bytes, KeyOp)>, stop: Stop)
    requires forall i :: 0 <= i < |steps| ==> steps[i].1.OnStream? && !Reachable.Mutates(steps[i].1.stream)
    ensures SameLive(ks, RunMany(ks, now, steps, stop).0, now)
    decreases |steps|
  {
    if steps != [] {
      var first := OnKey(ks, now, steps[0].0, steps[0].1);
      ReadChangesNothing(ks, now, steps[0].0, steps[0].1.stream);
      if !Stops(stop, first.1) {
        ReadsChangeNothing(first.0, now, steps[1..], stop);
        SameLiveThrough(ks, first.0, RunMany(first.0, now, steps[1..], stop).0, now);
      }
    }
  }

  lemma {:induction false} ReadChangesNothing(ks: Keyspace, now: Time, key: Bytes, op: StreamOp)
    requires !Reachable.Mutates(op)
    ensures SameLive(ks, OnKey(ks, now, key, OnStream(op)).0, now)
  {
    ReadKeepsSlot(op, LiveSlot(ks, now, key), now);
    forall k ensures LiveSlot(ks, now, k) == LiveSlot(OnKey(ks, now, key, OnStream(op)).0, now, k) {
      OnKeyLive(ks, now, key, OnStream(op), k);
    }
  }

  lemma {:induction false} ReadKeepsSlot(op: StreamOp, slot: Slot, now: Time)
    requires !Reachable.Mutates(op)
    ensures ApplyStream(op, slot, now).0 == slot
  {
    if slot.Some? && slot.value.value.Log? {
      Reachable.CommandIsStep(op, slot.value, now);
    }
  }

  // ----- both families of single-key commands are reached from an empty store -----

  /** XADD k 0-0 on an empty store replies an error and leaves an empty stream. */
  lemma {:induction false} RefusedXaddCreates(now: Time, key: Bytes, fields: Fields, ms: u64)
    ensures var r := Exec(map[], now, One(key, OnStream(XAdd(fields, Some(ZERO_ID), ms))));
            r.1 == Fail(WrongType) && LiveSlot(r.0, now, key) == Some(Entry(Log(EMPTY_STREAM), None))
  {
  }

  /** SADD k without members, then ZREM k: the error reply comes with the key gone. */
  lemma {:induction false} WrongTypeDeletes(now: Time, key: Bytes, members: seq<Bytes>)
    ensures var made := Exec(map[], now, One(key, OnMembers(SAdd([])))).0;
            var r := Exec(made, now, One(key, OnZset(ZRem(members))));
            LiveSlot(made, now, key).Some? && r.1 == Fail(WrongType) && LiveSlot(r.0, now, key).None?
  {
    assert Elems<Bytes>([]) == {};
    var slot := ApplySet(SAdd([]), None).0;
    assert slot == Some(Entry(Members({}), None));
    PutLive(map[], now, key, slot, key);
    var made := Exec(map[], now, One(key, OnMembers(SAdd([])))).0;
    assert LiveSlot(made, now, key) == slot;
    PutLive(made, now, key, None, key);
  }
}
