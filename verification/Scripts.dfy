/**
 Lua scripts as sequences of dispatched commands. The flags `had_list_mutation` and `had_xadd`, gathered
 command by command, are complete: whatever a script made available to a blocked reader, the flag is set,
 wherever the script stopped.
 */
module Scripts {
  import opened Prelude
  import opened Values
  import opened Lists
  import opened SortedSets
  import opened Streams
  import opened Groups
  import opened Autoclaim
  import opened Commands
  import opened Expiry

  // ----- what a blocked reader waits for -----

  predicate SlotReady(slot: Slot) {
    ItemsOf(slot) != []
  }

  /** A live, non-empty list: BLPOP, BRPOP and BLMOVE would not block on `k`. */
  predicate ListReady(ks: Keyspace, now: Time, k: Bytes) {
    SlotReady(LiveSlot(ks, now, k))
  }

  function IdsIn(slot: Slot): set<StreamId> {
    if slot.Some? && slot.value.value.Log? then slot.value.value.stream.entries.Keys else {}
  }

  predicate HasEntry(ks: Keyspace, now: Time, k: Bytes, id: StreamId) {
    id in IdsIn(LiveSlot(ks, now, k))
  }

  // ----- which commands set a flag -----

  predicate PushSucceeded(op: KeyOp, r: Reply) {
    op.OnList? && op.list.PushOp? && r.Int?
  }

  predicate AddSucceeded(op: KeyOp, r: Reply) {
    op.OnStream? && op.stream.XAdd? && !r.Fail?
  }

  /** Some step of a batch pushed, or added an entry. */
  predicate SomePush(steps: seq<(Bytes, KeyOp)>, rs: seq<Reply>) {
    exists i :: 0 <= i < |steps| && i < |rs| && PushSucceeded(steps[i].1, rs[i])
  }

  predicate SomeAdd(steps: seq<(Bytes, KeyOp)>, rs: seq<Reply>) {
    exists i :: 0 <= i < |steps| && i < |rs| && AddSucceeded(steps[i].1, rs[i])
  }

  lemma {:induction false} SomePushLater(steps: seq<(Bytes, KeyOp)>, first: Reply, rest: seq<Reply>)
    requires steps != [] && SomePush(steps[1..], rest)
    ensures SomePush(steps, [first] + rest)
  {
    var i :| 0 <= i < |steps[1..]| && i < |rest| && PushSucceeded(steps[1..][i].1, rest[i]);
    assert PushSucceeded(steps[i + 1].1, ([first] + rest)[i + 1]);
  }

  lemma {:induction false} SomeAddLater(steps: seq<(Bytes, KeyOp)>, first: Reply, rest: seq<Reply>)
    requires steps != [] && SomeAdd(steps[1..], rest)
    ensures SomeAdd(steps, [first] + rest)
  {
    var i :| 0 <= i < |steps[1..]| && i < |rest| && AddSucceeded(steps[1..][i].1, rest[i]);
    assert AddSucceeded(steps[i + 1].1, ([first] + rest)[i + 1]);
  }

  /** The commands after which the store itself notifies list waiters, given what they did. */
  predicate NotifiesList(cmd: Command, r: Reply) {
    match cmd
    case One(_, op) => PushSucceeded(op, r)
    case Lmove(_, _, _, _) => r.Bulk?
    case Many(steps, _) =>
      r.Multi? && SomePush(steps, r.replies)
    case _ => false
  }

  predicate NotifiesStream(cmd: Command, r: Reply) {
    match cmd
    case One(_, op) => AddSucceeded(op, r)
    case Many(steps, _) =>
      r.Multi? && SomeAdd(steps, r.replies)
    case _ => false
  }

  /** `dispatch_command`: LPUSH and RPUSH by an integer reply, LINSERT by a positive one, LMOVE by a bulk one. */
  predicate FlagsList(cmd: Command, r: Reply) {
    || NotifiesList(cmd, r)
    || (cmd.One? && cmd.op.OnList? && cmd.op.list.LInsert? && r.Int? && r.n > 0)
  }

  // ----- one command makes available only what it flags -----

  lemma {:induction false} ListOpGrowth(op: ListOp, slot: Slot)
    requires !SlotReady(slot) && SlotReady(ApplyList(op, slot).0)
    ensures op.PushOp? && ApplyList(op, slot).1.Int?
  {
  }

  /** A key starts to hold a non-empty list only by a successful push. */
  lemma {:induction false} OpGrowth(op: KeyOp, slot: Slot, now: Time)
    requires !SlotReady(slot) && SlotReady(Apply(op, slot, now).0)
    ensures PushSucceeded(op, Apply(op, slot, now).1)
  {
    if op.OnList? {
      ListOpGrowth(op.list, slot);
    } else if op.OnStream? {
      StreamOpNoList(op.stream, slot, now);
    } else {
      OtherOpNoList(op, slot, now);
    }
  }

  lemma {:induction false} StreamOpNoList(op: StreamOp, slot: Slot, now: Time)
    ensures ItemsOf(ApplyStream(op, slot, now).0) == ItemsOf(slot)
  {
  }

  lemma {:induction false} OtherOpNoList(op: KeyOp, slot: Slot, now: Time)
    requires !op.OnList? && !op.OnStream?
    ensures SlotReady(Apply(op, slot, now).0) ==> SlotReady(slot)
  {
  }

  lemma {:induction false} OnKeyGrowth(ks: Keyspace, now: Time, key: Bytes, op: KeyOp, k: Bytes)
    requires !ListReady(ks, now, k) && ListReady(OnKey(ks, now, key, op).0, now, k)
    ensures PushSucceeded(op, OnKey(ks, now, key, op).1)
  {
    OnKeyLive(ks, now, key, op, k);
    OpGrowth(op, LiveSlot(ks, now, key), now);
  }

  lemma {:induction false} ManyGrowth(ks: Keyspace, now: Time, steps: seq<(Bytes, KeyOp)>, stop: Stop, k: Bytes)
    requires !ListReady(ks, now, k) && ListReady(RunMany(ks, now, steps, stop).0, now, k)
    ensures SomePush(steps, RunMany(ks, now, steps, stop).1)
    decreases |steps|
  {
    assert steps != [];
    var first := OnKey(ks, now, steps[0].0, steps[0].1);
    var rs := RunMany(ks, now, steps, stop).1;
    if ListReady(first.0, now, k) {
      OnKeyGrowth(ks, now, steps[0].0, steps[0].1, k);
      assert PushSucceeded(steps[0].1, rs[0]);
    } else {
      ManyGrowth(first.0, now, steps[1..], stop, k);
      SomePushLater(steps, first.1, RunMany(first.0, now, steps[1..], stop).1);
    }
  }

  lemma {:induction false} LmoveGrowth(ks: Keyspace, now: Time, src: Bytes, dst: Bytes, from: ListEnd, to: ListEnd,
                                       k: Bytes)
    requires !ListReady(ks, now, k) && ListReady(LmoveResult(ks, now, src, dst, from, to).0, now, k)
    ensures LmoveResult(ks, now, src, dst, from, to).1.Bulk?
  {
  }

  lemma {:induction false} StoreRangeNoList(ks: Keyspace, now: Time, dst: Bytes, src: Bytes, lo: ScoreBound,
                                            hi: ScoreBound, k: Bytes)
    ensures ListReady(StoreRangeResult(ks, now, dst, src, lo, hi).0, now, k) ==> ListReady(ks, now, k)
  {
  }

  /** A command that makes a list available notifies; every other command makes none available. */
  lemma {:induction false} ListGrowth(ks: Keyspace, now: Time, cmd: Command, k: Bytes)
    requires !ListReady(ks, now, k) && ListReady(Exec(ks, now, cmd).0, now, k)
    ensures NotifiesList(cmd, Perform(ks, now, cmd).1)
  {
    match cmd
    case One(key, op) => OnKeyGrowth(ks, now, key, op, k);
    case Many(steps, stop) => ManyGrowth(ks, now, steps, stop, k);
    case Lmove(src, dst, from, to) => LmoveGrowth(ks, now, src, dst, from, to, k);
    case ZRangeStore(dst, src, lo, hi) => StoreRangeNoList(ks, now, dst, src, lo, hi, k);
    case Keys(_) =>
    case Sweep(visited) => SweepInvisible(ks, now, visited);
  }

  // ----- the same for stream entries -----

  lemma {:induction false} StreamValueIds(op: StreamOp, s: Stream, now: Time)
    ensures ApplyStreamValue(op, s, now).0.entries.Keys <= s.entries.Keys
  {
  }

  lemma {:induction false} OpGains(op: KeyOp, slot: Slot, now: Time, id: StreamId)
    ensures id !in IdsIn(slot) && id in IdsIn(Apply(op, slot, now).0) ==> AddSucceeded(op, Apply(op, slot, now).1)
  {
    if op.OnStream? {
      if slot.Some? && slot.value.value.Log? {
        StreamValueIds(op.stream, slot.value.value.stream, now);
      }
    } else {
      OtherOpNoEntries(op, slot, now);
    }
  }

  lemma {:induction false} OtherOpNoEntries(op: KeyOp, slot: Slot, now: Time)
    requires !op.OnStream?
    ensures IdsIn(Apply(op, slot, now).0) <= IdsIn(slot)
  {
    match op
    case OnHash(h) => HashNoEntries(h, slot);
    case OnList(l) => ListNoEntries(l, slot);
    case OnZset(z) => ZsetNoEntries(z, slot);
    case OnMembers(m) => SetNoEntries(m, slot);
    case _ =>
  }

  lemma {:induction false} HashNoEntries(op: HashOp, slot: Slot)
    ensures IdsIn(ApplyHash(op, slot).0) <= IdsIn(slot)
  {
  }

  lemma {:induction false} SetNoEntries(op: SetOp, slot: Slot)
    ensures IdsIn(ApplySet(op, slot).0) <= IdsIn(slot)
  {
  }

  lemma {:induction false} ListNoEntries(op: ListOp, slot: Slot)
    ensures IdsIn(ApplyList(op, slot).0) <= IdsIn(slot)
  {
  }

  lemma {:induction false} ZsetNoEntries(op: ZsetOp, slot: Slot)
    ensures IdsIn(ApplyZset(op, slot).0) <= IdsIn(slot)
  {
  }

  lemma {:induction false} OnKeyGains(ks: Keyspace, now: Time, key: Bytes, op: KeyOp, k: Bytes, id: StreamId)
    ensures !HasEntry(ks, now, k, id) && HasEntry(OnKey(ks, now, key, op).0, now, k, id) ==>
            AddSucceeded(op, OnKey(ks, now, key, op).1)
  {
    var slot := LiveSlot(ks, now, key);
    OnKeyLive(ks, now, key, op, k);
    if k == key && id !in IdsIn(slot) && id in IdsIn(Apply(op, slot, now).0) {
      OpGains(op, slot, now, id);
    }
  }

  lemma {:induction false} ManyGains(ks: Keyspace, now: Time, steps: seq<(Bytes, KeyOp)>, stop: Stop, k: Bytes,
                                     id: StreamId)
    requires !HasEntry(ks, now, k, id) && HasEntry(RunMany(ks, now, steps, stop).0, now, k, id)
    ensures SomeAdd(steps, RunMany(ks, now, steps, stop).1)
    decreases |steps|
  {
    assert steps != [];
    var first := OnKey(ks, now, steps[0].0, steps[0].1);
    var rs := RunMany(ks, now, steps, stop).1;
    if HasEntry(first.0, now, k, id) {
      OnKeyGains(ks, now, steps[0].0, steps[0].1, k, id);
      assert AddSucceeded(steps[0].1, rs[0]);
    } else {
      ManyGains(first.0, now, steps[1..], stop, k, id);
      SomeAddLater(steps, first.1, RunMany(first.0, now, steps[1..], stop).1);
    }
  }

  lemma {:induction false} LmoveNoEntries(ks: Keyspace, now: Time, src: Bytes, dst: Bytes, from: ListEnd, to: ListEnd,
                                          k: Bytes)
    ensures IdsIn(LiveSlot(LmoveResult(ks, now, src, dst, from, to).0, now, k)) <= IdsIn(LiveSlot(ks, now, k))
  {
  }

  lemma {:induction false} StoreRangeNoEntries(ks: Keyspace, now: Time, dst: Bytes, src: Bytes, lo: ScoreBound,
                                               hi: ScoreBound, k: Bytes)
    ensures IdsIn(LiveSlot(StoreRangeResult(ks, now, dst, src, lo, hi).0, now, k)) <= IdsIn(LiveSlot(ks, now, k))
  {
  }

  /** A command after which a stream has an entry it did not have notifies stream waiters. */
  lemma {:induction false} StreamGrowth(ks: Keyspace, now: Time, cmd: Command, k: Bytes, id: StreamId)
    requires !HasEntry(ks, now, k, id) && HasEntry(Exec(ks, now, cmd).0, now, k, id)
    ensures NotifiesStream(cmd, Perform(ks, now, cmd).1)
  {
    match cmd
    case One(key, op) => OnKeyGains(ks, now, key, op, k, id);
    case Many(steps, stop) => ManyGains(ks, now, steps, stop, k, id);
    case Lmove(src, dst, from, to) => LmoveNoEntries(ks, now, src, dst, from, to, k);
    case ZRangeStore(dst, src, lo, hi) => StoreRangeNoEntries(ks, now, dst, src, lo, hi, k);
    case Keys(_) =>
    case Sweep(visited) => SweepInvisible(ks, now, visited);
  }

  // ----- scripts -----

  datatype Flags = Flags(hadXadd: bool, hadListMutation: bool)

  /**
   The commands a script dispatched before it returned or raised; a script that stops early is just a
   shorter sequence. The flags survive either way.
   */
  ghost function ScriptFlags(ks: Keyspace, events: seq<Event>): Flags
    decreases |events|
  {
    if events == [] then Flags(false, false)
    else
      var r := Perform(ks, events[0].now, events[0].cmd);
      var rest := ScriptFlags(r.0, events[1..]);
      Flags(NotifiesStream(events[0].cmd, r.1) || rest.hadXadd, FlagsList(events[0].cmd, r.1) || rest.hadListMutation)
  }

  lemma {:induction false} ReadyEarlier(ks: Keyspace, now: Time, later: Time, k: Bytes, id: StreamId)
    requires now <= later
    ensures ListReady(ks, later, k) ==> ListReady(ks, now, k)
    ensures HasEntry(ks, later, k, id) ==> HasEntry(ks, now, k, id)
  {
  }

  /**
   For every sequence of dispatched commands, stopped anywhere: if some key holds a non-empty list that did not
   before, `had_list_mutation` is set.
   */
  lemma {:induction false} ListFlagComplete(ks: Keyspace, start: Time, events: seq<Event>, k: Bytes)
    requires Timed(start, events)
    requires !ListReady(ks, start, k) && ListReady(RunEvents(ks, events), LastTime(start, events), k)
    ensures ScriptFlags(ks, events).hadListMutation
    decreases |events|
  {
    assert events != [];
    var e := events[0];
    var r := Exec(ks, e.now, e.cmd);
    LastTimeTail(start, events);
    ReadyEarlier(ks, start, e.now, k, ZERO_ID);
    if ListReady(r.0, e.now, k) {
      ListGrowth(ks, e.now, e.cmd, k);
    } else {
      ListFlagComplete(r.0, e.now, events[1..], k);
    }
  }

  /** ... and if some stream has an entry it did not have before, `had_xadd` is set. */
  lemma {:induction false} XaddFlagComplete(ks: Keyspace, start: Time, events: seq<Event>, k: Bytes, id: StreamId)
    requires Timed(start, events)
    requires !HasEntry(ks, start, k, id) && HasEntry(RunEvents(ks, events), LastTime(start, events), k, id)
    ensures ScriptFlags(ks, events).hadXadd
    decreases |events|
  {
    assert events != [];
    var e := events[0];
    var r := Exec(ks, e.now, e.cmd);
    LastTimeTail(start, events);
    ReadyEarlier(ks, start, e.now, k, id);
    if HasEntry(r.0, e.now, k, id) {
      StreamGrowth(ks, e.now, e.cmd, k, id);
    } else {
      XaddFlagComplete(r.0, e.now, events[1..], k, id);
    }
  }
}
