/**
 What every reachable keyspace satisfies. A stored sorted set has agreeing indices, a stored stream has
 exclusive consumer groups and ordered ids, after any run of commands and any number of save-and-load cycles;
 and a stream that stays under one key goes through exactly the steps `Streams` speaks about.
 */
module Reachable {
  import opened Prelude
  import opened Ordering
  import opened Values
  import opened SortedSets
  import opened Groups
  import opened Autoclaim
  import opened Commands
  import opened Expiry
  import opened Snapshot
  import Streams

  // ----- stream commands are the steps of `Streams` -----

  predicate Mutates(op: StreamOp) {
    !op.XRead? && !op.XRange? && !op.XLen? && !op.XReadHistory?
  }

  function StepOf(op: StreamOp, now: Time): Streams.Op
    requires Mutates(op)
  {
    match op
    case XAdd(fields, explicit, ms) => Streams.Add(fields, explicit, ms)
    case XTrim(max, minId) => Streams.Trim(max, minId)
    case XDel(ids) => Streams.Del(ids)
    case XGroupCreate(group, id, _) => Streams.CreateGroup(group, id)
    case XGroupDestroy(group) => Streams.DestroyGroup(group)
    case XReadNew(group, consumer, count) => Streams.ReadNew(group, consumer, count, now)
    case XAck(group, ids, hints) => Streams.Ack(group, ids, hints)
    case XClaim(group, ids, args, hints) => Streams.Claim(group, ids, args, now, hints)
    case XAutoclaim(group, target, minIdle, start, count, order) =>
      Streams.AutoClaim(group, target, minIdle, start, count, now, order)
  }

  /** The stream a stream command leaves. */
  ghost function Stepped(s: Stream, op: StreamOp, now: Time): Stream {
    if Mutates(op) then Streams.Step(s, StepOf(op, now)) else s
  }

  lemma {:induction false} ReadsKeep(op: StreamOp, s: Stream, now: Time)
    requires !Mutates(op)
    ensures ApplyStreamValue(op, s, now).0 == s
  {
    if op.XReadHistory? && op.group in s.groups {
      assert Streams.WithGroup(s, op.group, s.groups[op.group]) == s;
    }
  }

  predicate OnGroup(op: StreamOp) {
    op.XReadNew? || op.XAck? || op.XClaim? || op.XAutoclaim?
  }

  lemma {:induction false} GroupCommandIsStep(op: StreamOp, s: Stream, now: Time)
    requires OnGroup(op)
    ensures ApplyStreamValue(op, s, now).0 == Streams.Step(s, StepOf(op, now))
  {
    if op.group in s.groups {
      var g := s.groups[op.group];
      GroupStepIs(op, s, g, now);
      Streams.StepOnGroup(s, StepOf(op, now));
      WritesBack(op, s, now);
    }
  }

  lemma {:induction false} GroupStepIs(op: StreamOp, s: Stream, g: Group, now: Time)
    requires OnGroup(op)
    ensures ApplyGroup(op, s, g, now).0 == Streams.GroupStep(s, g, StepOf(op, now))
  {
  }

  lemma {:induction false} WritesBack(op: StreamOp, s: Stream, now: Time)
    requires OnGroup(op) && op.group in s.groups
    ensures ApplyStreamValue(op, s, now).0 ==
            Streams.WithGroup(s, op.group, ApplyGroup(op, s, s.groups[op.group], now).0)
  {
  }

  lemma {:induction false} LogCommandIsStep(op: StreamOp, s: Stream, now: Time)
    requires op.XTrim? || op.XDel? || op.XGroupDestroy?
    ensures ApplyStreamValue(op, s, now).0 == Streams.Step(s, StepOf(op, now))
  {
  }

  /** A stream command on a stream is its step, and nothing else about the key changes. */
  lemma {:induction false} CommandIsStep(op: StreamOp, e: Entry, now: Time)
    requires e.value.Log?
    ensures ApplyStream(op, Some(e), now).0 == Some(e.(value := Log(Stepped(e.value.stream, op, now))))
  {
    var s := e.value.stream;
    if !Mutates(op) {
      ReadsKeep(op, s, now);
    } else if op.XTrim? || op.XDel? || op.XGroupDestroy? {
      LogCommandIsStep(op, s, now);
    } else if !op.XAdd? && !op.XGroupCreate? {
      GroupCommandIsStep(op, s, now);
    }
  }

  /** On a missing key it is the step from the empty stream, or leaves the key missing. */
  lemma {:induction false} CommandCreates(op: StreamOp, now: Time)
    ensures var slot := ApplyStream(op, None, now).0;
            slot.Some? ==> Mutates(op) && slot.value == Entry(Log(Streams.Step(EMPTY_STREAM, StepOf(op, now))), None)
  {
  }

  /** The reply shows what the step did: the id XADD stored, the ids a ">" read delivered. */
  lemma {:induction false} ReplyShowsStep(op: StreamOp, e: Entry, now: Time)
    requires e.value.Log?
    ensures op.XAdd? ==>
              Streams.AddedBy(e.value.stream, StepOf(op, now)) == IdIn(ApplyStream(op, Some(e), now).1)
    ensures op.XReadNew? && op.group in e.value.stream.groups ==>
              && ApplyStream(op, Some(e), now).1.Entries?
              && RepliedIds(ApplyStream(op, Some(e), now).1.entries) ==
                 NewIds(e.value.stream.entries, e.value.stream.groups[op.group], op.count)
  {
    if op.XReadNew? && op.group in e.value.stream.groups {
      var s := e.value.stream;
      NewIdsAbove(s.entries, s.groups[op.group], op.count);
      ListedIds(s.entries, NewIds(s.entries, s.groups[op.group], op.count));
    }
  }

  /** The id in a reply to XADD, if it is one. */
  function IdIn(r: Reply): seq<StreamId> {
    if r.Id? then [r.id] else []
  }

  function RepliedIds(entries: seq<(StreamId, Fields)>): seq<StreamId> {
    seq(|entries|, i requires 0 <= i < |entries| => entries[i].0)
  }

  lemma {:induction false} ListedIds(entries: map<StreamId, Fields>, ids: seq<StreamId>)
    requires forall id :: id in ids ==> id in entries
    ensures RepliedIds(EntriesAt(entries, ids)) == ids
  {
    if ids != [] {
      var n := |ids| - 1;
      assert ids[n] in ids;
      ListedIds(entries, ids[..n]);
      assert EntriesAt(entries, ids) == EntriesAt(entries, ids[..n]) + [(ids[n], entries[ids[n]])];
      assert ids == ids[..n] + [ids[n]];
    }
  }

  // ----- what is kept, and what the run keeps to -----

  /** `owned`: FORCE stays within the cursor. `ordered`: no automatic id runs out of sequence numbers. */
  datatype Promise = Promise(owned: bool, ordered: bool)

  /** Agreeing indices always; exclusive groups and ordered ids under the matching promise. */
  ghost predicate Sound(v: Value, p: Promise) {
    match v
    case SortedSet(z) => ZsetValid(z)
    case Log(s) => (p.owned ==> Streams.GroupsInv(s)) && (p.ordered ==> Streams.StreamOk(s))
    case _ => true
  }

  ghost predicate SoundSlot(slot: Slot, p: Promise) {
    slot.Some? ==> Sound(slot.value.value, p)
  }

  ghost predicate SoundAll(ks: Keyspace, p: Promise) {
    forall k :: k in ks ==> Sound(ks[k].value, p)
  }

  /** The stream a stream command works on; a missing key counts as an empty stream. */
  function StreamIn(slot: Slot): Stream {
    if slot.Some? && slot.value.value.Log? then slot.value.value.stream else EMPTY_STREAM
  }

  ghost predicate OpKeepsTo(op: KeyOp, slot: Slot, now: Time, p: Promise) {
    op.OnStream? && Mutates(op.stream) ==>
      && (p.owned ==> Streams.ForceLegal(StreamIn(slot), StepOf(op.stream, now)))
      && (p.ordered ==> Streams.IdAvailable(StreamIn(slot), StepOf(op.stream, now)))
  }

  ghost predicate ManyKeepTo(ks: Keyspace, now: Time, steps: seq<(Bytes, KeyOp)>, stop: Stop, p: Promise)
    decreases |steps|
  {
    steps == [] ||
    (&& OpKeepsTo(steps[0].1, LiveSlot(ks, now, steps[0].0), now, p)
     && var first := OnKey(ks, now, steps[0].0, steps[0].1);
        Stops(stop, first.1) || ManyKeepTo(first.0, now, steps[1..], stop, p))
  }

  ghost predicate CommandKeepsTo(ks: Keyspace, now: Time, cmd: Command, p: Promise) {
    match cmd
    case One(key, op) => OpKeepsTo(op, LiveSlot(ks, now, key), now, p)
    case Many(steps, stop) => ManyKeepTo(ks, now, steps, stop, p)
    case _ => true
  }

  ghost predicate RunKeepsTo(ks: Keyspace, events: seq<Event>, p: Promise)
    decreases |events|
  {
    events == [] ||
    (&& CommandKeepsTo(ks, events[0].now, events[0].cmd, p)
     && RunKeepsTo(Exec(ks, events[0].now, events[0].cmd).0, events[1..], p))
  }

  // ----- each command keeps every stored value sound -----

  lemma {:induction false} StreamOpKeeps(op: StreamOp, slot: Slot, now: Time, p: Promise)
    requires SoundSlot(slot, p) && OpKeepsTo(OnStream(op), slot, now, p)
    ensures SoundSlot(ApplyStream(op, slot, now).0, p)
  {
    if slot.None? {
      CommandCreates(op, now);
      if Mutates(op) {
        StepSound(EMPTY_STREAM, StepOf(op, now), p);
      }
    } else if slot.value.value.Log? {
      CommandIsStep(op, slot.value, now);
      if Mutates(op) {
        StepSound(slot.value.value.stream, StepOf(op, now), p);
      }
    }
  }

  lemma {:induction false} StepSound(s: Stream, op: Streams.Op, p: Promise)
    requires p.owned ==> Streams.GroupsInv(s) && Streams.ForceLegal(s, op)
    requires p.ordered ==> Streams.StreamOk(s) && Streams.IdAvailable(s, op)
    ensures Sound(Log(Streams.Step(s, op)), p)
  {
    if p.owned {
      Streams.StepKeepsGroups(s, op);
    }
    if p.ordered {
      Streams.StepIds(s, op);
    }
  }

  lemma {:induction false} DropKeeps(slot: Slot, p: Promise)
    requires SoundSlot(slot, p)
    ensures SoundSlot(DropIfEmpty(slot), p)
  {
  }

  lemma {:induction false} ZaddKeeps(items: seq<ZKey>, flags: ZaddFlags, slot: Slot, p: Promise)
    requires SoundSlot(slot, p)
    ensures SoundSlot(ApplyZset(ZAdd(items, flags), slot).0, p)
  {
    var e := if slot.Some? then slot.value else Entry(SortedSet(EMPTY_ZSET), None);
    if e.value.SortedSet? {
      var z := ZaddAll(e.value.zset, items, flags);
      assert ZsetValid(z) by { ZaddLaws(e.value.zset, items, flags); }
      DropKeeps(Keep(e, SortedSet(z)), p);
    } else {
      DropKeeps(slot, p);
    }
  }

  lemma {:induction false} ZsetValueKeeps(op: ZsetOp, e: Entry, z: Zset, p: Promise)
    requires e.value == SortedSet(z) && ZsetValid(z)
    ensures SoundSlot(ApplyZsetValue(op, e, z).0, p)
  {
    match op
    case ZRem(members) =>
      assert ZsetValid(RemoveAll(z, members)) by { RemoveAllMeaning(z, members); }
      DropKeeps(Keep(e, SortedSet(RemoveAll(z, members))), p);
    case ZRemRange(lo, hi) =>
      assert ZsetValid(RemoveRange(z, lo, hi)) by { RemoveRangeMeaning(z, lo, hi); }
      DropKeeps(Keep(e, SortedSet(RemoveRange(z, lo, hi))), p);
    case _ =>
  }

  lemma {:induction false} ZsetOpKeeps(op: ZsetOp, slot: Slot, p: Promise)
    requires SoundSlot(slot, p)
    ensures SoundSlot(ApplyZset(op, slot).0, p)
  {
    if op.ZAdd? {
      ZaddKeeps(op.items, op.flags, slot, p);
    } else if slot.Some? && slot.value.value.SortedSet? {
      ZsetValueKeeps(op, slot.value, slot.value.value.zset, p);
    } else {
      DropKeeps(slot, p);
    }
  }

  lemma {:induction false} ApplyKeeps(op: KeyOp, slot: Slot, now: Time, p: Promise)
    requires SoundSlot(slot, p) && OpKeepsTo(op, slot, now, p)
    ensures SoundSlot(Apply(op, slot, now).0, p)
  {
    match op
    case OnZset(z) => ZsetOpKeeps(z, slot, p);
    case OnStream(x) => StreamOpKeeps(x, slot, now, p);
    case OnHash(h) => PlainHash(h, slot, p);
    case OnList(l) => PlainList(l, slot, p);
    case OnMembers(m) => PlainSet(m, slot, p);
    case _ =>
  }

  lemma {:induction false} PlainHash(op: HashOp, slot: Slot, p: Promise)
    requires SoundSlot(slot, p)
    ensures SoundSlot(ApplyHash(op, slot).0, p)
  {
  }

  lemma {:induction false} PlainList(op: ListOp, slot: Slot, p: Promise)
    requires SoundSlot(slot, p)
    ensures SoundSlot(ApplyList(op, slot).0, p)
  {
  }

  lemma {:induction false} PlainSet(op: SetOp, slot: Slot, p: Promise)
    requires SoundSlot(slot, p)
    ensures SoundSlot(ApplySet(op, slot).0, p)
  {
  }

  lemma {:induction false} OnKeyKeeps(ks: Keyspace, now: Time, key: Bytes, op: KeyOp, p: Promise)
    requires SoundAll(ks, p) && OpKeepsTo(op, LiveSlot(ks, now, key), now, p)
    ensures SoundAll(OnKey(ks, now, key, op).0, p)
  {
    ApplyKeeps(op, LiveSlot(ks, now, key), now, p);
  }

  lemma {:induction false} ManyKeeps(ks: Keyspace, now: Time, steps: seq<(Bytes, KeyOp)>, stop: Stop, p: Promise)
    requires SoundAll(ks, p) && ManyKeepTo(ks, now, steps, stop, p)
    ensures SoundAll(RunMany(ks, now, steps, stop).0, p)
    decreases |steps|
  {
    if steps != [] {
      OnKeyKeeps(ks, now, steps[0].0, steps[0].1, p);
      var first := OnKey(ks, now, steps[0].0, steps[0].1);
      if !Stops(stop, first.1) {
        ManyKeeps(first.0, now, steps[1..], stop, p);
      }
    }
  }

  lemma {:induction false} StoreRangeKeeps(ks: Keyspace, now: Time, dst: Bytes, src: Bytes, lo: ScoreBound,
                                           hi: ScoreBound, p: Promise)
    requires SoundAll(ks, p)
    ensures SoundAll(StoreRangeResult(ks, now, dst, src, lo, hi).0, p)
  {
    var s := LiveSlot(ks, now, src);
    if s.Some? && s.value.value.SortedSet? {
      StoreRangeMeaning(s.value.value.zset, lo, hi);
    }
  }

  lemma {:induction false} ExecKeeps(ks: Keyspace, now: Time, cmd: Command, p: Promise)
    requires SoundAll(ks, p) && CommandKeepsTo(ks, now, cmd, p)
    ensures SoundAll(Exec(ks, now, cmd).0, p)
  {
    match cmd
    case One(key, op) => OnKeyKeeps(ks, now, key, op, p);
    case Many(steps, stop) => ManyKeeps(ks, now, steps, stop, p);
    case ZRangeStore(dst, src, lo, hi) => StoreRangeKeeps(ks, now, dst, src, lo, hi, p);
    case _ =>
  }

  lemma {:induction false} RunKeeps(ks: Keyspace, events: seq<Event>, p: Promise)
    requires SoundAll(ks, p) && RunKeepsTo(ks, events, p)
    ensures SoundAll(RunEvents(ks, events), p)
    decreases |events|
  {
    if events != [] {
      ExecKeeps(ks, events[0].now, events[0].cmd, p);
      RunKeeps(Exec(ks, events[0].now, events[0].cmd).0, events[1..], p);
    }
  }

  /** Saving and loading keeps every value sound, and rebuilds a sorted set exactly. */
  lemma {:induction false} ReloadKeeps(ks: Keyspace, saved: Time, loaded: Time, p: Promise)
    requires SoundAll(ks, p)
    ensures SoundAll(Reloaded(ks, saved, loaded), p)
    ensures forall k :: k in Live(ks, saved) && ks[k].value.SortedSet? ==>
                        Reloaded(ks, saved, loaded)[k].value == ks[k].value
  {
    forall k | k in Live(ks, saved)
      ensures Sound(ReloadedValue(ks[k].value, loaded), p)
      ensures ks[k].value.SortedSet? ==> ReloadedValue(ks[k].value, loaded) == ks[k].value {
      match ks[k].value
      case SortedSet(z) => ValidIsKeysOf(z);
      case Log(s) =>
        forall n | n in s.groups ensures GroupInv(s.groups[n]) ==> GroupInv(ReloadedGroup(s.groups[n], loaded)) {
          ReloadKeepsGroup(s.groups[n], loaded);
        }
      case _ =>
    }
  }

  // ----- whole histories -----

  /** Commands up to a save, and the load that follows. */
  datatype Session = Session(events: seq<Event>, saved: Time, loaded: Time)

  /** Sessions one after the other, then more commands. */
  datatype History = History(sessions: seq<Session>, events: seq<Event>)

  ghost function AfterSessions(ks: Keyspace, sessions: seq<Session>): Keyspace
    decreases |sessions|
  {
    if sessions == [] then ks
    else
      var s := sessions[0];
      AfterSessions(Reloaded(RunEvents(ks, s.events), s.saved, s.loaded), sessions[1..])
  }

  /** The keyspace a history leaves, starting from an empty store. */
  ghost function After(h: History): Keyspace {
    RunEvents(AfterSessions(map[], h.sessions), h.events)
  }

  ghost predicate SessionsKeepTo(ks: Keyspace, sessions: seq<Session>, p: Promise)
    decreases |sessions|
  {
    sessions == [] ||
    (var s := sessions[0];
     && RunKeepsTo(ks, s.events, p)
     && SessionsKeepTo(Reloaded(RunEvents(ks, s.events), s.saved, s.loaded), sessions[1..], p))
  }

  ghost predicate KeepsTo(h: History, p: Promise) {
    SessionsKeepTo(map[], h.sessions, p) && RunKeepsTo(AfterSessions(map[], h.sessions), h.events, p)
  }

  lemma {:induction false} SessionsKeep(ks: Keyspace, sessions: seq<Session>, p: Promise)
    requires SoundAll(ks, p) && SessionsKeepTo(ks, sessions, p)
    ensures SoundAll(AfterSessions(ks, sessions), p)
    decreases |sessions|
  {
    if sessions != [] {
      var s := sessions[0];
      RunKeeps(ks, s.events, p);
      ReloadKeeps(RunEvents(ks, s.events), s.saved, s.loaded, p);
      SessionsKeep(Reloaded(RunEvents(ks, s.events), s.saved, s.loaded), sessions[1..], p);
    }
  }

  /** Every value in the store is sound after every history that keeps to the promise. */
  lemma {:induction false} ReachableSound(h: History, p: Promise)
    requires KeepsTo(h, p)
    ensures SoundAll(After(h), p)
  {
    SessionsKeep(map[], h.sessions, p);
    RunKeeps(AfterSessions(map[], h.sessions), h.events, p);
  }

  const NOTHING := Promise(false, false)

  /** Promising nothing excludes no history. */
  lemma {:induction false} KeepsToNothing(h: History)
    ensures KeepsTo(h, NOTHING)
  {
    SessionsKeepToNothing(map[], h.sessions);
    RunKeepsToNothing(AfterSessions(map[], h.sessions), h.events);
  }

  lemma {:induction false} ManyKeepToNothing(ks: Keyspace, now: Time, steps: seq<(Bytes, KeyOp)>, stop: Stop)
    ensures ManyKeepTo(ks, now, steps, stop, NOTHING)
    decreases |steps|
  {
    if steps != [] {
      ManyKeepToNothing(OnKey(ks, now, steps[0].0, steps[0].1).0, now, steps[1..], stop);
    }
  }

  lemma {:induction false} RunKeepsToNothing(ks: Keyspace, events: seq<Event>)
    ensures RunKeepsTo(ks, events, NOTHING)
    decreases |events|
  {
    if events != [] {
      var e := events[0];
      if e.cmd.Many? {
        ManyKeepToNothing(ks, e.now, e.cmd.steps, e.cmd.stop);
      }
      RunKeepsToNothing(Exec(ks, e.now, e.cmd).0, events[1..]);
    }
  }

  lemma {:induction false} SessionsKeepToNothing(ks: Keyspace, sessions: seq<Session>)
    ensures SessionsKeepTo(ks, sessions, NOTHING)
    decreases |sessions|
  {
    if sessions != [] {
      var s := sessions[0];
      RunKeepsToNothing(ks, s.events);
      SessionsKeepToNothing(Reloaded(RunEvents(ks, s.events), s.saved, s.loaded), sessions[1..]);
    }
  }

  // ----- the results over reachable stores -----

  /** The members a score range asks for, from the member index alone. */
  function InRangeMembers(z: Zset, lo: ScoreBound, hi: ScoreBound): map<Bytes, Score> {
    map m | m in z.byMember && InBounds(z.byMember[m], lo, hi) :: z.byMember[m]
  }

  /**
   In every reachable store: the two indices of every sorted set agree, ZRANGEBYSCORE lists exactly the
   members in bounds sorted by (score, member), ZCOUNT is their number, and a snapshot brings the set back.
   */
  lemma {:induction false} ReachableRanges(h: History, now: Time, key: Bytes, lo: ScoreBound, hi: ScoreBound)
    requires var slot := LiveSlot(After(h), now, key); slot.Some? && slot.value.value.SortedSet?
    ensures var z := LiveSlot(After(h), now, key).value.value.zset;
            && ZsetValid(z)
            && Exec(After(h), now, One(key, OnZset(ZRangeByScore(lo, hi)))).1 ==
               Scored(SortedKeys(KeysOf(InRangeMembers(z, lo, hi))))
            && Exec(After(h), now, One(key, OnZset(ZCount(lo, hi)))).1 == Int(|InRangeMembers(z, lo, hi)|)
  {
    KeepsToNothing(h);
    ReachableSound(h, NOTHING);
    RangeReplies(After(h), now, key, lo, hi);
  }

  /** ... and a snapshot taken then brings it back as it was. */
  lemma {:induction false} ReachableReload(h: History, saved: Time, loaded: Time, key: Bytes)
    requires key in Live(After(h), saved) && After(h)[key].value.SortedSet?
    ensures key in Reloaded(After(h), saved, loaded)
    ensures Reloaded(After(h), saved, loaded)[key].value == After(h)[key].value
  {
    KeepsToNothing(h);
    ReachableSound(h, NOTHING);
    ReloadKeeps(After(h), saved, loaded, NOTHING);
  }

  lemma {:induction false} RangeReplies(ks: Keyspace, now: Time, key: Bytes, lo: ScoreBound, hi: ScoreBound)
    requires var slot := LiveSlot(ks, now, key);
             slot.Some? && slot.value.value.SortedSet? && ZsetValid(slot.value.value.zset)
    ensures var z := LiveSlot(ks, now, key).value.value.zset;
            && OnKey(ks, now, key, OnZset(ZRangeByScore(lo, hi))).1 ==
               Scored(SortedKeys(KeysOf(InRangeMembers(z, lo, hi))))
            && OnKey(ks, now, key, OnZset(ZCount(lo, hi))).1 == Int(|InRangeMembers(z, lo, hi)|)
  {
    var z := LiveSlot(ks, now, key).value.value.zset;
    RangeIsMembers(z, lo, hi);
    RangeOps(LiveSlot(ks, now, key).value, z, lo, hi);
  }

  lemma {:induction false} RangeOps(e: Entry, z: Zset, lo: ScoreBound, hi: ScoreBound)
    requires e.value == SortedSet(z)
    ensures ApplyZset(ZRangeByScore(lo, hi), Some(e)).1 == Scored(RangeByScore(z, lo, hi))
    ensures ApplyZset(ZCount(lo, hi), Some(e)).1 == Int(|RangeByScore(z, lo, hi)|)
  {
  }

  lemma {:induction false} RangeIsMembers(z: Zset, lo: ScoreBound, hi: ScoreBound)
    requires ZsetValid(z)
    ensures RangeByScore(z, lo, hi) == SortedKeys(KeysOf(InRangeMembers(z, lo, hi)))
    ensures |RangeByScore(z, lo, hi)| == |InRangeMembers(z, lo, hi)|
  {
    var found := set k | k in z.byScore && InBounds(k.score, lo, hi);
    forall k ensures k in found <==> k in KeysOf(InRangeMembers(z, lo, hi)) {
      InKeysOf(InRangeMembers(z, lo, hi), k);
    }
    assert found == KeysOf(InRangeMembers(z, lo, hi));
    KeysOfSize(InRangeMembers(z, lo, hi));
  }

  /**
   In every store reached by commands whose FORCE claims stay within the cursor, with any number of restarts:
   no pending id of any group of any stream has two owners, and all lie between 0-0 and the group's cursor.
   */
  lemma {:induction false} ReachableGroups(h: History, key: Bytes, group: Bytes)
    requires KeepsTo(h, Promise(true, false))
    requires key in After(h) && After(h)[key].value.Log? && group in After(h)[key].value.stream.groups
    ensures var g := After(h)[key].value.stream.groups[group]; Groups.Exclusive(g) && Groups.Bounded(g)
  {
    ReachableSound(h, Promise(true, false));
  }

  /** While sequence numbers do not run out, every stored entry id of every stream is at most its last id. */
  lemma {:induction false} ReachableIds(h: History, key: Bytes, id: StreamId)
    requires KeepsTo(h, Promise(false, true))
    requires key in After(h) && After(h)[key].value.Log? && id in After(h)[key].value.stream.entries
    ensures IdLess(ZERO_ID, id) && IdLeq(id, After(h)[key].value.stream.lastId)
  {
    ReachableSound(h, Promise(false, true));
  }
}
