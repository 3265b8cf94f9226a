/**
 One stream over its lifetime: XADD, XDEL, XTRIM and the group commands as steps, and what
 every run of steps keeps.
 */
module Streams {
  import opened Prelude
  import opened Ordering
  import opened Values
  import opened Groups
  import opened Autoclaim

  // ----- XADD -----

  /** The id XADD uses; `None` when an explicit id is not above the last one. `ms` is the wall clock. */
  function NextId(s: Stream, explicit: Option<StreamId>, ms: u64): Option<StreamId> {
    match explicit
    case Some(id) => if IdLeq(id, s.lastId) then None else Some(id)
    case None =>
      if ms > s.lastId.ms then Some(StreamId(ms, 0))
      else Some(StreamId(s.lastId.ms, Succ64(s.lastId.seqNo)))
  }

  function Added(s: Stream, fields: Fields, explicit: Option<StreamId>, ms: u64): Stream {
    match NextId(s, explicit, ms)
    case None => s
    case Some(id) => s.(entries := s.entries[id := fields], lastId := id)
  }

  /** An automatic id needs a sequence number past the last 64-bit one. */
  predicate SequenceExhausted(s: Stream, explicit: Option<StreamId>, ms: u64) {
    explicit.None? && ms <= s.lastId.ms && s.lastId.seqNo == U64_MAX
  }

  /** The id of a successful XADD is above every earlier one exactly when the sequence is not exhausted. */
  lemma {:induction false} NextIdGrowsIff(s: Stream, explicit: Option<StreamId>, ms: u64)
    requires NextId(s, explicit, ms).Some?
    ensures IdLess(s.lastId, NextId(s, explicit, ms).value) <==> !SequenceExhausted(s, explicit, ms)
  {
  }

  /**
   An explicit id is taken as it is or refused; an automatic one is the smallest id above the last that is not before
   the wall clock, unless the sequence is exhausted.
   */
  lemma {:induction false} NextIdMeaning(s: Stream, explicit: Option<StreamId>, ms: u64)
    ensures explicit.Some? ==>
              NextId(s, explicit, ms) == if IdLess(s.lastId, explicit.value) then explicit else None
    ensures explicit.None? ==> NextId(s, explicit, ms).Some?
    ensures explicit.None? && !SequenceExhausted(s, explicit, ms) ==>
              var id := NextId(s, explicit, ms).value;
              && IdLess(s.lastId, id) && id.ms >= ms
              && forall x: StreamId :: IdLess(s.lastId, x) && x.ms >= ms ==> IdLeq(id, x)
  {
    IdOrder();
  }

  /** XADD stores the given fields under the id it returns and changes nothing else. */
  lemma {:induction false} AddedMeaning(s: Stream, fields: Fields, explicit: Option<StreamId>, ms: u64)
    ensures var s' := Added(s, fields, explicit, ms);
            match NextId(s, explicit, ms)
            case None => s' == s
            case Some(id) =>
              && s'.entries.Keys == s.entries.Keys + {id}
              && s'.entries[id] == fields
              && (forall x :: x in s.entries && x != id ==> s'.entries[x] == s.entries[x])
              && s'.lastId == id && s'.groups == s.groups
  {
  }

  // ----- XDEL and XTRIM -----

  function Deleted(s: Stream, ids: seq<StreamId>): Stream {
    s.(entries := s.entries - Elems(ids))
  }

  /** The ids MAXLEN keeps: the last `max` in id order. */
  function LargestIds(entries: map<StreamId, Fields>, max: Option<nat>): seq<StreamId> {
    var ids := SortedIds(entries.Keys);
    if max.Some? && max.value < |ids| then ids[|ids| - max.value..] else ids
  }

  function Restrict(entries: map<StreamId, Fields>, ids: seq<StreamId>): map<StreamId, Fields> {
    map id | id in entries && id in ids :: entries[id]
  }

  function FromMinimum(entries: map<StreamId, Fields>, minId: Option<StreamId>): map<StreamId, Fields> {
    if minId.None? then entries else map id | id in entries && IdLeq(minId.value, id) :: entries[id]
  }

  function Trimmed(s: Stream, max: Option<nat>, minId: Option<StreamId>): Stream {
    s.(entries := FromMinimum(Restrict(s.entries, LargestIds(s.entries, max)), minId))
  }

  /** A suffix of an ascending list: distinct, and above everything outside it. */
  lemma {:induction false} SuffixIsLargest(ids: seq<StreamId>, cut: nat)
    requires cut <= |ids| && Ascending(ids, IdLess)
    ensures forall i, j :: 0 <= i < j < |ids[cut..]| ==> ids[cut..][i] != ids[cut..][j]
    ensures forall gone, id :: gone in ids && gone !in ids[cut..] && id in ids[cut..] ==> IdLess(gone, id)
    ensures forall id :: id in ids[cut..] ==> id in ids
  {
  }

  lemma {:induction false} RestrictDistinct(entries: map<StreamId, Fields>, ids: seq<StreamId>)
    requires forall i, j :: 0 <= i < j < |ids| ==> ids[i] != ids[j]
    requires forall id :: id in ids ==> id in entries
    ensures |Restrict(entries, ids)| == |ids|
  {
    DistinctMultiset(ids);
    assert Restrict(entries, ids).Keys == Elems(ids);
  }

  lemma {:induction false} LargestIsSuffix(entries: map<StreamId, Fields>, max: Option<nat>)
    ensures var all := SortedIds(entries.Keys);
            var n := if max.Some? then Min(max.value, |entries|) else |entries|;
            |all| == |entries| && LargestIds(entries, max) == all[|all| - n..]
  {
  }

  /** `after` keeps `n` of the entries of `before`, all above every entry that is gone. */
  ghost predicate KeepsLargest(before: map<StreamId, Fields>, after: map<StreamId, Fields>, n: nat) {
    && |after| == n
    && (forall id :: id in after ==> id in before && after[id] == before[id])
    && (forall gone, id :: gone in before && gone !in after && id in after ==> IdLess(gone, id))
  }

  lemma {:induction false} RestrictToSuffix(entries: map<StreamId, Fields>, cut: nat)
    requires cut <= |SortedIds(entries.Keys)|
    ensures KeepsLargest(entries, Restrict(entries, SortedIds(entries.Keys)[cut..]), |SortedIds(entries.Keys)| - cut)
  {
    var all := SortedIds(entries.Keys);
    SuffixIsLargest(all, cut);
    RestrictDistinct(entries, all[cut..]);
  }

  /** XTRIM MAXLEN keeps exactly the largest ids. */
  lemma {:induction false} TrimKeepsLargest(s: Stream, max: Option<nat>)
    ensures KeepsLargest(s.entries, Trimmed(s, max, None).entries,
                         if max.Some? then Min(max.value, |s.entries|) else |s.entries|)
  {
    LargestIsSuffix(s.entries, max);
    var n := if max.Some? then Min(max.value, |s.entries|) else |s.entries|;
    RestrictToSuffix(s.entries, |s.entries| - n);
  }

  /** XDEL leaves exactly the entries it does not name, and nothing else changes. */
  lemma {:induction false} DeletedMeaning(s: Stream, ids: seq<StreamId>)
    ensures var s' := Deleted(s, ids);
            && (forall id :: id in s'.entries <==> id in s.entries && id !in ids)
            && (forall id :: id in s'.entries ==> s'.entries[id] == s.entries[id])
            && s'.lastId == s.lastId && s'.groups == s.groups
  {
  }

  /**
   XTRIM with MINID leaves exactly what MAXLEN leaves and what is not below the minimum; fields, last id and groups
   stay.
   */
  lemma {:induction false} TrimmedMeaning(s: Stream, max: Option<nat>, min: StreamId)
    ensures var s', kept := Trimmed(s, max, Some(min)), Trimmed(s, max, None);
            && (forall id :: id in s'.entries <==> id in kept.entries && !IdLess(id, min))
            && (forall id :: id in s'.entries ==> id in s.entries && s'.entries[id] == s.entries[id])
            && s'.lastId == s.lastId && s'.groups == s.groups
            && kept.lastId == s.lastId && kept.groups == s.groups
  {
    FromMinimumMeaning(Trimmed(s, max, None).entries, min);
  }

  lemma {:induction false} FromMinimumMeaning(entries: map<StreamId, Fields>, min: StreamId)
    ensures var left := FromMinimum(entries, Some(min));
            && (forall id :: id in left <==> id in entries && !IdLess(id, min))
            && (forall id :: id in left ==> left[id] == entries[id])
  {
    IdOrder();
  }

  // ----- steps -----

  datatype Op =
    | Add(fields: Fields, explicit: Option<StreamId>, ms: u64)
    | Del(ids: seq<StreamId>)
    | Trim(max: Option<nat>, minId: Option<StreamId>)
    | CreateGroup(group: Bytes, id: StreamId)
    | DestroyGroup(group: Bytes)
    | ReadNew(group: Bytes, consumer: Bytes, count: Option<nat>, now: Time)
    | Ack(group: Bytes, ids: seq<StreamId>, hints: seq<Bytes>)
    | Claim(group: Bytes, ids: seq<StreamId>, args: ClaimArgs, now: Time, hints: seq<Bytes>)
    | AutoClaim(group: Bytes, target: Bytes, minIdle: Time, start: StreamId, count: Option<nat>, now: Time,
      order: seq<Bytes>)

  function WithGroup(s: Stream, name: Bytes, g: Group): Stream {
    s.(groups := s.groups[name := g])
  }

  /** The cursor of a new group; the largest id stands for "$", the stream's last id. */
  function ResolveStart(s: Stream, id: StreamId): StreamId {
    if id == MAX_ID then s.lastId else id
  }

  function CreatedGroup(s: Stream, name: Bytes, id: StreamId): Stream {
    if name in s.groups then s else WithGroup(s, name, Group(ResolveStart(s, id), map[]))
  }

  /** What an operation does to the group it names. */
  ghost function GroupStep(s: Stream, g: Group, op: Op): Group {
    match op
    case ReadNew(_, c, count, now) => Delivered(g, NewIds(s.entries, g, count), c, now)
    case Ack(_, ids, hints) => AckAll(g, ids, hints)
    case Claim(_, ids, a, now, hints) => ClaimAll(s.entries, g, ids, a, now, hints)
    case AutoClaim(_, target, minIdle, start, count, now, order) =>
      AutoPage(g, target, minIdle, start, count, now, order).group
    case _ => g
  }

  predicate OnGroup(op: Op) {
    op.ReadNew? || op.Ack? || op.Claim? || op.AutoClaim?
  }

  /** A command that names a missing group changes nothing. */
  ghost function Step(s: Stream, op: Op): Stream {
    match op
    case Add(fields, explicit, ms) => Added(s, fields, explicit, ms)
    case Del(ids) => Deleted(s, ids)
    case Trim(max, minId) => Trimmed(s, max, minId)
    case CreateGroup(name, id) => CreatedGroup(s, name, id)
    case DestroyGroup(name) => s.(groups := s.groups - {name})
    case _ => if op.group in s.groups then WithGroup(s, op.group, GroupStep(s, s.groups[op.group], op)) else s
  }

  // ----- ids over a run -----

  ghost predicate StreamOk(s: Stream) {
    forall id :: id in s.entries ==> IdLess(ZERO_ID, id) && IdLeq(id, s.lastId)
  }

  predicate IdAvailable(s: Stream, op: Op) {
    op.Add? ==> !SequenceExhausted(s, op.explicit, op.ms)
  }

  ghost predicate IdsAvailable(s: Stream, ops: seq<Op>)
    decreases |ops|
  {
    ops == [] || (IdAvailable(s, ops[0]) && IdsAvailable(Step(s, ops[0]), ops[1..]))
  }

  ghost function Run(s: Stream, ops: seq<Op>): Stream
    decreases |ops|
  {
    if ops == [] then s else Run(Step(s, ops[0]), ops[1..])
  }

  /** The id an operation adds, if it adds one. */
  function AddedBy(s: Stream, op: Op): seq<StreamId> {
    if op.Add? && NextId(s, op.explicit, op.ms).Some? then [NextId(s, op.explicit, op.ms).value] else []
  }

  /** The ids returned by the XADDs of a run. */
  ghost function AddedIds(s: Stream, ops: seq<Op>): seq<StreamId>
    decreases |ops|
  {
    if ops == [] then [] else AddedBy(s, ops[0]) + AddedIds(Step(s, ops[0]), ops[1..])
  }

  lemma {:induction false} StepIds(s: Stream, op: Op)
    requires StreamOk(s) && IdAvailable(s, op)
    ensures StreamOk(Step(s, op))
    ensures IdLeq(s.lastId, Step(s, op).lastId)
    ensures forall id :: id in AddedBy(s, op) ==> IdLess(s.lastId, id) && id == Step(s, op).lastId
  {
    if op.Add? && NextId(s, op.explicit, op.ms).Some? {
      NextIdGrowsIff(s, op.explicit, op.ms);
    }
  }

  /**
   Ids are never reused or reordered: over any run the ids returned by XADD are strictly increasing and
   above everything before, and every stored id stays at or below the stream's last id.
   */
  lemma {:induction false} IdsNeverReused(s: Stream, ops: seq<Op>)
    requires StreamOk(s) && IdsAvailable(s, ops)
    ensures StreamOk(Run(s, ops))
    ensures IdLeq(s.lastId, Run(s, ops).lastId)
    ensures Ascending(AddedIds(s, ops), IdLess)
    ensures forall id :: id in AddedIds(s, ops) ==> IdLess(s.lastId, id) && IdLeq(id, Run(s, ops).lastId)
    decreases |ops|
  {
    if ops != [] {
      var s1 := Step(s, ops[0]);
      StepIds(s, ops[0]);
      IdsNeverReused(s1, ops[1..]);
      AscendingConcat(AddedBy(s, ops[0]), AddedIds(s1, ops[1..]), IdLess);
    }
  }

  /** And when the sequence is exhausted, XADD returns an id that is not above the last one. */
  lemma {:induction false} ExhaustedReorders(s: Stream, op: Op)
    requires op.Add? && SequenceExhausted(s, op.explicit, op.ms)
    ensures AddedBy(s, op) == [StreamId(s.lastId.ms, 0)]
    ensures IdLess(AddedBy(s, op)[0], s.lastId) && IdLess(Step(s, op).lastId, s.lastId)
  {
  }

  // ----- what entries contain -----

  /** The fields of the last XADD of a run that returned `id`, if one did. */
  ghost function LastAdd(s: Stream, ops: seq<Op>, id: StreamId): Option<Fields>
    decreases |ops|
  {
    if ops == [] then None
    else
      var later := LastAdd(Step(s, ops[0]), ops[1..], id);
      if later.Some? then later
      else if ops[0].Add? && NextId(s, ops[0].explicit, ops[0].ms) == Some(id) then Some(ops[0].fields)
      else None
  }

  lemma {:induction false} StepContents(s: Stream, op: Op, id: StreamId)
    requires id in Step(s, op).entries
    ensures if op.Add? && NextId(s, op.explicit, op.ms) == Some(id) then Step(s, op).entries[id] == op.fields
            else id in s.entries && Step(s, op).entries[id] == s.entries[id]
  {
    match op
    case Add(fields, explicit, ms) => AddedMeaning(s, fields, explicit, ms);
    case Del(ids) => DeletedMeaning(s, ids);
    case Trim(max, minId) =>
      if minId.Some? {
        TrimmedMeaning(s, max, minId.value);
      }
    case _ =>
  }

  /** Every stored entry holds the fields of the last XADD that returned its id, or those it had at the start. */
  lemma {:induction false} ContentsKept(s: Stream, ops: seq<Op>, id: StreamId)
    requires id in Run(s, ops).entries
    ensures var added := LastAdd(s, ops, id);
            if added.Some? then Run(s, ops).entries[id] == added.value
            else id in s.entries && Run(s, ops).entries[id] == s.entries[id]
    decreases |ops|
  {
    if ops != [] {
      ContentsKept(Step(s, ops[0]), ops[1..], id);
      if LastAdd(Step(s, ops[0]), ops[1..], id).None? {
        StepContents(s, ops[0], id);
      }
    }
  }

  // ----- new groups -----

  /**
   XGROUP CREATE of a new group: nobody has anything pending, and a first read is offered exactly the entries above
   the given id - or, for "$", no entry there already; everything else in the stream stays.
   */
  lemma {:induction false} NewGroupMeaning(s: Stream, name: Bytes, id: StreamId)
    requires name !in s.groups
    ensures var s' := CreatedGroup(s, name, id);
            && name in s'.groups && PendingIds(s'.groups[name]) == {}
            && (forall n :: n != name ==> (n in s'.groups <==> n in s.groups))
            && (forall n :: n in s.groups ==> s'.groups[n] == s.groups[n])
            && s'.entries == s.entries && s'.lastId == s.lastId
            && (id != MAX_ID ==> forall x :: x in NewIds(s.entries, s'.groups[name], None) <==>
                                             x in s.entries && IdLess(id, x))
            && (id == MAX_ID && StreamOk(s) ==> forall count :: NewIds(s.entries, s'.groups[name], count) == [])
            && (id == MAX_ID ==> forall x :: IdLess(s.lastId, x) ==>
                                   x in NewIds(s.entries[x := map[]], s'.groups[name], None))
  {
    var g := CreatedGroup(s, name, id).groups[name];
    assert PendingIds(g) == {};
    if id != MAX_ID {
      var newer := set x | x in s.entries && IdLess(id, x);
      assert forall x :: x in SortedIds(newer) <==> x in newer;
    } else {
      if StreamOk(s) {
        var newer := set x | x in s.entries && IdLess(s.lastId, x);
        assert newer == {};
        assert SortedIds(newer) == [];
      }
      forall x | IdLess(s.lastId, x) ensures x in NewIds(s.entries[x := map[]], g, None) {
        var newer := set y | y in s.entries[x := map[]] && IdLess(s.lastId, y);
        assert x in newer;
        assert x in SortedIds(newer);
      }
    }
  }

  // ----- the life of one group -----

  /** What has happened to a group since it was created with first cursor `start`. */
  datatype Ledger = Ledger(start: StreamId, delivered: seq<StreamId>, acked: seq<StreamId>, forced: seq<StreamId>,
                           removed: set<StreamId>)

  function FreshLedger(start: StreamId): Ledger {
    Ledger(start, [], [], [], {})
  }

  /** The ledger of group `name` after one more operation; creating the group opens a new one. */
  ghost function Record(s: Stream, led: Ledger, op: Op, name: Bytes): Ledger {
    if name !in s.groups then
      if op.CreateGroup? && op.group == name then FreshLedger(ResolveStart(s, op.id)) else led
    else if op.Del? || op.Trim? then led.(removed := led.removed + (s.entries.Keys - Step(s, op).entries.Keys))
    else if !OnGroup(op) || op.group != name then led
    else RecordGroup(s.entries, s.groups[name], led, op)
  }

  ghost function RecordGroup(entries: map<StreamId, Fields>, g: Group, led: Ledger, op: Op): Ledger {
    match op
    case ReadNew(_, c, count, now) => led.(delivered := led.delivered + NewIds(entries, g, count))
    case Ack(_, ids, hints) => led.(acked := led.acked + Acked(g, ids, hints))
    case Claim(_, ids, a, now, hints) => led.(forced := led.forced + Forced(entries, g, ids, a, now, hints))
    case _ => led
  }

  ghost function RunLedger(s: Stream, led: Ledger, ops: seq<Op>, name: Bytes): Ledger
    decreases |ops|
  {
    if ops == [] then led else RunLedger(Step(s, ops[0]), Record(s, led, ops[0], name), ops[1..], name)
  }

  /** The ledger to begin with: the group does not exist yet, or has had no consumer. */
  function FirstLedger(s: Stream, name: Bytes): Ledger {
    FreshLedger(if name in s.groups then s.groups[name].lastDelivered else ZERO_ID)
  }

  predicate Unread(s: Stream, name: Bytes) {
    name in s.groups ==> s.groups[name].consumers == map[]
  }

  // ----- ownership and conservation: nothing is asked of ids, deletions or group lifetimes -----

  /** FORCE stays above 0-0 and at or below the cursor of the group it names. */
  ghost predicate ForceLegal(s: Stream, op: Op) {
    op.Claim? && op.group in s.groups ==> ForceWithin(s.entries, s.groups[op.group], op.ids, op.args)
  }

  /** ... throughout a run, as far as group `name` is concerned. */
  ghost predicate ForceLegalRun(s: Stream, ops: seq<Op>, name: Bytes)
    decreases |ops|
  {
    || ops == []
    || (&& (ops[0].Claim? && ops[0].group == name ==> ForceLegal(s, ops[0]))
        && ForceLegalRun(Step(s, ops[0]), ops[1..], name))
  }

  /** Conservation: what went in by delivery or FORCE is what was acknowledged plus what is pending. */
  ghost predicate Balanced(g: Group, led: Ledger) {
    multiset(led.delivered) + multiset(led.forced) == multiset(led.acked) + multiset(PendingIds(g))
  }

  /** First deliveries come in order, after the first cursor and up to the present one. */
  ghost predicate InOrder(led: Ledger, cursor: StreamId) {
    && Ascending(led.delivered, IdLess)
    && IdLeq(led.start, cursor)
    && (forall id :: id in led.delivered ==> IdLess(led.start, id) && IdLeq(id, cursor))
  }

  ghost predicate OwnerInv(g: Group, led: Ledger) {
    GroupInv(g) && Balanced(g, led) && InOrder(led, g.lastDelivered)
  }

  lemma {:induction false} ElemsConcat<T>(a: seq<T>, b: seq<T>)
    ensures Elems(a + b) == Elems(a) + Elems(b)
    ensures multiset(a + b) == multiset(a) + multiset(b)
  {
  }

  lemma {:induction false} AscendingMultiset(ids: seq<StreamId>)
    requires Ascending(ids, IdLess)
    ensures multiset(ids) == multiset(Elems(ids))
  {
    AscendingDistinct(ids, IdLess);
    DistinctMultiset(ids);
  }

  lemma {:induction false} DisjointSum<T>(a: set<T>, b: set<T>)
    requires a !! b
    ensures multiset(a + b) == multiset(a) + multiset(b)
  {
  }

  /** Adding `x` on both sides. */
  lemma {:induction false} AddBoth<T>(d: multiset<T>, f: multiset<T>, a: multiset<T>, p: multiset<T>, x: multiset<T>)
    requires d + f == a + p
    ensures (d + x) + f == a + (p + x)
  {
    assert (d + x) + f == (d + f) + x;
    assert a + (p + x) == (a + p) + x;
  }

  lemma {:induction false} FreshOwner(g: Group)
    requires g.consumers == map[]
    ensures OwnerInv(g, FreshLedger(g.lastDelivered))
  {
    assert PendingIds(g) == {};
  }

  lemma {:induction false} ReadBalance(g: Group, ids: seq<StreamId>, c: Bytes, now: Time, led: Ledger)
    requires GroupInv(g) && Balanced(g, led)
    requires Ascending(ids, IdLess) && forall id :: id in ids ==> IdLess(g.lastDelivered, id)
    ensures Balanced(Delivered(g, ids, c, now), led.(delivered := led.delivered + ids))
  {
    var g' := Delivered(g, ids, c, now);
    var x := multiset(ids);
    assert multiset(PendingIds(g')) == multiset(PendingIds(g)) + x by {
      DeliveredKeeps(g, ids, c, now);
      AscendingMultiset(ids);
      DisjointSum(PendingIds(g), Elems(ids));
    }
    assert multiset(led.delivered + ids) == multiset(led.delivered) + x by {
      ElemsConcat(led.delivered, ids);
    }
    AddBoth(multiset(led.delivered), multiset(led.forced), multiset(led.acked), multiset(PendingIds(g)), x);
  }

  /** Delivering ids above the cursor keeps the deliveries in order. */
  lemma {:induction false} ReadInOrder(led: Ledger, cursor: StreamId, ids: seq<StreamId>)
    requires InOrder(led, cursor)
    requires Ascending(ids, IdLess) && forall id :: id in ids ==> IdLess(cursor, id)
    ensures InOrder(led.(delivered := led.delivered + ids), if ids == [] then cursor else ids[|ids| - 1])
  {
    if ids == [] {
      assert led.delivered + ids == led.delivered;
    } else {
      AscendingConcat(led.delivered, ids, IdLess);
      AscendingLast(ids);
      assert ids[|ids| - 1] in ids;
    }
  }

  lemma {:induction false} AckBalance(g: Group, ids: seq<StreamId>, hints: seq<Bytes>, led: Ledger)
    requires GroupInv(g) && Balanced(g, led)
    ensures Balanced(AckAll(g, ids, hints), led.(acked := led.acked + Acked(g, ids, hints)))
  {
    AckKeeps(g, ids, hints);
    ElemsConcat(led.acked, Acked(g, ids, hints));
  }

  lemma {:induction false} ClaimBalance(entries: map<StreamId, Fields>, g: Group, ids: seq<StreamId>, a: ClaimArgs,
                                        now: Time, hints: seq<Bytes>, led: Ledger)
    requires GroupInv(g) && Balanced(g, led)
    ensures Balanced(ClaimAll(entries, g, ids, a, now, hints),
                     led.(forced := led.forced + Forced(entries, g, ids, a, now, hints)))
  {
    ClaimEffect(entries, g, ids, a, now, hints);
    var x := multiset(Forced(entries, g, ids, a, now, hints));
    AddBoth(multiset(led.forced), multiset(led.delivered), multiset(led.acked), multiset(PendingIds(g)), x);
    assert multiset(led.forced + Forced(entries, g, ids, a, now, hints)) == multiset(led.forced) + x;
  }

  lemma {:induction false} ReadOwner(entries: map<StreamId, Fields>, g: Group, led: Ledger, c: Bytes,
                                     count: Option<nat>, now: Time)
    requires OwnerInv(g, led)
    ensures var ids := NewIds(entries, g, count);
            OwnerInv(Delivered(g, ids, c, now), led.(delivered := led.delivered + ids))
  {
    var ids := NewIds(entries, g, count);
    NewIdsAbove(entries, g, count);
    assert GroupInv(Delivered(g, ids, c, now)) by { DeliveredKeeps(g, ids, c, now); }
    ReadBalance(g, ids, c, now, led);
    ReadInOrder(led, g.lastDelivered, ids);
  }

  lemma {:induction false} AckOwner(g: Group, led: Ledger, ids: seq<StreamId>, hints: seq<Bytes>)
    requires OwnerInv(g, led)
    ensures OwnerInv(AckAll(g, ids, hints), led.(acked := led.acked + Acked(g, ids, hints)))
  {
    assert GroupInv(AckAll(g, ids, hints)) by { AckKeeps(g, ids, hints); }
    AckCursor(g, ids, hints);
    AckBalance(g, ids, hints, led);
  }

  lemma {:induction false} ClaimOwnerInv(entries: map<StreamId, Fields>, g: Group, led: Ledger, ids: seq<StreamId>,
                                         a: ClaimArgs, now: Time, hints: seq<Bytes>)
    requires OwnerInv(g, led) && ForceWithin(entries, g, ids, a)
    ensures OwnerInv(ClaimAll(entries, g, ids, a, now, hints),
                     led.(forced := led.forced + Forced(entries, g, ids, a, now, hints)))
  {
    ClaimKeepsIff(entries, g, ids, a, now, hints);
    ClaimCursor(entries, g, ids, a, now, hints);
    ClaimBalance(entries, g, ids, a, now, hints, led);
  }

  /** Every group command keeps ownership and the ledger's balance. */
  lemma {:induction false} GroupStepOwner(s: Stream, g: Group, led: Ledger, op: Op)
    requires OwnerInv(g, led) && OnGroup(op)
    requires op.Claim? ==> ForceWithin(s.entries, g, op.ids, op.args)
    ensures OwnerInv(GroupStep(s, g, op), RecordGroup(s.entries, g, led, op))
  {
    match op
    case ReadNew(_, c, count, now) => ReadOwner(s.entries, g, led, c, count, now);
    case Ack(_, ids, hints) => AckOwner(g, led, ids, hints);
    case Claim(_, ids, a, now, hints) => ClaimOwnerInv(s.entries, g, led, ids, a, now, hints);
    case AutoClaim(_, target, minIdle, from, count, now, order) =>
      PageEffect(g, target, minIdle, from, count, now, order);
  }

  /** A group, as long as it exists, with its ledger. */
  ghost predicate Owned(s: Stream, led: Ledger, name: Bytes) {
    name in s.groups ==> OwnerInv(s.groups[name], led)
  }

  lemma {:induction false} StepKeeps(s: Stream, led: Ledger, op: Op, name: Bytes)
    requires Owned(s, led, name)
    requires (op.Claim? && op.group == name) ==> ForceLegal(s, op)
    ensures Owned(Step(s, op), Record(s, led, op, name), name)
  {
    if name !in s.groups {
      if op.CreateGroup? && op.group == name {
        FreshOwner(Group(ResolveStart(s, op.id), map[]));
      }
    } else if OnGroup(op) && op.group == name {
      GroupStepOwner(s, s.groups[name], led, op);
      OwnStep(s, led, op, name);
    } else {
      OtherStep(s, led, op, name);
    }
  }

  /** A command on the group writes that group back and records it. */
  lemma {:induction false} OwnStep(s: Stream, led: Ledger, op: Op, name: Bytes)
    requires name in s.groups && OnGroup(op) && op.group == name
    ensures Step(s, op) == WithGroup(s, name, GroupStep(s, s.groups[name], op))
    ensures Record(s, led, op, name) == RecordGroup(s.entries, s.groups[name], led, op)
  {
  }

  /** Any other command leaves the group alone, or destroys it, and records at most removals. */
  lemma {:induction false} OtherStep(s: Stream, led: Ledger, op: Op, name: Bytes)
    requires name in s.groups && !(OnGroup(op) && op.group == name)
    ensures name in Step(s, op).groups ==> Step(s, op).groups[name] == s.groups[name]
    ensures var led' := Record(s, led, op, name);
            led' == led.(removed := led'.removed) && (!op.Del? && !op.Trim? ==> led' == led)
  {
  }

  lemma {:induction false} RunKeeps(s: Stream, led: Ledger, ops: seq<Op>, name: Bytes)
    requires Owned(s, led, name) && ForceLegalRun(s, ops, name)
    ensures Owned(Run(s, ops), RunLedger(s, led, ops, name), name)
    decreases |ops|
  {
    if ops != [] {
      StepKeeps(s, led, ops[0], name);
      RunKeeps(Step(s, ops[0]), Record(s, led, ops[0], name), ops[1..], name);
    }
  }

  /**
   The work-distribution guarantees of a group, for every run of stream commands by any mix of consumers in
   which FORCE stays within the cursor, through XDEL, XTRIM, wrapped ids, XGROUP DESTROY and re-creation: no id
   is pending for two consumers; pending ids are real and already delivered; first deliveries come in strictly
   increasing order; and deliveries plus FORCE-created entries equal acknowledgements plus what is still
   pending, counted since the group was last created.
   */
  lemma {:induction false} GroupLife(s: Stream, ops: seq<Op>, name: Bytes)
    requires Unread(s, name) && ForceLegalRun(s, ops, name)
    requires name in Run(s, ops).groups
    ensures var led := RunLedger(s, FirstLedger(s, name), ops, name);
            var g := Run(s, ops).groups[name];
            && Exclusive(g) && Bounded(g)
            && Ascending(led.delivered, IdLess)
            && (forall id :: id in led.delivered ==> IdLess(led.start, id) && IdLeq(id, g.lastDelivered))
            && multiset(led.delivered) + multiset(led.forced) == multiset(led.acked) + multiset(PendingIds(g))
  {
    if name in s.groups {
      FreshOwner(s.groups[name]);
    }
    RunKeeps(s, FirstLedger(s, name), ops, name);
  }

  /** Every group of a stream has exclusive, bounded pending lists. */
  ghost predicate GroupsInv(s: Stream) {
    forall n :: n in s.groups ==> GroupInv(s.groups[n])
  }

  lemma {:induction false} GroupStepInv(s: Stream, g: Group, op: Op)
    requires GroupInv(g) && OnGroup(op)
    requires op.Claim? ==> ForceWithin(s.entries, g, op.ids, op.args)
    ensures GroupInv(GroupStep(s, g, op))
  {
    match op
    case ReadNew(_, c, count, now) =>
      NewIdsAbove(s.entries, g, count);
      DeliveredKeeps(g, NewIds(s.entries, g, count), c, now);
    case Ack(_, ids, hints) => AckKeeps(g, ids, hints);
    case Claim(_, ids, a, now, hints) => ClaimKeepsIff(s.entries, g, ids, a, now, hints);
    case AutoClaim(_, target, minIdle, from, count, now, order) =>
      PageEffect(g, target, minIdle, from, count, now, order);
  }

  lemma {:induction false} WithGroupInv(s: Stream, name: Bytes, g: Group)
    requires GroupsInv(s) && GroupInv(g)
    ensures GroupsInv(WithGroup(s, name, g))
  {
  }

  /** One step keeps the invariant of all groups of the stream, those created and destroyed included. */
  lemma {:induction false} StepKeepsGroups(s: Stream, op: Op)
    requires GroupsInv(s) && ForceLegal(s, op)
    ensures GroupsInv(Step(s, op))
  {
    if OnGroup(op) && op.group in s.groups {
      GroupStepInv(s, s.groups[op.group], op);
      StepOnGroup(s, op);
      WithGroupInv(s, op.group, GroupStep(s, s.groups[op.group], op));
    }
  }

  // ----- how long a consumer keeps an entry -----

  /** The operation may take `id`, pending as `p` in group `name`, away from its consumer. */
  predicate Releases(op: Op, name: Bytes, id: StreamId, p: Pending) {
    match op
    case DestroyGroup(n) => n == name
    case Ack(n, ids, _) => n == name && id in ids
    case Claim(n, ids, a, now, _) =>
      n == name && id in ids && (a.force || a.minIdle <= 0 || now - p.deliveryTime >= a.minIdle)
    case AutoClaim(n, _, minIdle, start, _, now, _) =>
      n == name && IdLeq(start, id) && (minIdle <= 0 || now - p.deliveryTime >= minIdle)
    case _ => false
  }

  lemma {:induction false} ReadHeld(entries: map<StreamId, Fields>, g: Group, reader: Bytes, count: Option<nat>,
                                    now: Time, c: Bytes, id: StreamId)
    requires Bounded(g) && Holds(g, c, id)
    ensures var g' := Delivered(g, NewIds(entries, g, count), reader, now);
            Holds(g', c, id) && g'.consumers[c][id] == g.consumers[c][id]
  {
    var ids := NewIds(entries, g, count);
    NewIdsAbove(entries, g, count);
    AboveIsFresh(g, ids);
    DeliveredMeaning(g, ids, reader, now);
  }

  lemma {:induction false} AutoHeld(g: Group, target: Bytes, minIdle: Time, start: StreamId, count: Option<nat>,
                                    now: Time, order: seq<Bytes>, c: Bytes, id: StreamId)
    requires GroupInv(g) && Holds(g, c, id)
    requires !IdLeq(start, id) || IdleFor(g.consumers[c][id], now) < minIdle
    ensures var g' := AutoPage(g, target, minIdle, start, count, now, order).group;
            Holds(g', c, id) && g'.consumers[c][id] == g.consumers[c][id]
  {
    PageEffect(g, target, minIdle, start, count, now, order);
    var p := AutoPage(g, target, minIdle, start, count, now, order);
    forall i | 0 <= i < |p.taken| ensures IdsOf(p.taken)[i] != id {
      assert p.taken[i] in p.taken;
      assert Qualifies(g, p.taken[i], start, minIdle, now);
    }
  }

  lemma {:induction false} GroupStepHeld(s: Stream, g: Group, op: Op, c: Bytes, id: StreamId)
    requires GroupInv(g) && OnGroup(op) && Holds(g, c, id)
    requires !Releases(op, op.group, id, g.consumers[c][id])
    ensures var g' := GroupStep(s, g, op);
            Holds(g', c, id) && g'.consumers[c][id] == g.consumers[c][id]
  {
    match op
    case ReadNew(_, reader, count, now) => ReadHeld(s.entries, g, reader, count, now, c, id);
    case Ack(_, ids, hints) => AckOthers(g, ids, hints, c, id);
    case Claim(_, ids, a, now, hints) => ClaimOwner(s.entries, g, ids, a, now, hints, c, id);
    case AutoClaim(_, target, minIdle, start, count, now, order) =>
      AutoHeld(g, target, minIdle, start, count, now, order, c, id);
  }

  /** Consumer `c` of group `name` has `id` pending as `p`. */
  ghost predicate Keeps(s: Stream, name: Bytes, c: Bytes, id: StreamId, p: Pending) {
    name in s.groups && Holds(s.groups[name], c, id) && s.groups[name].consumers[c][id] == p
  }

  lemma {:induction false} StepHeld(s: Stream, op: Op, name: Bytes, c: Bytes, id: StreamId, p: Pending)
    requires Keeps(s, name, c, id, p) && GroupInv(s.groups[name]) && !Releases(op, name, id, p)
    requires op.Claim? && op.group == name ==> ForceLegal(s, op)
    ensures Keeps(Step(s, op), name, c, id, p) && GroupInv(Step(s, op).groups[name])
  {
    if OnGroup(op) && op.group == name {
      GroupStepHeld(s, s.groups[name], op, c, id);
      GroupStepInv(s, s.groups[name], op);
      StepOnGroup(s, op);
    } else {
      OtherStep(s, FirstLedger(s, name), op, name);
    }
  }

  /**
   A pending entry stays with its consumer, with its delivery time and count, over any run in which nobody
   acknowledges it, destroys the group, or claims it by FORCE or after it has been idle long enough.
   */
  lemma {:induction false} HeldUntil(s: Stream, ops: seq<Op>, name: Bytes, c: Bytes, id: StreamId, p: Pending)
    requires Keeps(s, name, c, id, p) && GroupInv(s.groups[name]) && ForceLegalRun(s, ops, name)
    requires forall op :: op in ops ==> !Releases(op, name, id, p)
    ensures Keeps(Run(s, ops), name, c, id, p)
    decreases |ops|
  {
    if ops != [] {
      assert ops[0] in ops;
      StepHeld(s, ops[0], name, c, id, p);
      HeldUntil(Step(s, ops[0]), ops[1..], name, c, id, p);
    }
  }

  // ----- what was delivered: here ids must not run out, and nothing is asked of FORCE -----

  /** Entries between the group's first cursor and its present one. */
  function Passed(entries: map<StreamId, Fields>, cursor: StreamId, start: StreamId): set<StreamId> {
    set id | id in entries && IdLess(start, id) && IdLeq(id, cursor)
  }

  /** First delivery: in order, and exactly what the cursor has passed, up to deletions. */
  ghost predicate DeliveryInv(entries: map<StreamId, Fields>, lastId: StreamId, cursor: StreamId, led: Ledger) {
    && InOrder(led, cursor)
    && Passed(entries, cursor, led.start) == Elems(led.delivered) - led.removed
    && (forall id :: id in led.removed ==> IdLeq(id, lastId) && id !in entries)
    && (cursor == led.start || IdLeq(cursor, lastId))
  }

  ghost predicate PassInv(s: Stream, led: Ledger, name: Bytes) {
    && StreamOk(s)
    && (name in s.groups ==> DeliveryInv(s.entries, s.lastId, s.groups[name].lastDelivered, led))
  }

  lemma {:induction false} AddPasses(s: Stream, led: Ledger, op: Op, name: Bytes)
    requires PassInv(s, led, name) && op.Add? && IdAvailable(s, op) && name in s.groups
    ensures PassInv(Step(s, op), led, name)
  {
    StepIds(s, op);
    if NextId(s, op.explicit, op.ms).Some? {
      NextIdGrowsIff(s, op.explicit, op.ms);
      var cursor := s.groups[name].lastDelivered;
      assert Passed(Step(s, op).entries, cursor, led.start) == Passed(s.entries, cursor, led.start);
    }
  }

  lemma {:induction false} RemovalPasses(s: Stream, s': Stream, led: Ledger, name: Bytes)
    requires PassInv(s, led, name) && name in s.groups
    requires s'.entries.Keys <= s.entries.Keys && s'.lastId == s.lastId && s'.groups == s.groups
    ensures PassInv(s', led.(removed := led.removed + (s.entries.Keys - s'.entries.Keys)), name)
  {
    var cursor := s.groups[name].lastDelivered;
    var led' := led.(removed := led.removed + (s.entries.Keys - s'.entries.Keys));
    forall id ensures id in Passed(s'.entries, cursor, led.start) <==> id in Elems(led'.delivered) - led'.removed {
      assert id in Passed(s'.entries, cursor, led.start) <==>
             id in Passed(s.entries, cursor, led.start) && id in s'.entries;
    }
  }

  /** `ids` are the next entries after `cursor`. */
  ghost predicate NextAfter(entries: map<StreamId, Fields>, cursor: StreamId, ids: seq<StreamId>) {
    && Ascending(ids, IdLess)
    && (forall id :: id in ids ==> id in entries && IdLess(cursor, id))
    && (forall id, x :: id in entries && IdLess(cursor, id) && id !in ids && x in ids ==> IdLess(x, id))
  }

  /** Moving the cursor to the last of the new ids adds exactly those to what it has passed. */
  lemma {:induction false} ReadPassed(entries: map<StreamId, Fields>, cursor: StreamId, ids: seq<StreamId>,
                                      start: StreamId)
    requires NextAfter(entries, cursor, ids) && ids != [] && IdLeq(start, cursor)
    ensures Passed(entries, ids[|ids| - 1], start) == Passed(entries, cursor, start) + Elems(ids)
  {
    AscendingLast(ids);
    var last := ids[|ids| - 1];
    assert last in ids;
    forall id ensures id in Passed(entries, last, start) <==> id in Passed(entries, cursor, start) || id in ids {
      if id in Passed(entries, last, start) && !IdLeq(id, cursor) {
        assert IdLess(cursor, id);
        assert id !in ids ==> IdLess(last, id);
      }
    }
  }

  lemma {:induction false} ReadDelivery(entries: map<StreamId, Fields>, lastId: StreamId, cursor: StreamId,
                                        ids: seq<StreamId>, led: Ledger)
    requires NextAfter(entries, cursor, ids) && ids != []
    requires forall id :: id in entries ==> IdLeq(id, lastId)
    requires DeliveryInv(entries, lastId, cursor, led)
    ensures DeliveryInv(entries, lastId, ids[|ids| - 1], led.(delivered := led.delivered + ids))
  {
    var last := ids[|ids| - 1];
    assert last in ids;
    ReadInOrder(led, cursor, ids);
    assert Passed(entries, last, led.start) == Elems(led.delivered + ids) - led.removed by {
      ReadPassed(entries, cursor, ids, led.start);
      ElemsConcat(led.delivered, ids);
      assert Elems(ids) !! led.removed;
    }
  }

  lemma {:induction false} ReadPasses(s: Stream, led: Ledger, op: Op, name: Bytes)
    requires PassInv(s, led, name) && name in s.groups && op.ReadNew? && op.group == name
    ensures PassInv(Step(s, op), Record(s, led, op, name), name)
  {
    var g := s.groups[name];
    var ids := NewIds(s.entries, g, op.count);
    OwnStep(s, led, op, name);
    NewIdsAbove(s.entries, g, op.count);
    if ids == [] {
      assert led.delivered + ids == led.delivered;
    } else {
      assert NextAfter(s.entries, g.lastDelivered, ids);
      ReadDelivery(s.entries, s.lastId, g.lastDelivered, ids, led);
    }
  }

  lemma {:induction false} CursorStays(s: Stream, g: Group, op: Op)
    requires op.Ack? || op.Claim? || op.AutoClaim?
    ensures GroupStep(s, g, op).lastDelivered == g.lastDelivered
  {
    match op
    case Ack(_, ids, hints) => AckCursor(g, ids, hints);
    case Claim(_, ids, a, now, hints) => ClaimCursor(s.entries, g, ids, a, now, hints);
    case _ =>
  }

  /** Claims and acknowledgements leave entries and cursor alone. */
  lemma {:induction false} ClaimPasses(s: Stream, led: Ledger, op: Op, name: Bytes)
    requires PassInv(s, led, name) && name in s.groups
    requires (op.Ack? || op.Claim? || op.AutoClaim?) && op.group == name
    ensures PassInv(Step(s, op), Record(s, led, op, name), name)
  {
    OwnStep(s, led, op, name);
    CursorStays(s, s.groups[name], op);
  }

  lemma {:induction false} CreatePasses(s: Stream, led: Ledger, op: Op, name: Bytes)
    requires PassInv(s, led, name) && name !in s.groups && IdAvailable(s, op)
    ensures PassInv(Step(s, op), Record(s, led, op, name), name)
  {
    StepIds(s, op);
    if op.CreateGroup? && op.group == name {
      var start := ResolveStart(s, op.id);
      assert Passed(s.entries, start, start) == {};
    }
  }

  lemma {:induction false} StepPasses(s: Stream, led: Ledger, op: Op, name: Bytes)
    requires PassInv(s, led, name) && IdAvailable(s, op)
    ensures PassInv(Step(s, op), Record(s, led, op, name), name)
  {
    if name !in s.groups {
      CreatePasses(s, led, op, name);
    } else if op.Add? {
      AddPasses(s, led, op, name);
    } else if op.Del? || op.Trim? {
      RemovalPasses(s, Step(s, op), led, name);
    } else if op.ReadNew? && op.group == name {
      ReadPasses(s, led, op, name);
    } else if OnGroup(op) && op.group == name {
      ClaimPasses(s, led, op, name);
    } else {
      OtherStep(s, led, op, name);
    }
  }

  lemma {:induction false} RunPasses(s: Stream, led: Ledger, ops: seq<Op>, name: Bytes)
    requires PassInv(s, led, name) && IdsAvailable(s, ops)
    ensures PassInv(Run(s, ops), RunLedger(s, led, ops, name), name)
    decreases |ops|
  {
    if ops != [] {
      StepPasses(s, led, ops[0], name);
      RunPasses(Step(s, ops[0]), Record(s, led, ops[0], name), ops[1..], name);
    }
  }

  /** While ids do not run out, what was delivered and not removed is exactly what the cursor has passed. */
  lemma {:induction false} DeliveredIsPassed(s: Stream, ops: seq<Op>, name: Bytes)
    requires StreamOk(s) && Unread(s, name) && IdsAvailable(s, ops)
    requires name in Run(s, ops).groups
    ensures var end := Run(s, ops);
            var led := RunLedger(s, FirstLedger(s, name), ops, name);
            && Ascending(led.delivered, IdLess)
            && Elems(led.delivered) - led.removed == Passed(end.entries, end.groups[name].lastDelivered, led.start)
  {
    if name in s.groups {
      var start := s.groups[name].lastDelivered;
      assert Passed(s.entries, start, start) == {};
    }
    RunPasses(s, FirstLedger(s, name), ops, name);
  }

  ghost predicate NoRemovals(ops: seq<Op>) {
    forall op :: op in ops ==> !op.Del? && !op.Trim?
  }

  lemma {:induction false} NothingRemoved(s: Stream, led: Ledger, ops: seq<Op>, name: Bytes)
    requires NoRemovals(ops) && led.removed == {}
    ensures RunLedger(s, led, ops, name).removed == {}
    decreases |ops|
  {
    if ops != [] {
      assert ops[0] in ops;
      NothingRemoved(Step(s, ops[0]), Record(s, led, ops[0], name), ops[1..], name);
    }
  }

  /** Without XDEL and XTRIM every entry past the start is delivered exactly once, in order. */
  lemma {:induction false} ExactlyOnce(s: Stream, ops: seq<Op>, name: Bytes)
    requires StreamOk(s) && Unread(s, name) && IdsAvailable(s, ops) && NoRemovals(ops)
    requires name in Run(s, ops).groups
    ensures var end := Run(s, ops);
            var led := RunLedger(s, FirstLedger(s, name), ops, name);
            led.delivered == SortedIds(Passed(end.entries, end.groups[name].lastDelivered, led.start))
  {
    DeliveredIsPassed(s, ops, name);
    NothingRemoved(s, FirstLedger(s, name), ops, name);
    var led := RunLedger(s, FirstLedger(s, name), ops, name);
    var end := Run(s, ops);
    var want := Passed(end.entries, end.groups[name].lastDelivered, led.start);
    assert Elems(led.delivered) == want;
    IdOrder();
    assert forall id :: id in led.delivered <==> id in Elems(led.delivered);
    AscendingUnique(led.delivered, SortedIds(want), IdLess);
  }

  /**
   The shortest run that breaks exclusive ownership: FORCE on an undelivered entry, then a read by another consumer.
   */
  lemma {:induction false} ForceThenReadShares(s: Stream, name: Bytes, id: StreamId, a: ClaimArgs, reader: Bytes,
                                               now: Time)
    requires name in s.groups && id in s.entries && id !in PendingIds(s.groups[name])
    requires IdLess(s.groups[name].lastDelivered, id) && a.force && a.consumer != reader
    ensures var s' := Step(Step(s, Claim(name, [id], a, now, [])), ReadNew(name, reader, None, now));
            name in s'.groups && !Exclusive(s'.groups[name])
  {
    var claim, read := Claim(name, [id], a, now, []), ReadNew(name, reader, None, now);
    var g1 := GroupStep(s, s.groups[name], claim);
    var s1 := WithGroup(s, name, g1);
    assert !Exclusive(GroupStep(s1, g1, read)) by {
      ClaimSingle(s.entries, s.groups[name], id, a, now);
      AboveCursorIsShared(s.entries, g1, a.consumer, id, reader, now);
    }
    StepOnGroup(s, claim);
    StepOnGroup(s1, read);
  }

  lemma {:induction false} StepOnGroup(s: Stream, op: Op)
    requires OnGroup(op) && op.group in s.groups
    ensures Step(s, op) == WithGroup(s, op.group, GroupStep(s, s.groups[op.group], op))
  {
  }

  lemma {:induction false} ClaimSingle(entries: map<StreamId, Fields>, g: Group, id: StreamId, a: ClaimArgs, now: Time)
    requires a.force && id in entries && id !in PendingIds(g)
    ensures Holds(ClaimAll(entries, g, [id], a, now, []), a.consumer, id)
    ensures ClaimAll(entries, g, [id], a, now, []).lastDelivered == g.lastDelivered
  {
  }
}
