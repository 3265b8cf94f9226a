/**
 What stream commands tell their clients, said in terms of the stored entries alone: which entries a reply lists,
 in which order and with which fields, how many entries went, and who holds a delivered entry afterwards.
 */
module StreamAnswers {
  import opened Prelude
  import opened Ordering
  import opened Values
  import opened Groups
  import opened Autoclaim
  import opened Commands
  import opened Expiry
  import opened Reachable
  import opened StreamRuns
  import opened GroupReads
  import Streams

  ghost function Ask(ks: Keyspace, now: Time, k: Bytes, op: StreamOp): (Keyspace, Reply) {
    Exec(ks, now, One(k, OnStream(op)))
  }

  /** On a key that holds a stream, the reply is that of the stream. */
  lemma {:induction false} StreamReply(ks: Keyspace, now: Time, k: Bytes, op: StreamOp)
    requires StreamAt(ks, now, k).Some? && !op.XAdd? && !op.XGroupCreate?
    ensures Ask(ks, now, k, op).1 == ApplyStreamValue(op, StreamAt(ks, now, k).value, now).1
  {
  }

  /** ... and what a later look at the key finds is the stepped stream. */
  lemma {:induction false} StreamAfter(ks: Keyspace, now: Time, k: Bytes, op: StreamOp, later: Time)
    requires StreamAt(ks, now, k).Some? && StreamAt(ks, later, k).Some?
    ensures StreamAt(Ask(ks, now, k, op).0, later, k) == Some(Stepped(StreamAt(ks, now, k).value, op, now))
  {
    var e := LiveSlot(ks, now, k).value;
    CommandIsStep(op, e, now);
    PutLive(ks, later, k, Apply(OnStream(op), Some(e), now).0, k);
  }

  lemma {:induction false} GroupReply(op: StreamOp, s: Stream, now: Time)
    requires op.XReadNew? || op.XReadHistory? || op.XAck? || op.XClaim? || op.XAutoclaim?
    requires op.group in s.groups
    ensures ApplyStreamValue(op, s, now).1 == ApplyGroup(op, s, s.groups[op.group], now).1
  {
  }

  // ----- which entries a reply lists -----

  /** Every listed entry is stored, with these fields. */
  ghost predicate TrueTo(entries: map<StreamId, Fields>, listed: seq<(StreamId, Fields)>) {
    forall i :: 0 <= i < |listed| ==> listed[i].0 in entries && entries[listed[i].0] == listed[i].1
  }

  /** `ids` are the `count` smallest of `want`, or all of them, in order. */
  ghost predicate Oldest(want: set<StreamId>, count: Option<nat>, ids: seq<StreamId>) {
    && Ascending(ids, IdLess)
    && (forall id :: id in ids ==> id in want)
    && |ids| == (if count.Some? then Min(count.value, |want|) else |want|)
    && (forall id, x :: id in want && id !in ids && x in ids ==> IdLess(x, id))
  }

  lemma {:induction false} TakeOldest(want: set<StreamId>, count: Option<nat>)
    ensures Oldest(want, count, Take(SortedIds(want), count))
  {
    var ids := Take(SortedIds(want), count);
    PrefixBelow(SortedIds(want), |ids|);
    assert ids == SortedIds(want)[..|ids|];
  }

  function Above(entries: map<StreamId, Fields>, from: StreamId): set<StreamId> {
    set id | id in entries && IdLess(from, id)
  }

  function Between(entries: map<StreamId, Fields>, min: StreamId, max: StreamId): set<StreamId> {
    set id | id in entries && !IdLess(id, min) && !IdLess(max, id)
  }

  /** What a consumer has pending, from an id on. */
  function OwnFrom(g: Group, c: Bytes, from: StreamId): set<StreamId> {
    set id | id in PendingIds(g) && Holds(g, c, id) && !IdLess(id, from)
  }

  function InStream(entries: map<StreamId, Fields>): StreamId -> bool {
    id => id in entries
  }

  /** Looking ids up drops those without an entry, keeps the order and adds the stored fields. */
  lemma {:induction false} LookedUp(entries: map<StreamId, Fields>, ids: seq<StreamId>)
    ensures TrueTo(entries, EntriesAt(entries, ids))
    ensures RepliedIds(EntriesAt(entries, ids)) == Selected(ids, InStream(entries))
  {
    if ids != [] {
      var n := |ids| - 1;
      LookedUp(entries, ids[..n]);
      var init := EntriesAt(entries, ids[..n]);
      if ids[n] in entries {
        assert EntriesAt(entries, ids) == init + [(ids[n], entries[ids[n]])];
      } else {
        assert EntriesAt(entries, ids) == init;
      }
    }
  }

  lemma {:induction false} AllSelected(entries: map<StreamId, Fields>, ids: seq<StreamId>)
    requires forall id :: id in ids ==> id in entries
    ensures Selected(ids, InStream(entries)) == ids
  {
    if ids != [] {
      var n := |ids| - 1;
      assert ids[n] in ids;
      AllSelected(entries, ids[..n]);
      assert ids == ids[..n] + [ids[n]];
    }
  }

  lemma {:induction false} OldestEntries(entries: map<StreamId, Fields>, want: set<StreamId>, count: Option<nat>)
    requires want <= entries.Keys
    ensures var listed := EntriesAt(entries, Take(SortedIds(want), count));
            TrueTo(entries, listed) && Oldest(want, count, RepliedIds(listed))
  {
    var ids := Take(SortedIds(want), count);
    TakeOldest(want, count);
    LookedUp(entries, ids);
    AllSelected(entries, ids);
  }

  /** XREAD lists the oldest stored entries after the given id, with their fields. */
  lemma {:induction false} ReadAnswer(ks: Keyspace, now: Time, k: Bytes, from: StreamId, count: Option<nat>)
    requires StreamAt(ks, now, k).Some?
    ensures var entries, r := StreamAt(ks, now, k).value.entries, Ask(ks, now, k, XRead(from, count)).1;
            && r.Entries? && TrueTo(entries, r.entries)
            && Oldest(Above(entries, from), count, RepliedIds(r.entries))
  {
    var s := StreamAt(ks, now, k).value;
    StreamReply(ks, now, k, XRead(from, count));
    OldestEntries(s.entries, Above(s.entries, from), count);
  }

  /** XRANGE lists the oldest stored entries between the two ids, both included, with their fields. */
  lemma {:induction false} RangeAnswer(ks: Keyspace, now: Time, k: Bytes, min: StreamId, max: StreamId,
                                       count: Option<nat>)
    requires StreamAt(ks, now, k).Some?
    ensures var entries, r := StreamAt(ks, now, k).value.entries, Ask(ks, now, k, XRange(min, max, count)).1;
            && r.Entries? && TrueTo(entries, r.entries)
            && Oldest(Between(entries, min, max), count, RepliedIds(r.entries))
  {
    var s := StreamAt(ks, now, k).value;
    var want := Between(s.entries, min, max);
    StreamReply(ks, now, k, XRange(min, max, count));
    BothIncluded(s.entries, min, max);
    OldestEntries(s.entries, want, count);
  }

  lemma {:induction false} BothIncluded(entries: map<StreamId, Fields>, min: StreamId, max: StreamId)
    ensures Between(entries, min, max) == set id | id in entries && IdLeq(min, id) && IdLeq(id, max)
  {
    IdOrder();
  }

  /** A ">" read lists the oldest stored entries above the group's cursor, with their fields. */
  lemma {:induction false} DeliveryAnswer(ks: Keyspace, now: Time, k: Bytes, name: Bytes, c: Bytes, count: Option<nat>)
    requires GroupAt(ks, now, k, name).Some?
    ensures var (s, g) := GroupAt(ks, now, k, name).value;
            var r := Ask(ks, now, k, XReadNew(name, c, count)).1;
            && r.Entries? && TrueTo(s.entries, r.entries)
            && RepliedIds(r.entries) == NewIds(s.entries, g, count)
            && Oldest(Above(s.entries, g.lastDelivered), count, RepliedIds(r.entries))
  {
    var (s, g) := GroupAt(ks, now, k, name).value;
    var op := XReadNew(name, c, count);
    var want := Above(s.entries, g.lastDelivered);
    StreamReply(ks, now, k, op);
    GroupReply(op, s, now);
    OldestEntries(s.entries, want, count);
    ListedIds(s.entries, Take(SortedIds(want), count));
  }

  /**
   A history read picks the oldest `count` of the consumer's own pending ids from the given one on, lists those still
   in the stream with their fields, and changes nothing.
   */
  lemma {:induction false} HistoryAnswer(ks: Keyspace, now: Time, k: Bytes, name: Bytes, c: Bytes, from: StreamId,
                                         count: Option<nat>) returns (picked: seq<StreamId>)
    requires GroupAt(ks, now, k, name).Some?
    ensures var (s, g) := GroupAt(ks, now, k, name).value;
            var r := Ask(ks, now, k, XReadHistory(name, c, from, count));
            && Oldest(OwnFrom(g, c, from), count, picked)
            && r.1.Entries? && TrueTo(s.entries, r.1.entries)
            && RepliedIds(r.1.entries) == Selected(picked, InStream(s.entries))
            && StreamAt(r.0, now, k) == Some(s)
  {
    var (s, g) := GroupAt(ks, now, k, name).value;
    var op := XReadHistory(name, c, from, count);
    var want := set id | id in PelOf(g, c) && IdLeq(from, id);
    picked := Take(SortedIds(want), count);
    OwnPending(g, c, from);
    TakeOldest(want, count);
    LookedUp(s.entries, picked);
    StreamReply(ks, now, k, op);
    GroupReply(op, s, now);
    StreamAfter(ks, now, k, op, now);
  }

  lemma {:induction false} OwnPending(g: Group, c: Bytes, from: StreamId)
    ensures (set id | id in PelOf(g, c) && IdLeq(from, id)) ==
            OwnFrom(g, c, from)
  {
    IdOrder();
  }

  // ----- XADD, XDEL, XTRIM, XACK, XGROUP DESTROY -----

  /**
   XADD, on a missing key too: if it replies an id, that entry holds the given fields, and every other entry, every
   group and every other key is as it was; if it refuses, so is every entry and group.
   */
  lemma {:induction false} AddAnswer(ks: Keyspace, now: Time, k: Bytes, fields: Fields, explicit: Option<StreamId>,
                                     ms: u64)
    requires LiveSlot(ks, now, k).None? || StreamAt(ks, now, k).Some?
    ensures var s, r := StreamIn(LiveSlot(ks, now, k)), Ask(ks, now, k, XAdd(fields, explicit, ms));
            && StreamAt(r.0, now, k).Some?
            && var s' := StreamAt(r.0, now, k).value;
               && s'.groups == s.groups
               && (forall j :: j != k ==> LiveSlot(r.0, now, j) == LiveSlot(ks, now, j))
               && (r.1.Id? || r.1 == Fail(WrongType))
               && (!r.1.Id? ==> s' == s)
               && (r.1.Id? ==>
                     && s'.lastId == r.1.id && r.1.id in s'.entries && s'.entries[r.1.id] == fields
                     && forall x :: x != r.1.id ==> && (x in s'.entries <==> x in s.entries)
                                                    && (x in s.entries ==> s'.entries[x] == s.entries[x]))
  {
    var op := XAdd(fields, explicit, ms);
    var slot := LiveSlot(ks, now, k);
    Streams.AddedMeaning(StreamIn(slot), fields, explicit, ms);
    AddSlot(slot, op, now);
    forall j ensures LiveSlot(Ask(ks, now, k, op).0, now, j) ==
                     if j == k then ApplyStream(op, slot, now).0 else LiveSlot(ks, now, j) {
      OnKeyLive(ks, now, k, OnStream(op), j);
    }
  }

  lemma {:induction false} AddSlot(slot: Slot, op: StreamOp, now: Time)
    requires op.XAdd? && (slot.Some? ==> slot.value.value.Log? && !Expired(slot.value, now))
    ensures var r := ApplyStream(op, slot, now);
            var id := Streams.NextId(StreamIn(slot), op.explicit, op.ms);
            && r.0.Some? && !Expired(r.0.value, now)
            && r.0.value.value == Log(Streams.Added(StreamIn(slot), op.fields, op.explicit, op.ms))
            && r.1 == if id.Some? then Id(id.value) else Fail(WrongType)
  {
  }

  /** Entries may have gone; nothing else has changed, and the reply is the number that went. */
  ghost predicate RemovalAnswered(s: Stream, s': Stream, r: Reply) {
    RemovesOnly(s, s') && r == Int(|s.entries.Keys - s'.entries.Keys|)
  }

  ghost predicate RemovesOnly(s: Stream, s': Stream) {
    && s'.lastId == s.lastId && s'.groups == s.groups
    && (forall id :: id in s'.entries ==> id in s.entries && s'.entries[id] == s.entries[id])
  }

  lemma {:induction false} RemovalReply(op: StreamOp, s: Stream, now: Time)
    requires op.XTrim? || op.XDel?
    ensures var r := ApplyStreamValue(op, s, now);
            r.1.Int? && r.1.n == |s.entries| - |r.0.entries|
  {
  }

  lemma {:induction false} RemovalCounted(op: StreamOp, s: Stream, now: Time, s': Stream)
    requires op.XTrim? || op.XDel?
    requires s' == ApplyStreamValue(op, s, now).0 && RemovesOnly(s, s')
    ensures RemovalAnswered(s, s', ApplyStreamValue(op, s, now).1)
  {
    RemovalReply(op, s, now);
    CountGone(s.entries, s'.entries);
  }

  lemma {:induction false} CountGone(before: map<StreamId, Fields>, after: map<StreamId, Fields>)
    requires forall id :: id in after ==> id in before
    ensures |before| - |after| == |before.Keys - after.Keys|
  {
    assert before.Keys == (before.Keys - after.Keys) + after.Keys;
    assert |before.Keys| == |before| && |after.Keys| == |after|;
  }

  /** After XDEL or XTRIM the key holds the stepped stream, and the reply counts what went. */
  lemma {:induction false} RemovalAnswer(ks: Keyspace, now: Time, k: Bytes, op: StreamOp)
    requires StreamAt(ks, now, k).Some? && (op.XTrim? || op.XDel?)
    requires RemovesOnly(StreamAt(ks, now, k).value, Streams.Step(StreamAt(ks, now, k).value, StepOf(op, now)))
    ensures var s, r := StreamAt(ks, now, k).value, Ask(ks, now, k, op);
            var s' := Streams.Step(s, StepOf(op, now));
            StreamAt(r.0, now, k) == Some(s') && RemovalAnswered(s, s', r.1)
  {
    var s := StreamAt(ks, now, k).value;
    LogCommandIsStep(op, s, now);
    RemovalCounted(op, s, now, Streams.Step(s, StepOf(op, now)));
    StreamReply(ks, now, k, op);
    StreamAfter(ks, now, k, op, now);
  }

  /** XDEL removes exactly the entries it names and replies how many those were. */
  lemma {:induction false} DeleteAnswer(ks: Keyspace, now: Time, k: Bytes, ids: seq<StreamId>)
    requires StreamAt(ks, now, k).Some?
    ensures var s, r := StreamAt(ks, now, k).value, Ask(ks, now, k, XDel(ids));
            && StreamAt(r.0, now, k).Some?
            && var s' := StreamAt(r.0, now, k).value;
               RemovalAnswered(s, s', r.1) && forall id :: id in s'.entries <==> id in s.entries && id !in ids
  {
    Streams.DeletedMeaning(StreamAt(ks, now, k).value, ids);
    RemovalAnswer(ks, now, k, XDel(ids));
  }

  /** Of the entries MAXLEN keeps - the largest ids, as many as asked - those not below MINID are left. */
  ghost predicate TrimLeaves(s: Stream, s': Stream, max: Option<nat>, min: Option<StreamId>,
                             kept: map<StreamId, Fields>) {
    && Streams.KeepsLargest(s.entries, kept, if max.Some? then Min(max.value, |s.entries|) else |s.entries|)
    && forall id :: id in s'.entries <==> id in kept && (min.Some? ==> !IdLess(id, min.value))
  }

  ghost predicate Trims(s: Stream, s': Stream, max: Option<nat>, min: Option<StreamId>) {
    exists kept :: TrimLeaves(s, s', max, min, kept)
  }

  lemma {:induction false} MinimumLast(s: Stream, max: Option<nat>, min: Option<StreamId>)
    ensures var s' := Streams.Trimmed(s, max, min);
            && s'.entries == Streams.FromMinimum(Streams.Trimmed(s, max, None).entries, min)
            && s'.lastId == s.lastId && s'.groups == s.groups
  {
  }

  lemma {:induction false} MinimumLeaves(s: Stream, s': Stream, max: Option<nat>, min: Option<StreamId>,
                                         kept: map<StreamId, Fields>)
    requires Streams.KeepsLargest(s.entries, kept, if max.Some? then Min(max.value, |s.entries|) else |s.entries|)
    requires s'.entries == Streams.FromMinimum(kept, min) && s'.lastId == s.lastId && s'.groups == s.groups
    ensures Trims(s, s', max, min) && RemovesOnly(s, s')
  {
    if min.Some? {
      Streams.FromMinimumMeaning(kept, min.value);
    }
    assert TrimLeaves(s, s', max, min, kept);
  }

  lemma {:induction false} TrimEffect(s: Stream, max: Option<nat>, min: Option<StreamId>)
    ensures Trims(s, Streams.Trimmed(s, max, min), max, min) && RemovesOnly(s, Streams.Trimmed(s, max, min))
  {
    var kept := KeptByMax(s, max, min);
    MinimumLeaves(s, Streams.Trimmed(s, max, min), max, min, kept);
  }

  lemma {:induction false} TrimStep(s: Stream, max: Option<nat>, min: Option<StreamId>, now: Time)
    ensures Streams.Step(s, StepOf(XTrim(max, min), now)) == Streams.Trimmed(s, max, min)
  {
  }

  lemma {:induction false} KeptByMax(s: Stream, max: Option<nat>, min: Option<StreamId>)
    returns (kept: map<StreamId, Fields>)
    ensures Streams.KeepsLargest(s.entries, kept, if max.Some? then Min(max.value, |s.entries|) else |s.entries|)
    ensures var s' := Streams.Trimmed(s, max, min);
            s'.entries == Streams.FromMinimum(kept, min) && s'.lastId == s.lastId && s'.groups == s.groups
  {
    kept := Streams.Trimmed(s, max, None).entries;
    Streams.TrimKeepsLargest(s, max);
    MinimumLast(s, max, min);
  }

  /** XTRIM with any options: exactly the entries it should leave are left, and the reply is how many went. */
  lemma {:induction false} TrimAnswer(ks: Keyspace, now: Time, k: Bytes, max: Option<nat>, min: Option<StreamId>)
    requires StreamAt(ks, now, k).Some?
    ensures var s, r := StreamAt(ks, now, k).value, Ask(ks, now, k, XTrim(max, min));
            && StreamAt(r.0, now, k).Some?
            && Trims(s, StreamAt(r.0, now, k).value, max, min)
            && RemovalAnswered(s, StreamAt(r.0, now, k).value, r.1)
  {
    TrimEffect(StreamAt(ks, now, k).value, max, min);
    TrimStep(StreamAt(ks, now, k).value, max, min, now);
    RemovalAnswer(ks, now, k, XTrim(max, min));
  }

  /** XACK takes exactly the named ids off whoever holds them and replies how many were pending. */
  lemma {:induction false} AckAnswer(ks: Keyspace, now: Time, k: Bytes, name: Bytes, ids: seq<StreamId>,
                                     hints: seq<Bytes>)
    requires GroupAt(ks, now, k, name).Some? && GroupInv(GroupAt(ks, now, k, name).value.1)
    ensures var g, r := GroupAt(ks, now, k, name).value.1, Ask(ks, now, k, XAck(name, ids, hints));
            && r.1 == Int(|PendingIds(g) * Elems(ids)|)
            && GroupAt(r.0, now, k, name).Some?
            && var g' := GroupAt(r.0, now, k, name).value.1;
               && PendingIds(g') == PendingIds(g) - Elems(ids)
               && forall c, id :: id !in ids && Holds(g, c, id) ==>
                    Holds(g', c, id) && g'.consumers[c][id] == g.consumers[c][id]
  {
    var (s, g) := GroupAt(ks, now, k, name).value;
    var op := XAck(name, ids, hints);
    StreamReply(ks, now, k, op);
    GroupReply(op, s, now);
    StreamAfter(ks, now, k, op, now);
    Streams.StepOnGroup(s, StepOf(op, now));
    AckKeeps(g, ids, hints);
    AckedCount(g, ids, hints);
    forall c, id | id !in ids && Holds(g, c, id)
      ensures Holds(AckAll(g, ids, hints), c, id)
              && AckAll(g, ids, hints).consumers[c][id] == g.consumers[c][id] {
      AckOthers(g, ids, hints, c, id);
    }
  }

  lemma {:induction false} AckedCount(g: Group, ids: seq<StreamId>, hints: seq<Bytes>)
    requires multiset(PendingIds(g)) == multiset(Acked(g, ids, hints)) + multiset(PendingIds(g) - Elems(ids))
    ensures |Acked(g, ids, hints)| == |PendingIds(g) * Elems(ids)|
  {
    var p, e := PendingIds(g), Elems(ids);
    assert p == (p * e) + (p - e);
    assert |multiset(p)| == |p| && |multiset(p - e)| == |p - e|;
    assert |multiset(Acked(g, ids, hints))| == |Acked(g, ids, hints)|;
  }

  /**
   XGROUP CREATE, on a missing key only with MKSTREAM: OK makes a group nobody has anything pending in; its first
   read is offered the entries above the id given, or for "$" only what is added later.
   */
  lemma {:induction false} CreateAnswer(ks: Keyspace, now: Time, k: Bytes, name: Bytes, id: StreamId, mkstream: bool)
    requires LiveSlot(ks, now, k).None? || StreamAt(ks, now, k).Some?
    ensures var s, r := StreamIn(LiveSlot(ks, now, k)), Ask(ks, now, k, XGroupCreate(name, id, mkstream));
            && (r.1 == Okay <==> name !in s.groups && (StreamAt(ks, now, k).Some? || mkstream))
            && (r.1 == Okay ==>
                  && GroupAt(r.0, now, k, name).Some?
                  && var (s', g) := GroupAt(r.0, now, k, name).value;
                     && s'.entries == s.entries && s'.lastId == s.lastId && PendingIds(g) == {}
                     && (id != MAX_ID ==> Elems(NewIds(s.entries, g, None)) == Above(s.entries, id))
                     && (id == MAX_ID && Streams.StreamOk(s) ==> NewIds(s.entries, g, None) == []))
  {
    var op := XGroupCreate(name, id, mkstream);
    var slot := LiveSlot(ks, now, k);
    OnKeyLive(ks, now, k, OnStream(op), k);
    if name !in StreamIn(slot).groups {
      Streams.NewGroupMeaning(StreamIn(slot), name, id);
    }
  }

  /** XGROUP DESTROY removes that group and nothing else, and tells whether it was there. */
  lemma {:induction false} DestroyAnswer(ks: Keyspace, now: Time, k: Bytes, name: Bytes)
    requires StreamAt(ks, now, k).Some?
    ensures var s, r := StreamAt(ks, now, k).value, Ask(ks, now, k, XGroupDestroy(name));
            && r.1 == Flag(name in s.groups)
            && StreamAt(r.0, now, k).Some?
            && var s' := StreamAt(r.0, now, k).value;
               && s'.entries == s.entries && s'.lastId == s.lastId
               && (forall n :: n in s'.groups <==> n in s.groups && n != name)
               && forall n :: n in s'.groups ==> s'.groups[n] == s.groups[n]
  {
    StreamReply(ks, now, k, XGroupDestroy(name));
    StreamAfter(ks, now, k, XGroupDestroy(name), now);
  }

  // ----- who holds a delivered entry -----

  /** A ">" read leaves the stream with the new ids handed over. */
  lemma {:induction false} DeliveryAfter(ks: Keyspace, t: Time, k: Bytes, name: Bytes, c: Bytes, count: Option<nat>,
                                         later: Time)
    requires GroupAt(ks, t, k, name).Some? && StreamAt(ks, later, k).Some?
    ensures var (s, g) := GroupAt(ks, t, k, name).value;
            StreamAt(Ask(ks, t, k, XReadNew(name, c, count)).0, later, k) ==
            Some(Streams.WithGroup(s, name, Groups.Delivered(g, NewIds(s.entries, g, count), c, t)))
  {
    var s, op := GroupAt(ks, t, k, name).value.0, XReadNew(name, c, count);
    StreamAfter(ks, t, k, op, later);
    Streams.StepOnGroup(s, StepOf(op, t));
  }

  /** A read at `t` leaves every entry it lists pending for the reader, delivered once, at `t`. */
  lemma {:induction false} DeliveryLeaves(ks: Keyspace, t: Time, k: Bytes, name: Bytes, c: Bytes, count: Option<nat>,
                                          later: Time)
    requires GroupAt(ks, t, k, name).Some? && StreamAt(ks, later, k).Some?
    ensures var r := Ask(ks, t, k, XReadNew(name, c, count));
            && r.1.Entries? && StreamAt(r.0, later, k).Some?
            && forall id :: id in RepliedIds(r.1.entries) ==>
                 Streams.Keeps(StreamAt(r.0, later, k).value, name, c, id, Pending(t, 1))
  {
    var (s, g) := GroupAt(ks, t, k, name).value;
    DeliveryAnswer(ks, t, k, name, c, count);
    DeliveryAfter(ks, t, k, name, c, count, later);
    DeliveredKeepsEach(s, name, g, NewIds(s.entries, g, count), c, t);
  }

  lemma {:induction false} DeliveredKeepsEach(s: Stream, name: Bytes, g: Group, ids: seq<StreamId>, c: Bytes, t: Time)
    ensures forall id :: id in ids ==>
              Streams.Keeps(Streams.WithGroup(s, name, Groups.Delivered(g, ids, c, t)), name, c, id, Pending(t, 1))
  {
    DeliveredMeaning(g, ids, c, t);
  }

  /** XCLAIM, each id named once, lists the granted ids in order, with their fields unless JUSTID. */
  lemma {:induction false} ClaimAnswer(ks: Keyspace, now: Time, k: Bytes, name: Bytes, ids: seq<StreamId>,
                                       a: ClaimArgs, hints: seq<Bytes>)
    requires GroupAt(ks, now, k, name).Some? && Exclusive(GroupAt(ks, now, k, name).value.1) && Distinct(ids)
    ensures var (s, g) := GroupAt(ks, now, k, name).value;
            var r := Ask(ks, now, k, XClaim(name, ids, a, hints)).1;
            r.Claimed? && TellsGranted(s.entries, g, ids, a, now, r.claimed)
  {
    var (s, g) := GroupAt(ks, now, k, name).value;
    StreamReply(ks, now, k, XClaim(name, ids, a, hints));
    GroupReply(XClaim(name, ids, a, hints), s, now);
    ClaimReplyMeaning(s.entries, g, ids, a, now, hints);
  }

  /** XCLAIM without FORCE takes a named entry over exactly when it has been idle for the time asked. */
  lemma {:induction false} ClaimTakesIff(ks: Keyspace, now: Time, k: Bytes, name: Bytes, c: Bytes, id: StreamId,
                                         p: Pending, ids: seq<StreamId>, a: ClaimArgs, hints: seq<Bytes>)
    requires StreamAt(ks, now, k).Some? && Streams.Keeps(StreamAt(ks, now, k).value, name, c, id, p)
    requires GroupInv(StreamAt(ks, now, k).value.groups[name])
    requires p.deliveryTime <= now && !a.force && id in ids
    ensures var r := Ask(ks, now, k, XClaim(name, ids, a, hints));
            && StreamAt(r.0, now, k).Some? && name in StreamAt(r.0, now, k).value.groups
            && if now - p.deliveryTime >= a.minIdle
               then Holds(StreamAt(r.0, now, k).value.groups[name], a.consumer, id)
               else Streams.Keeps(StreamAt(r.0, now, k).value, name, c, id, p)
  {
    var s := StreamAt(ks, now, k).value;
    var op := XClaim(name, ids, a, hints);
    StreamAfter(ks, now, k, op, now);
    Streams.StepOnGroup(s, StepOf(op, now));
    ClaimOwner(s.entries, s.groups[name], ids, a, now, hints, c, id);
  }

  /** So does a whole page of XAUTOCLAIM, which then counts the entry as delivered once more, now. */
  lemma {:induction false} AutoclaimTakesIff(ks: Keyspace, now: Time, k: Bytes, name: Bytes, c: Bytes, id: StreamId,
                                             p: Pending, target: Bytes, minIdle: Time, start: StreamId,
                                             order: seq<Bytes>)
    requires StreamAt(ks, now, k).Some? && Streams.Keeps(StreamAt(ks, now, k).value, name, c, id, p)
    requires GroupInv(StreamAt(ks, now, k).value.groups[name])
    requires p.deliveryTime <= now && !IdLess(id, start)
    ensures var r := Ask(ks, now, k, XAutoclaim(name, target, minIdle, start, None, order));
            && StreamAt(r.0, now, k).Some?
            && if now - p.deliveryTime >= minIdle
               then Streams.Keeps(StreamAt(r.0, now, k).value, name, target, id,
                                  Pending(now, Succ64(p.deliveryCount)))
               else Streams.Keeps(StreamAt(r.0, now, k).value, name, c, id, p)
  {
    var s := StreamAt(ks, now, k).value;
    var op := XAutoclaim(name, target, minIdle, start, None, order);
    StreamAfter(ks, now, k, op, now);
    Streams.StepOnGroup(s, StepOf(op, now));
    if now - p.deliveryTime >= minIdle {
      IdOrder();
      PageTakes(s.groups[name], target, minIdle, start, now, order, c, id);
    } else {
      Streams.AutoHeld(s.groups[name], target, minIdle, start, None, now, order, c, id);
    }
  }

  lemma {:induction false} PageTakes(g: Group, target: Bytes, minIdle: Time, start: StreamId, now: Time,
                                     order: seq<Bytes>, c: Bytes, id: StreamId)
    requires GroupInv(g) && Holds(g, c, id) && IdLeq(start, id) && IdleFor(g.consumers[c][id], now) >= minIdle
    ensures var g' := AutoPage(g, target, minIdle, start, None, now, order).group;
            && Holds(g', target, id)
            && g'.consumers[target][id] == Pending(now, Succ64(g.consumers[c][id].deliveryCount))
  {
    var page := AutoPage(g, target, minIdle, start, None, now, order);
    assert id in IdsOf(page.taken) by { WholePage(g, target, minIdle, start, now, order, c, id); }
    PageEffect(g, target, minIdle, start, None, now, order);
  }

  /** A page without a count takes every candidate. */
  lemma {:induction false} WholePage(g: Group, target: Bytes, minIdle: Time, start: StreamId, now: Time,
                                     order: seq<Bytes>, c: Bytes, id: StreamId)
    requires Qualifies(g, Candidate(id, c), start, minIdle, now)
    ensures id in IdsOf(AutoPage(g, target, minIdle, start, None, now, order).taken)
  {
    var all := SortedCandidates(Candidates(g, start, minIdle, now), order);
    assert AutoPage(g, target, minIdle, start, None, now, order).taken == all;
    assert Candidate(id, c) in all;
    var i :| 0 <= i < |all| && all[i] == Candidate(id, c);
    assert IdsOf(all)[i] == id;
  }

  /**
   An entry delivered to `c` at `t` is still pending for `c`, as delivered once and at `t`, after any run of commands
   on the keyspace in which it is not acknowledged, its group not destroyed, and it is not claimed by FORCE, by an
   XCLAIM naming it or an XAUTOCLAIM at or below it at a time t' with min-idle at most t' - t.
   */
  lemma {:induction false} DeliveredStays(ks: Keyspace, t: Time, k: Bytes, name: Bytes, c: Bytes, count: Option<nat>,
                                          events: seq<Event>, id: StreamId)
    requires GroupAt(ks, t, k, name).Some? && GroupInv(GroupAt(ks, t, k, name).value.1)
    requires Ask(ks, t, k, XReadNew(name, c, count)).1.Entries?
    requires id in RepliedIds(Ask(ks, t, k, XReadNew(name, c, count)).1.entries)
    requires StaysRun(Ask(ks, t, k, XReadNew(name, c, count)).0, t, events, k)
    requires RunKeepsTo(Ask(ks, t, k, XReadNew(name, c, count)).0, events, Promise(true, false))
    requires forall op :: op in OpsOver(Ask(ks, t, k, XReadNew(name, c, count)).0, events, k) ==>
                          !Streams.Releases(op, name, id, Pending(t, 1))
    ensures Streams.Keeps(EndOf(Ask(ks, t, k, XReadNew(name, c, count)).0, t, events, k), name, c, id, Pending(t, 1))
  {
    var after := Ask(ks, t, k, XReadNew(name, c, count)).0;
    DeliveryLeaves(ks, t, k, name, c, count, t);
    DeliveryKeepsInv(ks, t, k, name, c, count);
    StoredHeldUntil(after, t, events, k, name, c, id, Pending(t, 1));
  }

  lemma {:induction false} DeliveryKeepsInv(ks: Keyspace, t: Time, k: Bytes, name: Bytes, c: Bytes, count: Option<nat>)
    requires GroupAt(ks, t, k, name).Some? && GroupInv(GroupAt(ks, t, k, name).value.1)
    ensures var s := StreamAt(Ask(ks, t, k, XReadNew(name, c, count)).0, t, k);
            s.Some? && name in s.value.groups && GroupInv(s.value.groups[name])
  {
    var (s, g) := GroupAt(ks, t, k, name).value;
    var op := XReadNew(name, c, count);
    StreamAfter(ks, t, k, op, t);
    Streams.StepOnGroup(s, StepOf(op, t));
    Streams.GroupStepInv(s, g, StepOf(op, t));
  }

  /** The same for any entry pending at the start of a run. */
  lemma {:induction false} StoredHeldUntil(ks: Keyspace, start: Time, events: seq<Event>, k: Bytes, name: Bytes,
                                           c: Bytes, id: StreamId, p: Pending)
    requires StaysRun(ks, start, events, k) && RunKeepsTo(ks, events, Promise(true, false))
    requires Streams.Keeps(StreamAt(ks, start, k).value, name, c, id, p)
    requires GroupInv(StreamAt(ks, start, k).value.groups[name])
    requires forall op :: op in OpsOver(ks, events, k) ==> !Streams.Releases(op, name, id, p)
    ensures Streams.Keeps(EndOf(ks, start, events, k), name, c, id, p)
  {
    var s := StreamAt(ks, start, k).value;
    RunProjects(ks, start, events, k);
    RunPromised(ks, start, events, k, Promise(true, false));
    PromisedMeans(s, OpsOver(ks, events, k), Promise(true, false), name);
    Streams.HeldUntil(s, OpsOver(ks, events, k), name, c, id, p);
  }

  // ----- fields, over a run -----

  /** The reply lists entry `id` with these fields. */
  ghost predicate Tells(r: Reply, id: StreamId, fields: Fields) {
    match r
    case Entries(entries) => (id, fields) in entries
    case Claimed(items) => ClaimedItem(id, Some(fields)) in items
    case AutoClaimed(_, taken, _) => (id, fields) in taken
    case _ => false
  }

  lemma {:induction false} ClaimTells(entries: map<StreamId, Fields>, g: Group, ids: seq<StreamId>, a: ClaimArgs,
                                      now: Time, hints: seq<Bytes>, id: StreamId, fields: Fields)
    requires ClaimedItem(id, Some(fields)) in ClaimReply(entries, g, ids, a, now, hints)
    ensures id in entries && entries[id] == fields
  {
    var init := ids[..|ids| - 1];
    if ClaimedItem(id, Some(fields)) in ClaimReply(entries, g, init, a, now, hints) {
      ClaimTells(entries, g, init, a, now, hints, id, fields);
    }
  }

  lemma {:induction false} ListTells(entries: map<StreamId, Fields>, ids: seq<StreamId>, id: StreamId, fields: Fields)
    requires (id, fields) in EntriesAt(entries, ids)
    ensures id in entries && entries[id] == fields
  {
    LookedUp(entries, ids);
  }

  lemma {:induction false} GroupTells(op: StreamOp, s: Stream, g: Group, now: Time, id: StreamId, fields: Fields)
    requires Tells(ApplyGroup(op, s, g, now).1, id, fields)
    ensures id in s.entries && s.entries[id] == fields
  {
    match op
    case XReadNew(_, c, count) => ListTells(s.entries, NewIds(s.entries, g, count), id, fields);
    case XReadHistory(_, c, from, count) =>
      ListTells(s.entries, Take(SortedIds(set x | x in PelOf(g, c) && IdLeq(from, x)), count), id, fields);
    case XClaim(_, ids, a, hints) => ClaimTells(s.entries, g, ids, a, now, hints, id, fields);
    case XAutoclaim(_, target, minIdle, start, count, order) =>
      ListTells(s.entries, IdsOf(AutoPage(g, target, minIdle, start, count, now, order).taken), id, fields);
    case _ =>
  }

  /** Whatever a stream command lists is stored, with these fields, in the stream before the command. */
  lemma {:induction false} ValueTells(op: StreamOp, s: Stream, now: Time, id: StreamId, fields: Fields)
    requires Tells(ApplyStreamValue(op, s, now).1, id, fields)
    ensures id in s.entries && s.entries[id] == fields
  {
    match op
    case XRead(from, count) =>
      ListTells(s.entries, Take(SortedIds(set x | x in s.entries && IdLess(from, x)), count), id, fields);
    case XRange(min, max, count) =>
      ListTells(s.entries, Take(SortedIds(set x | x in s.entries && IdLeq(min, x) && IdLeq(x, max)), count), id,
                fields);
    case XReadNew(_, _, _) => GroupTells(op, s, s.groups[op.group], now, id, fields);
    case XReadHistory(_, _, _, _) => GroupTells(op, s, s.groups[op.group], now, id, fields);
    case XClaim(_, _, _, _) => GroupTells(op, s, s.groups[op.group], now, id, fields);
    case XAutoclaim(_, _, _, _, _, _) => GroupTells(op, s, s.groups[op.group], now, id, fields);
    case _ =>
  }

  /** The fields of the last XADD of the run that returned `id`, or else those it had in the stream before the run. */
  ghost function Content(s: Stream, ops: seq<Streams.Op>, id: StreamId): Option<Fields> {
    var added := Streams.LastAdd(s, ops, id);
    if added.Some? then added else if id in s.entries then Some(s.entries[id]) else None
  }

  /** After `ops`, whatever the reply of `op` on key `k` lists carries those fields. */
  ghost predicate Truthful(s: Stream, ops: seq<Streams.Op>, key: Bytes, op: KeyOp, r: Reply, k: Bytes) {
    key == k && op.OnStream? ==> forall id, fields :: Tells(r, id, fields) ==> Content(s, ops, id) == Some(fields)
  }

  ghost predicate TruthfulMany(s: Stream, ops: seq<Streams.Op>, ks: Keyspace, now: Time, steps: seq<(Bytes, KeyOp)>,
                               stop: Stop, k: Bytes)
    decreases |steps|
  {
    steps == [] ||
    var first := OnKey(ks, now, steps[0].0, steps[0].1);
    && Truthful(s, ops, steps[0].0, steps[0].1, first.1, k)
    && (Stops(stop, first.1) ||
        TruthfulMany(s, ops + OpsOn(steps[0].0, steps[0].1, k, now), first.0, now, steps[1..], stop, k))
  }

  ghost predicate TruthfulCommand(s: Stream, ops: seq<Streams.Op>, ks: Keyspace, now: Time, cmd: Command, k: Bytes) {
    match cmd
    case One(key, op) => Truthful(s, ops, key, op, Exec(ks, now, cmd).1, k)
    case Many(steps, stop) => TruthfulMany(s, ops, ks, now, steps, stop, k)
    case _ => true
  }

  /** Every reply of the run about key `k` lists entries with the fields last added under their id. */
  ghost predicate TruthfulRun(s: Stream, ops: seq<Streams.Op>, ks: Keyspace, events: seq<Event>, k: Bytes)
    decreases |events|
  {
    events == [] ||
    (&& TruthfulCommand(s, ops, ks, events[0].now, events[0].cmd, k)
     && TruthfulRun(s, ops + OpsOf(ks, events[0].now, events[0].cmd, k),
                    Exec(ks, events[0].now, events[0].cmd).0, events[1..], k))
  }

  lemma {:induction false} StepTruthful(s: Stream, ops: seq<Streams.Op>, ks: Keyspace, now: Time, key: Bytes, op: KeyOp,
                                        k: Bytes)
    requires StreamAt(ks, now, k) == Some(Streams.Run(s, ops))
    ensures Truthful(s, ops, key, op, OnKey(ks, now, key, op).1, k)
  {
    if key == k && op.OnStream? {
      var r := OnKey(ks, now, key, op).1;
      forall id, fields | Tells(r, id, fields) ensures Content(s, ops, id) == Some(fields) {
        assert !op.stream.XAdd? && !op.stream.XGroupCreate?;
        ValueTells(op.stream, Streams.Run(s, ops), now, id, fields);
        Streams.ContentsKept(s, ops, id);
      }
    }
  }

  lemma {:induction false} ManyTruthful(s: Stream, ops: seq<Streams.Op>, ks: Keyspace, now: Time,
                                        steps: seq<(Bytes, KeyOp)>, stop: Stop, k: Bytes)
    requires StreamAt(ks, now, k) == Some(Streams.Run(s, ops)) && StaysMany(ks, now, steps, stop, k)
    ensures TruthfulMany(s, ops, ks, now, steps, stop, k)
    decreases |steps|
  {
    if steps != [] {
      var first := OnKey(ks, now, steps[0].0, steps[0].1);
      StepTruthful(s, ops, ks, now, steps[0].0, steps[0].1, k);
      if !Stops(stop, first.1) {
        var mine := OpsOn(steps[0].0, steps[0].1, k, now);
        OneProjects(ks, now, steps[0].0, steps[0].1, k);
        RunConcat(s, ops, mine);
        ManyTruthful(s, ops + mine, first.0, now, steps[1..], stop, k);
      }
    }
  }

  lemma {:induction false} CommandTruthful(s: Stream, ops: seq<Streams.Op>, ks: Keyspace, now: Time, cmd: Command,
                                           k: Bytes)
    requires StreamAt(ks, now, k) == Some(Streams.Run(s, ops)) && Stays(ks, now, cmd, k)
    ensures TruthfulCommand(s, ops, ks, now, cmd, k)
  {
    match cmd
    case One(key, op) => StepTruthful(s, ops, ks, now, key, op, k);
    case Many(steps, stop) => ManyTruthful(s, ops, ks, now, steps, stop, k);
    case _ =>
  }

  lemma {:induction false} RunTruthful(s: Stream, ops: seq<Streams.Op>, ks: Keyspace, start: Time, events: seq<Event>,
                                       k: Bytes)
    requires StreamAt(ks, start, k) == Some(Streams.Run(s, ops)) && StaysRun(ks, start, events, k)
    ensures TruthfulRun(s, ops, ks, events, k)
    decreases |events|
  {
    if events != [] {
      var e := events[0];
      var mine := OpsOf(ks, e.now, e.cmd, k);
      CommandTruthful(s, ops, ks, e.now, e.cmd, k);
      CommandProjects(ks, e.now, e.cmd, k);
      RunConcat(s, ops, mine);
      RunTruthful(s, ops + mine, Exec(ks, e.now, e.cmd).0, e.now, events[1..], k);
    }
  }

  /**
   What entries contain, in the store and in the replies: over any run of commands while `k` keeps its stream, every
   entry listed by a reply to XREAD, XRANGE, XREADGROUP, XCLAIM or XAUTOCLAIM, and every entry stored at the end,
   has the fields of the last XADD before it that returned its id, or those it had before the run.
   */
  lemma {:induction false} FieldsSurvive(ks: Keyspace, start: Time, events: seq<Event>, k: Bytes)
    requires StaysRun(ks, start, events, k)
    ensures TruthfulRun(StreamAt(ks, start, k).value, [], ks, events, k)
    ensures var entries := EndOf(ks, start, events, k).entries;
            forall id :: id in entries ==>
              Content(StreamAt(ks, start, k).value, OpsOver(ks, events, k), id) == Some(entries[id])
  {
    var s := StreamAt(ks, start, k).value;
    RunTruthful(s, [], ks, start, events, k);
    RunProjects(ks, start, events, k);
    forall id | id in EndOf(ks, start, events, k).entries
      ensures Content(s, OpsOver(ks, events, k), id) == Some(EndOf(ks, start, events, k).entries[id]) {
      Streams.ContentsKept(s, OpsOver(ks, events, k), id);
    }
  }
}
