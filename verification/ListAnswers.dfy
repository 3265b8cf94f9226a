/**
 What list commands tell their clients and leave behind, as lists: queues and stacks over runs of pushes and blocking
 pops, moves between keys, index ranges and edits at an index.
 */
module ListAnswers {
  import opened Prelude
  import opened Values
  import opened Lists
  import opened Commands
  import opened Expiry
  import opened Waiters

  /** The elements at a key, none if there is no list. */
  function ItemsAt(ks: Keyspace, now: Time, k: Bytes): seq<Bytes> {
    ItemsOf(LiveSlot(ks, now, k))
  }

  ghost predicate OthersKept(ks: Keyspace, after: Keyspace, now: Time, k: Bytes) {
    forall j :: j != k ==> LiveSlot(after, now, j) == LiveSlot(ks, now, j)
  }

  /** What a list command leaves at its key and elsewhere. */
  lemma {:induction false} ListSlots(ks: Keyspace, now: Time, k: Bytes, op: ListOp)
    requires HoldsList(LiveSlot(ks, now, k)) && !op.PushOp?
    ensures var e := LiveSlot(ks, now, k).value;
            var r := ApplyListValue(op, e, e.value.items);
            && Exec(ks, now, One(k, OnList(op))).1 == r.1
            && OthersKept(ks, Exec(ks, now, One(k, OnList(op))).0, now, k)
            && LiveSlot(Exec(ks, now, One(k, OnList(op))).0, now, k) ==
               if r.0.Some? && !Expired(r.0.value, now) then r.0 else None
  {
    forall j { OnKeyLive(ks, now, k, OnList(op), j); }
  }

  // ----- queues and stacks -----

  /** The entry is there, and stays live through all the given times. */
  ghost predicate LiveThrough(ks: Keyspace, k: Bytes, times: seq<Time>) {
    k in ks ==> forall t :: t in times ==> !Expired(ks[k], t)
  }

  /** BLPOP or BRPOP on one key, polled once at each of the given times: the replies and the keyspace left. */
  ghost function Polls(ks: Keyspace, k: Bytes, end: ListEnd, times: seq<Time>): (Keyspace, seq<Reply>)
    decreases |times|
  {
    if times == [] then (ks, [])
    else
      var r := Exec(ks, times[0], PollCommand(BlPop([k], end)));
      var rest := Polls(r.0, k, end, times[1..]);
      (rest.0, [r.1] + rest.1)
  }

  /** The replies of polls that found these elements, in this order. */
  function Found(vs: seq<Bytes>): seq<Reply> {
    seq(|vs|, i requires 0 <= i < |vs| => Multi([Bulk(vs[i])]))
  }

  /** A poll of one key with a list takes the front or the back element. */
  lemma {:induction false} PollOne(ks: Keyspace, now: Time, k: Bytes, end: ListEnd)
    requires k in ks && !Expired(ks[k], now) && ks[k].value.List? && ks[k].value.items != []
    ensures var items := ks[k].value.items;
            var n := |items| - 1;
            Exec(ks, now, PollCommand(BlPop([k], end))) ==
            (if n == 0 then ks - {k}
             else ks[k := ks[k].(value := List(if end.Left? then items[1..] else items[..n]))],
             Multi([Bulk(if end.Left? then items[0] else items[n])]))
  {
    var items := ks[k].value.items;
    EndsMeaning(items);
    PollStep(ks, now, k, end);
  }

  lemma {:induction false} PollStep(ks: Keyspace, now: Time, k: Bytes, end: ListEnd)
    requires k in ks && !Expired(ks[k], now) && ks[k].value.List? && ks[k].value.items != []
    ensures Exec(ks, now, PollCommand(BlPop([k], end))) ==
            (Put(ks, k, KeepList(ks[k], Pop(ks[k].value.items, end))), Multi([Bulk(Peek(ks[k].value.items, end))]))
  {
    var steps := PopSteps([k], end);
    assert steps == [(k, OnList(PollOp(end)))];
    assert OnKey(ks, now, k, OnList(PollOp(end))) ==
           (Put(ks, k, KeepList(ks[k], Pop(ks[k].value.items, end))), Bulk(Peek(ks[k].value.items, end)));
  }

  /** The order in which a list comes off at one end. */
  function OffOrder(items: seq<Bytes>, end: ListEnd): seq<Bytes> {
    if end.Left? then items else Reverse(items)
  }

  /** As many polls as the list is long return it front to back, or back to front, and leave no key. */
  lemma {:induction false} Drain(ks: Keyspace, k: Bytes, end: ListEnd, times: seq<Time>)
    requires k in ks && ks[k].value.List? && ks[k].value.items != [] && LiveThrough(ks, k, times)
    requires |times| == |ks[k].value.items|
    ensures Polls(ks, k, end, times) == (ks - {k}, Found(OffOrder(ks[k].value.items, end)))
    decreases |times|
  {
    var items, n := ks[k].value.items, |times| - 1;
    var rest := if end.Left? then items[1..] else items[..n];
    assert times[0] in times && forall t :: t in times[1..] ==> t in times;
    PollOne(ks, times[0], k, end);
    OffFirst(items, end);
    var after := Exec(ks, times[0], PollCommand(BlPop([k], end))).0;
    if n == 0 {
      assert times[1..] == [] && OffOrder(rest, end) == [];
    } else {
      Drain(after, k, end, times[1..]);
      assert after - {k} == ks - {k};
    }
  }

  lemma {:induction false} OffFirst(items: seq<Bytes>, end: ListEnd)
    requires items != []
    ensures var n := |items| - 1;
            Found(OffOrder(items, end)) ==
            [Multi([Bulk(if end.Left? then items[0] else items[n])])] +
            Found(OffOrder(if end.Left? then items[1..] else items[..n], end))
  {
    var n := |items| - 1;
    if end.Right? {
      assert items == items[..n] + [items[n]];
      ReverseSnoc(items[..n], items[n]);
    }
  }

  /** What a push leaves: the values after the list, or reversed in front of it. */
  lemma {:induction false} PushLeaves(ks: Keyspace, now: Time, k: Bytes, vs: seq<Bytes>, end: ListEnd)
    requires vs != [] && (LiveSlot(ks, now, k).Some? ==> HoldsList(LiveSlot(ks, now, k)))
    ensures var r := Exec(ks, now, One(k, OnList(PushOp(vs, end))));
            var old_, items := LiveSlot(ks, now, k), ItemsAt(ks, now, k);
            var new_ := if end.Right? then items + vs else Reverse(vs) + items;
            && r.1 == Int(|items| + |vs|)
            && r.0 == ks[k := Entry(List(new_), if old_.Some? then old_.value.expiresAt else None)]
  {
    PushAllMeaning(ItemsAt(ks, now, k), vs);
  }

  /**
   A list is a queue at opposite ends and a stack at one: after RPUSH or LPUSH of `vs` on a key that holds a list or
   nothing, BLPOP or BRPOP as often as the list is long returns, in this order, exactly the elements, and then the key
   is gone.
   */
  lemma {:induction false} QueueOrder(ks: Keyspace, now: Time, k: Bytes, vs: seq<Bytes>, push: ListEnd, pop: ListEnd,
                                      times: seq<Time>)
    requires vs != [] && (LiveSlot(ks, now, k).Some? ==> HoldsList(LiveSlot(ks, now, k)))
    requires LiveSlot(ks, now, k).Some? ==> LiveThrough(ks, k, times)
    requires |times| == |ItemsAt(ks, now, k)| + |vs|
    ensures var items := ItemsAt(ks, now, k);
            Polls(Exec(ks, now, One(k, OnList(PushOp(vs, push)))).0, k, pop, times) ==
            (ks - {k},
             Found(match (push, pop)
                   case (Right, Left) => items + vs
                   case (Left, Right) => Reverse(items) + vs
                   case (Right, Right) => Reverse(vs) + Reverse(items)
                   case (Left, Left) => Reverse(vs) + items))
  {
    var items, after := ItemsAt(ks, now, k), Exec(ks, now, One(k, OnList(PushOp(vs, push)))).0;
    PushLeaves(ks, now, k, vs, push);
    Drain(after, k, pop, times);
    assert after - {k} == ks - {k};
    ReverseConcat(items, vs);
    ReverseConcat(Reverse(vs), items);
    ReverseTwice(vs);
  }

  lemma {:induction false} ReverseConcat(a: seq<Bytes>, b: seq<Bytes>)
    ensures Reverse(a + b) == Reverse(b) + Reverse(a)
  {
    if a == [] {
      assert a + b == b;
    } else {
      assert (a + b)[1..] == a[1..] + b;
      ReverseConcat(a[1..], b);
    }
  }

  /** RPUSH of `vs` on a key that is not there, then as many BLPOPs, returns `vs` in order. */
  lemma {:induction false} FirstInFirstOut(ks: Keyspace, now: Time, k: Bytes, vs: seq<Bytes>, times: seq<Time>)
    requires vs != [] && LiveSlot(ks, now, k).None? && |times| == |vs|
    ensures Polls(Exec(ks, now, One(k, OnList(PushOp(vs, Right)))).0, k, Left, times) == (ks - {k}, Found(vs))
  {
    QueueOrder(ks, now, k, vs, Right, Left, times);
    assert ItemsAt(ks, now, k) == [] && [] + vs == vs;
  }

  /** The poll passes over the key: nothing is there, or an empty list. */
  predicate NothingAt(ks: Keyspace, now: Time, k: Bytes) {
    LiveSlot(ks, now, k).None? || (HoldsList(LiveSlot(ks, now, k)) && ItemsAt(ks, now, k) == [])
  }

  /** The replies end with the end element of `k`, which it has lost; no other key has changed. */
  ghost predicate Served(ks: Keyspace, after: Keyspace, replies: seq<Reply>, now: Time, k: Bytes, end: ListEnd) {
    var items := ItemsAt(ks, now, k);
    && items != [] && replies != []
    && replies[|replies| - 1] == Bulk(if end.Left? then items[0] else items[|items| - 1])
    && ItemsAt(after, now, k) == (if end.Left? then items[1..] else items[..|items| - 1])
    && OthersKept(ks, after, now, k)
  }

  /** A poll of several keys serves the first that has an element, and touches no other. */
  lemma {:induction false} PollServesFirst(ks: Keyspace, now: Time, keys: seq<Bytes>, end: ListEnd, j: nat)
    requires j < |keys| && ItemsAt(ks, now, keys[j]) != []
    requires forall i :: 0 <= i < j ==> NothingAt(ks, now, keys[i])
    ensures var r := Exec(ks, now, PollCommand(BlPop(keys, end)));
            r.1.Multi? && |r.1.replies| == j + 1 && Served(ks, r.0, r.1.replies, now, keys[j], end)
  {
    StepsServeFirst(ks, now, keys, end, j);
  }

  lemma {:induction false} StepsServeFirst(ks: Keyspace, now: Time, keys: seq<Bytes>, end: ListEnd, j: nat)
    requires j < |keys| && ItemsAt(ks, now, keys[j]) != []
    requires forall i :: 0 <= i < j ==> NothingAt(ks, now, keys[i])
    ensures var r := RunMany(ks, now, PopSteps(keys, end), AtHit);
            |r.1| == j + 1 && Served(ks, r.0, r.1, now, keys[j], end)
    decreases j
  {
    var steps := PopSteps(keys, end);
    var first := OnKey(ks, now, keys[0], OnList(PollOp(end)));
    assert steps[0] == (keys[0], OnList(PollOp(end)));
    if j == 0 {
      PollHit(ks, now, keys[0], end);
    } else {
      PollMiss(ks, now, keys[0], end);
      assert steps[1..] == PopSteps(keys[1..], end);
      SameThroughout(ks, first.0, now);
      StepsServeFirst(first.0, now, keys[1..], end, j - 1);
      var rest := RunMany(first.0, now, PopSteps(keys[1..], end), AtHit);
      ServedLater(ks, first.0, rest.0, rest.1, now, keys[j], end);
    }
  }

  lemma {:induction false} ServedLater(ks: Keyspace, mid: Keyspace, after: Keyspace, replies: seq<Reply>, now: Time,
                                       k: Bytes, end: ListEnd)
    requires SameLive(ks, mid, now) && Served(mid, after, replies, now, k, end)
    ensures Served(ks, after, [Nil] + replies, now, k, end)
  {
    SameThroughout(ks, mid, now);
    assert ([Nil] + replies)[|replies|] == replies[|replies| - 1];
  }

  lemma {:induction false} SameThroughout(a: Keyspace, b: Keyspace, now: Time)
    requires SameLive(a, b, now)
    ensures forall k :: LiveSlot(a, now, k) == LiveSlot(b, now, k)
    ensures forall k :: ItemsAt(a, now, k) == ItemsAt(b, now, k) && (NothingAt(a, now, k) <==> NothingAt(b, now, k))
  {
  }

  lemma {:induction false} PollHit(ks: Keyspace, now: Time, k: Bytes, end: ListEnd)
    requires ItemsAt(ks, now, k) != []
    ensures var r := OnKey(ks, now, k, OnList(PollOp(end)));
            var items := ItemsAt(ks, now, k);
            r.1 == Bulk(if end.Left? then items[0] else items[|items| - 1]) && Served(ks, r.0, [r.1], now, k, end)
  {
    forall j { OnKeyLive(ks, now, k, OnList(PollOp(end)), j); }
  }

  lemma {:induction false} PollMiss(ks: Keyspace, now: Time, k: Bytes, end: ListEnd)
    requires NothingAt(ks, now, k)
    ensures OnKey(ks, now, k, OnList(PollOp(end))).1 == Nil
    ensures SameLive(ks, OnKey(ks, now, k, OnList(PollOp(end))).0, now)
  {
    forall j { OnKeyLive(ks, now, k, OnList(PollOp(end)), j); }
  }

  // ----- LMOVE -----

  /**
   LMOVE that is not refused, between two keys: the source loses exactly the element at its `from` end and goes when
   that was the last one; the destination gains it at its `to` end, or is made with it; both keep their expiry; the
   element is the reply, and no other key changes.
   */
  lemma {:induction false} MoveBetween(ks: Keyspace, now: Time, src: Bytes, dst: Bytes, from: ListEnd, to: ListEnd)
    requires src != dst && LmoveRefusal(ks, now, src, dst).None?
    ensures var s, d := LiveSlot(ks, now, src), LiveSlot(ks, now, dst);
            var items, n := ItemsOf(s), |ItemsOf(s)| - 1;
            var x := if from.Left? then items[0] else items[n];
            var r := Exec(ks, now, Lmove(src, dst, from, to));
            && r.1 == Bulk(x)
            && LiveSlot(r.0, now, src) ==
               (if n == 0 then None
                else Some(Entry(List(if from.Left? then items[1..] else items[..n]), s.value.expiresAt)))
            && LiveSlot(r.0, now, dst) ==
               Some(Entry(List(if to.Left? then [x] + ItemsOf(d) else ItemsOf(d) + [x]),
                          if d.Some? then d.value.expiresAt else None))
            && (forall k :: k != src && k != dst ==> LiveSlot(r.0, now, k) == LiveSlot(ks, now, k))
  {
    MoveSlots(ks, now, src, dst, from, to);
    EndsMeaning(ItemsOf(LiveSlot(ks, now, src)));
  }

  /** What a move leaves at every key. */
  lemma {:induction false} MoveSlots(ks: Keyspace, now: Time, src: Bytes, dst: Bytes, from: ListEnd, to: ListEnd)
    requires LmoveRefusal(ks, now, src, dst).None?
    ensures var slots := LmoveSlots(ks, now, src, dst, from, to);
            var after := Exec(ks, now, Lmove(src, dst, from, to)).0;
            && LiveSlot(after, now, dst) == slots.1 && LiveSlot(after, now, src) == slots.0
            && (forall k :: k != src && k != dst ==> LiveSlot(after, now, k) == LiveSlot(ks, now, k))
  {
    var slots := LmoveSlots(ks, now, src, dst, from, to);
    var clean := PurgeBoth(ks, now, src, dst);
    LmovePuts(ks, now, src, dst, from, to);
    forall k ensures LiveSlot(Put(Put(clean, src, slots.0), dst, slots.1), now, k) ==
                     if k == dst then slots.1 else if k == src then slots.0 else LiveSlot(ks, now, k) {
      PutLive(Put(clean, src, slots.0), now, dst, slots.1, k);
      PutLive(clean, now, src, slots.0, k);
    }
  }

  /** LMOVE on one key moves the element from one end to the other and keeps the expiry. */
  lemma {:induction false} MoveWithin(ks: Keyspace, now: Time, k: Bytes, from: ListEnd, to: ListEnd)
    requires LmoveRefusal(ks, now, k, k).None?
    ensures var s, r := LiveSlot(ks, now, k), Exec(ks, now, Lmove(k, k, from, to));
            var items, n := ItemsOf(s), |ItemsOf(s)| - 1;
            && r.1 == Bulk(if from.Left? then items[0] else items[n])
            && OthersKept(ks, r.0, now, k)
            && LiveSlot(r.0, now, k) ==
               Some(s.value.(value := List(match (from, to)
                                           case (Left, Right) => items[1..] + [items[0]]
                                           case (Right, Left) => [items[n]] + items[..n]
                                           case _ => items)))
  {
    MoveSlots(ks, now, k, k, from, to);
    EndsMeaning(ItemsOf(LiveSlot(ks, now, k)));
  }

  // ----- ranges and edits -----

  lemma {:induction false} PopValue(e: Entry, items: seq<Bytes>, count: nat, end: ListEnd)
    requires e.value == List(items) && items != []
    ensures var n := Min(count, |items|);
            var rest := if end.Left? then items[n..] else items[..|items| - n];
            ApplyListValue(PopOp(Some(count), end), e, items) ==
            (if rest == [] then None else Some(e.(value := List(rest))),
             Array(if end.Left? then items[..n] else Reverse(items[|items| - n..])))
  {
    if end.Left? {
      PopLeftMeaning(items, count);
    } else {
      PopRightMeaning(items, count);
    }
  }

  /** LPOP and RPOP with a count: up to that many from the end, in the order they come off. */
  lemma {:induction false} PopAnswer(ks: Keyspace, now: Time, k: Bytes, count: nat, end: ListEnd)
    requires ItemsAt(ks, now, k) != []
    ensures var items, r := ItemsAt(ks, now, k), Exec(ks, now, One(k, OnList(PopOp(Some(count), end))));
            var n := Min(count, |items|);
            && r.1 == Array(if end.Left? then items[..n] else Reverse(items[|items| - n..]))
            && ItemsAt(r.0, now, k) == (if end.Left? then items[n..] else items[..|items| - n])
            && OthersKept(ks, r.0, now, k)
  {
    ListSlots(ks, now, k, PopOp(Some(count), end));
    PopValue(LiveSlot(ks, now, k).value, ItemsAt(ks, now, k), count, end);
  }

  /** LRANGE lists, and LTRIM leaves, exactly the elements between the two indices, in order. */
  lemma {:induction false} SliceAnswer(ks: Keyspace, now: Time, k: Bytes, start: i64, stop: i64)
    returns (a: nat, b: nat)
    requires HoldsList(LiveSlot(ks, now, k))
    ensures var items := ItemsAt(ks, now, k);
            var trimmed := Exec(ks, now, One(k, OnList(LTrim(start, stop)))).0;
            && a <= b <= |items|
            && (forall i :: 0 <= i < |items| ==> (Selects(start, stop, |items|, i) <==> a <= i < b))
            && Exec(ks, now, One(k, OnList(LRange(start, stop)))).1 == Array(items[a..b])
            && LiveSlot(trimmed, now, k) ==
               (if a == b then None else Some(LiveSlot(ks, now, k).value.(value := List(items[a..b]))))
            && OthersKept(ks, trimmed, now, k)
  {
    a, b := SliceMeaning(ItemsAt(ks, now, k), start, stop);
    ListSlots(ks, now, k, LTrim(start, stop));
    ListSlots(ks, now, k, LRange(start, stop));
  }

  /** `items` with `value` put right before or right after the first `pivot`. */
  ghost predicate InsertedAt(items: seq<Bytes>, new_: seq<Bytes>, where: InsertPosition, pivot: Bytes, value: Bytes,
                             p: nat) {
    && p < |items| && items[p] == pivot && pivot !in items[..p]
    && new_ == (if where.Before? then items[..p] + [value, pivot] + items[p + 1..]
                else items[..p] + [pivot, value] + items[p + 1..])
  }

  /** LINSERT: -1 without the pivot, otherwise the new length with the value next to the first pivot. */
  lemma {:induction false} InsertAnswer(ks: Keyspace, now: Time, k: Bytes, where: InsertPosition, pivot: Bytes,
                                        value: Bytes)
    requires HoldsList(LiveSlot(ks, now, k))
    ensures var items, r := ItemsAt(ks, now, k), Exec(ks, now, One(k, OnList(LInsert(where, pivot, value))));
            && OthersKept(ks, r.0, now, k)
            && if pivot !in items then r.1 == Int(-1) && LiveSlot(r.0, now, k) == LiveSlot(ks, now, k)
               else && r.1 == Int(|items| + 1)
                    && exists p :: InsertedAt(items, ItemsAt(r.0, now, k), where, pivot, value, p)
  {
    var items := ItemsAt(ks, now, k);
    ListSlots(ks, now, k, LInsert(where, pivot, value));
    var p := FirstIndex(items, pivot);
    if p < |items| {
      InsertSplits(items, where, pivot, value, p);
      var at := if where.Before? then p else p + 1;
      assert ItemsAt(Exec(ks, now, One(k, OnList(LInsert(where, pivot, value)))).0, now, k) ==
             items[..at] + [value] + items[at..];
    }
  }

  lemma {:induction false} InsertSplits(items: seq<Bytes>, where: InsertPosition, pivot: Bytes, value: Bytes, p: nat)
    requires p < |items| && items[p] == pivot && forall i :: 0 <= i < p ==> items[i] != pivot
    ensures var at := if where.Before? then p else p + 1;
            InsertedAt(items, items[..at] + [value] + items[at..], where, pivot, value, p)
  {
  }

  /** LINDEX and LSET reach the element at the index, counted from the tail when negative, and no other. */
  lemma {:induction false} IndexAnswer(ks: Keyspace, now: Time, k: Bytes, index: i64, value: Bytes)
    requires HoldsList(LiveSlot(ks, now, k))
    ensures var items := ItemsAt(ks, now, k);
            var n := |items|;
            var read := Exec(ks, now, One(k, OnList(LIndex(index)))).1;
            var r := Exec(ks, now, One(k, OnList(LSet(index, value))));
            && (read.Bulk? <==> -n <= index < n) && (read.Bulk? || read == Nil)
            && (r.1 == Okay <==> -n <= index < n) && (r.1 == Okay || r.1 == Fail(IndexOutOfRange))
            && |ItemsAt(r.0, now, k)| == n && OthersKept(ks, r.0, now, k)
            && forall i :: 0 <= i < n ==>
                 if i == index || i - n == index then read == Bulk(items[i]) && ItemsAt(r.0, now, k)[i] == value
                 else ItemsAt(r.0, now, k)[i] == items[i]
  {
    ListSlots(ks, now, k, LIndex(index));
    ListSlots(ks, now, k, LSet(index, value));
  }
}
