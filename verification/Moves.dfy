/** LMOVE and RPOPLPUSH on the keyspace: nothing is lost, nothing is invented, rotations come back. */
module Moves {
  import opened Prelude
  import opened Values
  import opened Lists
  import opened Commands
  import opened Expiry

  /** The elements of the list at `k`, if there is one. */
  function ListAt(ks: Keyspace, k: Bytes): seq<Bytes> {
    if k in ks && ks[k].value.List? then ks[k].value.items else []
  }

  /** Every element of every list. */
  ghost function AllElements(ks: Keyspace): multiset<Bytes>
    decreases ks.Keys
  {
    if ks == map[] then multiset{}
    else
      var k :| k in ks;
      assert (ks - {k}).Keys == ks.Keys - {k};
      multiset(ListAt(ks, k)) + AllElements(ks - {k})
  }

  lemma {:induction false} TakeKey(ks: Keyspace, k: Bytes)
    ensures AllElements(ks) == multiset(ListAt(ks, k)) + AllElements(ks - {k})
    decreases ks.Keys
  {
    if k !in ks {
      assert ks - {k} == ks;
    } else {
      var c := SomeKey(ks);
      if c != k {
        Smaller(ks, c);
        Smaller(ks, k);
        TakeKey(ks - {c}, k);
        TakeKey(ks - {k}, c);
        Swap(ks, c, k);
      }
    }
  }

  /** The key `AllElements` takes first. */
  lemma {:induction false} SomeKey(ks: Keyspace) returns (c: Bytes)
    requires ks != map[]
    ensures c in ks && AllElements(ks) == multiset(ListAt(ks, c)) + AllElements(ks - {c})
  {
    c :| c in ks && AllElements(ks) == multiset(ListAt(ks, c)) + AllElements(ks - {c});
  }

  /** Two keys may be taken in either order. */
  lemma {:induction false} Swap(ks: Keyspace, c: Bytes, k: Bytes)
    requires c != k
    requires AllElements(ks) == multiset(ListAt(ks, c)) + AllElements(ks - {c})
    requires AllElements(ks - {c}) == multiset(ListAt(ks - {c}, k)) + AllElements(ks - {c} - {k})
    requires AllElements(ks - {k}) == multiset(ListAt(ks - {k}, c)) + AllElements(ks - {k} - {c})
    ensures AllElements(ks) == multiset(ListAt(ks, k)) + AllElements(ks - {k})
  {
    TwoOut(ks, c, k);
    Exchange(AllElements(ks), AllElements(ks - {c}), AllElements(ks - {k}),
             multiset(ListAt(ks, c)), multiset(ListAt(ks, k)), AllElements(ks - {c} - {k}));
  }

  lemma {:induction false} Smaller(ks: Keyspace, k: Bytes)
    requires k in ks
    ensures (ks - {k}).Keys < ks.Keys
  {
  }

  lemma {:induction false} TwoOut(ks: Keyspace, c: Bytes, k: Bytes)
    requires c != k
    ensures ks - {c} - {k} == ks - {k} - {c}
    ensures ListAt(ks - {c}, k) == ListAt(ks, k) && ListAt(ks - {k}, c) == ListAt(ks, c)
  {
  }

  lemma {:induction false} Exchange(total: multiset<Bytes>, x: multiset<Bytes>, y: multiset<Bytes>, p: multiset<Bytes>,
                                    q: multiset<Bytes>, rest: multiset<Bytes>)
    requires total == p + x && x == q + rest && y == p + rest
    ensures total == q + y
  {
  }

  /** Maps that differ only at two keys, with the same elements there, hold the same elements. */
  lemma {:induction false} TwoKeys(a: Keyspace, b: Keyspace, src: Bytes, dst: Bytes)
    requires a - {src} - {dst} == b - {src} - {dst}
    requires multiset(ListAt(a, src)) + multiset(ListAt(a - {src}, dst)) ==
             multiset(ListAt(b, src)) + multiset(ListAt(b - {src}, dst))
    ensures AllElements(a) == AllElements(b)
  {
    TakeKey(a, src);
    TakeKey(b, src);
    TakeKey(a - {src}, dst);
    TakeKey(b - {src}, dst);
    Regroup(multiset(ListAt(a, src)), multiset(ListAt(a - {src}, dst)),
            multiset(ListAt(b, src)), multiset(ListAt(b - {src}, dst)),
            AllElements(a - {src} - {dst}));
  }

  lemma {:induction false} Regroup(p: multiset<Bytes>, q: multiset<Bytes>, p': multiset<Bytes>, q': multiset<Bytes>,
                                   rest: multiset<Bytes>)
    requires p + q == p' + q'
    ensures p + (q + rest) == p' + (q' + rest)
  {
    assert p + (q + rest) == (p + q) + rest;
    assert p' + (q' + rest) == (p' + q') + rest;
  }

  /** The live map after a move: the two slots change, everything else stays. */
  lemma {:induction false} LiveAfterMove(ks: Keyspace, now: Time, src: Bytes, dst: Bytes, from: ListEnd, to: ListEnd)
    requires LmoveRefusal(ks, now, src, dst).None?
    ensures var slots := LmoveSlots(ks, now, src, dst, from, to);
            Live(LmoveEffect(ks, now, src, dst, from, to), now) == Put(Put(Live(ks, now), src, slots.0), dst, slots.1)
  {
    var slots := LmoveSlots(ks, now, src, dst, from, to);
    LmovePuts(ks, now, src, dst, from, to);
    var after := LmoveEffect(ks, now, src, dst, from, to);
    var want := Put(Put(Live(ks, now), src, slots.0), dst, slots.1);
    PurgeBothSame(ks, ks, now, src, dst);
    var clean := PurgeBoth(ks, now, src, dst);
    forall k ensures k in Live(after, now) <==> k in want {}
    forall k | k in want ensures Live(after, now)[k] == want[k] {}
  }

  /** LMOVE keeps the multiset of all list elements, between two keys and on one, where it also keeps the expiry. */
  lemma {:induction false} MoveConserves(ks: Keyspace, now: Time, src: Bytes, dst: Bytes, from: ListEnd, to: ListEnd)
    ensures AllElements(Live(LmoveResult(ks, now, src, dst, from, to).0, now)) == AllElements(Live(ks, now))
    ensures var after := LmoveResult(ks, now, src, dst, from, to).0;
            src == dst && LiveSlot(after, now, src).Some? ==> after[src].expiresAt == ks[src].expiresAt
  {
    if LmoveRefusal(ks, now, src, dst).Some? {
      RefusedMoveChangesNothing(ks, now, src, dst, from, to);
    } else {
      LiveAfterMove(ks, now, src, dst, from, to);
      var slots := LmoveSlots(ks, now, src, dst, from, to);
      var a := Live(ks, now);
      PutTwo(a, src, dst, slots.0, slots.1);
      SlotsConserve(ks, now, src, dst, from, to);
      LiveItems(ks, now, src);
      LiveItems(ks, now, dst);
      TwoKeys(a, Put(Put(a, src, slots.0), dst, slots.1), src, dst);
    }
  }

  lemma {:induction false} LiveItems(ks: Keyspace, now: Time, k: Bytes)
    ensures ListAt(Live(ks, now), k) == ItemsOf(LiveSlot(ks, now, k))
  {
  }

  /** What two puts leave at the two keys, and everywhere else. */
  lemma {:induction false} PutTwo(a: Keyspace, src: Bytes, dst: Bytes, s: Slot, d: Slot)
    ensures var b := Put(Put(a, src, s), dst, d);
            && b - {src} - {dst} == a - {src} - {dst}
            && ListAt(b, src) == ItemsOf(if src == dst then d else s)
            && ListAt(b - {src}, dst) == (if src == dst then [] else ItemsOf(d))
            && ListAt(a - {src}, dst) == (if src == dst then [] else ListAt(a, dst))
  {
  }

  lemma {:induction false} SlotsConserve(ks: Keyspace, now: Time, src: Bytes, dst: Bytes, from: ListEnd, to: ListEnd)
    requires LmoveRefusal(ks, now, src, dst).None?
    ensures var slots := LmoveSlots(ks, now, src, dst, from, to);
            var s, d := ItemsOf(LiveSlot(ks, now, src)), ItemsOf(LiveSlot(ks, now, dst));
            if src == dst then multiset(ItemsOf(slots.1)) == multiset(s)
            else multiset(ItemsOf(slots.0)) + multiset(ItemsOf(slots.1)) == multiset(s) + multiset(d)
  {
    var s, d := ItemsOf(LiveSlot(ks, now, src)), ItemsOf(LiveSlot(ks, now, dst));
    if src == dst {
      EndsConserve(s, [], from, to);
    } else {
      EndsConserve(s, d, from, to);
    }
  }

  lemma {:induction false} EndsConserve(s: seq<Bytes>, d: seq<Bytes>, from: ListEnd, to: ListEnd)
    requires s != []
    ensures multiset(Pop(s, from)) + multiset(Push(d, Peek(s, from), to)) == multiset(s) + multiset(d)
    ensures multiset(Push(Pop(s, from), Peek(s, from), to)) == multiset(s)
  {
    var v := multiset{Peek(s, from)};
    PopConserves(s, from);
    PushConserves(Pop(s, from), Peek(s, from), to);
    PushConserves(d, Peek(s, from), to);
    assert multiset(Pop(s, from)) + (multiset(d) + v) == (multiset(Pop(s, from)) + v) + multiset(d);
  }

  /** A refused move (missing or empty source, wrong type on either side) changes nothing anyone can see. */
  lemma {:induction false} RefusedMoveChangesNothing(ks: Keyspace, now: Time, src: Bytes, dst: Bytes, from: ListEnd,
                                                     to: ListEnd)
    requires LmoveRefusal(ks, now, src, dst).Some?
    ensures Live(LmoveResult(ks, now, src, dst, from, to).0, now) == Live(ks, now)
  {
    var after := LmoveResult(ks, now, src, dst, from, to).0;
    forall k ensures LiveSlot(ks, now, k) == LiveSlot(after, now, k) {}
    SameLiveIsLive(ks, after, now);
  }

  // ----- rotation -----

  /** Consecutive RPOPLPUSH k k at the given times. */
  function Rotations(ks: Keyspace, k: Bytes, times: seq<Time>): Keyspace {
    if times == [] then ks
    else LmoveResult(Rotations(ks, k, times[..|times| - 1]), times[|times| - 1], k, k, Right, Left).0
  }

  lemma {:induction false} RotationsRotate(ks: Keyspace, k: Bytes, times: seq<Time>)
    requires k in ks && ks[k].value.List? && ks[k].value.items != []
    requires forall t :: t in times ==> !Expired(ks[k], t)
    ensures Rotations(ks, k, times) == ks[k := ks[k].(value := List(RotateN(ks[k].value.items, |times|)))]
  {
    if times != [] {
      var init, t := times[..|times| - 1], times[|times| - 1];
      assert t in times && forall x :: x in init ==> x in times;
      RotationsRotate(ks, k, init);
      var items := RotateN(ks[k].value.items, |init|);
      RotateOnce(ks[k := ks[k].(value := List(items))], t, k);
    }
  }

  lemma {:induction false} RotateOnce(ks: Keyspace, now: Time, k: Bytes)
    requires k in ks && ks[k].value.List? && ks[k].value.items != [] && !Expired(ks[k], now)
    ensures LmoveResult(ks, now, k, k, Right, Left).0 == ks[k := ks[k].(value := List(Rotate(ks[k].value.items)))]
  {
  }

  /** As many rotations as the list is long restore the whole keyspace. */
  lemma {:induction false} FullTurn(ks: Keyspace, k: Bytes, times: seq<Time>)
    requires k in ks && ks[k].value.List? && ks[k].value.items != []
    requires forall t :: t in times ==> !Expired(ks[k], t)
    requires |times| == |ks[k].value.items|
    ensures Rotations(ks, k, times) == ks
  {
    RotationsRotate(ks, k, times);
    FullRotation(ks[k].value.items);
  }
}
