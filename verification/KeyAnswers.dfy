/**
 What commands on keys of any type tell: how long a key lives, what SET leaves for GET, which commands touch an
 expiry, which refuse the type they find, and what HSET and ZRANGE show.
 */
module KeyAnswers {
  import opened Prelude
  import opened Ordering
  import opened Values
  import opened Lists
  import opened SortedSets
  import opened Commands
  import opened Expiry
  import opened Reachable
  import opened Refusals
  import Streams

  // ----- lifetimes -----

  /** TTL: -2 without a live key, -1 without an expiry, otherwise the whole seconds left; nothing changes. */
  lemma {:induction false} TtlAnswer(ks: Keyspace, now: Time, k: Bytes)
    ensures var slot, r := LiveSlot(ks, now, k), Exec(ks, now, One(k, OnAny(Ttl)));
            && r.1.Int? && SameLive(ks, r.0, now)
            && (r.1.n == -2 <==> slot.None?)
            && (r.1.n == -1 <==> slot.Some? && slot.value.expiresAt.None?)
            && (slot.Some? && slot.value.expiresAt.Some? ==>
                  var left := slot.value.expiresAt.value - now;
                  left > 0 && r.1.n >= 0 && r.1.n * NANOS_PER_SEC <= left < (r.1.n + 1) * NANOS_PER_SEC)
  {
    forall j { OnKeyLive(ks, now, k, OnAny(Ttl), j); }
  }

  /**
   EXPIRE on a live key: whenever one looks later, the same value is there before the deadline and nothing from the
   deadline on, so a deadline that is not in the future removes the key. On a missing key it does nothing.
   */
  lemma {:induction false} ExpireAnswer(ks: Keyspace, now: Time, k: Bytes, nanos: int, later: Time)
    requires now <= later
    ensures var slot, r := LiveSlot(ks, now, k), Exec(ks, now, One(k, OnAny(ExpireIn(nanos))));
            && r.1 == Flag(slot.Some?)
            && (forall j :: j != k ==> LiveSlot(r.0, later, j) == LiveSlot(ks, later, j))
            && LiveSlot(r.0, later, k) ==
               if slot.Some? && later < now + nanos then Some(Entry(slot.value.value, Some(now + nanos))) else None
  {
    var slot := Apply(OnAny(ExpireIn(nanos)), LiveSlot(ks, now, k), now).0;
    forall j { PutLive(ks, later, k, slot, j); }
  }

  /** SET refused by NX or XX changes nothing; otherwise GET finds the value until the time given has passed. */
  lemma {:induction false} SetAnswer(ks: Keyspace, now: Time, k: Bytes, value: Bytes, ttl: Option<nat>, nx: bool,
                                     xx: bool, later: Time)
    requires now <= later
    ensures var there := LiveSlot(ks, now, k).Some?;
            var r := Exec(ks, now, One(k, OnString(Set(value, ttl, nx, xx))));
            var ok := (nx ==> !there) && (xx ==> there);
            && r.1 == Flag(ok)
            && (forall j :: j != k || !ok ==> LiveSlot(r.0, later, j) == LiveSlot(ks, later, j))
            && (ok ==> Exec(r.0, later, One(k, OnString(Get))).1 ==
                       if ttl.Some? && later >= now + ttl.value then Nil else Bulk(value))
  {
    var op := OnString(Set(value, ttl, nx, xx));
    var slot := Apply(op, LiveSlot(ks, now, k), now).0;
    forall j { PutLive(ks, later, k, slot, j); }
  }

  /** EXISTS and DEL tell whether a live key is there; after DEL none is, whenever one looks; no other key changes. */
  lemma {:induction false} PresenceAnswer(ks: Keyspace, now: Time, k: Bytes, later: Time)
    requires now <= later
    ensures var there := Int(if LiveSlot(ks, now, k).Some? then 1 else 0);
            var gone := Exec(ks, now, One(k, OnAny(Delete)));
            && Exec(ks, now, One(k, OnAny(Exists))) == (ks, there)
            && gone.1 == there && LiveSlot(gone.0, later, k).None?
            && (forall j :: j != k ==> LiveSlot(gone.0, later, j) == LiveSlot(ks, later, j))
  {
    forall j { PutLive(ks, later, k, None, j); }
  }

  /** GET and MGET show a live string as it is and nothing for a missing key; on other types only GET is an error. */
  lemma {:induction false} StringAnswer(ks: Keyspace, now: Time, k: Bytes)
    ensures var slot := LiveSlot(ks, now, k);
            var get, mget := Exec(ks, now, One(k, OnString(Get))), Exec(ks, now, One(k, OnString(MGet)));
            && SameLive(ks, get.0, now) && SameLive(ks, mget.0, now)
            && (slot.None? ==> get.1 == Nil && mget.1 == Nil)
            && (slot.Some? && slot.value.value.Str? ==> get.1 == mget.1 == Bulk(slot.value.value.bytes))
            && (slot.Some? && !slot.value.value.Str? ==> get.1 == Fail(WrongType) && mget.1 == Nil)
  {
    forall j ensures LiveSlot(Exec(ks, now, One(k, OnString(Get))).0, now, j) == LiveSlot(ks, now, j) {
      OnKeyLive(ks, now, k, OnString(Get), j);
    }
  }

  /** The commands that may change the expiry of a key they leave in place. */
  predicate SetsExpiry(op: KeyOp) {
    (op.OnAny? && op.any.ExpireIn?) || (op.OnString? && op.str.Set?)
  }

  ghost predicate ExpiryKept(slot: Slot, after: Slot) {
    after.Some? ==> after.value.expiresAt == if slot.Some? then slot.value.expiresAt else None
  }

  lemma {:induction false} ListExpiry(op: ListOp, slot: Slot)
    ensures ExpiryKept(slot, ApplyList(op, slot).0)
  {
  }

  lemma {:induction false} HashExpiry(op: HashOp, slot: Slot)
    ensures ExpiryKept(slot, ApplyHash(op, slot).0)
  {
  }

  lemma {:induction false} ZsetExpiry(op: ZsetOp, slot: Slot)
    ensures ExpiryKept(slot, ApplyZset(op, slot).0)
  {
  }

  lemma {:induction false} StreamExpiry(op: StreamOp, slot: Slot, now: Time)
    ensures ExpiryKept(slot, ApplyStream(op, slot, now).0)
  {
    if slot.None? {
      CommandCreates(op, now);
    } else if slot.value.value.Log? {
      CommandIsStep(op, slot.value, now);
    }
  }

  /** Only SET and EXPIRE touch an expiry: whatever else a command does to a key, it lives as long as before. */
  lemma {:induction false} OthersKeepExpiry(op: KeyOp, slot: Slot, now: Time)
    requires !SetsExpiry(op)
    ensures ExpiryKept(slot, Apply(op, slot, now).0)
  {
    match op
    case OnList(l) => ListExpiry(l, slot);
    case OnHash(h) => HashExpiry(h, slot);
    case OnZset(z) => ZsetExpiry(z, slot);
    case OnStream(x) => StreamExpiry(x, slot, now);
    case _ =>
  }

  // ----- types -----

  /** The command looks at the type of what it finds. */
  predicate Minds(op: KeyOp) {
    match op
    case OnAny(_) => false
    case OnString(s) => s.Get?
    case OnList(l) => l.PushOp? ==> l.values != []
    case _ => true
  }

  /** XADD finds its explicit id too small. */
  predicate IdRefused(op: KeyOp, slot: Slot) {
    && op.OnStream? && op.stream.XAdd? && (slot.Some? ==> slot.value.value.Log?)
    && Streams.NextId(StreamIn(slot), op.stream.explicit, op.stream.ms).None?
  }

  lemma {:induction false} ListRefusesIff(op: ListOp, slot: Slot)
    ensures ApplyList(op, slot).1 == Fail(WrongType) <==>
            Minds(OnList(op)) && slot.Some? && !slot.value.value.List?
  {
  }

  lemma {:induction false} HashRefusesIff(op: HashOp, slot: Slot)
    ensures ApplyHash(op, slot).1 == Fail(WrongType) <==> slot.Some? && !slot.value.value.Hash?
  {
  }

  lemma {:induction false} SetRefusesIff(op: SetOp, slot: Slot)
    ensures ApplySet(op, slot).1 == Fail(WrongType) <==> slot.Some? && !slot.value.value.Members?
  {
  }

  lemma {:induction false} ZsetRefusesIff(op: ZsetOp, slot: Slot)
    ensures ApplyZset(op, slot).1 == Fail(WrongType) <==> slot.Some? && !slot.value.value.SortedSet?
  {
  }

  lemma {:induction false} StreamRefusesIff(op: StreamOp, slot: Slot, now: Time)
    ensures ApplyStream(op, slot, now).1 == Fail(WrongType) <==>
            (slot.Some? && !slot.value.value.Log?) || IdRefused(OnStream(op), slot)
  {
    if slot.Some? && slot.value.value.Log? && !op.XAdd? && !op.XGroupCreate? {
      ValueNeverRefuses(op, slot.value.value.stream, now);
    }
  }

  lemma {:induction false} ValueNeverRefuses(op: StreamOp, s: Stream, now: Time)
    ensures ApplyStreamValue(op, s, now).1 != Fail(WrongType)
  {
  }

  /**
   A command replies WRONGTYPE exactly when it looks at types and finds a live value of another one, or when XADD
   refuses an id, for which the code uses the same error.
   */
  lemma {:induction false} WrongTypeIff(op: KeyOp, slot: Slot, now: Time)
    ensures Apply(op, slot, now).1 == Fail(WrongType) <==>
            (Minds(op) && slot.Some? && !Fits(op, slot.value.value)) || IdRefused(op, slot)
  {
    match op
    case OnList(l) => ListRefusesIff(l, slot);
    case OnHash(h) => HashRefusesIff(h, slot);
    case OnMembers(m) => SetRefusesIff(m, slot);
    case OnZset(z) => ZsetRefusesIff(z, slot);
    case OnStream(x) => StreamRefusesIff(x, slot, now);
    case _ =>
  }

  // ----- HSET and ZRANGE -----

  /** After HSET a field has the value of the last pair that names it ... */
  lemma {:induction false} LastPairWins(m: Fields, pairs: seq<(Bytes, Bytes)>, i: nat)
    requires i < |pairs| && forall j :: i < j < |pairs| ==> pairs[j].0 != pairs[i].0
    ensures pairs[i].0 in SetFields(m, pairs) && SetFields(m, pairs)[pairs[i].0] == pairs[i].1
  {
    var n := |pairs| - 1;
    if i < n {
      LastPairWins(m, pairs[..n], i);
    }
  }

  /** ... and a field no pair names is as before. */
  lemma {:induction false} UnnamedFieldKept(m: Fields, pairs: seq<(Bytes, Bytes)>, f: Bytes)
    requires forall i :: 0 <= i < |pairs| ==> pairs[i].0 != f
    ensures f in SetFields(m, pairs) <==> f in m
    ensures f in m ==> SetFields(m, pairs)[f] == m[f]
  {
    if pairs != [] {
      UnnamedFieldKept(m, pairs[..|pairs| - 1], f);
    }
  }

  /** HDEL takes out exactly the fields named, replies how many there were, and drops the key with the last one. */
  lemma {:induction false} HdelAnswer(e: Entry, fields: seq<Bytes>)
    requires e.value.Hash?
    ensures var m, r := e.value.fields, ApplyHash(HDel(fields), Some(e));
            && (r.0.None? <==> m.Keys <= Elems(fields))
            && (r.0.Some? ==> && r.0.value.value.Hash? && r.0.value.expiresAt == e.expiresAt
                              && forall f :: && (f in r.0.value.value.fields <==> f in m && f !in fields)
                                             && (f in r.0.value.value.fields ==> r.0.value.value.fields[f] == m[f]))
            && r.1 == Int(|m.Keys * Elems(fields)|)
  {
    var m := e.value.fields;
    var left := m - Elems(fields);
    assert left.Keys == m.Keys - Elems(fields);
    SplitSize(m.Keys, Elems(fields));
    assert |left.Keys| == |left| && |m.Keys| == |m|;
  }

  lemma {:induction false} SplitSize(a: set<Bytes>, b: set<Bytes>)
    ensures |a| - |a - b| == |a * b|
    ensures |a + b| - |a| == |b - a|
    ensures a - b == {} <==> a <= b
  {
    assert a <= b ==> a - b == {};
    assert a - b == {} ==> forall x :: x in a ==> x in b || x in a - b;
    assert a == (a * b) + (a - b);
    assert a + b == a + (b - a);
  }

  /** SADD and SREM: exactly the members named come in or go, and the reply is how many did. */
  lemma {:induction false} MembersAnswer(e: Entry, ms: seq<Bytes>)
    requires e.value.Members?
    ensures var s, add, rem := e.value.members, ApplySet(SAdd(ms), Some(e)), ApplySet(SRem(ms), Some(e));
            && add.0.Some? && add.0.value.value.Members? && add.1 == Int(|Elems(ms) - s|)
            && (forall x :: x in add.0.value.value.members <==> x in s || x in ms)
            && (rem.0.None? <==> s <= Elems(ms))
            && (rem.0.Some? ==> && rem.0.value.value.Members?
                                && forall x :: x in rem.0.value.value.members <==> x in s && x !in ms)
            && rem.1 == Int(|s * Elems(ms)|)
  {
    var s := e.value.members;
    SplitSize(s, Elems(ms));
  }

  /** ZRANGE lists, in score order, exactly the members whose ranks the two indices select. */
  lemma {:induction false} RanksSelected(z: Zset, start: i64, stop: i64) returns (a: nat, b: nat)
    requires ZsetValid(z)
    ensures var keys := SortedKeys(z.byScore);
            && a <= b <= |keys| && RangeByIndex(z, start, stop) == keys[a..b]
            && forall i :: 0 <= i < |keys| ==> (Selects(start, stop, |keys|, i) <==> a <= i < b)
  {
    ValidIsKeysOf(z);
    KeysOfSize(z.byMember);
    var n := |z.byMember|;
    assert |SortedKeys(z.byScore)| == n;
    NormalizeRangeMeaning(start, stop, n);
    var r := NormalizeRange(start, stop, n);
    a, b := if r.None? then 0 else r.value.0, if r.None? then 0 else r.value.1 + 1;
    RangeIsSlice(z, start, stop, n, a, b);
  }

  lemma {:induction false} RangeIsSlice(z: Zset, start: i64, stop: i64, n: nat, a: nat, b: nat)
    requires n == |z.byMember| == |SortedKeys(z.byScore)| && a <= b <= n
    requires var r := NormalizeRange(start, stop, n);
             if r.None? then a == b else r.value == (a, b - 1) && a < b
    ensures RangeByIndex(z, start, stop) == SortedKeys(z.byScore)[a..b]
  {
    var keys := SortedKeys(z.byScore);
    if b == n {
      assert keys[a..] == keys[a..b];
    }
  }
}
