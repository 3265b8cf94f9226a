/**
 The store: one map behind one write lock, updated in place. Each method runs the steps of the command -
 passive expiration, type check, loop, clean-up, notification - and is proved to do what `Commands` says.
 */
module Store {
  import opened Prelude
  import opened Ordering
  import opened Values
  import opened Lists
  import opened SortedSets
  import opened Groups
  import opened Autoclaim
  import opened Streams
  import opened StreamObjects
  import opened Commands
  import opened Expiry
  import opened Scripts
  import opened Waiters
  import Decimal
  import Glob
  import GroupReads

  /** What the passive-expiration prologue leaves: the key is there exactly when it is live. */
  lemma {:induction false} Prologue(ks: Keyspace, now: Time, key: Bytes)
    ensures var clean := Purge(ks, now, key);
            var slot := LiveSlot(ks, now, key);
            && (key in clean <==> slot.Some?)
            && (slot.Some? ==> clean == ks && clean[key] == slot.value && Put(ks, key, slot) == ks)
            && (slot.None? ==> clean == Put(ks, key, None))
  {
  }

  lemma {:induction false} PutAfterPurge(ks: Keyspace, now: Time, key: Bytes, slot: Slot)
    ensures Put(Purge(ks, now, key), key, slot) == Put(ks, key, slot)
  {
  }

  lemma {:induction false} Overwrite(ks: Keyspace, key: Bytes, a: Entry, b: Entry)
    ensures ks[key := a][key := b] == ks[key := b]
    ensures key in ks ==> ks[key := ks[key]] == ks
  {
  }

  /** Purge, write, write again: only the last write shows. */
  lemma {:induction false} FinalPut(ks: Keyspace, now: Time, key: Bytes, a: Entry, b: Slot)
    ensures Put(Put(Purge(ks, now, key), key, Some(a)), key, b) == Put(ks, key, b)
  {
  }

  /** The keys a sweep looks at. */
  function WithExpiry(ks: Keyspace): set<Bytes> {
    set k | k in ks && ks[k].expiresAt.Some?
  }

  /** With `visited` looked at and `rest` still ahead, `toRemove` is what must go so far. */
  ghost predicate Swept(ks: Keyspace, now: Time, visited: set<Bytes>, rest: set<Bytes>, toRemove: set<Bytes>,
                        checked: nat) {
    && rest <= ks.Keys && rest !! visited
    && visited <= WithExpiry(ks) <= visited + rest
    && toRemove == visited * ExpiredKeys(ks, now)
    && checked == |visited|
  }

  lemma {:induction false} SweepStart(ks: Keyspace, now: Time)
    ensures Swept(ks, now, {}, ks.Keys, {}, 0)
  {
  }

  lemma {:induction false} SweepOne(ks: Keyspace, now: Time, visited: set<Bytes>, rest: set<Bytes>,
                                    toRemove: set<Bytes>, checked: nat, k: Bytes)
    requires Swept(ks, now, visited, rest, toRemove, checked) && k in rest
    ensures if ks[k].expiresAt.Some?
            then Swept(ks, now, visited + {k}, rest - {k},
                       if Expired(ks[k], now) then toRemove + {k} else toRemove, checked + 1)
            else Swept(ks, now, visited, rest - {k}, toRemove, checked)
  {
  }

  lemma {:induction false} SweepEnd(ks: Keyspace, now: Time, visited: set<Bytes>, rest: set<Bytes>,
                                    toRemove: set<Bytes>, checked: nat)
    requires Swept(ks, now, visited, rest, toRemove, checked)
    requires checked <= 20 && (rest == {} || checked == 20)
    ensures toRemove == visited * ExpiredKeys(ks, now)
    ensures visited <= WithExpiry(ks) && |visited| <= 20
    ensures visited == WithExpiry(ks) || |visited| == 20
  {
  }

  /** The scan of the sweep: keys in HashMap order, at most 20 of those that have an expiry. */
  method ScanExpired(ks: Keyspace, now: Time) returns (toRemove: set<Bytes>, ghost visited: set<Bytes>)
    ensures toRemove == visited * ExpiredKeys(ks, now)
    ensures visited <= WithExpiry(ks) && |visited| <= 20
    ensures visited == WithExpiry(ks) || |visited| == 20
  {
    toRemove, visited := {}, {};
    var checked: nat := 0;
    var rest := ks.Keys;
    SweepStart(ks, now);
    while rest != {}
      invariant Swept(ks, now, visited, rest, toRemove, checked)
      invariant checked < 20
      decreases rest
    {
      var k :| k in rest;
      SweepOne(ks, now, visited, rest, toRemove, checked, k);
      rest := rest - {k};
      if ks[k].expiresAt.Some? {
        checked := checked + 1;
        visited := visited + {k};
        if Expired(ks[k], now) {
          toRemove := toRemove + {k};
        }
        if checked >= 20 {
          break;
        }
      }
    }
    SweepEnd(ks, now, visited, rest, toRemove, checked);
  }

  // ----- taking a value out, updating it as an object, putting it back -----

  method RunZadd(z: Zset, items: seq<ZKey>, fl: ZaddFlags) returns (z': Zset, n: int)
    ensures z' == ZaddAll(z, items, fl) && n == ZaddReply(z, items, fl)
  {
    var obj := new SortedSetIndex(z);
    n := obj.Zadd(items, fl);
    z' := Zset(obj.byScore, obj.byMember);
  }

  method RunZrem(z: Zset, members: seq<Bytes>) returns (z': Zset, n: nat)
    ensures z' == RemoveAll(z, members) && n == |z.byMember| - |z'.byMember|
  {
    var obj := new SortedSetIndex(z);
    n := obj.Zrem(members);
    z' := Zset(obj.byScore, obj.byMember);
  }

  method RunZremRange(z: Zset, lo: ScoreBound, hi: ScoreBound) returns (z': Zset, n: nat)
    ensures z' == RemoveRange(z, lo, hi) && n == |RangeByScore(z, lo, hi)|
  {
    var obj := new SortedSetIndex(z);
    n := obj.ZremRangeByScore(lo, hi);
    z' := Zset(obj.byScore, obj.byMember);
  }

  method RunXadd(s: Stream, fields: Fields, explicit: Option<StreamId>, ms: u64) returns (s': Stream,
                 id: Option<StreamId>)
    ensures s' == Added(s, fields, explicit, ms) && id == NextId(s, explicit, ms)
  {
    var obj := new StreamLog(s);
    id := obj.Xadd(fields, explicit, ms);
    s' := Stream(obj.entries, obj.lastId, obj.groups);
  }

  method RunXtrim(s: Stream, max: Option<nat>, minId: Option<StreamId>) returns (s': Stream, n: nat)
    ensures (s', Int(n)) == ApplyStreamValue(XTrim(max, minId), s, 0)
  {
    var obj := new StreamLog(s);
    n := obj.Xtrim(max, minId);
    s' := Stream(obj.entries, obj.lastId, obj.groups);
  }

  method RunXdel(s: Stream, ids: seq<StreamId>) returns (s': Stream, n: nat)
    ensures s' == Deleted(s, ids) && n == |s.entries| - |s'.entries|
  {
    var obj := new StreamLog(s);
    n := obj.Xdel(ids);
    s' := Stream(obj.entries, obj.lastId, obj.groups);
  }

  method RunDeliver(s: Stream, g: Group, consumer: Bytes, count: Option<nat>, now: Time) returns (g': Group,
                    ids: seq<StreamId>)
    ensures ids == NewIds(s.entries, g, count) && g' == Delivered(g, ids, consumer, now)
  {
    var obj := new ConsumerGroup(g);
    ids := obj.Deliver(s.entries, consumer, count, now);
    g' := Group(obj.lastDelivered, obj.consumers);
  }

  method RunAck(g: Group, ids: seq<StreamId>) returns (g': Group, n: nat, ghost hints: seq<Bytes>)
    ensures g' == AckAll(g, ids, hints) && n == |Acked(g, ids, hints)|
  {
    var obj := new ConsumerGroup(g);
    n, hints := obj.Ack(ids);
    g' := Group(obj.lastDelivered, obj.consumers);
  }

  method RunClaim(s: Stream, g: Group, ids: seq<StreamId>, a: ClaimArgs, now: Time) returns (g': Group,
                  claimed: seq<ClaimedItem>, ghost hints: seq<Bytes>)
    ensures g' == ClaimAll(s.entries, g, ids, a, now, hints) && claimed == ClaimReply(s.entries, g, ids, a, now, hints)
  {
    var obj := new ConsumerGroup(g);
    claimed, hints := obj.Claim(s.entries, ids, a, now);
    g' := Group(obj.lastDelivered, obj.consumers);
  }

  method RunAutoclaim(s: Stream, g: Group, target: Bytes, minIdle: Time, start: StreamId, count: Option<nat>, now: Time)
    returns (g': Group, next: StreamId, taken: seq<(StreamId, Fields)>, deleted: seq<StreamId>, order: seq<Bytes>)
    ensures (g', AutoClaimed(next, taken, deleted)) ==
            ApplyGroup(XAutoclaim([], target, minIdle, start, count, order), s, g, now)
  {
    var obj := new ConsumerGroup(g);
    next, taken, deleted, order := obj.Autoclaim(s.entries, target, minIdle, start, count, now);
    g' := Group(obj.lastDelivered, obj.consumers);
  }

  /** The element changes hands: pop, drop an emptied source, push onto the destination or a new list. */
  function MoveOn(clean: Keyspace, src: Bytes, dst: Bytes, from: ListEnd, to: ListEnd): Keyspace
    requires src in clean && clean[src].value.List? && clean[src].value.items != []
    requires dst in clean ==> clean[dst].value.List?
  {
    var e := clean[src];
    var v, left := Peek(e.value.items, from), Pop(e.value.items, from);
    if src == dst then clean[src := e.(value := List(Lists.Push(left, v, to)))]
    else
      var d := if dst in clean then clean[dst] else Entry(List([]), None);
      Put(clean, src, KeepList(e, left))[dst := d.(value := List(Lists.Push(d.value.items, v, to)))]
  }

  method MoveElement(clean: Keyspace, src: Bytes, dst: Bytes, from: ListEnd, to: ListEnd) returns (ks: Keyspace,
                     popped: Bytes)
    requires src in clean && clean[src].value.List? && clean[src].value.items != []
    requires dst in clean ==> clean[dst].value.List?
    ensures ks == MoveOn(clean, src, dst, from, to) && popped == Peek(clean[src].value.items, from)
  {
    var e := clean[src];
    popped := Peek(e.value.items, from);
    var left := Pop(e.value.items, from);
    ks := clean[src := e.(value := List(left))];
    if left == [] && src != dst {
      ks := ks - {src};
    }
    if dst !in ks {
      ks := ks[dst := Entry(List([]), None)];
    }
    var d := ks[dst];
    ks := ks[dst := d.(value := List(Lists.Push(d.value.items, popped, to)))];
  }

  lemma {:induction false} EffectIsMoveOn(ks: Keyspace, now: Time, src: Bytes, dst: Bytes, from: ListEnd, to: ListEnd)
    requires LmoveRefusal(ks, now, src, dst).None?
    ensures var clean := PurgeBoth(ks, now, src, dst);
            && src in clean && clean[src] == ks[src]
            && (dst in clean ==> clean[dst].value.List?)
            && LmoveEffect(ks, now, src, dst, from, to) == MoveOn(clean, src, dst, from, to)
  {
  }

  class KeyValueStore {
    var data: Keyspace
    /** How often `notify_waiters` was called on each notifier. */
    var listNotifies: nat
    var streamNotifies: nat

    constructor (ks: Keyspace)
      ensures data == ks && listNotifies == 0 && streamNotifies == 0
    {
      data, listNotifies, streamNotifies := ks, 0, 0;
    }

    /** The prologue of almost every command. */
    method PassiveExpire(now: Time, key: Bytes)
      modifies this`data
      ensures data == Purge(old(data), now, key)
      ensures key in data <==> LiveSlot(old(data), now, key).Some?
      ensures key in data ==> data == old(data) && LiveSlot(old(data), now, key) == Some(data[key])
    {
      if key in data && Expired(data[key], now) {
        data := data - {key};
      }
    }

    // ----- keys and strings -----

    /** GET under the read lock: the reply, or `None` when a stale entry is in the way. */
    method GetPeek(now: Time, key: Bytes) returns (r: Option<Reply>)
      ensures r.None? <==> key in data && Expired(data[key], now)
      ensures r.Some? ==> Exec(data, now, One(key, OnString(StringOp.Get))) == (data, r.value)
    {
      AtomicGet(data, now, key);
      if key !in data {
        return Some(Nil);
      }
      var e := data[key];
      if !Expired(e, now) {
        if e.value.Str? {
          return Some(Bulk(e.value.bytes));
        }
        return Some(Fail(WrongType));
      }
      return None;
    }

    /** GET: when the first step found a stale entry, the second checks again before it removes anything. */
    method Get(now: Time, key: Bytes) returns (r: Reply)
      modifies this`data
      ensures (data, r) == Exec(old(data), now, One(key, OnString(StringOp.Get)))
    {
      AtomicGet(data, now, key);
      var first := GetPeek(now, key);
      if first.Some? {
        return first.value;
      }
      PassiveExpire(now, key);
      return Nil;
    }

    /** EXISTS counts a key as often as it is named. */
    method Exists(now: Time, keys: seq<Bytes>) returns (count: nat)
      ensures RunMany(data, now, Steps(keys, OnAny(AnyOp.Exists)), Never).0 == data
      ensures count == Total(RunMany(data, now, Steps(keys, OnAny(AnyOp.Exists)), Never).1)
    {
      count := 0;
      for i := 0 to |keys|
        invariant count == |Present(data, now, keys[..i])|
      {
        assert keys[..i + 1][..i] == keys[..i];
        if keys[i] in data && !Expired(data[keys[i]], now) {
          count := count + 1;
        }
      }
      assert keys[..|keys|] == keys;
      ExistsReplies(data, now, keys);
    }

    /** MGET: nothing for a missing, stale or non-string key. */
    method Mget(now: Time, keys: seq<Bytes>) returns (rs: seq<Reply>)
      ensures (data, rs) == RunMany(data, now, Steps(keys, OnString(MGet)), Never)
    {
      rs := [];
      for i := 0 to |keys|
        invariant |rs| == i
        invariant forall j :: 0 <= j < i ==> rs[j] == ApplyString(MGet, LiveSlot(data, now, keys[j]), now).1
      {
        var r := Nil;
        if keys[i] in data && !Expired(data[keys[i]], now) {
          if data[keys[i]].value.Str? {
            r := Bulk(data[keys[i]].value.bytes);
          }
        }
        rs := rs + [r];
      }
      MgetReplies(data, now, keys);
      assert rs == RunMany(data, now, Steps(keys, OnString(MGet)), Never).1;
    }

    /** KEYS: every live key the pattern matches, once, in HashMap order. */
    method Keys(now: Time, pattern: Bytes) returns (found: seq<Bytes>)
      ensures Exec(data, now, Command.Keys(pattern)) == (data, KeySet(Elems(found)))
      ensures forall i, j :: 0 <= i < j < |found| ==> found[i] != found[j]
    {
      found := [];
      var rest := data.Keys;
      while rest != {}
        invariant rest <= data.Keys
        invariant Listed(data, now, pattern, rest, found)
        decreases rest
      {
        var k :| k in rest;
        var matched, _ := Glob.GlobMatch(pattern, k);
        ListedNext(data, now, pattern, rest, found, k);
        if !Expired(data[k], now) && matched {
          found := found + [k];
        }
        rest := rest - {k};
      }
      assert Elems(found) == set k | k in data && !Expired(data[k], now) && Glob.Matches(pattern, k);
    }

    /** TTL in whole seconds; -1 without expiry, -2 without key. */
    method Ttl(now: Time, key: Bytes) returns (n: int)
      modifies this`data
      ensures (data, Int(n)) == Exec(old(data), now, One(key, OnAny(AnyOp.Ttl)))
    {
      Prologue(data, now, key);
      if key !in data {
        return -2;
      }
      var e := data[key];
      if Expired(e, now) {
        data := data - {key};
        return -2;
      }
      match e.expiresAt {
        case None => return -1;
        case Some(at) => return (at - now) / NANOS_PER_SEC;
      }
    }

    method Set(now: Time, key: Bytes, value: Bytes, ttl: Option<nat>, nx: bool, xx: bool) returns (ok: bool)
      modifies this`data
      ensures (data, Flag(ok)) == OnKey(old(data), now, key, OnString(StringOp.Set(value, ttl, nx, xx)))
    {
      var exists_ := key in data && !Expired(data[key], now);
      if nx && exists_ {
        return false;
      }
      if xx && !exists_ {
        return false;
      }
      var e := Entry(Str(value), if ttl.Some? then Some(now + ttl.value) else None);
      Overwrite(data, key, e, e);
      data := data[key := e];
      return true;
    }

    /** DEL: counts the keys that were live; each key is removed whether stale or not. */
    method Del(now: Time, keys: seq<Bytes>) returns (count: nat)
      modifies this`data
      ensures data == old(data) - Elems(keys)
      ensures count == |Elems(keys) * LiveKeys(old(data), now)|
    {
      ghost var before := data;
      count := 0;
      assert Elems(keys[..0]) * LiveKeys(before, now) == {};
      for i := 0 to |keys|
        invariant data == before - Elems(keys[..i])
        invariant count == |Elems(keys[..i]) * LiveKeys(before, now)|
      {
        ElemsPrefix(keys, i);
        DelOne(before, now, Elems(keys[..i]), keys[i]);
        if keys[i] in data && !Expired(data[keys[i]], now) {
          count := count + 1;
        }
        data := data - {keys[i]};
      }
      assert keys[..|keys|] == keys;
    }

    /** The background sweep: in HashMap order, stops after 20 keys that have an expiry at all. */
    method SweepExpired(now: Time) returns (count: nat, ghost visited: set<Bytes>)
      modifies this`data
      ensures (data, Int(count)) == Exec(old(data), now, Sweep(visited))
      ensures visited <= WithExpiry(old(data)) && |visited| <= 20
      ensures visited == WithExpiry(old(data)) || |visited| == 20
    {
      var toRemove;
      toRemove, visited := ScanExpired(data, now);
      count := |toRemove|;
      data := data - toRemove;
    }

    method Hincrby(now: Time, key: Bytes, field: Bytes, increment: i64) returns (r: Reply)
      modifies this`data
      ensures (data, r) == OnKey(old(data), now, key, OnHash(HIncrBy(field, increment)))
    {
      ghost var before := data;
      PutAfterPurge(data, now, key, ApplyHash(HIncrBy(field, increment), LiveSlot(data, now, key)).0);
      Prologue(data, now, key);
      PassiveExpire(now, key);
      if key !in data {
        data := data[key := Entry(Hash(map[]), None)];
      }
      var e := data[key];
      if !e.value.Hash? {
        return Fail(WrongType);
      }
      var m := e.value.fields;
      match Decimal.HincrValue(if field in m then Some(m[field]) else None, increment) {
        case Stored(n) =>
          var next := e.(value := Hash(m[field := Decimal.PrintInt(n)]));
          Overwrite(Purge(before, now, key), key, e, next);
          data := data[key := next];
          return Int(n);
        case NotInteger => return Fail(NotAnInteger);
        case Overflow => return Fail(WouldOverflow);
      }
    }

    // ----- lists -----

    /** LPUSH and RPUSH. */
    method Push(now: Time, key: Bytes, values: seq<Bytes>, end: ListEnd) returns (r: Reply)
      modifies this`data, this`listNotifies
      ensures (data, r) == OnKey(old(data), now, key, OnList(PushOp(values, end)))
      ensures listNotifies ==
              old(listNotifies) + (if NotifiesList(One(key, OnList(PushOp(values, end))), r) then 1 else 0)
    {
      if values == [] {
        return Fail(WrongArity);
      }
      ghost var before := data;
      PutAfterPurge(data, now, key, ApplyList(PushOp(values, end), LiveSlot(data, now, key)).0);
      Prologue(data, now, key);
      PassiveExpire(now, key);
      if key !in data {
        data := data[key := Entry(List([]), None)];
      }
      var e := data[key];
      if !e.value.List? {
        return Fail(WrongType);
      }
      var items := e.value.items;
      for i := 0 to |values|
        invariant data == if LiveSlot(before, now, key).Some? then before else Purge(before, now, key)[key := e]
        invariant items == PushAll(e.value.items, values[..i], end)
      {
        items := Lists.Push(items, values[i], end);
        assert values[..i + 1][..i] == values[..i];
      }
      assert values[..|values|] == values;
      Overwrite(Purge(before, now, key), key, e, e.(value := List(items)));
      data := data[key := e.(value := List(items))];
      listNotifies := listNotifies + 1;
      return Int(|items|);
    }

    method Lrem(now: Time, key: Bytes, count: i64, value: Bytes) returns (r: Reply)
      modifies this`data
      ensures (data, r) == OnKey(old(data), now, key, OnList(LRem(count, value)))
    {
      Prologue(data, now, key);
      PassiveExpire(now, key);
      if key !in data {
        return Int(0);
      }
      var e := data[key];
      if !e.value.List? {
        return Fail(WrongType);
      }
      var rest, removed := LremLoop(e.value.items, count, value);
      if rest == [] {
        data := data - {key};
      } else {
        data := data[key := e.(value := List(rest))];
      }
      return Int(removed);
    }

    method Ltrim(now: Time, key: Bytes, start: i64, stop: i64) returns (r: Reply)
      modifies this`data
      ensures (data, r) == OnKey(old(data), now, key, OnList(LTrim(start, stop)))
    {
      Prologue(data, now, key);
      PassiveExpire(now, key);
      if key !in data {
        return Okay;
      }
      var e := data[key];
      if !e.value.List? {
        return Fail(WrongType);
      }
      var kept := Slice(e.value.items, start, stop);
      if kept == [] {
        data := data - {key};
      } else {
        data := data[key := e.(value := List(kept))];
      }
      return Okay;
    }

    /** LMOVE: both type checks come before the pop, the pop before the push, all under one lock. */
    method LmoveAtomic(now: Time, src: Bytes, dst: Bytes, from: ListEnd, to: ListEnd) returns (r: Reply)
      modifies this`data, this`listNotifies
      ensures (data, r) == LmoveResult(old(data), now, src, dst, from, to)
      ensures listNotifies == old(listNotifies) + (if NotifiesList(Lmove(src, dst, from, to), r) then 1 else 0)
    {
      ghost var before := data;
      Prologue(data, now, src);
      PassiveExpire(now, src);
      if src != dst {
        Prologue(data, now, dst);
        PassiveExpire(now, dst);
      }
      assert data == PurgeBoth(before, now, src, dst);
      if src !in data {
        return Nil;
      }
      var e := data[src];
      if !e.value.List? {
        return Fail(WrongType);
      }
      if e.value.items == [] {
        return Nil;
      }
      if src != dst && dst in data && !data[dst].value.List? {
        return Fail(WrongType);
      }
      EffectIsMoveOn(before, now, src, dst, from, to);
      var popped;
      data, popped := MoveElement(data, src, dst, from, to);
      listNotifies := listNotifies + 1;
      return Bulk(popped);
    }

    /** One BLPOP/BRPOP poll: the first non-empty list, left to right; a key of another type ends the scan. */
    method PollPop(now: Time, keys: seq<Bytes>, end: ListEnd) returns (r: Reply)
      modifies this`data
      ensures var m := RunMany(old(data), now, PopSteps(keys, end), AtHit); data == m.0 && r == LastReply(m.1)
    {
      ghost var steps := PopSteps(keys, end);
      ghost var all := RunMany(data, now, steps, AtHit);
      assert steps[0..] == steps;
      var i := 0;
      while i < |keys|
        invariant i <= |keys|
        invariant RunMany(data, now, steps[i..], AtHit).0 == all.0
        invariant LastReply(RunMany(data, now, steps[i..], AtHit).1) == LastReply(all.1)
        decreases |keys| - i
      {
        assert steps[i..][0] == (keys[i], OnList(PollOp(end))) && steps[i..][1..] == steps[i + 1..];
        ghost var before := data;
        r := PollKey(now, keys[i], end);
        LastReplyStep(before, now, steps[i..], AtHit);
        if r != Nil {
          return;
        }
        i := i + 1;
      }
      return Nil;
    }

    method PollKey(now: Time, key: Bytes, end: ListEnd) returns (r: Reply)
      modifies this`data
      ensures (data, r) == OnKey(old(data), now, key, OnList(PollOp(end)))
    {
      Prologue(data, now, key);
      PassiveExpire(now, key);
      if key !in data {
        return Nil;
      }
      var e := data[key];
      if !e.value.List? {
        return Fail(WrongType);
      }
      if e.value.items == [] {
        return Nil;
      }
      var v := Peek(e.value.items, end);
      var left := Pop(e.value.items, end);
      if left == [] {
        data := data - {key};
      } else {
        data := data[key := e.(value := List(left))];
      }
      return Bulk(v);
    }

    // ----- sorted sets -----

    /** `remove_if_empty`: the key stays unless its container holds nothing; every other key stays as it is. */
    method RemoveIfEmpty(key: Bytes)
      modifies this`data
      ensures key in data <==> key in old(data) && !EmptyContainer(old(data)[key].value)
      ensures key in data ==> data[key] == old(data)[key]
      ensures data - {key} == old(data) - {key}
    {
      if key in data {
        var v := data[key].value;
        SizeIsContents(v);
        var empty := match v
          case Hash(m) => |m| == 0
          case Members(s) => |s| == 0
          case SortedSet(z) => |z.byMember| == 0
          case List(l) => |l| == 0
          case _ => false;
        if empty {
          data := data - {key};
        }
      }
    }

    /** The clean-up at the end of ZADD, ZREM and ZREMRANGEBYSCORE, in the terms of their specification. */
    method CleanUp(key: Bytes)
      requires key in data
      modifies this`data
      ensures data == Put(old(data), key, DropIfEmpty(Some(old(data)[key])))
    {
      ghost var want := Put(data, key, DropIfEmpty(Some(data[key])));
      RemoveIfEmpty(key);
      SameAt(data, want, key);
    }

    method Zadd(now: Time, key: Bytes, items: seq<ZKey>, fl: ZaddFlags) returns (r: Reply)
      modifies this`data
      ensures (data, r) == OnKey(old(data), now, key, OnZset(ZAdd(items, fl)))
    {
      ghost var before := data;
      Prologue(data, now, key);
      ZaddOutcome(data, now, key, items, fl);
      PassiveExpire(now, key);
      if key !in data {
        data := data[key := Entry(SortedSet(EMPTY_ZSET), None)];
      }
      var e := data[key];
      if e.value.SortedSet? {
        var z, n := RunZadd(e.value.zset, items, fl);
        Overwrite(Purge(before, now, key), key, e, e.(value := SortedSet(z)));
        data := data[key := e.(value := SortedSet(z))];
        r := Int(n);
      } else {
        r := Fail(WrongType);
      }
      FinalPut(before, now, key, data[key], DropIfEmpty(Some(data[key])));
      assert data == Put(Purge(before, now, key), key, Some(data[key]));
      CleanUp(key);
    }

    method Zrem(now: Time, key: Bytes, members: seq<Bytes>) returns (r: Reply)
      modifies this`data
      ensures (data, r) == OnKey(old(data), now, key, OnZset(ZRem(members)))
    {
      ghost var before := data;
      RemovalOutcome(data, now, key, ZRem(members));
      PassiveExpire(now, key);
      if key !in data {
        return Int(0);
      }
      var e := data[key];
      if e.value.SortedSet? {
        var z, n := RunZrem(e.value.zset, members);
        data := data[key := e.(value := SortedSet(z))];
        r := Int(n);
      } else {
        r := Fail(WrongType);
      }
      FinalPut(before, now, key, data[key], DropIfEmpty(Some(data[key])));
      assert data == Put(Purge(before, now, key), key, Some(data[key]));
      CleanUp(key);
    }

    method ZremRangeByScore(now: Time, key: Bytes, lo: ScoreBound, hi: ScoreBound) returns (r: Reply)
      modifies this`data
      ensures (data, r) == OnKey(old(data), now, key, OnZset(ZRemRange(lo, hi)))
    {
      ghost var before := data;
      RemovalOutcome(data, now, key, ZRemRange(lo, hi));
      PassiveExpire(now, key);
      if key !in data {
        return Int(0);
      }
      var e := data[key];
      if e.value.SortedSet? {
        var z, n := RunZremRange(e.value.zset, lo, hi);
        data := data[key := e.(value := SortedSet(z))];
        r := Int(n);
      } else {
        r := Fail(WrongType);
      }
      FinalPut(before, now, key, data[key], DropIfEmpty(Some(data[key])));
      assert data == Put(Purge(before, now, key), key, Some(data[key]));
      CleanUp(key);
    }

    method Zrangestore(now: Time, dst: Bytes, src: Bytes, lo: ScoreBound, hi: ScoreBound) returns (r: Reply)
      modifies this`data
      ensures (data, r) == StoreRangeResult(old(data), now, dst, src, lo, hi)
    {
      Prologue(data, now, src);
      PassiveExpire(now, src);
      var keys: seq<ZKey> := [];
      if src in data {
        if !data[src].value.SortedSet? {
          return Fail(WrongType);
        }
        keys := ScanByScore(data[src].value.zset, lo, hi);
      }
      if keys == [] {
        data := data - {dst};
      } else {
        var z, _ := RunZadd(EMPTY_ZSET, keys, ZaddFlags(false, false, false, false, false));
        data := data[dst := Entry(SortedSet(z), None)];
      }
      return Int(|keys|);
    }

    // ----- streams -----

    method Xadd(now: Time, key: Bytes, fields: Fields, explicit: Option<StreamId>, ms: u64) returns (r: Reply)
      modifies this`data, this`streamNotifies
      ensures (data, r) == OnKey(old(data), now, key, OnStream(XAdd(fields, explicit, ms)))
      ensures streamNotifies ==
              old(streamNotifies) + (if NotifiesStream(One(key, OnStream(XAdd(fields, explicit, ms))), r) then 1 else 0)
    {
      ghost var before := data;
      PutAfterPurge(data, now, key, ApplyStream(XAdd(fields, explicit, ms), LiveSlot(data, now, key), now).0);
      Prologue(data, now, key);
      PassiveExpire(now, key);
      if key !in data {
        data := data[key := Entry(Log(EMPTY_STREAM), None)];
      }
      var e := data[key];
      if !e.value.Log? {
        return Fail(WrongType);
      }
      var s, id := RunXadd(e.value.stream, fields, explicit, ms);
      Overwrite(Purge(before, now, key), key, e, e.(value := Log(s)));
      data := data[key := e.(value := Log(s))];
      if id.None? {
        return Fail(WrongType);
      }
      streamNotifies := streamNotifies + 1;
      return Id(id.value);
    }

    method Xtrim(now: Time, key: Bytes, max: Option<nat>, minId: Option<StreamId>) returns (r: Reply)
      modifies this`data
      ensures (data, r) == OnKey(old(data), now, key, OnStream(XTrim(max, minId)))
    {
      StreamOpOutcome(data, now, key, XTrim(max, minId));
      PassiveExpire(now, key);
      if key !in data {
        return Int(0);
      }
      var e := data[key];
      if !e.value.Log? {
        return Fail(WrongType);
      }
      var s, n := RunXtrim(e.value.stream, max, minId);
      data := data[key := e.(value := Log(s))];
      return Int(n);
    }

    method Xdel(now: Time, key: Bytes, ids: seq<StreamId>) returns (r: Reply)
      modifies this`data
      ensures (data, r) == OnKey(old(data), now, key, OnStream(XDel(ids)))
    {
      StreamOpOutcome(data, now, key, XDel(ids));
      PassiveExpire(now, key);
      if key !in data {
        return Int(0);
      }
      var e := data[key];
      if !e.value.Log? {
        return Fail(WrongType);
      }
      var s, n := RunXdel(e.value.stream, ids);
      data := data[key := e.(value := Log(s))];
      return Int(n);
    }

    /** The group a command names, or the reply when it cannot be reached. */
    method FindGroup(now: Time, key: Bytes, group: Bytes, missing: Reply) returns (found: Option<(Entry, Group)>,
                     refusal: Reply)
      modifies this`data
      ensures data == Purge(old(data), now, key)
      ensures var slot := LiveSlot(old(data), now, key);
              if slot.None? then found.None? && refusal == missing
              else if !slot.value.value.Log? then found.None? && refusal == Fail(WrongType)
              else if group !in slot.value.value.stream.groups then found.None? && refusal == missing
              else found == Some((slot.value, slot.value.value.stream.groups[group]))
      ensures found.Some? ==> key in data && data == old(data) && found.value.0 == data[key] && data[key].value.Log?
    {
      Prologue(data, now, key);
      PassiveExpire(now, key);
      if key !in data {
        return None, missing;
      }
      var e := data[key];
      if !e.value.Log? {
        return None, Fail(WrongType);
      }
      if group !in e.value.stream.groups {
        return None, missing;
      }
      return Some((e, e.value.stream.groups[group])), missing;
    }

    /** Writes a group back into its stream. */
    method PutGroup(key: Bytes, group: Bytes, g: Group)
      requires key in data && data[key].value.Log?
      modifies this`data
      ensures data == Put(old(data), key, Keep(old(data)[key], Log(WithGroup(old(data)[key].value.stream, group, g))))
    {
      var e := data[key];
      data := data[key := e.(value := Log(WithGroup(e.value.stream, group, g)))];
    }

    method XreadGroupNew(now: Time, key: Bytes, group: Bytes, consumer: Bytes, count: Option<nat>) returns (r: Reply)
      modifies this`data
      ensures (data, r) == OnKey(old(data), now, key, OnStream(XReadNew(group, consumer, count)))
    {
      GroupOpRefused(data, now, key, XReadNew(group, consumer, count));
      var found, refusal := FindGroup(now, key, group, Fail(NoGroup));
      if found.None? {
        return refusal;
      }
      var s := found.value.0.value.stream;
      var g, ids := RunDeliver(s, found.value.1, consumer, count, now);
      GroupOpDone(data, now, key, XReadNew(group, consumer, count));
      PutGroup(key, group, g);
      return Entries(EntriesAt(s.entries, ids));
    }

    /** XREADGROUP with an id: the consumer's own pending entries from there on that are still in the stream. */
    method XreadGroupHistory(now: Time, key: Bytes, group: Bytes, consumer: Bytes, from: StreamId, count: Option<nat>)
      returns (r: Reply)
      modifies this`data
      ensures (data, r) == OnKey(old(data), now, key, OnStream(XReadHistory(group, consumer, from, count)))
    {
      GroupOpRefused(data, now, key, XReadHistory(group, consumer, from, count));
      var found, refusal := FindGroup(now, key, group, Fail(NoGroup));
      if found.None? {
        return refusal;
      }
      var s, g := found.value.0.value.stream, found.value.1;
      GroupOpDone(data, now, key, XReadHistory(group, consumer, from, count));
      HistoryKeeps(data, key, group);
      if consumer !in g.consumers {
        assert Take(SortedIds(set id | id in PelOf(g, consumer) && IdLeq(from, id)), count) == [];
        return Entries([]);
      }
      var ids := SortedIds(set id | id in g.consumers[consumer] && IdLeq(from, id));
      if count.Some? && count.value < |ids| {
        ids := ids[..count.value];
      }
      return Entries(EntriesAt(s.entries, ids));
    }

    /** XREADGROUP over several keys; an error is all the client gets, but what was delivered stays delivered. */
    method XreadGroup(now: Time, group: Bytes, consumer: Bytes, keys: seq<(Bytes, Option<StreamId>)>,
                      count: Option<nat>)
      returns (r: Reply)
      modifies this`data
      ensures (data, r) == Exec(old(data), now, GroupReads.ReadCommand(group, consumer, keys, count))
    {
      var rs := ReadEach(now, group, consumer, keys, count);
      if rs != [] && rs[|rs| - 1].Fail? {
        return rs[|rs| - 1];
      }
      return Multi(rs);
    }

    /** The loop over the keys, up to the first that fails. */
    method ReadEach(now: Time, group: Bytes, consumer: Bytes, keys: seq<(Bytes, Option<StreamId>)>, count: Option<nat>)
      returns (rs: seq<Reply>)
      modifies this`data
      ensures (data, rs) == RunMany(old(data), now, GroupReads.ReadSteps(group, consumer, keys, count), AtError)
    {
      ghost var steps := GroupReads.ReadSteps(group, consumer, keys, count);
      ghost var all := RunMany(data, now, steps, AtError);
      assert steps[0..] == steps;
      rs := [];
      var i := 0;
      while i < |keys|
        invariant i <= |keys|
        invariant all.0 == RunMany(data, now, steps[i..], AtError).0
        invariant all.1 == rs + RunMany(data, now, steps[i..], AtError).1
        decreases |keys| - i
      {
        ghost var before, done := data, rs;
        var r;
        if keys[i].1.None? {
          r := XreadGroupNew(now, keys[i].0, group, consumer, count);
        } else {
          r := XreadGroupHistory(now, keys[i].0, group, consumer, keys[i].1.value, count);
        }
        BatchStep(before, now, steps, i, done);
        rs := rs + [r];
        if r.Fail? {
          return;
        }
        i := i + 1;
      }
      assert steps[i..] == [];
      assert RunMany(data, now, steps[i..], AtError) == (data, []);
      assert rs + [] == rs;
    }

    method Xack(now: Time, key: Bytes, group: Bytes, ids: seq<StreamId>) returns (r: Reply, ghost hints: seq<Bytes>)
      modifies this`data
      ensures (data, r) == OnKey(old(data), now, key, OnStream(XAck(group, ids, hints)))
    {
      hints := [];
      GroupOpRefused(data, now, key, XAck(group, ids, []));
      var found, refusal := FindGroup(now, key, group, Int(0));
      if found.None? {
        return refusal, hints;
      }
      var g, n;
      g, n, hints := RunAck(found.value.1, ids);
      GroupOpDone(data, now, key, XAck(group, ids, hints));
      PutGroup(key, group, g);
      return Int(n), hints;
    }

    method Xclaim(now: Time, key: Bytes, group: Bytes, ids: seq<StreamId>, a: ClaimArgs) returns (r: Reply,
                  ghost hints: seq<Bytes>)
      modifies this`data
      ensures (data, r) == OnKey(old(data), now, key, OnStream(XClaim(group, ids, a, hints)))
    {
      hints := [];
      GroupOpRefused(data, now, key, XClaim(group, ids, a, []));
      var found, refusal := FindGroup(now, key, group, Fail(NoGroup));
      if found.None? {
        return refusal, hints;
      }
      var g, claimed;
      g, claimed, hints := RunClaim(found.value.0.value.stream, found.value.1, ids, a, now);
      GroupOpDone(data, now, key, XClaim(group, ids, a, hints));
      PutGroup(key, group, g);
      return Claimed(claimed), hints;
    }

    method Xautoclaim(now: Time, key: Bytes, group: Bytes, target: Bytes, minIdle: Time, start: StreamId,
                      count: Option<nat>)
      returns (r: Reply, order: seq<Bytes>)
      modifies this`data
      ensures (data, r) == OnKey(old(data), now, key, OnStream(XAutoclaim(group, target, minIdle, start, count, order)))
    {
      order := [];
      GroupOpRefused(data, now, key, XAutoclaim(group, target, minIdle, start, count, []));
      var found, refusal := FindGroup(now, key, group, Fail(NoGroup));
      if found.None? {
        return refusal, order;
      }
      var g, next, taken, deleted;
      g, next, taken, deleted, order := RunAutoclaim(found.value.0.value.stream, found.value.1, target, minIdle, start,
        count, now);
      GroupOpDone(data, now, key, XAutoclaim(group, target, minIdle, start, count, order));
      PutGroup(key, group, g);
      return AutoClaimed(next, taken, deleted), order;
    }
  }

  // ----- reads over many keys -----

  /** A read of the history writes the group back as it was. */
  lemma {:induction false} HistoryKeeps(ks: Keyspace, key: Bytes, group: Bytes)
    requires key in ks && ks[key].value.Log? && group in ks[key].value.stream.groups
    ensures var s := ks[key].value.stream;
            Put(ks, key, Keep(ks[key], Log(WithGroup(s, group, s.groups[group])))) == ks
  {
    var s := ks[key].value.stream;
    assert WithGroup(s, group, s.groups[group]) == s;
  }

  lemma {:induction false} BatchStep(ks: Keyspace, now: Time, steps: seq<(Bytes, KeyOp)>, i: nat, done: seq<Reply>)
    requires i < |steps|
    ensures var first := OnKey(ks, now, steps[i].0, steps[i].1);
            var all := RunMany(ks, now, steps[i..], AtError);
            var rest := RunMany(first.0, now, steps[i + 1..], AtError);
            if first.1.Fail? then all == (first.0, [first.1])
            else all.0 == rest.0 && done + all.1 == (done + [first.1]) + rest.1
  {
    var first := OnKey(ks, now, steps[i].0, steps[i].1);
    assert steps[i..][0] == steps[i] && steps[i..][1..] == steps[i + 1..];
    Grouped(done, [first.1], RunMany(first.0, now, steps[i + 1..], AtError).1);
  }

  function Steps(keys: seq<Bytes>, op: KeyOp): seq<(Bytes, KeyOp)> {
    seq(|keys|, i requires 0 <= i < |keys| => (keys[i], op))
  }

  /** The sum of integer replies. */
  function Total(rs: seq<Reply>): int {
    if rs == [] then 0 else (if rs[0].Int? then rs[0].n else 0) + Total(rs[1..])
  }

  /** The keys of the list that are live, as often as they are named. */
  function Present(ks: Keyspace, now: Time, keys: seq<Bytes>): seq<Bytes> {
    if keys == [] then []
    else
      var last := keys[|keys| - 1];
      Present(ks, now, keys[..|keys| - 1]) + (if last in ks && !Expired(ks[last], now) then [last] else [])
  }

  lemma {:induction false} PresentFirst(ks: Keyspace, now: Time, keys: seq<Bytes>)
    requires keys != []
    ensures |Present(ks, now, keys)| ==
            (if keys[0] in ks && !Expired(ks[keys[0]], now) then 1 else 0) + |Present(ks, now, keys[1..])|
  {
    if |keys| > 1 {
      PresentFirst(ks, now, keys[..|keys| - 1]);
      assert keys[..|keys| - 1][1..] == keys[1..][..|keys| - 2];
    } else {
      assert keys[..0] == [] && keys[1..] == [];
    }
  }

  /** A step that changes nothing passes the batch on to the rest. */
  lemma {:induction false} QuietStep(ks: Keyspace, now: Time, keys: seq<Bytes>, op: KeyOp)
    requires keys != [] && OnKey(ks, now, keys[0], op).0 == ks
    ensures var rest := RunMany(ks, now, Steps(keys[1..], op), Never);
            RunMany(ks, now, Steps(keys, op), Never) == (rest.0, [OnKey(ks, now, keys[0], op).1] + rest.1)
  {
    assert Steps(keys, op)[1..] == Steps(keys[1..], op);
  }

  lemma {:induction false} ExistsReplies(ks: Keyspace, now: Time, keys: seq<Bytes>)
    ensures RunMany(ks, now, Steps(keys, OnAny(AnyOp.Exists)), Never).0 == ks
    ensures Total(RunMany(ks, now, Steps(keys, OnAny(AnyOp.Exists)), Never).1) == |Present(ks, now, keys)|
    decreases |keys|
  {
    if keys != [] {
      ExistsReplies(ks, now, keys[1..]);
      QuietStep(ks, now, keys, OnAny(AnyOp.Exists));
      PresentFirst(ks, now, keys);
    }
  }

  lemma {:induction false} MgetReplies(ks: Keyspace, now: Time, keys: seq<Bytes>)
    ensures var r := RunMany(ks, now, Steps(keys, OnString(MGet)), Never);
            && r.0 == ks && |r.1| == |keys|
            && forall j :: 0 <= j < |keys| ==> r.1[j] == ApplyString(MGet, LiveSlot(ks, now, keys[j]), now).1
    decreases |keys|
  {
    if keys != [] {
      MgetReplies(ks, now, keys[1..]);
      QuietStep(ks, now, keys, OnString(MGet));
    }
  }

  /** `found` lists, once each, the live matching keys outside `rest`. */
  ghost predicate Listed(ks: Keyspace, now: Time, pattern: Bytes, rest: set<Bytes>, found: seq<Bytes>) {
    && (forall k :: k in found <==> k in ks && k !in rest && !Expired(ks[k], now) && Glob.Matches(pattern, k))
    && (forall i, j :: 0 <= i < j < |found| ==> found[i] != found[j])
  }

  lemma {:induction false} ListedNext(ks: Keyspace, now: Time, pattern: Bytes, rest: set<Bytes>, found: seq<Bytes>,
                                      k: Bytes)
    requires rest <= ks.Keys && k in rest && Listed(ks, now, pattern, rest, found)
    ensures Listed(ks, now, pattern, rest - {k},
                   if !Expired(ks[k], now) && Glob.Matches(pattern, k) then found + [k] else found)
  {
  }

  /** The lengths `remove_if_empty` looks at are zero exactly when there is no content. */
  lemma {:induction false} SizeIsContents(v: Value)
    ensures v.Hash? ==> (|v.fields| == 0 <==> EmptyContainer(v))
    ensures v.Members? ==> (|v.members| == 0 <==> EmptyContainer(v))
    ensures v.SortedSet? ==> (|v.zset.byMember| == 0 <==> EmptyContainer(v))
    ensures v.List? ==> (|v.items| == 0 <==> EmptyContainer(v))
  {
    match v
    case Hash(m) => assert |m| == |m.Keys|;
    case SortedSet(z) => assert |z.byMember| == |z.byMember.Keys|;
    case List(l) => assert |l| > 0 ==> l[0] in Elems(l);
    case _ =>
  }

  /** Agreeing away from `key` and at `key` is agreeing. */
  lemma {:induction false} SameAt(a: Keyspace, b: Keyspace, key: Bytes)
    requires a - {key} == b - {key}
    requires (key in a <==> key in b) && (key in a ==> a[key] == b[key])
    ensures a == b
  {
    forall k | k in a ensures k in b && a[k] == b[k] {
      assert k != key ==> k in a - {key} && k in b - {key};
    }
    forall k | k in b ensures k in a {
      assert k != key ==> k in b - {key};
    }
  }

  /**
   ZADD writes the updated set, or the fresh one, unless it is empty; a key of another type keeps its entry unless that
   is empty.
   */
  lemma {:induction false} ZaddOutcome(ks: Keyspace, now: Time, key: Bytes, items: seq<ZKey>, fl: ZaddFlags)
    ensures var slot := LiveSlot(ks, now, key);
            var e := if slot.Some? then slot.value else Entry(SortedSet(EMPTY_ZSET), None);
            OnKey(ks, now, key, OnZset(ZAdd(items, fl))) ==
            if e.value.SortedSet?
            then (Put(ks, key, DropIfEmpty(Keep(e, SortedSet(ZaddAll(e.value.zset, items, fl))))),
              Int(ZaddReply(e.value.zset, items, fl)))
            else (Put(ks, key, DropIfEmpty(slot)), Fail(WrongType))
  {
  }

  /** ZREM and ZREMRANGEBYSCORE: nothing on a missing key, otherwise the entry, unless it is empty afterwards. */
  lemma {:induction false} RemovalOutcome(ks: Keyspace, now: Time, key: Bytes, op: ZsetOp)
    requires op.ZRem? || op.ZRemRange?
    ensures var slot := LiveSlot(ks, now, key);
            var out := OnKey(ks, now, key, OnZset(op));
            && (slot.None? ==> out == (Purge(ks, now, key), Int(0)))
            && (slot.Some? && !slot.value.value.SortedSet? ==>
                  out == (Put(ks, key, DropIfEmpty(slot)), Fail(WrongType)))
            && (slot.Some? && slot.value.value.SortedSet? ==>
                  out == (var r := ApplyZsetValue(op, slot.value, slot.value.value.zset); (Put(ks, key, r.0), r.1)))
  {
    Prologue(ks, now, key);
  }

  /** XTRIM and XDEL: nothing on a missing key, an error on another type, otherwise one stream written back. */
  lemma {:induction false} StreamOpOutcome(ks: Keyspace, now: Time, key: Bytes, op: StreamOp)
    requires op.XTrim? || op.XDel?
    ensures var slot := LiveSlot(ks, now, key);
            var out := OnKey(ks, now, key, OnStream(op));
            && (slot.None? ==> out == (Purge(ks, now, key), Int(0)))
            && (slot.Some? && !slot.value.value.Log? ==> out == (ks, Fail(WrongType)))
            && (slot.Some? && slot.value.value.Log? ==>
                  var r := ApplyStreamValue(op, slot.value.value.stream, now);
                  out == (ks[key := slot.value.(value := Log(r.0))], r.1))
  {
    Prologue(ks, now, key);
  }

  /** A group command whose key or group is missing, or whose key has another type, changes nothing but staleness. */
  lemma {:induction false} GroupOpRefused(ks: Keyspace, now: Time, key: Bytes, op: StreamOp)
    requires op.XReadNew? || op.XReadHistory? || op.XAck? || op.XClaim? || op.XAutoclaim?
    ensures var slot := LiveSlot(ks, now, key);
            var missing := if op.XAck? then Int(0) else Fail(NoGroup);
            && (slot.None? ==> OnKey(ks, now, key, OnStream(op)) == (Purge(ks, now, key), missing))
            && (slot.Some? && !slot.value.value.Log? ==> OnKey(ks, now, key, OnStream(op)) == (ks, Fail(WrongType)))
            && (slot.Some? && slot.value.value.Log? && op.group !in slot.value.value.stream.groups ==>
              OnKey(ks, now, key, OnStream(op)) == (ks, missing))
  {
    Prologue(ks, now, key);
  }

  /** A group command that reaches its group writes that group back and nothing else. */
  lemma {:induction false} GroupOpDone(ks: Keyspace, now: Time, key: Bytes, op: StreamOp)
    requires op.XReadNew? || op.XReadHistory? || op.XAck? || op.XClaim? || op.XAutoclaim?
    requires var slot := LiveSlot(ks, now, key);
             slot.Some? && slot.value.value.Log? && op.group in slot.value.value.stream.groups
    ensures var e := LiveSlot(ks, now, key).value;
            var s := e.value.stream;
            var r := ApplyGroup(op, s, s.groups[op.group], now);
            OnKey(ks, now, key, OnStream(op)) == (Put(ks, key, Keep(e, Log(WithGroup(s, op.group, r.0)))), r.1)
  {
  }

  /** The keys a client can see. */
  function LiveKeys(ks: Keyspace, now: Time): set<Bytes> {
    set k | k in ks && !Expired(ks[k], now)
  }

  lemma {:induction false} DelOne(ks: Keyspace, now: Time, done: set<Bytes>, key: Bytes)
    ensures ks - (done + {key}) == (ks - done) - {key}
    ensures |(done + {key}) * LiveKeys(ks, now)| ==
            |done * LiveKeys(ks, now)| + (if key in ks - done && !Expired((ks - done)[key], now) then 1 else 0)
  {
    OneMoreIn(done, LiveKeys(ks, now), key);
  }

  lemma {:induction false} OneMoreIn(done: set<Bytes>, live: set<Bytes>, key: Bytes)
    ensures |(done + {key}) * live| == |done * live| + (if key in live && key !in done then 1 else 0)
  {
    if key in live && key !in done {
      assert (done + {key}) * live == done * live + {key};
    } else {
      assert (done + {key}) * live == done * live;
    }
  }

  function LastReply(rs: seq<Reply>): Reply {
    if rs == [] then Nil else rs[|rs| - 1]
  }

  lemma {:induction false} LastReplyStep(ks: Keyspace, now: Time, steps: seq<(Bytes, KeyOp)>, stop: Stop)
    requires steps != [] && stop == AtHit
    ensures var first := OnKey(ks, now, steps[0].0, steps[0].1);
            var all := RunMany(ks, now, steps, stop);
            var rest := RunMany(first.0, now, steps[1..], stop);
            if first.1 == Nil then all.0 == rest.0 && LastReply(all.1) == LastReply(rest.1)
            else all.0 == first.0 && LastReply(all.1) == first.1
  {
  }
}
