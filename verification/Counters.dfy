/** HINCRBY as commands: a run of increments on one field, with the replies its client gets. */
module Counters {
  import opened Prelude
  import opened Values
  import opened Commands
  import opened Expiry
  import opened Decimal

  /** HINCRBY on a hash is the increment of `Decimal`, and nothing else about the key changes. */
  lemma {:induction false} CommandIsIncrement(e: Entry, field: Bytes, increment: i64)
    requires e.value.Hash?
    ensures ApplyHash(HIncrBy(field, increment), Some(e)).0 ==
            Some(e.(value := Hash(HashIncrement(e.value.fields, field, increment))))
  {
  }

  /** One HINCRBY per call, at its time. */
  function Calls(key: Bytes, field: Bytes, calls: seq<(Time, i64)>): seq<Event> {
    seq(|calls|, i requires 0 <= i < |calls| => Event(calls[i].0, One(key, OnHash(HIncrBy(field, calls[i].1)))))
  }

  function Fits(n: int): bool {
    I64_MIN <= n <= I64_MAX
  }

  /** The total after the calls: increments that would leave 64 bits are refused. */
  function Tally(total: i64, calls: seq<(Time, i64)>): i64
    decreases |calls|
  {
    if calls == [] then total
    else Tally(if Fits(total + calls[0].1) then total + calls[0].1 else total, calls[1..])
  }

  /** Each reply is the running total, or the overflow error. */
  function TallyReplies(total: i64, calls: seq<(Time, i64)>): seq<Reply>
    decreases |calls|
  {
    if calls == [] then []
    else if Fits(total + calls[0].1) then [Int(total + calls[0].1)] + TallyReplies(total + calls[0].1, calls[1..])
    else [Fail(WouldOverflow)] + TallyReplies(total, calls[1..])
  }

  function Counting(e: Entry, field: Bytes, total: int): Entry
    requires e.value.Hash?
  {
    e.(value := Hash(e.value.fields[field := PrintInt(total)]))
  }

  /** The value an HINCRBY finds: nothing yet, or the printed total. */
  ghost predicate Holds(e: Entry, field: Bytes, total: i64) {
    && e.value.Hash?
    && (if field in e.value.fields then e.value.fields[field] == PrintInt(total) else total == 0)
  }

  lemma {:induction false} OneCall(ks: Keyspace, now: Time, key: Bytes, e: Entry, field: Bytes, total: i64,
                                   increment: i64)
    requires Holds(e, field, total) && !Expired(e, now)
    requires LiveSlot(ks, now, key) == Some(e) || (LiveSlot(ks, now, key).None? && e == Entry(Hash(map[]), None))
    ensures var r := OnKey(ks, now, key, OnHash(HIncrBy(field, increment)));
            if Fits(total + increment)
            then r == (ks[key := Counting(e, field, total + increment)], Int(total + increment))
            else r == (ks[key := e], Fail(WouldOverflow))
  {
    var slot := LiveSlot(ks, now, key);
    SlotCall(slot, e, field, total, increment);
    assert ks[key := e] == Put(ks, key, Some(e));
  }

  lemma {:induction false} SlotCall(slot: Slot, e: Entry, field: Bytes, total: i64, increment: i64)
    requires Holds(e, field, total)
    requires slot == Some(e) || (slot.None? && e == Entry(Hash(map[]), None))
    ensures ApplyHash(HIncrBy(field, increment), slot) ==
            if Fits(total + increment) then (Some(Counting(e, field, total + increment)), Int(total + increment))
            else (Some(e), Fail(WouldOverflow))
  {
    ParsePrintI64(total);
    assert HincrValue(if field in e.value.fields then Some(e.value.fields[field]) else None, increment) ==
           if Fits(total + increment) then Stored(total + increment) else Overflow;
  }

  lemma {:induction false} CallsTail(key: Bytes, field: Bytes, calls: seq<(Time, i64)>)
    requires calls != []
    ensures Calls(key, field, calls)[1..] == Calls(key, field, calls[1..])
  {
  }

  /** The first call of a run, and the rest. */
  lemma {:induction false} FirstCall(ks: Keyspace, key: Bytes, field: Bytes, calls: seq<(Time, i64)>, next: Keyspace,
                                     r: Reply)
    requires calls != [] && OnKey(ks, calls[0].0, key, OnHash(HIncrBy(field, calls[0].1))) == (next, r)
    ensures RunEvents(ks, Calls(key, field, calls)) == RunEvents(next, Calls(key, field, calls[1..]))
    ensures Observed(ks, Calls(key, field, calls)) == [r] + Observed(next, Calls(key, field, calls[1..]))
  {
    CallsTail(key, field, calls);
    var e := Calls(key, field, calls)[0];
    assert Exec(ks, e.now, e.cmd) == (next, r);
  }

  /** Counting on keeps the field at the printed total and answers every call with it. */
  lemma {:induction false} CountsOn(ks: Keyspace, key: Bytes, e: Entry, field: Bytes, total: i64,
                                    calls: seq<(Time, i64)>)
    requires key in ks && ks[key] == e && Holds(e, field, total) && field in e.value.fields
    requires forall i :: 0 <= i < |calls| ==> !Expired(e, calls[i].0)
    ensures RunEvents(ks, Calls(key, field, calls)) == ks[key := Counting(e, field, Tally(total, calls))]
    ensures Observed(ks, Calls(key, field, calls)) == TallyReplies(total, calls)
    decreases |calls|
  {
    if calls == [] {
      assert e.value.fields[field := PrintInt(total)] == e.value.fields;
      assert ks[key := e] == ks;
    } else {
      var fits := Fits(total + calls[0].1);
      var next: i64 := if fits then total + calls[0].1 else total;
      var e' := if fits then Counting(e, field, next) else e;
      OneCall(ks, calls[0].0, key, e, field, total, calls[0].1);
      FirstCall(ks, key, field, calls, ks[key := e'], if fits then Int(next) else Fail(WouldOverflow));
      CountsOn(ks[key := e'], key, e', field, next, calls[1..]);
      Recount(ks, key, e, field, next, Tally(total, calls));
    }
  }

  lemma {:induction false} Recount(ks: Keyspace, key: Bytes, e: Entry, field: Bytes, a: int, b: int)
    requires e.value.Hash?
    ensures ks[key := Counting(e, field, a)][key := Counting(Counting(e, field, a), field, b)] ==
            ks[key := Counting(e, field, b)]
    ensures ks[key := e][key := Counting(e, field, b)] == ks[key := Counting(e, field, b)]
  {
    assert e.value.fields[field := PrintInt(a)][field := PrintInt(b)] == e.value.fields[field := PrintInt(b)];
  }

  /**
   Any run of HINCRBYs on a field that is not there - the key missing, or a live hash without it - leaves the key
   as it was with the field at the printed sum of the successful increments, and every reply is the running sum
   or the overflow error.
   */
  lemma {:induction false} CountsFromNothing(ks: Keyspace, key: Bytes, field: Bytes, calls: seq<(Time, i64)>)
    requires calls != []
    requires var slot := LiveSlot(ks, calls[0].0, key);
             slot.Some? ==>
               && slot.value.value.Hash? && field !in slot.value.value.fields
               && forall i :: 0 <= i < |calls| ==> !Expired(slot.value, calls[i].0)
    ensures var slot := LiveSlot(ks, calls[0].0, key);
            var e := if slot.Some? then slot.value else Entry(Hash(map[]), None);
            RunEvents(ks, Calls(key, field, calls)) == ks[key := Counting(e, field, SuccessfulSum(Amounts(calls)).0)]
    ensures Observed(ks, Calls(key, field, calls)) == TallyReplies(0, calls)
  {
    var slot := LiveSlot(ks, calls[0].0, key);
    var e := if slot.Some? then slot.value else Entry(Hash(map[]), None);
    var first := calls[0].1;
    OneCall(ks, calls[0].0, key, e, field, 0, first);
    var e' := Counting(e, field, first);
    FirstCall(ks, key, field, calls, ks[key := e'], Int(first));
    CountsOn(ks[key := e'], key, e', field, first, calls[1..]);
    TallyIsSum(calls);
    Recount(ks, key, e, field, first, Tally(0, calls));
  }

  function Amounts(calls: seq<(Time, i64)>): (r: seq<i64>)
    ensures |r| == |calls|
    ensures forall i :: 0 <= i < |r| ==> r[i] == calls[i].1
  {
    seq(|calls|, i requires 0 <= i < |calls| => calls[i].1)
  }

  lemma {:induction false} TallySnoc(total: i64, calls: seq<(Time, i64)>, c: (Time, i64))
    ensures Tally(total, calls + [c]) ==
            if Fits(Tally(total, calls) + c.1) then Tally(total, calls) + c.1 else Tally(total, calls)
    decreases |calls|
  {
    var all := calls + [c];
    if calls == [] {
      assert all[1..] == [];
    } else {
      assert all[1..] == calls[1..] + [c];
      TallySnoc(if Fits(total + calls[0].1) then total + calls[0].1 else total, calls[1..], c);
    }
  }

  lemma {:induction false} TallyIsSum(calls: seq<(Time, i64)>)
    ensures Tally(0, calls) == SuccessfulSum(Amounts(calls)).0
  {
    if calls != [] {
      var init, last := calls[..|calls| - 1], calls[|calls| - 1];
      TallyIsSum(init);
      TallySnoc(0, init, last);
      assert calls == init + [last];
      assert Amounts(calls)[..|calls| - 1] == Amounts(init);
    }
  }
}
