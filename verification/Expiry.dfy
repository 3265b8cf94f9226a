/**
 Expiry is unobservable. Stale entries stay in the map until some command or sweep removes them, but
 replies and the live view depend only on the live part, so sweeps can be added or dropped anywhere.
 */
module Expiry {
  import opened Prelude
  import opened Values
  import opened Commands
  import opened SortedSets
  import opened Lists
  import Glob

  /** The unexpired part of the map. */
  function Live(ks: Keyspace, now: Time): Keyspace {
    map k | k in ks && !Expired(ks[k], now) :: ks[k]
  }

  /** Two maps look the same at `now`. */
  ghost predicate SameLive(a: Keyspace, b: Keyspace, now: Time) {
    forall k :: LiveSlot(a, now, k) == LiveSlot(b, now, k)
  }

  lemma {:induction false} SameLiveIsLive(a: Keyspace, b: Keyspace, now: Time)
    ensures SameLive(a, b, now) <==> Live(a, now) == Live(b, now)
    ensures SameLive(a, Live(a, now), now)
  {
    forall k ensures LiveSlot(Live(a, now), now, k) == LiveSlot(a, now, k) {}
    if SameLive(a, b, now) {
      forall k ensures k in Live(a, now) <==> k in Live(b, now) {
        assert LiveSlot(a, now, k) == LiveSlot(b, now, k);
      }
      forall k | k in Live(a, now) ensures Live(a, now)[k] == Live(b, now)[k] {
        assert LiveSlot(a, now, k) == LiveSlot(b, now, k);
      }
    }
    if Live(a, now) == Live(b, now) {
      forall k ensures LiveSlot(a, now, k) == LiveSlot(b, now, k) {
        assert LiveSlot(a, now, k) == LiveSlot(Live(a, now), now, k);
        assert LiveSlot(b, now, k) == LiveSlot(Live(b, now), now, k);
      }
    }
  }

  /** What looks the same keeps looking the same as time passes. */
  lemma {:induction false} SameLater(a: Keyspace, b: Keyspace, now: Time, later: Time)
    requires SameLive(a, b, now) && now <= later
    ensures SameLive(a, b, later)
  {
    forall k ensures LiveSlot(a, later, k) == LiveSlot(b, later, k) {
      assert LiveSlot(a, now, k) == LiveSlot(b, now, k);
    }
  }

  // ----- each command -----

  /** `after` differs from `before` only at `key`, as far as anyone can see. */
  lemma {:induction false} PutLive(ks: Keyspace, now: Time, key: Bytes, slot: Slot, k: Bytes)
    ensures LiveSlot(Put(ks, key, slot), now, k) ==
            if k == key then (if slot.Some? && !Expired(slot.value, now) then slot else None) else LiveSlot(ks, now, k)
  {
  }

  /** What a single-key command leaves for anyone to see at any key. */
  lemma {:induction false} OnKeyLive(ks: Keyspace, now: Time, key: Bytes, op: KeyOp, k: Bytes)
    ensures var slot := Apply(op, LiveSlot(ks, now, key), now).0;
            LiveSlot(OnKey(ks, now, key, op).0, now, k) ==
            if k != key then LiveSlot(ks, now, k)
            else if slot.Some? && !Expired(slot.value, now) then slot else None
  {
    PutLive(ks, now, key, Apply(op, LiveSlot(ks, now, key), now).0, k);
  }

  lemma {:induction false} PurgeLive(ks: Keyspace, now: Time, key: Bytes)
    ensures SameLive(ks, Purge(ks, now, key), now)
  {
  }

  lemma {:induction false} PutSame(a: Keyspace, b: Keyspace, now: Time, key: Bytes, slot: Slot)
    requires SameLive(a, b, now)
    ensures SameLive(Put(a, key, slot), Put(b, key, slot), now)
  {
    forall k ensures LiveSlot(Put(a, key, slot), now, k) == LiveSlot(Put(b, key, slot), now, k) {
      PutLive(a, now, key, slot, k);
      PutLive(b, now, key, slot, k);
      assert LiveSlot(a, now, k) == LiveSlot(b, now, k);
    }
  }

  lemma {:induction false} OnKeySame(a: Keyspace, b: Keyspace, now: Time, key: Bytes, op: KeyOp)
    requires SameLive(a, b, now)
    ensures OnKey(a, now, key, op).1 == OnKey(b, now, key, op).1
    ensures SameLive(OnKey(a, now, key, op).0, OnKey(b, now, key, op).0, now)
  {
    var slot := LiveSlot(a, now, key);
    assert slot == LiveSlot(b, now, key);
    PutSame(a, b, now, key, Apply(op, slot, now).0);
  }

  lemma {:induction false} ManySame(a: Keyspace, b: Keyspace, now: Time, steps: seq<(Bytes, KeyOp)>, stop: Stop)
    requires SameLive(a, b, now)
    ensures RunMany(a, now, steps, stop).1 == RunMany(b, now, steps, stop).1
    ensures SameLive(RunMany(a, now, steps, stop).0, RunMany(b, now, steps, stop).0, now)
    decreases |steps|
  {
    if steps != [] {
      OnKeySame(a, b, now, steps[0].0, steps[0].1);
      var a1, b1 := OnKey(a, now, steps[0].0, steps[0].1), OnKey(b, now, steps[0].0, steps[0].1);
      if !Stops(stop, a1.1) {
        ManySame(a1.0, b1.0, now, steps[1..], stop);
      }
    }
  }

  lemma {:induction false} PurgeBothSame(a: Keyspace, b: Keyspace, now: Time, src: Bytes, dst: Bytes)
    requires SameLive(a, b, now)
    ensures SameLive(PurgeBoth(a, now, src, dst), PurgeBoth(b, now, src, dst), now)
  {
    PurgeLive(a, now, src);
    PurgeLive(b, now, src);
    PurgeLive(Purge(a, now, src), now, dst);
    PurgeLive(Purge(b, now, src), now, dst);
    forall k ensures LiveSlot(PurgeBoth(a, now, src, dst), now, k) == LiveSlot(PurgeBoth(b, now, src, dst), now, k) {
      assert LiveSlot(a, now, k) == LiveSlot(b, now, k);
      assert LiveSlot(Purge(a, now, src), now, k) == LiveSlot(a, now, k);
      assert LiveSlot(Purge(b, now, src), now, k) == LiveSlot(b, now, k);
    }
  }

  lemma {:induction false} LmoveSame(a: Keyspace, b: Keyspace, now: Time, src: Bytes, dst: Bytes, from: ListEnd,
                                     to: ListEnd)
    requires SameLive(a, b, now)
    ensures LmoveResult(a, now, src, dst, from, to).1 == LmoveResult(b, now, src, dst, from, to).1
    ensures SameLive(LmoveResult(a, now, src, dst, from, to).0, LmoveResult(b, now, src, dst, from, to).0, now)
  {
    assert LiveSlot(a, now, src) == LiveSlot(b, now, src) && LiveSlot(a, now, dst) == LiveSlot(b, now, dst);
    PurgeBothSame(a, b, now, src, dst);
    if LmoveRefusal(a, now, src, dst).None? {
      LmovePuts(a, now, src, dst, from, to);
      LmovePuts(b, now, src, dst, from, to);
      var slots := LmoveSlots(a, now, src, dst, from, to);
      assert slots == LmoveSlots(b, now, src, dst, from, to);
      var ca, cb := PurgeBoth(a, now, src, dst), PurgeBoth(b, now, src, dst);
      PutSame(ca, cb, now, src, slots.0);
      PutSame(Put(ca, src, slots.0), Put(cb, src, slots.0), now, dst, slots.1);
    }
  }

  /** LMOVE writes at most the slots of its two keys, and their contents come from live slots. */
  function LmoveSlots(ks: Keyspace, now: Time, src: Bytes, dst: Bytes, from: ListEnd, to: ListEnd): (Slot, Slot)
    requires LmoveRefusal(ks, now, src, dst).None?
  {
    var s, d := LiveSlot(ks, now, src), LiveSlot(ks, now, dst);
    var items := ItemsOf(s);
    var v := Peek(items, from);
    if src == dst then
      var one := Keep(s.value, List(Push(Pop(items, from), v, to)));
      (one, one)
    else
      var e := if d.Some? then d.value else Entry(List([]), None);
      (KeepList(s.value, Pop(items, from)), Keep(e, List(Push(ItemsOf(d), v, to))))
  }

  lemma {:induction false} LmovePuts(ks: Keyspace, now: Time, src: Bytes, dst: Bytes, from: ListEnd, to: ListEnd)
    requires LmoveRefusal(ks, now, src, dst).None?
    ensures var slots := LmoveSlots(ks, now, src, dst, from, to);
            LmoveEffect(ks, now, src, dst, from, to) ==
              Put(Put(PurgeBoth(ks, now, src, dst), src, slots.0), dst, slots.1)
  {
  }

  lemma {:induction false} StoreRangeSame(a: Keyspace, b: Keyspace, now: Time, dst: Bytes, src: Bytes, lo: ScoreBound,
                                          hi: ScoreBound)
    requires SameLive(a, b, now)
    ensures StoreRangeResult(a, now, dst, src, lo, hi).1 == StoreRangeResult(b, now, dst, src, lo, hi).1
    ensures SameLive(StoreRangeResult(a, now, dst, src, lo, hi).0, StoreRangeResult(b, now, dst, src, lo, hi).0, now)
  {
    var s := LiveSlot(a, now, src);
    assert s == LiveSlot(b, now, src);
    var ca, cb := Purge(a, now, src), Purge(b, now, src);
    assert SameLive(ca, cb, now) by {
      PurgeLive(a, now, src);
      PurgeLive(b, now, src);
      forall k ensures LiveSlot(ca, now, k) == LiveSlot(cb, now, k) {
        assert LiveSlot(a, now, k) == LiveSlot(b, now, k);
        assert LiveSlot(a, now, k) == LiveSlot(ca, now, k) && LiveSlot(b, now, k) == LiveSlot(cb, now, k);
      }
    }
    PutSame(ca, cb, now, dst, None);
    if s.Some? && s.value.value.SortedSet? {
      PutSame(ca, cb, now, dst, Some(Entry(SortedSet(StoreRange(s.value.value.zset, lo, hi)), None)));
    }
  }

  /** A sweep removes only expired entries: nobody can see it, and it never removes a live key. */
  lemma {:induction false} SweepInvisible(ks: Keyspace, now: Time, visited: set<Bytes>)
    ensures SameLive(ks, Exec(ks, now, Sweep(visited)).0, now)
    ensures Live(Exec(ks, now, Sweep(visited)).0, now) == Live(ks, now)
  {
    var swept := Exec(ks, now, Sweep(visited)).0;
    forall k ensures LiveSlot(ks, now, k) == LiveSlot(swept, now, k) {}
    SameLiveIsLive(ks, swept, now);
  }

  lemma {:induction false} KeysSame(a: Keyspace, b: Keyspace, now: Time, pattern: Bytes)
    requires SameLive(a, b, now)
    ensures Exec(a, now, Keys(pattern)).1 == Exec(b, now, Keys(pattern)).1
  {
    var x := set k | k in a && !Expired(a[k], now) && Glob.Matches(pattern, k);
    var y := set k | k in b && !Expired(b[k], now) && Glob.Matches(pattern, k);
    forall k ensures k in x <==> k in y {
      assert LiveSlot(a, now, k) == LiveSlot(b, now, k);
    }
    assert x == y;
  }

  /** Every command other than a sweep replies and acts on the live part alone. */
  lemma {:induction false} ExecSame(a: Keyspace, b: Keyspace, now: Time, cmd: Command)
    requires SameLive(a, b, now) && !cmd.Sweep?
    ensures Exec(a, now, cmd).1 == Exec(b, now, cmd).1
    ensures SameLive(Exec(a, now, cmd).0, Exec(b, now, cmd).0, now)
  {
    match cmd
    case One(key, op) => OnKeySame(a, b, now, key, op);
    case Many(steps, stop) => ManySame(a, b, now, steps, stop);
    case Lmove(src, dst, from, to) => LmoveSame(a, b, now, src, dst, from, to);
    case ZRangeStore(dst, src, lo, hi) => StoreRangeSame(a, b, now, dst, src, lo, hi);
    case Keys(pattern) => KeysSame(a, b, now, pattern);
  }

  // ----- runs -----

  datatype Event = Event(now: Time, cmd: Command)

  ghost predicate Timed(start: Time, events: seq<Event>)
    decreases |events|
  {
    events == [] || (start <= events[0].now && Timed(events[0].now, events[1..]))
  }

  ghost function RunEvents(ks: Keyspace, events: seq<Event>): Keyspace
    decreases |events|
  {
    if events == [] then ks else RunEvents(Exec(ks, events[0].now, events[0].cmd).0, events[1..])
  }

  /** The replies clients see; sweeps run in the background and have none. */
  ghost function Observed(ks: Keyspace, events: seq<Event>): seq<Reply>
    decreases |events|
  {
    if events == [] then []
    else
      var r := Exec(ks, events[0].now, events[0].cmd);
      (if events[0].cmd.Sweep? then [] else [r.1]) + Observed(r.0, events[1..])
  }

  function WithoutSweeps(events: seq<Event>): seq<Event> {
    if events == [] then []
    else if events[0].cmd.Sweep? then WithoutSweeps(events[1..])
    else [events[0]] + WithoutSweeps(events[1..])
  }

  function LastTime(start: Time, events: seq<Event>): Time {
    if events == [] then start else events[|events| - 1].now
  }

  lemma {:induction false} LastTimeTail(start: Time, events: seq<Event>)
    requires events != []
    ensures LastTime(start, events) == LastTime(events[0].now, events[1..])
  {
  }

  /**
   Inserting any number of sweeps anywhere in a run changes no reply and nothing in the final live view,
   and neither does starting from a map that differs only in stale entries.
   */
  lemma {:induction false} SweepsUnobservable(a: Keyspace, b: Keyspace, start: Time, events: seq<Event>)
    requires SameLive(a, b, start) && Timed(start, events)
    ensures Observed(a, events) == Observed(b, WithoutSweeps(events))
    ensures SameLive(RunEvents(a, events), RunEvents(b, WithoutSweeps(events)), LastTime(start, events))
    decreases |events|
  {
    if events != [] {
      var e := events[0];
      SameLater(a, b, start, e.now);
      var a1 := Exec(a, e.now, e.cmd).0;
      LastTimeTail(start, events);
      if e.cmd.Sweep? {
        SweepInvisible(a, e.now, e.cmd.visited);
        forall k ensures LiveSlot(a1, e.now, k) == LiveSlot(b, e.now, k) {
          assert LiveSlot(a, e.now, k) == LiveSlot(b, e.now, k) && LiveSlot(a, e.now, k) == LiveSlot(a1, e.now, k);
        }
        SweepsUnobservable(a1, b, e.now, events[1..]);
      } else {
        ExecSame(a, b, e.now, e.cmd);
        var b1 := Exec(b, e.now, e.cmd).0;
        SweepsUnobservable(a1, b1, e.now, events[1..]);
        var rest := WithoutSweeps(events[1..]);
        assert ([e] + rest)[1..] == rest;
      }
    }
  }

  /** The same run on the live part alone gives the same replies. */
  lemma {:induction false} StaleUnobservable(ks: Keyspace, start: Time, events: seq<Event>)
    requires Timed(start, events)
    ensures Observed(ks, events) == Observed(Live(ks, start), events)
  {
    SameLiveIsLive(ks, ks, start);
    SweepsUnobservable(ks, Live(ks, start), start, events);
    SweepsUnobservable(Live(ks, start), Live(ks, start), start, events);
  }

  // ----- GET decides under the read lock and cleans up later, under the write lock -----

  /** The first step of GET: its reply, or `None` when it found a stale entry and goes on to remove it. */
  function GetFirst(ks: Keyspace, now: Time, key: Bytes): Option<Reply> {
    if key !in ks then Some(Nil)
    else if Expired(ks[key], now) then None
    else if ks[key].value.Str? then Some(Bulk(ks[key].value.bytes))
    else Some(Fail(WrongType))
  }

  /**
   The replies of a run in which a GET at `now` drops the lock, the commands of `between` run, and only then, at
   `later`, GET checks again and removes what is stale; its reply was settled by the first step.
   */
  ghost function TwoStepGet(ks: Keyspace, now: Time, key: Bytes, between: seq<Event>, later: Time, rest: seq<Event>)
    : seq<Reply>
  {
    var first := GetFirst(ks, now, key);
    if first.Some? then [first.value] + Observed(ks, between + rest)
    else [Nil] + Observed(ks, between) + Observed(Purge(RunEvents(ks, between), later, key), rest)
  }

  lemma {:induction false} ObservedConcat(ks: Keyspace, a: seq<Event>, b: seq<Event>)
    ensures Observed(ks, a + b) == Observed(ks, a) + Observed(RunEvents(ks, a), b)
    decreases |a|
  {
    if a == [] {
      assert a + b == b;
    } else {
      assert (a + b)[1..] == a[1..] + b;
      var r := Exec(ks, a[0].now, a[0].cmd);
      ObservedConcat(r.0, a[1..], b);
      Grouped(if a[0].cmd.Sweep? then [] else [r.1], Observed(r.0, a[1..]), Observed(RunEvents(r.0, a[1..]), b));
    }
  }

  lemma {:induction false} Grouped(a: seq<Reply>, b: seq<Reply>, c: seq<Reply>)
    ensures a + (b + c) == (a + b) + c
  {
  }

  lemma {:induction false} DropOneSweep(start: Time, a: seq<Event>, sweep: Event, b: seq<Event>)
    requires sweep.cmd.Sweep? && Timed(start, a + [sweep] + b)
    ensures Timed(start, a + b)
    ensures WithoutSweeps(a + [sweep] + b) == WithoutSweeps(a + b)
    decreases |a|
  {
    if a == [] {
      assert a + [sweep] + b == [sweep] + b && a + b == b;
      assert ([sweep] + b)[1..] == b;
    } else {
      assert (a + [sweep] + b)[1..] == a[1..] + [sweep] + b;
      assert (a + b)[1..] == a[1..] + b;
      DropOneSweep(a[0].now, a[1..], sweep, b);
    }
  }

  /** The second step of GET is a sweep of one key: it removes no live entry, not even a new one at that key. */
  lemma {:induction false} PurgeIsSweep(ks: Keyspace, now: Time, key: Bytes)
    ensures Purge(ks, now, key) == Exec(ks, now, Sweep({key})).0
    ensures Live(Purge(ks, now, key), now) == Live(ks, now)
  {
    SweepInvisible(ks, now, {key});
  }

  /** The atomic GET: the reply of the first step, and at most a stale entry gone. */
  lemma {:induction false} AtomicGet(ks: Keyspace, now: Time, key: Bytes)
    ensures var r := Exec(ks, now, One(key, OnString(Get)));
            && r.1 == (if GetFirst(ks, now, key).Some? then GetFirst(ks, now, key).value else Nil)
            && r.0 == Purge(ks, now, key) && SameLive(ks, r.0, now)
  {
    PurgeLive(ks, now, key);
  }

  /**
   GET in two steps, with any commands of other clients in between, gives every client the replies it would have
   had if GET had been one step.
   */
  lemma {:induction false} TwoStepGetIsAtomic(ks: Keyspace, now: Time, key: Bytes, between: seq<Event>, later: Time,
                                              rest: seq<Event>)
    requires Timed(now, between + [Event(later, Sweep({key}))] + rest)
    ensures TwoStepGet(ks, now, key, between, later, rest) ==
            Observed(ks, [Event(now, One(key, OnString(Get)))] + (between + rest))
  {
    var after := Exec(ks, now, One(key, OnString(Get))).0;
    AtomicGet(ks, now, key);
    GetFirstInRun(ks, now, key, between + rest);
    if GetFirst(ks, now, key).Some? {
      assert Timed(now, between + rest) by {
        DropOneSweep(now, between, Event(later, Sweep({key})), rest);
      }
      SameRun(ks, after, now, between + rest);
    } else {
      LatePurge(ks, after, now, key, between, later, rest);
      Grouped([Nil], Observed(ks, between), Observed(Purge(RunEvents(ks, between), later, key), rest));
    }
  }

  /** A purge of one key in the middle of a run is unobservable. */
  lemma {:induction false} LatePurge(ks: Keyspace, after: Keyspace, now: Time, key: Bytes, between: seq<Event>,
                                     later: Time, rest: seq<Event>)
    requires SameLive(ks, after, now) && Timed(now, between + [Event(later, Sweep({key}))] + rest)
    ensures Observed(ks, between) + Observed(Purge(RunEvents(ks, between), later, key), rest) ==
            Observed(after, between + rest)
  {
    var sweep := Event(later, Sweep({key}));
    DropOneSweep(now, between, sweep, rest);
    assert Observed(ks, between + [sweep] + rest) == Observed(after, between + rest) by {
      SweepsUnobservable(ks, after, now, between + [sweep] + rest);
      SweepsUnobservable(after, after, now, between + rest);
    }
    SweepBetween(ks, between, sweep, rest);
    PurgeIsSweep(RunEvents(ks, between), later, key);
  }

  lemma {:induction false} GetFirstInRun(ks: Keyspace, now: Time, key: Bytes, rest: seq<Event>)
    ensures var r := Exec(ks, now, One(key, OnString(Get)));
            Observed(ks, [Event(now, One(key, OnString(Get)))] + rest) == [r.1] + Observed(r.0, rest)
  {
    var get := Event(now, One(key, OnString(Get)));
    assert ([get] + rest)[1..] == rest;
  }

  /** Maps that look the same answer the same. */
  lemma {:induction false} SameRun(a: Keyspace, b: Keyspace, start: Time, events: seq<Event>)
    requires SameLive(a, b, start) && Timed(start, events)
    ensures Observed(a, events) == Observed(b, events)
  {
    SweepsUnobservable(a, b, start, events);
    SweepsUnobservable(b, b, start, events);
  }

  lemma {:induction false} SweepBetween(ks: Keyspace, a: seq<Event>, sweep: Event, b: seq<Event>)
    requires sweep.cmd.Sweep?
    ensures Observed(ks, a + [sweep] + b) ==
            Observed(ks, a) + Observed(Exec(RunEvents(ks, a), sweep.now, sweep.cmd).0, b)
  {
    assert a + [sweep] + b == a + ([sweep] + b);
    ObservedConcat(ks, a, [sweep] + b);
    SweepFirst(RunEvents(ks, a), sweep, b);
  }

  lemma {:induction false} SweepFirst(ks: Keyspace, sweep: Event, b: seq<Event>)
    requires sweep.cmd.Sweep?
    ensures Observed(ks, [sweep] + b) == Observed(Exec(ks, sweep.now, sweep.cmd).0, b)
  {
    assert ([sweep] + b)[1..] == b;
  }
}
