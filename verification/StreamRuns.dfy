/**
 Streams in the store. As long as a key holds the same stream - it is not deleted, overwritten or expired - any
 run of commands on the whole keyspace takes that stream through a run of `Streams` steps, so what is proved of
 those runs holds of the store.
 */
module StreamRuns {
  import opened Prelude
  import opened Ordering
  import opened Values
  import opened Lists
  import opened SortedSets
  import opened Groups
  import opened Commands
  import opened Expiry
  import opened Reachable
  import Streams

  /** The live stream at a key, if there is one. */
  function StreamAt(ks: Keyspace, now: Time, k: Bytes): Option<Stream> {
    var slot := LiveSlot(ks, now, k);
    if slot.Some? && slot.value.value.Log? then Some(slot.value.value.stream) else None
  }

  // ----- one operation on one key -----

  /** The steps an operation on `key` means for the stream at `k`. */
  function OpsOn(key: Bytes, op: KeyOp, k: Bytes, now: Time): seq<Streams.Op> {
    if key == k && op.OnStream? && Mutates(op.stream) then [StepOf(op.stream, now)] else []
  }

  /** Commands of other types leave a stream alone, or leave no stream. */
  lemma {:induction false} OthersKeepStream(op: KeyOp, e: Entry, now: Time)
    requires e.value.Log? && !op.OnStream?
    ensures var slot := Apply(op, Some(e), now).0;
            slot.Some? && slot.value.value.Log? ==> slot.value.value == e.value
  {
    match op
    case OnHash(h) => assert ApplyHash(h, Some(e)).0 == Some(e);
    case OnMembers(m) => assert ApplySet(m, Some(e)).0 == Some(e);
    case OnList(l) => assert ApplyList(l, Some(e)).0 == Some(e);
    case OnZset(z) => assert ApplyZset(z, Some(e)).0 == Some(e);
    case _ =>
  }

  lemma {:induction false} RunOne(s: Stream, op: Streams.Op)
    ensures Streams.Run(s, [op]) == Streams.Step(s, op)
  {
    assert [op][1..] == [];
  }

  lemma {:induction false} OneProjects(ks: Keyspace, now: Time, key: Bytes, op: KeyOp, k: Bytes)
    requires StreamAt(ks, now, k).Some? && StreamAt(OnKey(ks, now, key, op).0, now, k).Some?
    ensures StreamAt(OnKey(ks, now, key, op).0, now, k) ==
            Some(Streams.Run(StreamAt(ks, now, k).value, OpsOn(key, op, k, now)))
  {
    OnKeyLive(ks, now, key, op, k);
    if key == k {
      SlotProjects(LiveSlot(ks, now, k).value, op, now);
    }
  }

  lemma {:induction false} SlotProjects(e: Entry, op: KeyOp, now: Time)
    requires e.value.Log?
    ensures var slot := Apply(op, Some(e), now).0;
            var ops := if op.OnStream? && Mutates(op.stream) then [StepOf(op.stream, now)] else [];
            slot.Some? && slot.value.value.Log? ==> slot.value.value.stream == Streams.Run(e.value.stream, ops)
  {
    if op.OnStream? {
      StreamProjects(op.stream, e, now);
    } else {
      OthersKeepStream(op, e, now);
    }
  }

  lemma {:induction false} StreamProjects(op: StreamOp, e: Entry, now: Time)
    requires e.value.Log?
    ensures var ops := if Mutates(op) then [StepOf(op, now)] else [];
            Apply(OnStream(op), Some(e), now).0 == Some(e.(value := Log(Streams.Run(e.value.stream, ops))))
  {
    CommandIsStep(op, e, now);
    SteppedIsRun(e.value.stream, op, now);
  }

  lemma {:induction false} SteppedIsRun(s: Stream, op: StreamOp, now: Time)
    ensures Stepped(s, op, now) == Streams.Run(s, if Mutates(op) then [StepOf(op, now)] else [])
  {
    if Mutates(op) {
      RunOne(s, StepOf(op, now));
    }
  }

  // ----- runs of steps, cut in two -----

  lemma {:induction false} RunConcat(s: Stream, a: seq<Streams.Op>, b: seq<Streams.Op>)
    ensures Streams.Run(s, a + b) == Streams.Run(Streams.Run(s, a), b)
    decreases |a|
  {
    if a == [] {
      assert a + b == b;
    } else {
      assert (a + b)[1..] == a[1..] + b;
      RunConcat(Streams.Step(s, a[0]), a[1..], b);
    }
  }

  /** Every step of the run keeps to the promise. */
  ghost predicate Promised(s: Stream, ops: seq<Streams.Op>, p: Promise)
    decreases |ops|
  {
    ops == [] ||
    (&& (p.owned ==> Streams.ForceLegal(s, ops[0])) && (p.ordered ==> Streams.IdAvailable(s, ops[0]))
     && Promised(Streams.Step(s, ops[0]), ops[1..], p))
  }

  lemma {:induction false} PromisedConcat(s: Stream, a: seq<Streams.Op>, b: seq<Streams.Op>, p: Promise)
    ensures Promised(s, a + b, p) <==> Promised(s, a, p) && Promised(Streams.Run(s, a), b, p)
    decreases |a|
  {
    if a == [] {
      assert a + b == b;
    } else {
      assert (a + b)[1..] == a[1..] + b;
      PromisedConcat(Streams.Step(s, a[0]), a[1..], b, p);
    }
  }

  lemma {:induction false} PromisedMeans(s: Stream, ops: seq<Streams.Op>, p: Promise, name: Bytes)
    requires Promised(s, ops, p)
    ensures p.owned ==> Streams.ForceLegalRun(s, ops, name)
    ensures p.ordered ==> Streams.IdsAvailable(s, ops)
    decreases |ops|
  {
    if ops != [] {
      PromisedMeans(Streams.Step(s, ops[0]), ops[1..], p, name);
    }
  }

  /** Ids that replies show: those a group was first given by ">" reads, or those XADD stored. */
  datatype Shown = Delivered(group: Bytes) | Stored

  ghost function ShownBy(s: Stream, op: Streams.Op, what: Shown): seq<StreamId> {
    match what
    case Delivered(name) =>
      if op.ReadNew? && op.group == name && name in s.groups then NewIds(s.entries, s.groups[name], op.count) else []
    case Stored => Streams.AddedBy(s, op)
  }

  ghost function ShownOver(s: Stream, ops: seq<Streams.Op>, what: Shown): seq<StreamId>
    decreases |ops|
  {
    if ops == [] then [] else ShownBy(s, ops[0], what) + ShownOver(Streams.Step(s, ops[0]), ops[1..], what)
  }

  lemma {:induction false} ShownConcat(s: Stream, a: seq<Streams.Op>, b: seq<Streams.Op>, what: Shown)
    ensures ShownOver(s, a + b, what) == ShownOver(s, a, what) + ShownOver(Streams.Run(s, a), b, what)
    decreases |a|
  {
    if a == [] {
      assert a + b == b;
    } else {
      assert (a + b)[1..] == a[1..] + b;
      var s' := Streams.Step(s, a[0]);
      ShownConcat(s', a[1..], b, what);
      Joined(ShownBy(s, a[0], what), ShownOver(s', a[1..], what), ShownOver(Streams.Run(s', a[1..]), b, what));
    }
  }

  lemma {:induction false} StoredIsAdded(s: Stream, ops: seq<Streams.Op>)
    ensures ShownOver(s, ops, Stored) == Streams.AddedIds(s, ops)
    decreases |ops|
  {
    if ops != [] {
      StoredIsAdded(Streams.Step(s, ops[0]), ops[1..]);
    }
  }

  ghost predicate NotDestroyed(ops: seq<Streams.Op>, name: Bytes) {
    forall op :: op in ops ==> !(op.DestroyGroup? && op.group == name)
  }

  lemma {:induction false} LedgerAdds(s: Stream, led: Streams.Ledger, op: Streams.Op, name: Bytes)
    requires name in s.groups && !(op.DestroyGroup? && op.group == name)
    ensures name in Streams.Step(s, op).groups
    ensures var led' := Streams.Record(s, led, op, name);
            led'.start == led.start && led'.delivered == led.delivered + ShownBy(s, op, Delivered(name))
  {
    assert led.delivered + [] == led.delivered;
  }

  /** While the group lives, its ledger lists exactly the deliveries of the run. */
  lemma {:induction false} LedgerLists(s: Stream, led: Streams.Ledger, ops: seq<Streams.Op>, name: Bytes)
    requires name in s.groups && NotDestroyed(ops, name)
    ensures Streams.RunLedger(s, led, ops, name).delivered == led.delivered + ShownOver(s, ops, Delivered(name))
    ensures Streams.RunLedger(s, led, ops, name).start == led.start
    ensures name in Streams.Run(s, ops).groups
    decreases |ops|
  {
    if ops != [] {
      assert ops[0] in ops;
      assert NotDestroyed(ops[1..], name);
      var s', led' := Streams.Step(s, ops[0]), Streams.Record(s, led, ops[0], name);
      LedgerAdds(s, led, ops[0], name);
      LedgerLists(s', led', ops[1..], name);
      Joined(led.delivered, ShownBy(s, ops[0], Delivered(name)), ShownOver(s', ops[1..], Delivered(name)));
    }
  }

  lemma {:induction false} Joined<T>(a: seq<T>, b: seq<T>, c: seq<T>)
    ensures (a + b) + c == a + (b + c)
  {
  }

  // ----- commands and runs of commands -----

  /** `k` holds a live stream before and after every step of a batch. */
  ghost predicate StaysMany(ks: Keyspace, now: Time, steps: seq<(Bytes, KeyOp)>, stop: Stop, k: Bytes)
    decreases |steps|
  {
    && StreamAt(ks, now, k).Some?
    && (steps == [] ||
        var first := OnKey(ks, now, steps[0].0, steps[0].1);
        && StreamAt(first.0, now, k).Some?
        && (Stops(stop, first.1) || StaysMany(first.0, now, steps[1..], stop, k)))
  }

  ghost function OpsMany(ks: Keyspace, now: Time, steps: seq<(Bytes, KeyOp)>, stop: Stop, k: Bytes): seq<Streams.Op>
    decreases |steps|
  {
    if steps == [] then []
    else
      var first := OnKey(ks, now, steps[0].0, steps[0].1);
      var mine := OpsOn(steps[0].0, steps[0].1, k, now);
      if Stops(stop, first.1) then mine else mine + OpsMany(first.0, now, steps[1..], stop, k)
  }

  ghost predicate Stays(ks: Keyspace, now: Time, cmd: Command, k: Bytes) {
    && StreamAt(ks, now, k).Some?
    && StreamAt(Exec(ks, now, cmd).0, now, k).Some?
    && (cmd.Many? ==> StaysMany(ks, now, cmd.steps, cmd.stop, k))
  }

  ghost function OpsOf(ks: Keyspace, now: Time, cmd: Command, k: Bytes): seq<Streams.Op> {
    match cmd
    case One(key, op) => OpsOn(key, op, k, now)
    case Many(steps, stop) => OpsMany(ks, now, steps, stop, k)
    case _ => []
  }

  /** `k` holds the same live stream throughout the run, from `start` on. */
  ghost predicate StaysRun(ks: Keyspace, start: Time, events: seq<Event>, k: Bytes)
    decreases |events|
  {
    && StreamAt(ks, start, k).Some?
    && (events == [] ||
        var e := events[0];
        && start <= e.now && Stays(ks, e.now, e.cmd, k)
        && StaysRun(Exec(ks, e.now, e.cmd).0, e.now, events[1..], k))
  }

  ghost function OpsOver(ks: Keyspace, events: seq<Event>, k: Bytes): seq<Streams.Op>
    decreases |events|
  {
    if events == [] then []
    else
      var e := events[0];
      OpsOf(ks, e.now, e.cmd, k) + OpsOver(Exec(ks, e.now, e.cmd).0, events[1..], k)
  }

  lemma {:induction false} ManyProjects(ks: Keyspace, now: Time, steps: seq<(Bytes, KeyOp)>, stop: Stop, k: Bytes)
    requires StaysMany(ks, now, steps, stop, k)
    ensures StreamAt(RunMany(ks, now, steps, stop).0, now, k) ==
            Some(Streams.Run(StreamAt(ks, now, k).value, OpsMany(ks, now, steps, stop, k)))
    decreases |steps|
  {
    if steps != [] {
      var first := OnKey(ks, now, steps[0].0, steps[0].1);
      var mine := OpsOn(steps[0].0, steps[0].1, k, now);
      OneProjects(ks, now, steps[0].0, steps[0].1, k);
      if !Stops(stop, first.1) {
        ManyProjects(first.0, now, steps[1..], stop, k);
        RunConcat(StreamAt(ks, now, k).value, mine, OpsMany(first.0, now, steps[1..], stop, k));
      }
    }
  }

  lemma {:induction false} LmoveKeepsStream(ks: Keyspace, now: Time, src: Bytes, dst: Bytes, from: ListEnd,
                                            to: ListEnd, k: Bytes)
    requires StreamAt(ks, now, k).Some?
    ensures var s := StreamAt(LmoveResult(ks, now, src, dst, from, to).0, now, k);
            s.Some? ==> s == StreamAt(ks, now, k)
  {
  }

  lemma {:induction false} StoreRangeKeepsStream(ks: Keyspace, now: Time, dst: Bytes, src: Bytes, lo: ScoreBound,
                                                 hi: ScoreBound, k: Bytes)
    requires StreamAt(ks, now, k).Some?
    ensures var s := StreamAt(StoreRangeResult(ks, now, dst, src, lo, hi).0, now, k);
            s.Some? ==> s == StreamAt(ks, now, k)
  {
  }

  lemma {:induction false} CommandProjects(ks: Keyspace, now: Time, cmd: Command, k: Bytes)
    requires Stays(ks, now, cmd, k)
    ensures StreamAt(Exec(ks, now, cmd).0, now, k) ==
            Some(Streams.Run(StreamAt(ks, now, k).value, OpsOf(ks, now, cmd, k)))
  {
    match cmd
    case One(key, op) => OneProjects(ks, now, key, op, k);
    case Many(steps, stop) => ManyProjects(ks, now, steps, stop, k);
    case Lmove(src, dst, from, to) => LmoveKeepsStream(ks, now, src, dst, from, to, k);
    case ZRangeStore(dst, src, lo, hi) => StoreRangeKeepsStream(ks, now, dst, src, lo, hi, k);
    case Keys(_) =>
    case Sweep(visited) => SweepInvisible(ks, now, visited);
  }

  /** Any run of commands takes a stream that stays under its key through the run of its steps. */
  lemma {:induction false} RunProjects(ks: Keyspace, start: Time, events: seq<Event>, k: Bytes)
    requires StaysRun(ks, start, events, k)
    ensures StreamAt(RunEvents(ks, events), LastTime(start, events), k) ==
            Some(Streams.Run(StreamAt(ks, start, k).value, OpsOver(ks, events, k)))
    decreases |events|
  {
    if events != [] {
      var e := events[0];
      var after := Exec(ks, e.now, e.cmd).0;
      CommandProjects(ks, e.now, e.cmd, k);
      RunProjects(after, e.now, events[1..], k);
      LastTimeTail(start, events);
      RunConcat(StreamAt(ks, start, k).value, OpsOf(ks, e.now, e.cmd, k), OpsOver(after, events[1..], k));
    }
  }

  // ----- the promise of the run is the promise of the steps -----

  lemma {:induction false} OnePromised(ks: Keyspace, now: Time, key: Bytes, op: KeyOp, k: Bytes, p: Promise)
    requires StreamAt(ks, now, k).Some? && OpKeepsTo(op, LiveSlot(ks, now, key), now, p)
    ensures Promised(StreamAt(ks, now, k).value, OpsOn(key, op, k, now), p)
  {
    var ops := OpsOn(key, op, k, now);
    if ops != [] {
      assert ops[1..] == [];
    }
  }

  lemma {:induction false} ManyPromised(ks: Keyspace, now: Time, steps: seq<(Bytes, KeyOp)>, stop: Stop, k: Bytes,
                                        p: Promise)
    requires StaysMany(ks, now, steps, stop, k) && ManyKeepTo(ks, now, steps, stop, p)
    ensures Promised(StreamAt(ks, now, k).value, OpsMany(ks, now, steps, stop, k), p)
    decreases |steps|
  {
    if steps != [] {
      var first := OnKey(ks, now, steps[0].0, steps[0].1);
      OnePromised(ks, now, steps[0].0, steps[0].1, k, p);
      if !Stops(stop, first.1) {
        OneProjects(ks, now, steps[0].0, steps[0].1, k);
        ManyPromised(first.0, now, steps[1..], stop, k, p);
        PromisedConcat(StreamAt(ks, now, k).value, OpsOn(steps[0].0, steps[0].1, k, now),
                       OpsMany(first.0, now, steps[1..], stop, k), p);
      }
    }
  }

  lemma {:induction false} CommandPromised(ks: Keyspace, now: Time, cmd: Command, k: Bytes, p: Promise)
    requires Stays(ks, now, cmd, k) && CommandKeepsTo(ks, now, cmd, p)
    ensures Promised(StreamAt(ks, now, k).value, OpsOf(ks, now, cmd, k), p)
  {
    match cmd
    case One(key, op) => OnePromised(ks, now, key, op, k, p);
    case Many(steps, stop) => ManyPromised(ks, now, steps, stop, k, p);
    case _ =>
  }

  lemma {:induction false} RunPromised(ks: Keyspace, start: Time, events: seq<Event>, k: Bytes, p: Promise)
    requires StaysRun(ks, start, events, k) && RunKeepsTo(ks, events, p)
    ensures Promised(StreamAt(ks, start, k).value, OpsOver(ks, events, k), p)
    decreases |events|
  {
    if events != [] {
      var e := events[0];
      var after := Exec(ks, e.now, e.cmd).0;
      CommandPromised(ks, e.now, e.cmd, k, p);
      CommandProjects(ks, e.now, e.cmd, k);
      RunPromised(after, e.now, events[1..], k, p);
      PromisedConcat(StreamAt(ks, start, k).value, OpsOf(ks, e.now, e.cmd, k), OpsOver(after, events[1..], k), p);
    }
  }

  // ----- the run theorems, in the store -----

  /** The stream at `k` when the run is over. */
  ghost function EndOf(ks: Keyspace, start: Time, events: seq<Event>, k: Bytes): Stream
    requires StaysRun(ks, start, events, k)
  {
    RunProjects(ks, start, events, k);
    StreamAt(RunEvents(ks, events), LastTime(start, events), k).value
  }

  /**
   Ownership and conservation in the store: over any run of commands on the keyspace whose FORCE claims stay
   within the cursor, for a group that starts without consumers on a key that keeps its stream.
   */
  lemma {:induction false} StoredGroupLife(ks: Keyspace, start: Time, events: seq<Event>, k: Bytes, name: Bytes)
    requires StaysRun(ks, start, events, k) && RunKeepsTo(ks, events, Promise(true, false))
    requires Streams.Unread(StreamAt(ks, start, k).value, name)
    requires name in EndOf(ks, start, events, k).groups
    ensures var s := StreamAt(ks, start, k).value;
            var led := Streams.RunLedger(s, Streams.FirstLedger(s, name), OpsOver(ks, events, k), name);
            var g := EndOf(ks, start, events, k).groups[name];
            && Groups.Exclusive(g) && Groups.Bounded(g) && Ascending(led.delivered, IdLess)
            && multiset(led.delivered) + multiset(led.forced) == multiset(led.acked) + multiset(PendingIds(g))
  {
    var s := StreamAt(ks, start, k).value;
    RunProjects(ks, start, events, k);
    RunPromised(ks, start, events, k, Promise(true, false));
    PromisedMeans(s, OpsOver(ks, events, k), Promise(true, false), name);
    Streams.GroupLife(s, OpsOver(ks, events, k), name);
  }
}
