/**
 The stream results as clients see them, in the replies. One thing is never told: what a multi-key XREADGROUP
 delivered before a later key made it fail.
 */
module StreamReplies {
  import opened Prelude
  import opened Ordering
  import opened Values
  import opened Groups
  import opened Commands
  import opened Expiry
  import opened Reachable
  import opened StreamRuns
  import opened GroupReads
  import Streams

  // ----- what outcomes and replies show -----

  /** The ids one reply shows, as far as `what` on key `k` is concerned. */
  ghost function ShownIn(key: Bytes, op: KeyOp, r: Reply, k: Bytes, what: Shown): seq<StreamId> {
    if key != k || !op.OnStream? then []
    else match what
         case Delivered(name) =>
           if op.stream.XReadNew? && op.stream.group == name && r.Entries? then RepliedIds(r.entries) else []
         case Stored =>
           if op.stream.XAdd? && r.Id? then [r.id] else []
  }

  ghost function ShownInMany(steps: seq<(Bytes, KeyOp)>, rs: seq<Reply>, k: Bytes, what: Shown): seq<StreamId>
    decreases |rs|
  {
    if steps == [] || rs == [] then []
    else ShownIn(steps[0].0, steps[0].1, rs[0], k, what) + ShownInMany(steps[1..], rs[1..], k, what)
  }

  ghost function ShownInReply(cmd: Command, r: Reply, k: Bytes, what: Shown): seq<StreamId> {
    match cmd
    case One(key, op) => ShownIn(key, op, r, k, what)
    case Many(steps, _) => if r.Multi? then ShownInMany(steps, r.replies, k, what) else []
    case _ => []
  }

  /** The ids the steps of a run stored or delivered, in order, whether or not a reply told anyone. */
  ghost function OutcomesOver(ks: Keyspace, events: seq<Event>, k: Bytes, what: Shown): seq<StreamId>
    decreases |events|
  {
    if events == [] then []
    else
      var r := Perform(ks, events[0].now, events[0].cmd);
      ShownInReply(events[0].cmd, r.1, k, what) + OutcomesOver(r.0, events[1..], k, what)
  }

  /** All ids clients were shown during a run, in the order of the replies. */
  ghost function RepliesOver(ks: Keyspace, events: seq<Event>, k: Bytes, what: Shown): seq<StreamId>
    decreases |events|
  {
    if events == [] then []
    else
      var r := Exec(ks, events[0].now, events[0].cmd);
      ShownInReply(events[0].cmd, r.1, k, what) + RepliesOver(r.0, events[1..], k, what)
  }

  lemma {:induction false} OneShows(ks: Keyspace, now: Time, key: Bytes, op: KeyOp, k: Bytes, what: Shown)
    requires StreamAt(ks, now, k).Some?
    ensures ShownIn(key, op, OnKey(ks, now, key, op).1, k, what) ==
            ShownOver(StreamAt(ks, now, k).value, OpsOn(key, op, k, now), what)
  {
    if key == k && op.OnStream? {
      var e := LiveSlot(ks, now, key).value;
      assert OnKey(ks, now, key, op).1 == ApplyStream(op.stream, Some(e), now).1;
      if Mutates(op.stream) {
        ShownOne(e.value.stream, StepOf(op.stream, now), what);
        StepShows(op.stream, e, now, k, what);
      } else {
        ReadShowsNothing(op.stream, ApplyStream(op.stream, Some(e), now).1, k, what);
      }
    }
  }

  lemma {:induction false} ReadShowsNothing(op: StreamOp, r: Reply, k: Bytes, what: Shown)
    requires !Mutates(op)
    ensures ShownIn(k, OnStream(op), r, k, what) == []
  {
  }

  lemma {:induction false} ShownOne(s: Stream, op: Streams.Op, what: Shown)
    ensures ShownOver(s, [op], what) == ShownBy(s, op, what)
  {
    assert [op][1..] == [];
  }

  lemma {:induction false} StepShows(op: StreamOp, e: Entry, now: Time, k: Bytes, what: Shown)
    requires e.value.Log? && Mutates(op)
    ensures ShownIn(k, OnStream(op), ApplyStream(op, Some(e), now).1, k, what) ==
            ShownBy(e.value.stream, StepOf(op, now), what)
  {
    match what
    case Stored =>
      if op.XAdd? {
        ReplyShowsStep(op, e, now);
      } else {
        OthersShowNothing(op, e.value.stream, now, ApplyStream(op, Some(e), now).1, k, what);
      }
    case Delivered(name) =>
      if op.XReadNew? && op.group == name {
        ReadShows(op, e, now);
      } else {
        OthersShowNothing(op, e.value.stream, now, ApplyStream(op, Some(e), now).1, k, what);
      }
  }

  lemma {:induction false} OthersShowNothing(op: StreamOp, s: Stream, now: Time, r: Reply, k: Bytes, what: Shown)
    requires Mutates(op)
    requires if what.Stored? then !op.XAdd? else !(op.XReadNew? && op.group == what.group)
    ensures ShownIn(k, OnStream(op), r, k, what) == [] == ShownBy(s, StepOf(op, now), what)
  {
  }

  /** The reply to a ">" read: the ids it delivers, or an error when the group is missing. */
  lemma {:induction false} ReadShows(op: StreamOp, e: Entry, now: Time)
    requires e.value.Log? && op.XReadNew?
    ensures var r := ApplyStream(op, Some(e), now).1;
            (if r.Entries? then RepliedIds(r.entries) else []) ==
            ShownBy(e.value.stream, StepOf(op, now), Delivered(op.group))
  {
    if op.group in e.value.stream.groups {
      ReplyShowsStep(op, e, now);
    } else {
      ReadRefused(op, e, now);
    }
    ReadIsShown(op, e.value.stream, now);
  }

  lemma {:induction false} ReadIsShown(op: StreamOp, s: Stream, now: Time)
    requires op.XReadNew?
    ensures ShownBy(s, StepOf(op, now), Delivered(op.group)) ==
            if op.group in s.groups then NewIds(s.entries, s.groups[op.group], op.count) else []
  {
    ShownByRead(s, op.group, op.consumer, op.count, now);
    assert StepOf(op, now) == Streams.ReadNew(op.group, op.consumer, op.count, now);
  }

  lemma {:induction false} ShownByRead(s: Stream, name: Bytes, c: Bytes, count: Option<nat>, now: Time)
    ensures ShownBy(s, Streams.ReadNew(name, c, count, now), Delivered(name)) ==
            if name in s.groups then NewIds(s.entries, s.groups[name], count) else []
  {
  }

  lemma {:induction false} ReadRefused(op: StreamOp, e: Entry, now: Time)
    requires e.value.Log? && op.XReadNew? && op.group !in e.value.stream.groups
    ensures ApplyStream(op, Some(e), now).1 == Fail(NoGroup)
  {
  }

  lemma {:induction false} ManyShow(ks: Keyspace, now: Time, steps: seq<(Bytes, KeyOp)>, stop: Stop, k: Bytes,
                                    what: Shown)
    requires StaysMany(ks, now, steps, stop, k)
    ensures ShownInMany(steps, RunMany(ks, now, steps, stop).1, k, what) ==
            ShownOver(StreamAt(ks, now, k).value, OpsMany(ks, now, steps, stop, k), what)
    decreases |steps|
  {
    if steps != [] {
      var first := OnKey(ks, now, steps[0].0, steps[0].1);
      var mine := OpsOn(steps[0].0, steps[0].1, k, now);
      OneShows(ks, now, steps[0].0, steps[0].1, k, what);
      var rs := RunMany(ks, now, steps, stop).1;
      if Stops(stop, first.1) {
        assert rs == [first.1] && rs[1..] == [];
      } else {
        var rest := RunMany(first.0, now, steps[1..], stop).1;
        assert rs == [first.1] + rest && rs[1..] == rest;
        OneProjects(ks, now, steps[0].0, steps[0].1, k);
        ManyShow(first.0, now, steps[1..], stop, k, what);
        ShownConcat(StreamAt(ks, now, k).value, mine, OpsMany(first.0, now, steps[1..], stop, k), what);
      }
    }
  }

  lemma {:induction false} CommandShows(ks: Keyspace, now: Time, cmd: Command, k: Bytes, what: Shown)
    requires Stays(ks, now, cmd, k)
    ensures ShownInReply(cmd, Perform(ks, now, cmd).1, k, what) ==
            ShownOver(StreamAt(ks, now, k).value, OpsOf(ks, now, cmd, k), what)
  {
    match cmd
    case One(key, op) => OneShows(ks, now, key, op, k, what);
    case Many(steps, stop) => ManyShow(ks, now, steps, stop, k, what);
    case _ =>
  }

  /** The outcomes are exactly what the steps did. */
  lemma {:induction false} RunShows(ks: Keyspace, start: Time, events: seq<Event>, k: Bytes, what: Shown)
    requires StaysRun(ks, start, events, k)
    ensures OutcomesOver(ks, events, k, what) ==
            ShownOver(StreamAt(ks, start, k).value, OpsOver(ks, events, k), what)
    decreases |events|
  {
    if events != [] {
      var e := events[0];
      var after := Exec(ks, e.now, e.cmd).0;
      var s, now, later := StreamAt(ks, start, k).value, OpsOf(ks, e.now, e.cmd, k), OpsOver(after, events[1..], k);
      assert StreamAt(ks, e.now, k) == Some(s);
      assert ShownInReply(e.cmd, Perform(ks, e.now, e.cmd).1, k, what) == ShownOver(s, now, what) by {
        CommandShows(ks, e.now, e.cmd, k, what);
      }
      assert OutcomesOver(after, events[1..], k, what) == ShownOver(Streams.Run(s, now), later, what) by {
        CommandProjects(ks, e.now, e.cmd, k);
        RunShows(after, e.now, events[1..], k, what);
      }
      ShownConcat(s, now, later, what);
    }
  }

  // ----- what replies leave out -----

  /** A batch ends in an error after it delivered, or stored, something on `k`: the reply is the error alone. */
  ghost predicate Loses(ks: Keyspace, now: Time, cmd: Command, k: Bytes, what: Shown) {
    && cmd.Many?
    && var rs := RunMany(ks, now, cmd.steps, cmd.stop).1;
       EndsInError(cmd.stop, rs) && ShownInMany(cmd.steps, rs, k, what) != []
  }

  ghost predicate LosesNothing(ks: Keyspace, events: seq<Event>, k: Bytes, what: Shown)
    decreases |events|
  {
    events == [] ||
    (&& !Loses(ks, events[0].now, events[0].cmd, k, what)
     && LosesNothing(Exec(ks, events[0].now, events[0].cmd).0, events[1..], k, what))
  }

  /** A reply shows all of the outcome or, when the command loses it, nothing. */
  lemma {:induction false} AllOrNothing(ks: Keyspace, now: Time, cmd: Command, k: Bytes, what: Shown)
    ensures ShownInReply(cmd, Exec(ks, now, cmd).1, k, what) ==
            if Loses(ks, now, cmd, k, what) then [] else ShownInReply(cmd, Perform(ks, now, cmd).1, k, what)
    ensures Loses(ks, now, cmd, k, what) ==> ShownInReply(cmd, Perform(ks, now, cmd).1, k, what) != []
  {
    if cmd.Many? {
      var rs := RunMany(ks, now, cmd.steps, cmd.stop).1;
      assert Perform(ks, now, cmd).1 == Multi(rs);
    }
  }

  /** The replies show all outcomes of a run if and only if no command loses any; they never show more. */
  lemma {:induction false} RepliesOrOutcomes(ks: Keyspace, events: seq<Event>, k: Bytes, what: Shown)
    ensures LosesNothing(ks, events, k, what) ==> RepliesOver(ks, events, k, what) == OutcomesOver(ks, events, k, what)
    ensures !LosesNothing(ks, events, k, what) ==>
              |RepliesOver(ks, events, k, what)| < |OutcomesOver(ks, events, k, what)|
    decreases |events|
  {
    if events != [] {
      var e := events[0];
      AllOrNothing(ks, e.now, e.cmd, k, what);
      RepliesOrOutcomes(Exec(ks, e.now, e.cmd).0, events[1..], k, what);
    }
  }

  /** What the replies show keeps the order of the outcomes. */
  lemma {:induction false} RepliesInOrder(ks: Keyspace, events: seq<Event>, k: Bytes, what: Shown)
    requires Ascending(OutcomesOver(ks, events, k, what), IdLess)
    ensures Ascending(RepliesOver(ks, events, k, what), IdLess)
    ensures forall id :: id in RepliesOver(ks, events, k, what) ==> id in OutcomesOver(ks, events, k, what)
    decreases |events|
  {
    if events != [] {
      var e := events[0];
      var after := Exec(ks, e.now, e.cmd).0;
      var mine := ShownInReply(e.cmd, Perform(ks, e.now, e.cmd).1, k, what);
      var rest := OutcomesOver(after, events[1..], k, what);
      AllOrNothing(ks, e.now, e.cmd, k, what);
      AscendingParts(mine, rest);
      RepliesInOrder(after, events[1..], k, what);
      AscendingConcat(ShownInReply(e.cmd, Exec(ks, e.now, e.cmd).1, k, what),
                      RepliesOver(after, events[1..], k, what), IdLess);
    }
  }

  lemma {:induction false} AscendingParts(a: seq<StreamId>, b: seq<StreamId>)
    requires Ascending(a + b, IdLess)
    ensures Ascending(a, IdLess) && Ascending(b, IdLess)
    ensures forall x, y :: x in a && y in b ==> IdLess(x, y)
  {
    var all := a + b;
    assert forall i :: 0 <= i < |a| ==> all[i] == a[i];
    assert forall i :: 0 <= i < |b| ==> all[|a| + i] == b[i];
    forall x, y | x in a && y in b ensures IdLess(x, y) {
      var i :| 0 <= i < |a| && a[i] == x;
      var j :| 0 <= j < |b| && b[j] == y;
      assert IdLess(all[i], all[|a| + j]);
    }
  }

  // ----- when an XREADGROUP call loses something -----

  /** The replies to the steps of a call list something new of `k` exactly when a key before the bad one does. */
  lemma {:induction false} CallShowsIff(ks: Keyspace, now: Time, group: Bytes, consumer: Bytes,
                                        keys: seq<(Bytes, Option<StreamId>)>, count: Option<nat>, k: Bytes)
    ensures var steps := ReadSteps(group, consumer, keys, count);
            ShownInMany(steps, RunMany(ks, now, steps, AtError).1, k, Delivered(group)) != [] <==>
            exists i :: DeliversAt(ks, now, group, keys, count, i) && keys[i].0 == k
    decreases |keys|
  {
    if keys != [] {
      var op := ReadOp(group, consumer, keys[0].1, count);
      var after := OnKey(ks, now, keys[0].0, OnStream(op));
      var steps := ReadSteps(group, consumer, keys, count);
      var rs := RunMany(ks, now, steps, AtError).1;
      ReadStep(ks, now, keys[0].0, group, consumer, keys[0].1, count);
      StepsTail(group, consumer, keys, count);
      FirstShows(ks, now, keys[0].0, group, consumer, keys[0].1, count, k);
      if after.1.Fail? {
        assert rs == [after.1] && rs[1..] == [];
      } else {
        var rest := RunMany(after.0, now, steps[1..], AtError).1;
        assert rs == [after.1] + rest && rs[1..] == rest;
        CallShowsIff(after.0, now, group, consumer, keys[1..], count, k);
        BadTail(ks, after.0, now, group, keys[1..]);
        LaterDelivers(ks, after.0, now, group, keys, count, k);
      }
    }
  }

  /** What the first step shows of `k`. */
  lemma {:induction false} FirstShows(ks: Keyspace, now: Time, key: Bytes, group: Bytes, consumer: Bytes,
                                      from: Option<StreamId>, count: Option<nat>, k: Bytes)
    ensures var op := OnStream(ReadOp(group, consumer, from, count));
            ShownIn(key, op, OnKey(ks, now, key, op).1, k, Delivered(group)) != [] <==>
            key == k && from.None? && HasNew(ks, now, k, group, count)
  {
    if key == k && from.None? {
      NewShows(LiveSlot(ks, now, key), now, group, consumer, count);
    }
  }

  /** Something new in the group of a live stream. */
  ghost predicate NewIn(slot: Slot, group: Bytes, count: Option<nat>) {
    && slot.Some? && slot.value.value.Log? && group in slot.value.value.stream.groups && count != Some(0)
    && AnyNewer(slot.value.value.stream.entries, slot.value.value.stream.groups[group].lastDelivered)
  }

  lemma {:induction false} NewShows(slot: Slot, now: Time, group: Bytes, consumer: Bytes, count: Option<nat>)
    ensures var r := ApplyStream(XReadNew(group, consumer, count), slot, now).1;
            r.Entries? && RepliedIds(r.entries) != [] <==> NewIn(slot, group, count)
  {
    if slot.Some? && slot.value.value.Log? {
      var s := slot.value.value.stream;
      var op := XReadNew(group, consumer, count);
      if group in s.groups {
        NewIdsIff(s.entries, s.groups[group], count);
        assert ApplyStream(op, slot, now).1.Entries? && RepliedIds(ApplyStream(op, slot, now).1.entries) ==
               NewIds(s.entries, s.groups[group], count) by {
          ReplyShowsStep(op, slot.value, now);
        }
      } else {
        ReadRefused(op, slot.value, now);
      }
    }
  }

  lemma {:induction false} SameNew(ks: Keyspace, after: Keyspace, now: Time, k: Bytes, group: Bytes,
                                   count: Option<nat>)
    requires LiveSlot(after, now, k) == LiveSlot(ks, now, k)
    ensures HasNew(after, now, k, group, count) <==> HasNew(ks, now, k, group, count)
  {
    assert GroupAt(after, now, k, group) == GroupAt(ks, now, k, group);
  }

  /** A later key shows something of `k`: the same before the first key was read, unless that one already did. */
  lemma {:induction false} LaterDelivers(ks: Keyspace, after: Keyspace, now: Time, group: Bytes,
                                         keys: seq<(Bytes, Option<StreamId>)>, count: Option<nat>, k: Bytes)
    requires keys != [] && GroupAt(ks, now, keys[0].0, group).Some?
    requires FirstBad(after, now, group, keys[1..]) == FirstBad(ks, now, group, keys[1..])
    requires forall j :: j != keys[0].0 ==> LiveSlot(after, now, j) == LiveSlot(ks, now, j)
    requires CursorMoved(ks, after, now, keys[0].0, group,
                         keys[0].1.None? && HasNew(ks, now, keys[0].0, group, count))
    ensures (exists i :: DeliversAt(ks, now, group, keys, count, i) && keys[i].0 == k) <==>
            || (keys[0].0 == k && keys[0].1.None? && HasNew(ks, now, k, group, count))
            || exists i :: DeliversAt(after, now, group, keys[1..], count, i) && keys[1..][i].0 == k
  {
    var now_ := keys[0].0 == k && keys[0].1.None? && HasNew(ks, now, k, group, count);
    if now_ {
      assert DeliversAt(ks, now, group, keys, count, 0) && keys[0].0 == k;
    } else {
      SameNew(ks, after, now, k, group, count);
      if i :| DeliversAt(ks, now, group, keys, count, i) && keys[i].0 == k {
        assert keys[1..][i - 1] == keys[i];
        assert DeliversAt(after, now, group, keys[1..], count, i - 1);
      }
      if i :| DeliversAt(after, now, group, keys[1..], count, i) && keys[1..][i].0 == k {
        assert keys[1..][i] == keys[i + 1];
        assert DeliversAt(ks, now, group, keys, count, i + 1);
      }
    }
  }

  /**
   An XREADGROUP call loses entries of `k` if and only if one of its keys has no live stream with the group and an
   earlier one is `k`, read with ">", with an entry above the cursor: all of it can be looked up before the call.
   */
  lemma {:induction false} CallLosesIff(ks: Keyspace, now: Time, group: Bytes, consumer: Bytes,
                                        keys: seq<(Bytes, Option<StreamId>)>, count: Option<nat>, k: Bytes)
    ensures Loses(ks, now, ReadCommand(group, consumer, keys, count), k, Delivered(group)) <==>
            && FirstBad(ks, now, group, keys) < |keys|
            && exists i :: DeliversAt(ks, now, group, keys, count, i) && keys[i].0 == k
  {
    CallFailsIff(ks, now, group, consumer, keys, count);
    CallShowsIff(ks, now, group, consumer, keys, count, k);
  }

  /** The failing case: one new entry on `k`, and a second key that is not there. */
  lemma {:induction false} LostDelivery(k: Bytes, missing: Bytes, name: Bytes, consumer: Bytes, fields: Fields,
                                        now: Time)
    requires k != missing
    ensures var id := StreamId(1, 0);
            var s := Stream(map[id := fields], id, map[name := Group(ZERO_ID, map[])]);
            var ks: Keyspace := map[k := Entry(Log(s), None)];
            var r := Exec(ks, now, ReadCommand(name, consumer, [(k, None), (missing, None)], None));
            && r.1.Fail?
            && GroupAt(r.0, now, k, name).Some?
            && IdLeq(id, GroupAt(r.0, now, k, name).value.1.lastDelivered)
            && RepliesOver(ks, [Event(now, ReadCommand(name, consumer, [(k, None), (missing, None)], None))], k,
                           Delivered(name)) == []
  {
    var id := StreamId(1, 0);
    var s := Stream(map[id := fields], id, map[name := Group(ZERO_ID, map[])]);
    var ks: Keyspace := map[k := Entry(Log(s), None)];
    var keys: seq<(Bytes, Option<StreamId>)> := [(k, None), (missing, None)];
    var cmd := ReadCommand(name, consumer, keys, None);
    LostCall(ks, now, k, missing, name, consumer, id);
    var e := Event(now, cmd);
    assert [e][1..] == [];
    AllOrNothing(ks, now, cmd, k, Delivered(name));
  }

  lemma {:induction false} LostCall(ks: Keyspace, now: Time, k: Bytes, missing: Bytes, name: Bytes, consumer: Bytes,
                                    id: StreamId)
    requires GroupAt(ks, now, k, name).Some? && GroupAt(ks, now, missing, name).None?
    requires GroupAt(ks, now, k, name).value.0.entries.Keys == {id}
    requires IdLess(GroupAt(ks, now, k, name).value.1.lastDelivered, id)
    ensures var cmd := ReadCommand(name, consumer, [(k, None), (missing, None)], None);
            && Loses(ks, now, cmd, k, Delivered(name)) && Exec(ks, now, cmd).1.Fail?
            && GroupAt(Exec(ks, now, cmd).0, now, k, name).Some?
            && IdLeq(id, GroupAt(Exec(ks, now, cmd).0, now, k, name).value.1.lastDelivered)
  {
    var keys: seq<(Bytes, Option<StreamId>)> := [(k, None), (missing, None)];
    var cmd := ReadCommand(name, consumer, keys, None);
    assert keys[1..][0] == (missing, None);
    assert FirstBad(ks, now, name, keys[1..]) == 0 && FirstBad(ks, now, name, keys) == 1;
    assert id in GroupAt(ks, now, k, name).value.0.entries && HasNew(ks, now, k, name, None);
    assert DeliversAt(ks, now, name, keys, None, 0) && keys[0].0 == k;
    CallLosesIff(ks, now, name, consumer, keys, None, k);
    CallFailsIff(ks, now, name, consumer, keys, None);
    var after := OnKey(ks, now, k, OnStream(ReadOp(name, consumer, None, None)));
    ReadStep(ks, now, k, name, consumer, None, None);
    StepsTail(name, consumer, keys, None);
    CursorsUp(after.0, now, name, consumer, keys[1..], None, k);
    OnlyEntry(ks, after.0, now, k, name, consumer, id);
  }

  /** With a single entry above the cursor, a ">" read moves the cursor to it. */
  lemma {:induction false} OnlyEntry(ks: Keyspace, after: Keyspace, now: Time, k: Bytes, name: Bytes, consumer: Bytes,
                                     id: StreamId)
    requires GroupAt(ks, now, k, name).Some? && GroupAt(ks, now, k, name).value.0.entries.Keys == {id}
    requires IdLess(GroupAt(ks, now, k, name).value.1.lastDelivered, id)
    requires after == OnKey(ks, now, k, OnStream(ReadOp(name, consumer, None, None))).0
    ensures GroupAt(after, now, k, name).Some? && GroupAt(after, now, k, name).value.1.lastDelivered == id
  {
    var found := GroupAt(ks, now, k, name).value;
    var ids := NewIds(found.0.entries, found.1, None);
    NewIdsIff(found.0.entries, found.1, None);
    NewIdsAbove(found.0.entries, found.1, None);
    assert id in found.0.entries;
    assert ids != [] && ids[|ids| - 1] in ids;
    ReadSlots(ks, now, k, name, consumer, None, None);
  }

  // ----- the run theorems -----

  /**
   Exactly once, as clients see it: without XDEL, XTRIM and XGROUP DESTROY the ids in all replies to ">" reads
   of a group, put one after the other, are the sorted ids of the entries its cursor has passed, if and only if
   no call of the run failed after it had delivered entries of that group on that key.
   */
  lemma {:induction false} RepliesExactlyOnceIff(ks: Keyspace, start: Time, events: seq<Event>, k: Bytes, name: Bytes)
    requires StaysRun(ks, start, events, k) && RunKeepsTo(ks, events, Promise(false, true))
    requires var s := StreamAt(ks, start, k).value;
             Streams.StreamOk(s) && name in s.groups && s.groups[name].consumers == map[]
    requires Streams.NoRemovals(OpsOver(ks, events, k)) && NotDestroyed(OpsOver(ks, events, k), name)
    ensures var first := StreamAt(ks, start, k).value.groups[name].lastDelivered;
            var end := EndOf(ks, start, events, k);
            && name in end.groups
            && (RepliesOver(ks, events, k, Delivered(name)) ==
                SortedIds(Streams.Passed(end.entries, end.groups[name].lastDelivered, first)) <==>
                LosesNothing(ks, events, k, Delivered(name)))
  {
    var s, ops := StreamAt(ks, start, k).value, OpsOver(ks, events, k);
    RunProjects(ks, start, events, k);
    RunPromised(ks, start, events, k, Promise(false, true));
    PromisedMeans(s, ops, Promise(false, true), name);
    RunShows(ks, start, events, k, Delivered(name));
    RepliesOrOutcomes(ks, events, k, Delivered(name));
    LedgerLists(s, Streams.FirstLedger(s, name), ops, name);
    Streams.ExactlyOnce(s, ops, name);
  }

  /**
   Ids as clients see them: over any run on a key that keeps its stream, while sequence numbers do not run out,
   the ids XADD replies are strictly increasing and above the stream's old last id.
   */
  lemma {:induction false} RepliedIdsIncrease(ks: Keyspace, start: Time, events: seq<Event>, k: Bytes)
    requires StaysRun(ks, start, events, k) && RunKeepsTo(ks, events, Promise(false, true))
    requires Streams.StreamOk(StreamAt(ks, start, k).value)
    ensures Ascending(RepliesOver(ks, events, k, Stored), IdLess)
    ensures forall id :: id in RepliesOver(ks, events, k, Stored) ==>
                         IdLess(StreamAt(ks, start, k).value.lastId, id)
                         && IdLeq(id, EndOf(ks, start, events, k).lastId)
  {
    var s, ops := StreamAt(ks, start, k).value, OpsOver(ks, events, k);
    RunProjects(ks, start, events, k);
    RunPromised(ks, start, events, k, Promise(false, true));
    PromisedMeans(s, ops, Promise(false, true), []);
    RunShows(ks, start, events, k, Stored);
    StoredIsAdded(s, ops);
    Streams.IdsNeverReused(s, ops);
    RepliesInOrder(ks, events, k, Stored);
  }
}
