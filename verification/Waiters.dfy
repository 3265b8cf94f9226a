/**
 Blocking readers as a state machine. A waiter arms itself, polls, checks the shutdown flag and parks; a
 notification marks every armed waiter; a woken waiter re-arms and polls again. Direct commands notify
 before they release the write lock, scripts after they have released it.
 */
module Waiters {
  import opened Prelude
  import opened Ordering
  import opened Values
  import opened Lists
  import opened Streams
  import opened Groups
  import opened Autoclaim
  import opened Commands
  import opened Expiry
  import opened Scripts

  /** BLPOP and BRPOP, BLMOVE, and blocking XREAD. */
  datatype Kind =
    | BlPop(keys: seq<Bytes>, end: ListEnd)
    | BlMove(src: Bytes, dst: Bytes, from: ListEnd, to: ListEnd)
    | BlRead(streams: seq<(Bytes, StreamId)>, count: Option<nat>)

  function PopSteps(keys: seq<Bytes>, end: ListEnd): seq<(Bytes, KeyOp)> {
    seq(|keys|, i requires 0 <= i < |keys| => (keys[i], OnList(PollOp(end))))
  }

  function ReadSteps(streams: seq<(Bytes, StreamId)>, count: Option<nat>): seq<(Bytes, KeyOp)> {
    seq(|streams|, i requires 0 <= i < |streams| => (streams[i].0, OnStream(XRead(streams[i].1, count))))
  }

  /** The non-blocking command a waiter polls with. */
  function PollCommand(kind: Kind): Command {
    match kind
    case BlPop(keys, end) => Many(PopSteps(keys, end), AtHit)
    case BlMove(src, dst, from, to) => Lmove(src, dst, from, to)
    case BlRead(streams, count) => Many(ReadSteps(streams, count), AtError)
  }

  predicate Every(rs: seq<Reply>, r: Reply) {
    forall i :: 0 <= i < |rs| ==> rs[i] == r
  }

  /** The poll found nothing and no error; anything else ends the wait. */
  predicate PollEmpty(kind: Kind, r: Reply) {
    match kind
    case BlPop(_, _) => r.Multi? && Every(r.replies, Nil)
    case BlMove(_, _, _, _) => r == Nil
    case BlRead(_, _) => r.Multi? && Every(r.replies, Entries([]))
  }

  /** There is something on the waiter's keys that its poll would return. */
  ghost predicate Available(kind: Kind, ks: Keyspace, now: Time) {
    match kind
    case BlPop(keys, _) => exists k :: k in keys && ListReady(ks, now, k)
    case BlMove(src, _, _, _) => ListReady(ks, now, src)
    case BlRead(streams, count) =>
      && count != Some(0)
      && exists i, id :: 0 <= i < |streams| && HasEntry(ks, now, streams[i].0, id) && IdLess(streams[i].1, id)
  }

  // ----- an empty poll means nothing is available -----

  lemma {:induction false} QuietPoll(ks: Keyspace, now: Time, key: Bytes, end: ListEnd)
    requires OnKey(ks, now, key, OnList(PollOp(end))).1 == Nil
    ensures !ListReady(ks, now, key)
    ensures SameLive(ks, OnKey(ks, now, key, OnList(PollOp(end))).0, now)
  {
  }

  lemma {:induction false} QuietPolls(ks: Keyspace, now: Time, keys: seq<Bytes>, end: ListEnd)
    requires PollEmpty(BlPop(keys, end), Exec(ks, now, PollCommand(BlPop(keys, end))).1)
    ensures forall k :: k in keys ==> !ListReady(ks, now, k)
    ensures SameLive(ks, Exec(ks, now, PollCommand(BlPop(keys, end))).0, now)
    decreases |keys|
  {
    if keys != [] {
      var steps := PopSteps(keys, end);
      assert steps[1..] == PopSteps(keys[1..], end);
      var first := OnKey(ks, now, keys[0], OnList(PollOp(end)));
      AllReplies(ks, now, steps, AtHit, Nil);
      QuietPoll(ks, now, keys[0], end);
      QuietPolls(first.0, now, keys[1..], end);
      forall k | k in keys ensures !ListReady(ks, now, k) {
        assert LiveSlot(ks, now, k) == LiveSlot(first.0, now, k);
        assert k == keys[0] || k in keys[1..];
      }
      SameLiveTrans(ks, first.0, RunMany(first.0, now, steps[1..], AtHit).0, now);
    }
  }

  lemma {:induction false} SameLiveTrans(a: Keyspace, b: Keyspace, c: Keyspace, now: Time)
    requires SameLive(a, b, now) && SameLive(b, c, now)
    ensures SameLive(a, c, now)
  {
  }

  /** If every reply of a batch is the same and does not stop it, so are those of its first step and of the rest. */
  lemma {:induction false} AllReplies(ks: Keyspace, now: Time, steps: seq<(Bytes, KeyOp)>, stop: Stop, r: Reply)
    requires steps != [] && !Stops(stop, r)
    requires Every(RunMany(ks, now, steps, stop).1, r)
    ensures var first := OnKey(ks, now, steps[0].0, steps[0].1);
            var rest := RunMany(first.0, now, steps[1..], stop);
            first.1 == r && RunMany(ks, now, steps, stop).0 == rest.0 && Every(rest.1, r)
  {
    var first := OnKey(ks, now, steps[0].0, steps[0].1);
    var rest := RunMany(first.0, now, steps[1..], stop);
    EveryHead(RunMany(ks, now, steps, stop).1, first.1, if Stops(stop, first.1) then [] else rest.1, r);
  }

  lemma {:induction false} EveryHead(all: seq<Reply>, first: Reply, rest: seq<Reply>, r: Reply)
    requires all == [first] + rest && Every(all, r)
    ensures first == r && Every(rest, r)
  {
    assert all[0] == first;
    forall i | 0 <= i < |rest| ensures rest[i] == r { assert rest[i] == all[i + 1]; }
  }

  lemma {:induction false} ListedEntries(entries: map<StreamId, Fields>, ids: seq<StreamId>)
    requires forall id :: id in ids ==> id in entries
    ensures |EntriesAt(entries, ids)| == |ids|
  {
    if ids != [] {
      var init := ids[..|ids| - 1];
      assert ids[|ids| - 1] in ids;
      ListedEntries(entries, init);
    }
  }

  lemma {:induction false} QuietRead(ks: Keyspace, now: Time, key: Bytes, from: StreamId, count: Option<nat>)
    requires OnKey(ks, now, key, OnStream(XRead(from, count))).1 == Entries([])
    ensures count != Some(0) ==> forall id :: HasEntry(ks, now, key, id) ==> !IdLess(from, id)
    ensures SameLive(ks, OnKey(ks, now, key, OnStream(XRead(from, count))).0, now)
  {
    ReadKeepsLive(ks, now, key, from, count);
    if count != Some(0) {
      ReadNothing(LiveSlot(ks, now, key), now, from, count);
    }
  }

  lemma {:induction false} ReadNothing(slot: Slot, now: Time, from: StreamId, count: Option<nat>)
    requires count != Some(0) && ApplyStream(XRead(from, count), slot, now).1 == Entries([])
    ensures forall id :: id in IdsIn(slot) ==> !IdLess(from, id)
  {
    if slot.Some? && slot.value.value.Log? {
      NothingNewer(slot.value.value.stream.entries, from, count);
    }
  }

  lemma {:induction false} ReadKeepsLive(ks: Keyspace, now: Time, key: Bytes, from: StreamId, count: Option<nat>)
    ensures SameLive(ks, OnKey(ks, now, key, OnStream(XRead(from, count))).0, now)
  {
    var slot := LiveSlot(ks, now, key);
    assert Apply(OnStream(XRead(from, count)), slot, now).0 == slot;
    forall k ensures LiveSlot(ks, now, k) == LiveSlot(OnKey(ks, now, key, OnStream(XRead(from, count))).0, now, k) {
      PutLive(ks, now, key, slot, k);
    }
  }

  /** A read with a count other than 0 that lists nothing had nothing to list. */
  lemma {:induction false} NothingNewer(entries: map<StreamId, Fields>, from: StreamId, count: Option<nat>)
    requires count != Some(0)
    requires EntriesAt(entries, Take(SortedIds(set id | id in entries && IdLess(from, id)), count)) == []
    ensures forall id :: id in entries ==> !IdLess(from, id)
  {
    var newer := set id | id in entries && IdLess(from, id);
    var taken := Take(SortedIds(newer), count);
    forall id | id in taken ensures id in entries {
      assert id in SortedIds(newer);
    }
    ListedEntries(entries, taken);
    assert taken == [];
    assert newer == Elems(SortedIds(newer)) == {};
    assert forall id :: id in entries && IdLess(from, id) ==> id in newer;
  }

  /**
   XREAD of one key replies no entry (none, or that the key holds something else) if and only if COUNT is 0 or
   there is no newer entry; so a blocking XREAD with COUNT 0 only ends by error, deadline or shutdown.
   */
  lemma {:induction false} ReadEmptyIff(ks: Keyspace, now: Time, key: Bytes, from: StreamId, count: Option<nat>)
    ensures var r := OnKey(ks, now, key, OnStream(XRead(from, count))).1;
            r == Entries([]) || r == Fail(WrongType) <==>
            count == Some(0) || forall id :: HasEntry(ks, now, key, id) ==> !IdLess(from, id)
  {
    SlotEmptyIff(LiveSlot(ks, now, key), now, from, count);
  }

  lemma {:induction false} SlotEmptyIff(slot: Slot, now: Time, from: StreamId, count: Option<nat>)
    ensures var r := ApplyStream(XRead(from, count), slot, now).1;
            r == Entries([]) || r == Fail(WrongType) <==>
            count == Some(0) || forall id :: id in IdsIn(slot) ==> !IdLess(from, id)
  {
    if slot.Some? && slot.value.value.Log? {
      var entries := slot.value.value.stream.entries;
      var newer := set id | id in entries && IdLess(from, id);
      if count == Some(0) || newer == {} {
        assert Take(SortedIds(newer), count) == [];
      } else if EntriesAt(entries, Take(SortedIds(newer), count)) == [] {
        NothingNewer(entries, from, count);
      }
      assert forall id :: id in entries && IdLess(from, id) ==> id in newer;
    }
  }

  lemma {:induction false} QuietReads(ks: Keyspace, now: Time, streams: seq<(Bytes, StreamId)>, count: Option<nat>)
    requires PollEmpty(BlRead(streams, count), Exec(ks, now, PollCommand(BlRead(streams, count))).1)
    ensures !Available(BlRead(streams, count), ks, now)
    ensures SameLive(ks, Exec(ks, now, PollCommand(BlRead(streams, count))).0, now)
    decreases |streams|
  {
    if streams != [] {
      var steps := ReadSteps(streams, count);
      assert steps[1..] == ReadSteps(streams[1..], count);
      var first := OnKey(ks, now, streams[0].0, OnStream(XRead(streams[0].1, count)));
      AllReplies(ks, now, steps, AtError, Entries([]));
      QuietRead(ks, now, streams[0].0, streams[0].1, count);
      QuietReads(first.0, now, streams[1..], count);
      SameAvailable(BlRead(streams[1..], count), ks, first.0, now);
      if Available(BlRead(streams, count), ks, now) {
        FirstOrRest(ks, now, streams, count);
      }
      SameLiveTrans(ks, first.0, RunMany(first.0, now, steps[1..], AtError).0, now);
    }
  }

  /** What is available to a read is on its first stream or on the others. */
  lemma {:induction false} FirstOrRest(ks: Keyspace, now: Time, streams: seq<(Bytes, StreamId)>, count: Option<nat>)
    requires streams != [] && Available(BlRead(streams, count), ks, now)
    ensures || Available(BlRead(streams[1..], count), ks, now)
            || exists id :: HasEntry(ks, now, streams[0].0, id) && IdLess(streams[0].1, id)
  {
    var i, id :| 0 <= i < |streams| && HasEntry(ks, now, streams[i].0, id) && IdLess(streams[i].1, id);
    if i > 0 {
      assert streams[1..][i - 1] == streams[i];
    }
  }

  lemma {:induction false} SameAvailable(kind: Kind, a: Keyspace, b: Keyspace, now: Time)
    requires SameLive(a, b, now)
    ensures Available(kind, a, now) <==> Available(kind, b, now)
  {
  }

  /** A waiter whose poll found nothing has nothing available in the state the poll left. */
  lemma {:induction false} EmptyPollUnavailable(kind: Kind, ks: Keyspace, now: Time)
    requires PollEmpty(kind, Exec(ks, now, PollCommand(kind)).1)
    ensures !Available(kind, Exec(ks, now, PollCommand(kind)).0, now)
  {
    var after := Exec(ks, now, PollCommand(kind)).0;
    match kind
    case BlPop(keys, end) =>
      QuietPolls(ks, now, keys, end);
      SameAvailable(kind, ks, after, now);
    case BlMove(src, dst, from, to) =>
      PurgeLive(ks, now, src);
      PurgeLive(Purge(ks, now, src), now, dst);
      assert LiveSlot(PurgeBoth(ks, now, src, dst), now, src) == LiveSlot(ks, now, src);
    case BlRead(streams, count) =>
      QuietReads(ks, now, streams, count);
      SameAvailable(kind, ks, after, now);
  }

  // ----- what becomes available is notified -----

  predicate Listens(kind: Kind, f: Flags) {
    if kind.BlRead? then f.hadXadd else f.hadListMutation
  }

  function CommandFlags(cmd: Command, r: Reply): Flags {
    Flags(NotifiesStream(cmd, r), NotifiesList(cmd, r))
  }

  lemma {:induction false} CommandCovers(kind: Kind, ks: Keyspace, now: Time, cmd: Command)
    requires Available(kind, Exec(ks, now, cmd).0, now)
    ensures Available(kind, ks, now) || Listens(kind, CommandFlags(cmd, Perform(ks, now, cmd).1))
  {
    var after := Exec(ks, now, cmd).0;
    if !Available(kind, ks, now) {
      match kind
      case BlPop(keys, _) =>
        var k :| k in keys && ListReady(after, now, k);
        ListGrowth(ks, now, cmd, k);
      case BlMove(src, _, _, _) =>
        ListGrowth(ks, now, cmd, src);
      case BlRead(streams, _) =>
        var i, id :| 0 <= i < |streams| && HasEntry(after, now, streams[i].0, id) && IdLess(streams[i].1, id);
        StreamGrowth(ks, now, cmd, streams[i].0, id);
    }
  }

  lemma {:induction false} ScriptCovers(kind: Kind, ks: Keyspace, now: Time, events: seq<Event>)
    requires Timed(now, events)
    requires Available(kind, RunEvents(ks, events), LastTime(now, events))
    ensures Available(kind, ks, now) || Listens(kind, ScriptFlags(ks, events))
  {
    var after, later := RunEvents(ks, events), LastTime(now, events);
    if !Available(kind, ks, now) {
      match kind
      case BlPop(keys, _) =>
        var k :| k in keys && ListReady(after, later, k);
        ListFlagComplete(ks, now, events, k);
      case BlMove(src, _, _, _) =>
        ListFlagComplete(ks, now, events, src);
      case BlRead(streams, _) =>
        var i, id :| 0 <= i < |streams| && HasEntry(after, later, streams[i].0, id) && IdLess(streams[i].1, id);
        XaddFlagComplete(ks, now, events, streams[i].0, id);
    }
  }

  lemma {:induction false} AvailableEarlier(kind: Kind, ks: Keyspace, now: Time, later: Time)
    requires now <= later && Available(kind, ks, later)
    ensures Available(kind, ks, now)
  {
  }

  // ----- the state machine -----

  /** Start: not armed. Armed: registered with the notifier. Polled: found nothing. Parked: inside `select!`. */
  datatype Pc = Start | Armed | Polled | Parked | Finished

  datatype Waiter = Waiter(kind: Kind, pc: Pc, notified: bool)

  /**
   `held`: a command holds the write lock and has these notifications still to send. `owed`: scripts that
   released the lock and have these still to send. `shutdown`: 0 running, 1 flag set, 2 stream waiters
   notified, 3 list waiters notified too.
   */
  datatype World = World(ks: Keyspace, now: Time, waiters: map<nat, Waiter>, held: Option<Flags>, owed: seq<Flags>,
                         shutdown: nat)

  datatype Move =
    | Spawn(id: nat, kind: Kind)
    | Arm(id: nat)
    | Poll(id: nat)
    | CheckShutdown(id: nat)
    | Wake(id: nat)
    | Deadline(id: nat)
    | SliceElapsed(id: nat)
    | Call(cmd: Command)
    | Release
    | RunScript(events: seq<Event>)
    | PayNotify(index: nat)
    | Tick(nanos: nat)
    | ShutdownStep

  /** `notify_waiters` marks exactly the waiters armed at that moment. */
  function Notified(w: Waiter, f: Flags): Waiter {
    if (w.pc.Armed? || w.pc.Polled? || w.pc.Parked?) && Listens(w.kind, f) then w.(notified := true) else w
  }

  function NotifyAll(ws: map<nat, Waiter>, f: Flags): map<nat, Waiter> {
    map id | id in ws :: Notified(ws[id], f)
  }

  predicate At(w: World, id: nat, pc: Pc) {
    id in w.waiters && w.waiters[id].pc == pc
  }

  function SetPc(w: World, id: nat, pc: Pc): World
    requires id in w.waiters
  {
    w.(waiters := w.waiters[id := w.waiters[id].(pc := pc)])
  }

  /** One atomic step; a step that is not enabled leaves the world as it is. */
  ghost function Step(w: World, m: Move): World {
    match m
    case Spawn(id, kind) =>
      if id in w.waiters then w else w.(waiters := w.waiters[id := Waiter(kind, Start, false)])
    case Arm(id) =>
      if At(w, id, Start) then w.(waiters := w.waiters[id := w.waiters[id].(pc := Armed, notified := false)]) else w
    case Poll(id) =>
      if At(w, id, Armed) && w.held.None? then
        var cmd := PollCommand(w.waiters[id].kind);
        var r := Exec(w.ks, w.now, cmd);
        var next := if PollEmpty(w.waiters[id].kind, r.1) then Polled else Finished;
        SetPc(w, id, next).(ks := r.0, held := Some(CommandFlags(cmd, Perform(w.ks, w.now, cmd).1)))
      else w
    case CheckShutdown(id) =>
      if At(w, id, Polled) then SetPc(w, id, if w.shutdown > 0 then Finished else Parked) else w
    case Wake(id) =>
      if At(w, id, Parked) && w.waiters[id].notified then SetPc(w, id, Start) else w
    case Deadline(id) =>
      if At(w, id, Parked) then SetPc(w, id, Finished) else w
    case SliceElapsed(id) =>
      if At(w, id, Parked) then SetPc(w, id, Polled) else w
    case Call(cmd) =>
      if w.held.Some? then w
      else
        var r := Exec(w.ks, w.now, cmd);
        w.(ks := r.0, held := Some(CommandFlags(cmd, Perform(w.ks, w.now, cmd).1)))
    case Release =>
      if w.held.None? then w else w.(waiters := NotifyAll(w.waiters, w.held.value), held := None)
    case RunScript(events) =>
      if w.held.Some? || !Timed(w.now, events) then w
      else w.(ks := RunEvents(w.ks, events), now := LastTime(w.now, events),
              owed := w.owed + [ScriptFlags(w.ks, events)])
    case PayNotify(index) =>
      if index >= |w.owed| then w
      else w.(waiters := NotifyAll(w.waiters, w.owed[index]), owed := w.owed[..index] + w.owed[index + 1..])
    case Tick(nanos) => w.(now := w.now + nanos)
    case ShutdownStep =>
      if w.shutdown == 0 then w.(shutdown := 1)
      else if w.shutdown == 1 then w.(shutdown := 2, waiters := NotifyAll(w.waiters, Flags(true, false)))
      else if w.shutdown == 2 then w.(shutdown := 3, waiters := NotifyAll(w.waiters, Flags(false, true)))
      else w
  }

  /** A notification this kind of waiter listens to is still on its way. */
  ghost predicate Promised(w: World, kind: Kind) {
    || (w.held.Some? && Listens(kind, w.held.value))
    || exists i :: 0 <= i < |w.owed| && Listens(kind, w.owed[i])
  }

  predicate Idle(x: Waiter) {
    (x.pc.Polled? || x.pc.Parked?) && !x.notified
  }

  ghost predicate WakeInv(w: World) {
    forall id :: id in w.waiters && Idle(w.waiters[id]) && Available(w.waiters[id].kind, w.ks, w.now) ==>
      Promised(w, w.waiters[id].kind)
  }

  ghost predicate ShutdownInv(w: World) {
    forall id :: id in w.waiters && w.waiters[id].pc.Parked? && !w.waiters[id].notified ==>
                 if w.waiters[id].kind.BlRead? then w.shutdown < 2 else w.shutdown < 3
  }

  lemma {:induction false} PollKeeps(w: World, id: nat)
    requires WakeInv(w)
    ensures WakeInv(Step(w, Poll(id)))
  {
    var w' := Step(w, Poll(id));
    if At(w, id, Armed) && w.held.None? {
      var kind := w.waiters[id].kind;
      var cmd := PollCommand(kind);
      forall j | j in w'.waiters && Idle(w'.waiters[j]) && Available(w'.waiters[j].kind, w'.ks, w'.now)
        ensures Promised(w', w'.waiters[j].kind) {
        if j == id {
          EmptyPollUnavailable(kind, w.ks, w.now);
        } else {
          CommandCovers(w.waiters[j].kind, w.ks, w.now, cmd);
          assert Promised(w, w.waiters[j].kind) ==> Promised(w', w.waiters[j].kind);
        }
      }
    }
  }

  lemma {:induction false} CallKeeps(w: World, cmd: Command)
    requires WakeInv(w)
    ensures WakeInv(Step(w, Call(cmd)))
  {
    var w' := Step(w, Call(cmd));
    if w.held.None? {
      forall j | j in w'.waiters && Idle(w'.waiters[j]) && Available(w'.waiters[j].kind, w'.ks, w'.now)
        ensures Promised(w', w'.waiters[j].kind) {
        CommandCovers(w.waiters[j].kind, w.ks, w.now, cmd);
        assert Promised(w, w.waiters[j].kind) ==> Promised(w', w.waiters[j].kind);
      }
    }
  }

  lemma {:induction false} ScriptKeeps(w: World, events: seq<Event>)
    requires WakeInv(w)
    ensures WakeInv(Step(w, RunScript(events)))
  {
    var w' := Step(w, RunScript(events));
    if w.held.None? && Timed(w.now, events) {
      forall j | j in w'.waiters && Idle(w'.waiters[j]) && Available(w'.waiters[j].kind, w'.ks, w'.now)
        ensures Promised(w', w'.waiters[j].kind) {
        var kind := w.waiters[j].kind;
        ScriptCovers(kind, w.ks, w.now, events);
        if Listens(kind, ScriptFlags(w.ks, events)) {
          assert w'.owed[|w.owed|] == ScriptFlags(w.ks, events);
        } else {
          var i :| 0 <= i < |w.owed| && Listens(kind, w.owed[i]);
          assert w'.owed[i] == w.owed[i];
        }
      }
    }
  }

  lemma {:induction false} NotifyKeeps(w: World, f: Flags, w': World)
    requires WakeInv(w) && w'.waiters == NotifyAll(w.waiters, f) && w'.ks == w.ks && w'.now == w.now
    requires forall kind :: Promised(w, kind) && !Listens(kind, f) ==> Promised(w', kind)
    ensures WakeInv(w')
  {
    forall j | j in w'.waiters && Idle(w'.waiters[j]) && Available(w'.waiters[j].kind, w'.ks, w'.now)
      ensures Promised(w', w'.waiters[j].kind) {
      assert Idle(w.waiters[j]) && w'.waiters[j].kind == w.waiters[j].kind;
    }
  }

  lemma {:induction false} PayKeeps(w: World, index: nat)
    requires WakeInv(w)
    ensures WakeInv(Step(w, PayNotify(index)))
  {
    if index < |w.owed| {
      var w' := Step(w, PayNotify(index));
      forall kind | Promised(w, kind) && !Listens(kind, w.owed[index]) ensures Promised(w', kind) {
        if !(w.held.Some? && Listens(kind, w.held.value)) {
          var i :| 0 <= i < |w.owed| && Listens(kind, w.owed[i]);
          var j := if i < index then i else i - 1;
          assert w'.owed[j] == w.owed[i];
        }
      }
      NotifyKeeps(w, w.owed[index], w');
    }
  }

  lemma {:induction false} ReleaseKeeps(w: World)
    requires WakeInv(w)
    ensures WakeInv(Step(w, Release))
  {
    if w.held.Some? {
      NotifyKeeps(w, w.held.value, Step(w, Release));
    }
  }

  lemma {:induction false} TickKeeps(w: World, nanos: nat)
    requires WakeInv(w)
    ensures WakeInv(Step(w, Tick(nanos)))
  {
    var w' := Step(w, Tick(nanos));
    forall j | j in w'.waiters && Idle(w'.waiters[j]) && Available(w'.waiters[j].kind, w'.ks, w'.now)
      ensures Promised(w', w'.waiters[j].kind) {
      AvailableEarlier(w.waiters[j].kind, w.ks, w.now, w'.now);
    }
  }

  lemma {:induction false} ShutdownKeepsWake(w: World)
    requires WakeInv(w)
    ensures WakeInv(Step(w, ShutdownStep))
  {
    var w' := Step(w, ShutdownStep);
    if w.shutdown == 1 {
      NotifyKeeps(w, Flags(true, false), w');
    } else if w.shutdown == 2 {
      NotifyKeeps(w, Flags(false, true), w');
    }
  }

  /** Steps of a single waiter other than its poll. */
  lemma {:induction false} LocalKeeps(w: World, m: Move)
    requires WakeInv(w)
    requires m.Spawn? || m.Arm? || m.CheckShutdown? || m.Wake? || m.Deadline? || m.SliceElapsed?
    ensures WakeInv(Step(w, m))
  {
    var w' := Step(w, m);
    assert w'.ks == w.ks && w'.now == w.now && w'.held == w.held && w'.owed == w.owed;
    forall j | j in w'.waiters && Idle(w'.waiters[j]) && Available(w'.waiters[j].kind, w'.ks, w'.now)
      ensures Promised(w', w'.waiters[j].kind) {
      assert j in w.waiters && Idle(w.waiters[j]) && w.waiters[j].kind == w'.waiters[j].kind;
      assert Promised(w, w.waiters[j].kind);
    }
  }

  lemma {:induction false} StepKeepsWake(w: World, m: Move)
    requires WakeInv(w)
    ensures WakeInv(Step(w, m))
  {
    match m
    case Poll(id) => PollKeeps(w, id);
    case Call(cmd) => CallKeeps(w, cmd);
    case Release => ReleaseKeeps(w);
    case RunScript(events) => ScriptKeeps(w, events);
    case PayNotify(index) => PayKeeps(w, index);
    case Tick(nanos) => TickKeeps(w, nanos);
    case ShutdownStep => ShutdownKeepsWake(w);
    case _ => LocalKeeps(w, m);
  }

  lemma {:induction false} StepKeepsShutdown(w: World, m: Move)
    requires ShutdownInv(w)
    ensures ShutdownInv(Step(w, m))
  {
  }

  ghost function Run(w: World, moves: seq<Move>): World
    decreases |moves|
  {
    if moves == [] then w else Run(Step(w, moves[0]), moves[1..])
  }

  function Initial(ks: Keyspace, now: Time): World {
    World(ks, now, map[], None, [], 0)
  }

  lemma {:induction false} RunKeeps(w: World, moves: seq<Move>)
    requires WakeInv(w) && ShutdownInv(w)
    ensures WakeInv(Run(w, moves)) && ShutdownInv(Run(w, moves))
    decreases |moves|
  {
    if moves != [] {
      StepKeepsWake(w, moves[0]);
      StepKeepsShutdown(w, moves[0]);
      RunKeeps(Step(w, moves[0]), moves[1..]);
    }
  }

  /**
   No lost wakeup: in every reachable interleaving a waiter that is parked and not notified has nothing
   available on its keys, unless a command still holds the lock or a finished script still owes its notify.
   After shutdown has notified, no waiter stays parked un-notified.
   */
  lemma {:induction false} NoLostWakeup(ks: Keyspace, now: Time, moves: seq<Move>, id: nat)
    requires var w := Run(Initial(ks, now), moves);
             id in w.waiters && w.waiters[id].pc.Parked? && !w.waiters[id].notified
    ensures var w := Run(Initial(ks, now), moves);
            && (Available(w.waiters[id].kind, w.ks, w.now) ==> Promised(w, w.waiters[id].kind))
            && (w.held.None? && w.owed == [] ==> !Available(w.waiters[id].kind, w.ks, w.now))
            && w.shutdown < 3
            && (w.waiters[id].kind.BlRead? ==> w.shutdown < 2)
  {
    RunKeeps(Initial(ks, now), moves);
  }

  /** Once the shutdown flag is set, a woken waiter finishes within its next four steps. */
  lemma {:induction false} ShutdownDrains(w: World, id: nat)
    requires At(w, id, Parked) && w.waiters[id].notified && w.shutdown > 0 && w.held.None?
    ensures At(Step(Step(Step(Step(w, Wake(id)), Arm(id)), Poll(id)), CheckShutdown(id)), id, Finished)
  {
    var w1 := Step(w, Wake(id));
    assert At(w1, id, Start);
    var w2 := Step(w1, Arm(id));
    assert At(w2, id, Armed) && w2.held.None?;
    PollEnds(w2, id);
  }

  lemma {:induction false} PollEnds(w: World, id: nat)
    requires At(w, id, Armed) && w.held.None?
    ensures At(Step(w, Poll(id)), id, Polled) || At(Step(w, Poll(id)), id, Finished)
    ensures Step(w, Poll(id)).shutdown == w.shutdown
  {
  }

  // ----- timeouts -----

  function Ceil(x: real): int {
    if x == x.Floor as real then x.Floor else x.Floor + 1
  }

  /** Seconds to milliseconds; `None` stands for the error on a negative timeout. 0 means block forever. */
  function TimeoutToMs(timeout: Option<real>): Option<u64> {
    match timeout
    case None => Some(0)
    case Some(t) =>
      if t < 0.0 then None
      else if t == 0.0 then Some(0)
      else
        var ms := Ceil(t * 1000.0);
        Some(if ms < 1 then 1 else if ms > U64_MAX then U64_MAX else ms)
  }

  /** A positive timeout never turns into "block forever" and never ends early (short of saturating). */
  lemma {:induction false} PositiveTimeoutIsFinite(t: real)
    requires t > 0.0
    ensures TimeoutToMs(Some(t)).Some? && TimeoutToMs(Some(t)).value >= 1
    ensures TimeoutToMs(Some(t)).value == U64_MAX <==> t * 1000.0 > (U64_MAX - 1) as real
    ensures TimeoutToMs(Some(t)).value < U64_MAX ==>
              t * 1000.0 <= TimeoutToMs(Some(t)).value as real < t * 1000.0 + 1.0
  {
  }
}
