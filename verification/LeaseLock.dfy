/**
 The lease lock: SET NX PX with a unique token to acquire, a compare-and-delete script to release. Any number
 of clients, each attempt of a polling acquire being one step, interleaved with clock ticks, sweeps and
 commands on other keys.
 */
module LeaseLock {
  import opened Prelude
  import opened Values
  import opened Lists
  import opened SortedSets
  import opened Commands
  import opened Expiry

  /** One successful acquisition; `until` is the key's expiry, `released` when its own release deleted the key. */
  datatype Lease = Lease(token: Bytes, start: Time, until: Option<Time>, released: Option<Time>)

  function End(l: Lease): Option<Time> {
    if l.released.Some? then l.released else l.until
  }

  predicate Active(l: Lease, t: Time) {
    l.start <= t && (End(l).Some? ==> t < End(l).value)
  }

  /** `tokens` is the `token` attribute of each Lock object that has one. */
  datatype World = World(ks: Keyspace, now: Time, leases: seq<Lease>, tokens: map<nat, Bytes>)

  datatype Move =
    | TryAcquire(client: nat, token: Bytes, ttl: Option<nat>)
    | Release(client: nat)
    | Tick(nanos: nat)
    | SweepKeys(visited: set<Bytes>)
    | Other(cmd: Command)

  /** `SET name token NX [PX ttl]`. */
  function SetNx(token: Bytes, ttl: Option<nat>): KeyOp {
    OnString(Set(token, ttl, true, false))
  }

  /** The release script: `get` and, if it is our token, `del`, in one atomic evaluation. */
  ghost function ReleaseScript(ks: Keyspace, now: Time, name: Bytes, token: Bytes): (Keyspace, Reply) {
    var got := OnKey(ks, now, name, OnString(Get));
    if got.1 == Bulk(token) then OnKey(got.0, now, name, OnAny(Delete)) else (got.0, Int(0))
  }

  ghost predicate FreshToken(w: World, token: Bytes) {
    (forall i :: 0 <= i < |w.leases| ==> w.leases[i].token != token) && token !in w.tokens.Values
  }

  function MarkReleased(leases: seq<Lease>, token: Bytes, now: Time): (r: seq<Lease>)
    ensures |r| == |leases|
    ensures forall i :: 0 <= i < |r| ==>
            r[i] == if leases[i].token == token then leases[i].(released := Some(now)) else leases[i]
  {
    seq(|leases|, i requires 0 <= i < |leases| =>
      if leases[i].token == token then leases[i].(released := Some(now)) else leases[i])
  }

  ghost function Step(w: World, name: Bytes, m: Move): World {
    match m
    case TryAcquire(client, token, ttl) =>
      if !FreshToken(w, token) then w
      else
        var r := OnKey(w.ks, w.now, name, SetNx(token, ttl));
        if r.1 == Flag(true) then
          var until: Option<Time> := if ttl.Some? then Some(w.now + ttl.value) else None;
          w.(ks := r.0, leases := w.leases + [Lease(token, w.now, until, None)], tokens := w.tokens[client := token])
        else w.(ks := r.0)
    case Release(client) =>
      if client !in w.tokens then w
      else
        var token := w.tokens[client];
        var r := ReleaseScript(w.ks, w.now, name, token);
        if r.1 == Int(1) then
          w.(ks := r.0, leases := MarkReleased(w.leases, token, w.now), tokens := w.tokens - {client})
        else w.(ks := r.0)
    case Tick(nanos) => w.(now := w.now + nanos)
    case SweepKeys(visited) => w.(ks := Exec(w.ks, w.now, Sweep(visited)).0)
    case Other(cmd) =>
      // any command of anyone else that leaves the lock's key alone
      var after := Exec(w.ks, w.now, cmd).0;
      if LiveSlot(after, w.now, name) == LiveSlot(w.ks, w.now, name) then w.(ks := after) else w
  }

  ghost predicate EndedBy(l: Lease, t: Time) {
    End(l).Some? && End(l).value <= t
  }

  /** Each lease ended before the next began, and no token was used twice. */
  ghost predicate History(leases: seq<Lease>, now: Time) {
    && (forall i, j :: 0 <= i < j < |leases| ==> EndedBy(leases[i], leases[j].start))
    && (forall i, j :: 0 <= i < j < |leases| ==> leases[i].token != leases[j].token)
    && (forall i :: 0 <= i < |leases| ==>
          leases[i].start <= now && (leases[i].released.Some? ==> leases[i].released.value <= now))
  }

  /** The key is live exactly while the last lease is. */
  ghost predicate KeyIsLast(slot: Slot, leases: seq<Lease>, now: Time) {
    match slot
    case Some(e) =>
      && leases != []
      && var last := leases[|leases| - 1];
         e == Entry(Str(last.token), last.until) && last.released.None?
    case None =>
      leases != [] ==> EndedBy(leases[|leases| - 1], now)
  }

  ghost predicate LockInv(w: World, name: Bytes) {
    History(w.leases, w.now) && KeyIsLast(LiveSlot(w.ks, w.now, name), w.leases, w.now)
  }

  lemma {:induction false} Append(leases: seq<Lease>, l: Lease, now: Time)
    requires History(leases, now) && KeyIsLast(None, leases, now)
    requires l.start == now && l.released.None? && forall i :: 0 <= i < |leases| ==> leases[i].token != l.token
    ensures History(leases + [l], now)
  {
  }

  /** SET NX writes exactly when no live key is there; a lease of zero length is over at once. */
  lemma {:induction false} SetNxEffect(ks: Keyspace, now: Time, name: Bytes, token: Bytes, ttl: Option<nat>)
    ensures var r := OnKey(ks, now, name, SetNx(token, ttl));
            var slot := LiveSlot(ks, now, name);
            && r.1 == Flag(slot.None?)
            && LiveSlot(r.0, now, name) ==
               if slot.Some? then slot
               else if ttl == Some(0) then None
               else Some(Entry(Str(token), if ttl.Some? then Some(now + ttl.value) else None))
  {
    PutLive(ks, now, name, Apply(SetNx(token, ttl), LiveSlot(ks, now, name), now).0, name);
  }

  lemma {:induction false} AcquireKeeps(w: World, name: Bytes, client: nat, token: Bytes, ttl: Option<nat>)
    requires LockInv(w, name)
    ensures LockInv(Step(w, name, TryAcquire(client, token, ttl)), name)
  {
    if FreshToken(w, token) {
      SetNxEffect(w.ks, w.now, name, token, ttl);
      if LiveSlot(w.ks, w.now, name).None? {
        Append(w.leases, Lease(token, w.now, if ttl.Some? then Some(w.now + ttl.value) else None, None), w.now);
      }
    }
  }

  lemma {:induction false} ReleaseScriptEffect(ks: Keyspace, now: Time, name: Bytes, token: Bytes)
    ensures var r := ReleaseScript(ks, now, name, token);
            var slot := LiveSlot(ks, now, name);
            var mine := slot.Some? && slot.value.value == Str(token);
            && r.1 == Int(if mine then 1 else 0)
            && LiveSlot(r.0, now, name) == if mine then None else slot
  {
    var slot := LiveSlot(ks, now, name);
    var got := OnKey(ks, now, name, OnString(Get));
    PutLive(ks, now, name, slot, name);
    assert LiveSlot(got.0, now, name) == slot;
    PutLive(got.0, now, name, None, name);
  }

  /** Marking the last lease released leaves the others alone and ends it now. */
  lemma {:induction false} MarkLast(leases: seq<Lease>, now: Time)
    requires History(leases, now) && leases != []
    ensures var marked := MarkReleased(leases, leases[|leases| - 1].token, now);
            History(marked, now) && KeyIsLast(None, marked, now)
  {
    var n := |leases| - 1;
    var marked := MarkReleased(leases, leases[n].token, now);
    assert forall i :: 0 <= i < n ==> marked[i] == leases[i];
    assert marked[n] == leases[n].(released := Some(now));
    forall i, j | 0 <= i < j < |marked|
      ensures EndedBy(marked[i], marked[j].start) && marked[i].token != marked[j].token {
      assert EndedBy(leases[i], leases[j].start) && leases[i].token != leases[j].token;
    }
  }

  lemma {:induction false} ReleaseKeeps(w: World, name: Bytes, client: nat)
    requires LockInv(w, name)
    ensures LockInv(Step(w, name, Release(client)), name)
  {
    if client in w.tokens {
      var r := ReleaseScript(w.ks, w.now, name, w.tokens[client]);
      ReleaseScriptEffect(w.ks, w.now, name, w.tokens[client]);
      ReleasedKeeps(LiveSlot(w.ks, w.now, name), w.leases, w.tokens[client], w.now);
      assert Step(w, name, Release(client)).ks == r.0;
    }
  }

  lemma {:induction false} ReleasedKeeps(slot: Slot, leases: seq<Lease>, token: Bytes, now: Time)
    requires History(leases, now) && KeyIsLast(slot, leases, now)
    ensures slot.Some? && slot.value.value == Str(token) ==>
              History(MarkReleased(leases, token, now), now) && KeyIsLast(None, MarkReleased(leases, token, now), now)
  {
    if slot.Some? && slot.value.value == Str(token) {
      MarkLast(leases, now);
    }
  }

  lemma {:induction false} TickKeeps(w: World, name: Bytes, nanos: nat)
    requires LockInv(w, name)
    ensures LockInv(Step(w, name, Tick(nanos)), name)
  {
  }

  lemma {:induction false} QuietKeeps(w: World, name: Bytes, ks: Keyspace)
    requires LockInv(w, name) && LiveSlot(ks, w.now, name) == LiveSlot(w.ks, w.now, name)
    ensures LockInv(w.(ks := ks), name)
  {
  }

  lemma {:induction false} StepKeeps(w: World, name: Bytes, m: Move)
    requires LockInv(w, name)
    ensures LockInv(Step(w, name, m), name)
  {
    match m
    case TryAcquire(client, token, ttl) => AcquireKeeps(w, name, client, token, ttl);
    case Release(client) => ReleaseKeeps(w, name, client);
    case Tick(nanos) => TickKeeps(w, name, nanos);
    case SweepKeys(visited) =>
      SweepInvisible(w.ks, w.now, visited);
      QuietKeeps(w, name, Exec(w.ks, w.now, Sweep(visited)).0);
    case Other(cmd) =>
      var after := Exec(w.ks, w.now, cmd).0;
      if LiveSlot(after, w.now, name) == LiveSlot(w.ks, w.now, name) {
        QuietKeeps(w, name, after);
      }
  }

  predicate Mentions(cmd: Command, key: Bytes) {
    match cmd
    case One(k, _) => k == key
    case Many(steps, _) => exists i :: 0 <= i < |steps| && steps[i].0 == key
    case Lmove(src, dst, _, _) => src == key || dst == key
    case ZRangeStore(dst, src, _, _) => src == key || dst == key
    case _ => false
  }

  /** Commands that do not name the lock's key leave it alone, sweeps included; so scripts made of them do. */
  lemma {:induction false} UnmentionedKeeps(ks: Keyspace, now: Time, cmd: Command, name: Bytes)
    requires !Mentions(cmd, name)
    ensures LiveSlot(Exec(ks, now, cmd).0, now, name) == LiveSlot(ks, now, name)
    decreases if cmd.Many? then |cmd.steps| else 0, 1
  {
    match cmd
    case One(key, op) => OnKeyLive(ks, now, key, op, name);
    case Many(steps, stop) => ManyKeep(ks, now, steps, stop, name);
    case Lmove(src, dst, from, to) => LmoveElsewhere(ks, now, src, dst, from, to, name);
    case ZRangeStore(dst, src, lo, hi) => StoreRangeElsewhere(ks, now, dst, src, lo, hi, name);
    case Keys(_) =>
    case Sweep(visited) => SweepInvisible(ks, now, visited);
  }

  lemma {:induction false} LmoveElsewhere(ks: Keyspace, now: Time, src: Bytes, dst: Bytes, from: ListEnd, to: ListEnd,
                                          name: Bytes)
    requires src != name && dst != name
    ensures LiveSlot(LmoveResult(ks, now, src, dst, from, to).0, now, name) == LiveSlot(ks, now, name)
  {
  }

  lemma {:induction false} StoreRangeElsewhere(ks: Keyspace, now: Time, dst: Bytes, src: Bytes, lo: ScoreBound,
                                               hi: ScoreBound, name: Bytes)
    requires src != name && dst != name
    ensures LiveSlot(StoreRangeResult(ks, now, dst, src, lo, hi).0, now, name) == LiveSlot(ks, now, name)
  {
  }

  lemma {:induction false} ManyKeep(ks: Keyspace, now: Time, steps: seq<(Bytes, KeyOp)>, stop: Stop, name: Bytes)
    requires forall i :: 0 <= i < |steps| ==> steps[i].0 != name
    ensures LiveSlot(RunMany(ks, now, steps, stop).0, now, name) == LiveSlot(ks, now, name)
    decreases |steps|, 0
  {
    if steps != [] {
      UnmentionedKeeps(ks, now, One(steps[0].0, steps[0].1), name);
      ManyKeep(OnKey(ks, now, steps[0].0, steps[0].1).0, now, steps[1..], stop, name);
    }
  }

  ghost function Run(w: World, name: Bytes, moves: seq<Move>): World
    decreases |moves|
  {
    if moves == [] then w else Run(Step(w, name, moves[0]), name, moves[1..])
  }

  lemma {:induction false} RunKeeps(w: World, name: Bytes, moves: seq<Move>)
    requires LockInv(w, name)
    ensures LockInv(Run(w, name, moves), name)
    decreases |moves|
  {
    if moves != [] {
      StepKeeps(w, name, moves[0]);
      RunKeeps(Step(w, name, moves[0]), name, moves[1..]);
    }
  }

  /** In every interleaving, the lease intervals of different acquisitions never overlap. */
  lemma {:induction false} LeasesNeverOverlap(ks: Keyspace, now: Time, name: Bytes, moves: seq<Move>, i: nat, j: nat,
                                              t: Time)
    requires LiveSlot(ks, now, name).None?
    requires var w := Run(World(ks, now, [], map[]), name, moves); i < |w.leases| && j < |w.leases| && i != j
    ensures var w := Run(World(ks, now, [], map[]), name, moves); !(Active(w.leases[i], t) && Active(w.leases[j], t))
  {
    RunKeeps(World(ks, now, [], map[]), name, moves);
    var w := Run(World(ks, now, [], map[]), name, moves);
    var a, b := if i < j then i else j, if i < j then j else i;
    assert EndedBy(w.leases[a], w.leases[b].start);
  }

  /**
   A release only ever ends the lease taken with its own token: if that lease is no longer the one in force,
   every lease and the key itself stay as they are.
   */
  lemma {:induction false} StaleReleaseHarmless(w: World, name: Bytes, client: nat)
    requires LockInv(w, name) && client in w.tokens
    requires w.leases == [] || w.leases[|w.leases| - 1].token != w.tokens[client] ||
             !Active(w.leases[|w.leases| - 1], w.now)
    ensures var w' := Step(w, name, Release(client));
            w'.leases == w.leases && LiveSlot(w'.ks, w.now, name) == LiveSlot(w.ks, w.now, name)
  {
    ReleaseScriptEffect(w.ks, w.now, name, w.tokens[client]);
  }

  /** And the holder's own release ends its lease at once, so the next attempt succeeds. */
  lemma {:induction false} HolderReleaseFrees(w: World, name: Bytes, client: nat, next: nat, token: Bytes,
                                              ttl: Option<nat>)
    requires LockInv(w, name) && client in w.tokens && w.leases != []
    requires w.leases[|w.leases| - 1].token == w.tokens[client] && LiveSlot(w.ks, w.now, name).Some?
    requires FreshToken(w, token)
    ensures var w1 := Step(w, name, Release(client));
            var w2 := Step(w1, name, TryAcquire(next, token, ttl));
            && EndedBy(w1.leases[|w.leases| - 1], w.now)
            && |w2.leases| == |w.leases| + 1 && w2.leases[|w.leases|].token == token
  {
    ReleaseScriptEffect(w.ks, w.now, name, w.tokens[client]);
    var w1 := Step(w, name, Release(client));
    assert FreshToken(w1, token) by {
      assert w1.tokens == w.tokens - {client};
    }
  }
}
