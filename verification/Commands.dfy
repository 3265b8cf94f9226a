/**
 The keyspace and its commands. A single-key command looks at the live slot of its key, treats an
 expired entry as absent, and leaves a new slot and a reply; multi-key commands are sequences of
 those, apart from LMOVE, ZRANGESTORE and KEYS.
 */
module Commands {
  import opened Prelude
  import opened Ordering
  import opened Values
  import opened Lists
  import opened SortedSets
  import opened Groups
  import opened Autoclaim
  import opened Streams
  import Decimal
  import Glob

  // ----- expiry -----

  predicate Expired(e: Entry, now: Time) {
    e.expiresAt.Some? && now >= e.expiresAt.value
  }

  type Slot = Option<Entry>

  /** What a command sees at `key`: an expired entry is absent. */
  function LiveSlot(ks: Keyspace, now: Time, key: Bytes): Slot {
    if key in ks && !Expired(ks[key], now) then Some(ks[key]) else None
  }

  function Put(ks: Keyspace, key: Bytes, slot: Slot): Keyspace {
    match slot
    case None => ks - {key}
    case Some(e) => ks[key := e]
  }

  /** The passive-expiration prologue. */
  function Purge(ks: Keyspace, now: Time, key: Bytes): Keyspace {
    if key in ks && Expired(ks[key], now) then ks - {key} else ks
  }

  // ----- operations on one key -----

  datatype AnyOp =
    | Delete
    | Exists
    | Ttl
    | ExpireIn(nanos: int)

  datatype StringOp =
    | Get
    | MGet
    | Set(value: Bytes, ttl: Option<nat>, nx: bool, xx: bool)

  datatype HashOp =
    | HSet(pairs: seq<(Bytes, Bytes)>)
    | HGet(field: Bytes)
    | HDel(fields: seq<Bytes>)
    | HIncrBy(field: Bytes, increment: i64)

  datatype SetOp =
    | SAdd(members: seq<Bytes>)
    | SRem(members: seq<Bytes>)
    | SIsMember(member: Bytes)

  datatype ListOp =
    | PushOp(values: seq<Bytes>, end: ListEnd)
    | PopOp(count: Option<nat>, end: ListEnd)
    | PollOp(end: ListEnd)
    | LLen
    | LIndex(index: i64)
    | LRange(start: i64, stop: i64)
    | LRem(howMany: i64, value: Bytes)
    | LSet(index: i64, value: Bytes)
    | LTrim(start: i64, stop: i64)
    | LInsert(where: InsertPosition, pivot: Bytes, value: Bytes)

  datatype ZsetOp =
    | ZAdd(items: seq<ZKey>, flags: ZaddFlags)
    | ZRem(members: seq<Bytes>)
    | ZRange(start: i64, stop: i64)
    | ZRangeByScore(lo: ScoreBound, hi: ScoreBound)
    | ZRemRange(lo: ScoreBound, hi: ScoreBound)
    | ZCard
    | ZScore(member: Bytes)
    | ZCount(lo: ScoreBound, hi: ScoreBound)

  datatype StreamOp =
    | XAdd(fields: Fields, explicit: Option<StreamId>, ms: u64)
    | XRead(from: StreamId, count: Option<nat>)
    | XRange(min: StreamId, max: StreamId, count: Option<nat>)
    | XLen
    | XTrim(maxLen: Option<nat>, minId: Option<StreamId>)
    | XDel(ids: seq<StreamId>)
    | XGroupCreate(group: Bytes, id: StreamId, mkstream: bool)
    | XGroupDestroy(group: Bytes)
    | XReadNew(group: Bytes, consumer: Bytes, count: Option<nat>)
    | XReadHistory(group: Bytes, consumer: Bytes, from: StreamId, count: Option<nat>)
    | XAck(group: Bytes, ids: seq<StreamId>, hints: seq<Bytes>)
    | XClaim(group: Bytes, ids: seq<StreamId>, args: ClaimArgs, hints: seq<Bytes>)
    | XAutoclaim(group: Bytes, target: Bytes, minIdle: Time, start: StreamId, count: Option<nat>, order: seq<Bytes>)

  datatype KeyOp =
    | OnAny(any: AnyOp)
    | OnString(str: StringOp)
    | OnHash(hash: HashOp)
    | OnMembers(set_: SetOp)
    | OnList(list: ListOp)
    | OnZset(zset: ZsetOp)
    | OnStream(stream: StreamOp)

  datatype Reply =
    | Nil
    | Okay
    | Flag(b: bool)
    | Int(n: int)
    | Bulk(bytes: Bytes)
    | Array(items: seq<Bytes>)
    | Scored(keys: seq<ZKey>)
    | ScoreOfMember(score: Score)
    | Id(id: StreamId)
    | Entries(entries: seq<(StreamId, Fields)>)
    | Claimed(claimed: seq<ClaimedItem>)
    | AutoClaimed(next: StreamId, taken: seq<(StreamId, Fields)>, deleted: seq<StreamId>)
    | KeySet(keySet: set<Bytes>)
    | Multi(replies: seq<Reply>)
    | Fail(error: Error)

  /** The fields, members or elements a container holds. */
  function Contents(v: Value): set<Bytes> {
    match v
    case Hash(m) => m.Keys
    case Members(s) => s
    case SortedSet(z) => z.byMember.Keys
    case List(l) => Elems(l)
    case _ => {}
  }

  /** A hash, set, sorted set or list with nothing in it; strings and streams do not count. */
  predicate EmptyContainer(v: Value) {
    !v.Str? && !v.Log? && Contents(v) == {}
  }

  /** `remove_if_empty`: an emptied container goes with its key. */
  function DropIfEmpty(slot: Slot): Slot {
    if slot.Some? && EmptyContainer(slot.value.value) then None else slot
  }

  function Keep(e: Entry, v: Value): Slot {
    Some(e.(value := v))
  }

  function ApplyAny(op: AnyOp, slot: Slot, now: Time): (Slot, Reply) {
    match op
    case Delete => (None, Int(if slot.Some? then 1 else 0))
    case Exists => (slot, Int(if slot.Some? then 1 else 0))
    case Ttl =>
      (slot, Int(if slot.None? then -2
                 else if slot.value.expiresAt.None? then -1
                 else (slot.value.expiresAt.value - now) / NANOS_PER_SEC))
    case ExpireIn(nanos) =>
      if slot.None? then (None, Flag(false))
      else if nanos <= 0 then (None, Flag(true))
      else (Some(slot.value.(expiresAt := Some(now + nanos))), Flag(true))
  }

  function ApplyString(op: StringOp, slot: Slot, now: Time): (Slot, Reply) {
    match op
    case Get =>
      (slot, if slot.None? then Nil
             else if slot.value.value.Str? then Bulk(slot.value.value.bytes)
             else Fail(WrongType))
    case MGet =>
      (slot, if slot.Some? && slot.value.value.Str? then Bulk(slot.value.value.bytes) else Nil)
    case Set(value, ttl, nx, xx) =>
      if (nx && slot.Some?) || (xx && slot.None?) then (slot, Flag(false))
      else (Some(Entry(Str(value), if ttl.Some? then Some(now + ttl.value) else None)), Flag(true))
  }

  function SetFields(m: Fields, pairs: seq<(Bytes, Bytes)>): Fields {
    if pairs == [] then m else SetFields(m, pairs[..|pairs| - 1])[pairs[|pairs| - 1].0 := pairs[|pairs| - 1].1]
  }

  function ApplyHash(op: HashOp, slot: Slot): (Slot, Reply) {
    match op
    case HSet(pairs) =>
      var e := if slot.Some? then slot.value else Entry(Hash(map[]), None);
      if !e.value.Hash? then (slot, Fail(WrongType))
      else
        var m := SetFields(e.value.fields, pairs);
        (Keep(e, Hash(m)), Int(|m| - |e.value.fields|))
    case HGet(field) =>
      (slot, if slot.None? then Nil
             else if !slot.value.value.Hash? then Fail(WrongType)
             else if field in slot.value.value.fields then Bulk(slot.value.value.fields[field]) else Nil)
    case HDel(fields) =>
      if slot.None? then (None, Int(0))
      else if !slot.value.value.Hash? then (DropIfEmpty(slot), Fail(WrongType))
      else
        var m := slot.value.value.fields - Elems(fields);
        (DropIfEmpty(Keep(slot.value, Hash(m))), Int(|slot.value.value.fields| - |m|))
    case HIncrBy(field, increment) =>
      var e := if slot.Some? then slot.value else Entry(Hash(map[]), None);
      if !e.value.Hash? then (slot, Fail(WrongType))
      else
        var m := e.value.fields;
        match Decimal.HincrValue(if field in m then Some(m[field]) else None, increment)
        case Stored(n) => (Keep(e, Hash(m[field := Decimal.PrintInt(n)])), Int(n))
        case NotInteger => (Some(e), Fail(NotAnInteger))
        case Overflow => (Some(e), Fail(WouldOverflow))
  }

  function ApplySet(op: SetOp, slot: Slot): (Slot, Reply) {
    match op
    case SAdd(members) =>
      var e := if slot.Some? then slot.value else Entry(Members({}), None);
      if !e.value.Members? then (slot, Fail(WrongType))
      else
        var s := e.value.members + Elems(members);
        (Keep(e, Members(s)), Int(|s| - |e.value.members|))
    case SRem(members) =>
      if slot.None? then (None, Int(0))
      else if !slot.value.value.Members? then (DropIfEmpty(slot), Fail(WrongType))
      else
        var s := slot.value.value.members - Elems(members);
        (DropIfEmpty(Keep(slot.value, Members(s))), Int(|slot.value.value.members| - |s|))
    case SIsMember(member) =>
      (slot, if slot.None? then Flag(false)
             else if !slot.value.value.Members? then Fail(WrongType)
             else Flag(member in slot.value.value.members))
  }

  /** A list that became empty takes its key with it. */
  function KeepList(e: Entry, items: seq<Bytes>): Slot {
    if items == [] then None else Keep(e, List(items))
  }

  function RealIndex(index: i64, len: nat): int {
    if index < 0 then index + len else index
  }

  /** The position of the first occurrence of `v`, or the length. */
  function FirstIndex(s: seq<Bytes>, v: Bytes): (i: nat)
    ensures i <= |s|
    ensures i < |s| ==> s[i] == v
    ensures forall k :: 0 <= k < i ==> s[k] != v
  {
    if s == [] || s[0] == v then 0 else 1 + FirstIndex(s[1..], v)
  }

  function ApplyList(op: ListOp, slot: Slot): (Slot, Reply) {
    if op.PushOp? then
      var e := if slot.Some? then slot.value else Entry(List([]), None);
      if op.values == [] then (slot, Fail(WrongArity))
      else if !e.value.List? then (slot, Fail(WrongType))
      else
        var items := PushAll(e.value.items, op.values, op.end);
        (Keep(e, List(items)), Int(|items|))
    else if slot.None? then
      (None, match op
             case LLen => Int(0)
             case LRange(_, _) => Array([])
             case LRem(_, _) => Int(0)
             case LSet(_, _) => Fail(NoSuchKey)
             case LTrim(_, _) => Okay
             case LInsert(_, _, _) => Int(0)
             case _ => Nil)
    else if !slot.value.value.List? then (slot, Fail(WrongType))
    else ApplyListValue(op, slot.value, slot.value.value.items)
  }

  /** List commands other than a push, on a key that holds a list. */
  function ApplyListValue(op: ListOp, e: Entry, items: seq<Bytes>): (Slot, Reply)
    requires e.value == List(items)
  {
    match op
    case PushOp(_, _) => (Some(e), Nil)
    case PopOp(count, end) =>
      if count == Some(0) then (Some(e), Array([]))
      else if count.None? then
        if items == [] then (None, Nil) else (KeepList(e, Pop(items, end)), Bulk(Peek(items, end)))
      else
        var r := PopMany(items, count.value, end);
        (KeepList(e, r.1), Array(r.0))
    case PollOp(end) =>
      if items == [] then (Some(e), Nil) else (KeepList(e, Pop(items, end)), Bulk(Peek(items, end)))
    case LLen => (Some(e), Int(|items|))
    case LIndex(index) =>
      var i := RealIndex(index, |items|);
      (Some(e), if 0 <= i < |items| then Bulk(items[i]) else Nil)
    case LRange(start, stop) => (Some(e), Array(Slice(items, start, stop)))
    case LRem(count, value) =>
      var rest := Lrem(items, value, count);
      (KeepList(e, rest), Int(|items| - |rest|))
    case LSet(index, value) =>
      var i := RealIndex(index, |items|);
      if 0 <= i < |items| then (Keep(e, List(items[i := value])), Okay) else (Some(e), Fail(IndexOutOfRange))
    case LTrim(start, stop) => (KeepList(e, Slice(items, start, stop)), Okay)
    case LInsert(where, pivot, value) =>
      var p := FirstIndex(items, pivot);
      if p == |items| then (Some(e), Int(-1))
      else
        var at := if where.Before? then p else p + 1;
        (Keep(e, List(items[..at] + [value] + items[at..])), Int(|items| + 1))
  }

  function ApplyZset(op: ZsetOp, slot: Slot): (Slot, Reply) {
    if op.ZAdd? then
      var e := if slot.Some? then slot.value else Entry(SortedSet(EMPTY_ZSET), None);
      if !e.value.SortedSet? then (DropIfEmpty(slot), Fail(WrongType))
      else
        var z := e.value.zset;
        (DropIfEmpty(Keep(e, SortedSet(ZaddAll(z, op.items, op.flags)))), Int(ZaddReply(z, op.items, op.flags)))
    else if slot.None? then
      (None, match op
             case ZRange(_, _) => Scored([])
             case ZRangeByScore(_, _) => Scored([])
             case ZScore(_) => Nil
             case _ => Int(0))
    else if !slot.value.value.SortedSet? then
      (if op.ZRem? || op.ZRemRange? then DropIfEmpty(slot) else slot, Fail(WrongType))
    else ApplyZsetValue(op, slot.value, slot.value.value.zset)
  }

  function RangeByIndex(z: Zset, start: i64, stop: i64): seq<ZKey> {
    var keys := SortedKeys(z.byScore);
    match NormalizeRange(start, stop, |z.byMember|)
    case None => []
    case Some((s, e)) =>
      if s >= |keys| then [] else if e >= |keys| then keys[s..] else if s <= e then keys[s..e + 1] else []
  }

  function ApplyZsetValue(op: ZsetOp, e: Entry, z: Zset): (Slot, Reply)
    requires e.value == SortedSet(z)
  {
    match op
    case ZAdd(_, _) => (Some(e), Nil)
    case ZRem(members) =>
      var z' := RemoveAll(z, members);
      (DropIfEmpty(Keep(e, SortedSet(z'))), Int(|z.byMember| - |z'.byMember|))
    case ZRange(start, stop) => (Some(e), Scored(RangeByIndex(z, start, stop)))
    case ZRangeByScore(lo, hi) => (Some(e), Scored(RangeByScore(z, lo, hi)))
    case ZRemRange(lo, hi) =>
      (DropIfEmpty(Keep(e, SortedSet(RemoveRange(z, lo, hi)))), Int(|RangeByScore(z, lo, hi)|))
    case ZCard => (Some(e), Int(|z.byMember|))
    case ZScore(member) => (Some(e), if member in z.byMember then ScoreOfMember(z.byMember[member]) else Nil)
    case ZCount(lo, hi) => (Some(e), Int(|RangeByScore(z, lo, hi)|))
  }

  function EntriesAt(entries: map<StreamId, Fields>, ids: seq<StreamId>): seq<(StreamId, Fields)> {
    ClaimedEntries(entries, ids)
  }

  ghost function ApplyStream(op: StreamOp, slot: Slot, now: Time): (Slot, Reply) {
    if op.XAdd? then
      var e := if slot.Some? then slot.value else Entry(Log(EMPTY_STREAM), None);
      if !e.value.Log? then (slot, Fail(WrongType))
      else
        var s := e.value.stream;
        // the code reuses WRONGTYPE for an id that is too small; a stream just created stays behind, empty
        (Keep(e, Log(Added(s, op.fields, op.explicit, op.ms))),
         if NextId(s, op.explicit, op.ms).Some? then Id(NextId(s, op.explicit, op.ms).value) else Fail(WrongType))
    else if op.XGroupCreate? then
      if slot.None? && !op.mkstream then (None, Fail(KeyNotFound))
      else
        var e := if slot.Some? then slot.value else Entry(Log(EMPTY_STREAM), None);
        if !e.value.Log? then (slot, Fail(WrongType))
        else
          (Keep(e, Log(CreatedGroup(e.value.stream, op.group, op.id))),
           if op.group in e.value.stream.groups then Fail(BusyGroup) else Okay)
    else if slot.None? then
      (None, match op
             case XRead(_, _) => Entries([])
             case XRange(_, _, _) => Entries([])
             case XLen => Int(0)
             case XTrim(_, _) => Int(0)
             case XDel(_) => Int(0)
             case XGroupDestroy(_) => Flag(false)
             case XAck(_, _, _) => Int(0)
             case _ => Fail(NoGroup))
    else if !slot.value.value.Log? then (slot, Fail(WrongType))
    else
      var r := ApplyStreamValue(op, slot.value.value.stream, now);
      (Keep(slot.value, Log(r.0)), r.1)
  }

  /** Stream commands on a key that holds a stream. */
  ghost function ApplyStreamValue(op: StreamOp, s: Stream, now: Time): (Stream, Reply) {
    match op
    case XAdd(_, _, _) => (s, Nil)
    case XGroupCreate(_, _, _) => (s, Nil)
    case XRead(from, count) =>
      (s, Entries(EntriesAt(s.entries, Take(SortedIds(set id | id in s.entries && IdLess(from, id)), count))))
    case XRange(min, max, count) =>
      var ids := set id | id in s.entries && IdLeq(min, id) && IdLeq(id, max);
      (s, Entries(EntriesAt(s.entries, Take(SortedIds(ids), count))))
    case XLen => (s, Int(|s.entries|))
    case XTrim(maxLen, minId) => (Trimmed(s, maxLen, minId), Int(|s.entries| - |Trimmed(s, maxLen, minId).entries|))
    case XDel(ids) => (Deleted(s, ids), Int(|s.entries| - |Deleted(s, ids).entries|))
    case XGroupDestroy(group) => (s.(groups := s.groups - {group}), Flag(group in s.groups))
    case _ =>
      if op.group !in s.groups then (s, if op.XAck? then Int(0) else Fail(NoGroup))
      else
        var r := ApplyGroup(op, s, s.groups[op.group], now);
        (WithGroup(s, op.group, r.0), r.1)
  }

  ghost function ApplyGroup(op: StreamOp, s: Stream, g: Group, now: Time): (Group, Reply) {
    match op
    case XReadNew(_, consumer, count) =>
      var ids := NewIds(s.entries, g, count);
      (Delivered(g, ids, consumer, now), Entries(EntriesAt(s.entries, ids)))
    case XReadHistory(_, consumer, from, count) =>
      (g, Entries(EntriesAt(s.entries, Take(SortedIds(set id | id in PelOf(g, consumer) && IdLeq(from, id)), count))))
    case XAck(_, ids, hints) => (AckAll(g, ids, hints), Int(|Acked(g, ids, hints)|))
    case XClaim(_, ids, args, hints) =>
      (ClaimAll(s.entries, g, ids, args, now, hints), Claimed(ClaimReply(s.entries, g, ids, args, now, hints)))
    case XAutoclaim(_, target, minIdle, start, count, order) =>
      var p := AutoPage(g, target, minIdle, start, count, now, order);
      (p.group, AutoClaimed(p.next, ClaimedEntries(s.entries, IdsOf(p.taken)), DeletedIds(s.entries, IdsOf(p.taken))))
    case _ => (g, Nil)
  }

  ghost function Apply(op: KeyOp, slot: Slot, now: Time): (Slot, Reply) {
    match op
    case OnAny(a) => ApplyAny(a, slot, now)
    case OnString(s) => ApplyString(s, slot, now)
    case OnHash(h) => ApplyHash(h, slot)
    case OnMembers(m) => ApplySet(m, slot)
    case OnList(l) => ApplyList(l, slot)
    case OnZset(z) => ApplyZset(z, slot)
    case OnStream(x) => ApplyStream(x, slot, now)
  }

  /** Commands that run no passive expiration: they leave a stale entry in the map unless they overwrite it. */
  predicate KeepsStale(op: KeyOp) {
    || op == OnAny(Exists)
    || op == OnString(MGet)
    || (op.OnString? && op.str.Set?)
    || (op.OnList? && op.list.PushOp? && op.list.values == [])
  }

  ghost function OnKey(ks: Keyspace, now: Time, key: Bytes, op: KeyOp): (Keyspace, Reply) {
    var slot := LiveSlot(ks, now, key);
    var r := Apply(op, slot, now);
    (if KeepsStale(op) && r.0 == slot then ks else Put(ks, key, r.0), r.1)
  }

  // ----- commands -----

  /** When a multi-key command stops early. */
  datatype Stop = Never | AtError | AtHit

  predicate Stops(stop: Stop, r: Reply) {
    match stop
    case Never => false
    case AtError => r.Fail?
    case AtHit => !r.Nil?
  }

  /**
   `Many` covers DEL, EXISTS, MGET (never stop), XREAD and XREADGROUP (stop at an error) and the
   BLPOP/BRPOP poll (stop at an error or the first element found).
   */
  datatype Command =
    | One(key: Bytes, op: KeyOp)
    | Many(steps: seq<(Bytes, KeyOp)>, stop: Stop)
    | Lmove(src: Bytes, dst: Bytes, from: ListEnd, to: ListEnd)
    | ZRangeStore(dst: Bytes, src: Bytes, lo: ScoreBound, hi: ScoreBound)
    | Keys(pattern: Bytes)
    | Sweep(visited: set<Bytes>)

  ghost function RunMany(ks: Keyspace, now: Time, steps: seq<(Bytes, KeyOp)>, stop: Stop): (Keyspace, seq<Reply>)
    decreases |steps|
  {
    if steps == [] then (ks, [])
    else
      var first := OnKey(ks, now, steps[0].0, steps[0].1);
      if Stops(stop, first.1) then (first.0, [first.1])
      else
        var rest := RunMany(first.0, now, steps[1..], stop);
        (rest.0, [first.1] + rest.1)
  }

  predicate HoldsList(slot: Slot) {
    slot.Some? && slot.value.value.List?
  }

  function ItemsOf(slot: Slot): seq<Bytes> {
    if HoldsList(slot) then slot.value.value.items else []
  }

  /** Whether LMOVE moves an element, and if not which reply it gives. */
  function LmoveRefusal(ks: Keyspace, now: Time, src: Bytes, dst: Bytes): Option<Reply> {
    var s, d := LiveSlot(ks, now, src), LiveSlot(ks, now, dst);
    if s.None? then Some(Nil)
    else if !HoldsList(s) then Some(Fail(WrongType))
    else if ItemsOf(s) == [] then Some(Nil)
    else if src != dst && d.Some? && !HoldsList(d) then Some(Fail(WrongType))
    else None
  }

  function PurgeBoth(ks: Keyspace, now: Time, src: Bytes, dst: Bytes): Keyspace {
    Purge(Purge(ks, now, src), now, dst)
  }

  function LmoveEffect(ks: Keyspace, now: Time, src: Bytes, dst: Bytes, from: ListEnd, to: ListEnd): Keyspace
    requires LmoveRefusal(ks, now, src, dst).None?
  {
    var clean := PurgeBoth(ks, now, src, dst);
    var items := ks[src].value.items;
    var v := Peek(items, from);
    if src == dst then clean[src := ks[src].(value := List(Push(Pop(items, from), v, to)))]
    else
      var popped := Put(clean, src, KeepList(ks[src], Pop(items, from)));
      var d := LiveSlot(ks, now, dst);
      var e := if d.Some? then d.value else Entry(List([]), None);
      popped[dst := e.(value := List(Push(ItemsOf(d), v, to)))]
  }

  function LmoveResult(ks: Keyspace, now: Time, src: Bytes, dst: Bytes, from: ListEnd, to: ListEnd): (Keyspace, Reply) {
    var refused := LmoveRefusal(ks, now, src, dst);
    if refused.Some? then (PurgeBoth(ks, now, src, dst), refused.value)
    else (LmoveEffect(ks, now, src, dst, from, to), Bulk(Peek(ks[src].value.items, from)))
  }

  function StoreRangeResult(ks: Keyspace, now: Time, dst: Bytes, src: Bytes, lo: ScoreBound, hi: ScoreBound): (Keyspace,
                            Reply) {
    var s := LiveSlot(ks, now, src);
    var clean := Purge(ks, now, src);
    if s.Some? && !s.value.value.SortedSet? then (clean, Fail(WrongType))
    else
      var keys := if s.None? then [] else RangeByScore(s.value.value.zset, lo, hi);
      if keys == [] then (clean - {dst}, Int(0))
      else (clean[dst := Entry(SortedSet(StoreRange(s.value.value.zset, lo, hi)), None)], Int(|keys|))
  }

  function ExpiredKeys(ks: Keyspace, now: Time): set<Bytes> {
    set k | k in ks && Expired(ks[k], now)
  }

  /** What a command does to the map, and the outcome of each of its steps. */
  ghost function Perform(ks: Keyspace, now: Time, cmd: Command): (Keyspace, Reply) {
    match cmd
    case One(key, op) => OnKey(ks, now, key, op)
    case Many(steps, stop) => var r := RunMany(ks, now, steps, stop); (r.0, Multi(r.1))
    case Lmove(src, dst, from, to) => LmoveResult(ks, now, src, dst, from, to)
    case ZRangeStore(dst, src, lo, hi) => StoreRangeResult(ks, now, dst, src, lo, hi)
    case Keys(pattern) => (ks, KeySet(set k | k in ks && !Expired(ks[k], now) && Glob.Matches(pattern, k)))
    case Sweep(visited) => (ks - (visited * ExpiredKeys(ks, now)), Int(|visited * ExpiredKeys(ks, now)|))
  }

  /** A batch that stops at errors stopped at one. */
  predicate EndsInError(stop: Stop, rs: seq<Reply>) {
    !stop.Never? && rs != [] && rs[|rs| - 1].Fail?
  }

  /** The reply to the client: a batch that stopped at an error answers the error alone. */
  function Answer(cmd: Command, r: Reply): Reply {
    if cmd.Many? && r.Multi? && EndsInError(cmd.stop, r.replies) then r.replies[|r.replies| - 1] else r
  }

  /** A command: the map it leaves and the reply its client gets. */
  ghost function Exec(ks: Keyspace, now: Time, cmd: Command): (Keyspace, Reply) {
    var r := Perform(ks, now, cmd);
    (r.0, Answer(cmd, r.1))
  }
}
