/**
 Snapshots: the persistable form of the store, saving (which enumerates HashMaps in any order and drops
 expired keys) and loading (which re-inserts everything).
 */
module Snapshot {
  import opened Prelude
  import opened Ordering
  import opened Values
  import opened SortedSets
  import opened Groups
  import opened Commands
  import opened Expiry

  // ----- the persistable form -----

  type SavedFields = seq<(Bytes, Bytes)>
  type SavedPel = seq<(StreamId, u64)>
  datatype SavedGroup = SavedGroup(lastDelivered: StreamId, consumers: seq<(Bytes, SavedPel)>)
  datatype SavedStream = SavedStream(entries: seq<(StreamId, SavedFields)>, lastId: StreamId,
                                     groups: seq<(Bytes, SavedGroup)>)

  datatype SavedValue =
    | SavedStr(bytes: Bytes)
    | SavedHash(fields: SavedFields)
    | SavedMembers(members: seq<Bytes>)
    | SavedZset(keys: seq<ZKey>)
    | SavedLog(stream: SavedStream)
    | SavedList(items: seq<Bytes>)

  datatype SavedEntry = SavedEntry(value: SavedValue, ttlMs: Option<nat>)

  datatype SavedStore = SavedStore(entries: seq<(Bytes, SavedEntry)>, scripts: seq<(Bytes, Bytes)>)

  // ----- lists of pairs and maps -----

  ghost predicate DistinctKeys<K, V>(s: seq<(K, V)>) {
    forall i, j :: 0 <= i < j < |s| ==> s[i].0 != s[j].0
  }

  /** `s` lists each key of `keys` exactly once, in some order. */
  ghost predicate ListsKeys<K, V>(s: seq<(K, V)>, keys: set<K>) {
    && DistinctKeys(s)
    && (forall i :: 0 <= i < |s| ==> s[i].0 in keys)
    && (forall k :: k in keys ==> exists i :: 0 <= i < |s| && s[i].0 == k)
  }

  ghost predicate Enumerates<K, V>(s: seq<(K, V)>, m: map<K, V>) {
    ListsKeys(s, m.Keys) && forall i :: 0 <= i < |s| ==> s[i].1 == m[s[i].0]
  }

  /** Collecting pairs into a map: a later pair wins. */
  function FromPairs<K, V>(s: seq<(K, V)>): map<K, V> {
    if s == [] then map[] else FromPairs(s[..|s| - 1])[s[|s| - 1].0 := s[|s| - 1].1]
  }

  function MapValues<K, V, W>(s: seq<(K, V)>, f: V -> W): (r: seq<(K, W)>)
    ensures |r| == |s|
    ensures forall i :: 0 <= i < |s| ==> r[i] == (s[i].0, f(s[i].1))
  {
    seq(|s|, i requires 0 <= i < |s| => (s[i].0, f(s[i].1)))
  }

  lemma {:induction false} FromPairsLookup<K, V>(s: seq<(K, V)>)
    requires DistinctKeys(s)
    ensures forall i :: 0 <= i < |s| ==> s[i].0 in FromPairs(s) && FromPairs(s)[s[i].0] == s[i].1
    ensures forall k :: k in FromPairs(s) ==> exists i :: 0 <= i < |s| && s[i].0 == k
  {
    if s != [] {
      var init := s[..|s| - 1];
      FromPairsLookup(init);
      var m := FromPairs(s);
      forall i | 0 <= i < |s| ensures s[i].0 in m && m[s[i].0] == s[i].1 {
        if i < |init| { assert init[i] == s[i]; }
      }
      forall k | k in m ensures exists i :: 0 <= i < |s| && s[i].0 == k {
        if k in FromPairs(init) {
          var i :| 0 <= i < |init| && init[i].0 == k;
          assert s[i].0 == k;
        } else {
          assert s[|s| - 1].0 == k;
        }
      }
    }
  }

  lemma {:induction false} EnumerationLoads<K, V>(s: seq<(K, V)>, m: map<K, V>)
    requires Enumerates(s, m)
    ensures FromPairs(s) == m
  {
    FromPairsLookup(s);
    var r := FromPairs(s);
    forall k | k in m ensures k in r && r[k] == m[k] {
      var i :| 0 <= i < |s| && s[i].0 == k;
    }
    forall k | k in r ensures k in m {
      var i :| 0 <= i < |s| && s[i].0 == k;
    }
  }

  /** Loading an enumeration entry by entry gives the map of loaded values, whatever the order. */
  lemma {:induction false} LoadsTo<K, V, W>(s: seq<(K, V)>, f: V -> W, want: map<K, W>)
    requires ListsKeys(s, want.Keys)
    requires forall i :: 0 <= i < |s| ==> f(s[i].1) == want[s[i].0]
    ensures FromPairs(MapValues(s, f)) == want
  {
    var pairs := MapValues(s, f);
    assert ListsKeys(pairs, want.Keys) by {
      forall k | k in want ensures exists i :: 0 <= i < |pairs| && pairs[i].0 == k {
        var i :| 0 <= i < |s| && s[i].0 == k;
        assert pairs[i].0 == k;
      }
    }
    EnumerationLoads(pairs, want);
  }

  // ----- which saved forms represent a value -----

  function CountsIn(pel: Pel): map<StreamId, u64> {
    map id | id in pel :: pel[id].deliveryCount
  }

  ghost predicate RepGroup(p: SavedGroup, g: Group) {
    && p.lastDelivered == g.lastDelivered
    && ListsKeys(p.consumers, g.consumers.Keys)
    && forall i :: 0 <= i < |p.consumers| ==> Enumerates(p.consumers[i].1, CountsIn(g.consumers[p.consumers[i].0]))
  }

  ghost predicate RepStream(p: SavedStream, s: Stream) {
    && p.lastId == s.lastId
    && ListsKeys(p.entries, s.entries.Keys)
    && (forall i :: 0 <= i < |p.entries| ==> Enumerates(p.entries[i].1, s.entries[p.entries[i].0]))
    && ListsKeys(p.groups, s.groups.Keys)
    && (forall i :: 0 <= i < |p.groups| ==> RepGroup(p.groups[i].1, s.groups[p.groups[i].0]))
  }

  /** Saved pairs of the member index, each member once. */
  ghost predicate RepZset(keys: seq<ZKey>, z: Zset) {
    && Elems(keys) == KeysOf(z.byMember)
    && forall i, j :: 0 <= i < j < |keys| ==> keys[i].member != keys[j].member
  }

  ghost predicate RepValue(p: SavedValue, v: Value) {
    match v
    case Str(b) => p == SavedStr(b)
    case Hash(m) => p.SavedHash? && Enumerates(p.fields, m)
    case Members(s) => p.SavedMembers? && Elems(p.members) == s
    case SortedSet(z) => p.SavedZset? && RepZset(p.keys, z)
    case Log(s) => p.SavedLog? && RepStream(p.stream, s)
    case List(l) => p == SavedList(l)
  }

  /** Milliseconds left, rounded down; only meaningful for a live entry. */
  function RemainingMs(e: Entry, now: Time): Option<nat> {
    if e.expiresAt.Some? && e.expiresAt.value > now then Some((e.expiresAt.value - now) / NANOS_PER_MS) else None
  }

  ghost predicate RepStore(p: SavedStore, ks: Keyspace, scripts: map<Bytes, Bytes>, now: Time) {
    && ListsKeys(p.entries, Live(ks, now).Keys)
    && (forall i :: 0 <= i < |p.entries| ==>
          && RepValue(p.entries[i].1.value, ks[p.entries[i].0].value)
          && p.entries[i].1.ttlMs == RemainingMs(ks[p.entries[i].0], now))
    && Enumerates(p.scripts, scripts)
  }

  // ----- loading -----

  function LoadPel(p: SavedPel, now: Time): Pel {
    FromPairs(MapValues(p, (n: u64) => Pending(now, n)))
  }

  function LoadGroup(p: SavedGroup, now: Time): Group {
    Group(p.lastDelivered, FromPairs(MapValues(p.consumers, (q: SavedPel) => LoadPel(q, now))))
  }

  function LoadStream(p: SavedStream, now: Time): Stream {
    Stream(FromPairs(MapValues(p.entries, (f: SavedFields) => FromPairs(f))), p.lastId,
           FromPairs(MapValues(p.groups, (g: SavedGroup) => LoadGroup(g, now))))
  }

  /** Both indices are filled from the saved pairs, without looking for an older score. */
  function LoadZset(keys: seq<ZKey>): Zset {
    if keys == [] then EMPTY_ZSET
    else
      var z := LoadZset(keys[..|keys| - 1]);
      var k := keys[|keys| - 1];
      Zset(z.byScore + {k}, z.byMember[k.member := k.score])
  }

  function LoadValue(p: SavedValue, now: Time): Value {
    match p
    case SavedStr(b) => Str(b)
    case SavedHash(f) => Hash(FromPairs(f))
    case SavedMembers(m) => Members(Elems(m))
    case SavedZset(keys) => SortedSet(LoadZset(keys))
    case SavedLog(s) => Log(LoadStream(s, now))
    case SavedList(l) => List(l)
  }

  function LoadEntry(p: SavedEntry, now: Time): Entry {
    Entry(LoadValue(p.value, now),
          if p.ttlMs.Some? && p.ttlMs.value != 0 then Some(now + p.ttlMs.value * NANOS_PER_MS) else None)
  }

  // ----- what a reloaded store must look like -----

  function ReloadedPel(pel: Pel, loaded: Time): Pel {
    map id | id in pel :: Pending(loaded, pel[id].deliveryCount)
  }

  function ReloadedGroup(g: Group, loaded: Time): Group {
    Group(g.lastDelivered, map c | c in g.consumers :: ReloadedPel(g.consumers[c], loaded))
  }

  function ReloadedStream(s: Stream, loaded: Time): Stream {
    Stream(s.entries, s.lastId, map n | n in s.groups :: ReloadedGroup(s.groups[n], loaded))
  }

  /** Only delivery times change, and a sorted set's score index is rebuilt from its members. */
  function ReloadedValue(v: Value, loaded: Time): Value {
    match v
    case Log(s) => Log(ReloadedStream(s, loaded))
    case SortedSet(z) => SortedSet(Zset(KeysOf(z.byMember), z.byMember))
    case _ => v
  }

  function ReloadedExpiry(e: Entry, saved: Time, loaded: Time): Option<Time> {
    match RemainingMs(e, saved)
    case None => None
    case Some(ms) => if ms == 0 then None else Some(loaded + ms * NANOS_PER_MS)
  }

  function Reloaded(ks: Keyspace, saved: Time, loaded: Time): Keyspace {
    map k | k in Live(ks, saved) :: Entry(ReloadedValue(ks[k].value, loaded), ReloadedExpiry(ks[k], saved, loaded))
  }

  // ----- the round trip, level by level -----

  lemma {:induction false} PelRoundTrip(p: SavedPel, pel: Pel, now: Time)
    requires Enumerates(p, CountsIn(pel))
    ensures LoadPel(p, now) == ReloadedPel(pel, now)
  {
    var want := ReloadedPel(pel, now);
    assert want.Keys == CountsIn(pel).Keys;
    LoadsTo(p, (n: u64) => Pending(now, n), want);
  }

  lemma {:induction false} GroupRoundTrip(p: SavedGroup, g: Group, now: Time)
    requires RepGroup(p, g)
    ensures LoadGroup(p, now) == ReloadedGroup(g, now)
  {
    var want := ReloadedGroup(g, now).consumers;
    assert want.Keys == g.consumers.Keys;
    forall i | 0 <= i < |p.consumers| ensures LoadPel(p.consumers[i].1, now) == want[p.consumers[i].0] {
      PelRoundTrip(p.consumers[i].1, g.consumers[p.consumers[i].0], now);
    }
    LoadsTo(p.consumers, (q: SavedPel) => LoadPel(q, now), want);
  }

  lemma {:induction false} EntriesRoundTrip(p: SavedStream, s: Stream)
    requires RepStream(p, s)
    ensures FromPairs(MapValues(p.entries, (f: SavedFields) => FromPairs(f))) == s.entries
  {
    forall i | 0 <= i < |p.entries| ensures FromPairs(p.entries[i].1) == s.entries[p.entries[i].0] {
      EnumerationLoads(p.entries[i].1, s.entries[p.entries[i].0]);
    }
    LoadsTo(p.entries, (f: SavedFields) => FromPairs(f), s.entries);
  }

  lemma {:induction false} StreamRoundTrip(p: SavedStream, s: Stream, now: Time)
    requires RepStream(p, s)
    ensures LoadStream(p, now) == ReloadedStream(s, now)
  {
    EntriesRoundTrip(p, s);
    var want := ReloadedStream(s, now).groups;
    assert want.Keys == s.groups.Keys;
    forall i | 0 <= i < |p.groups| ensures LoadGroup(p.groups[i].1, now) == want[p.groups[i].0] {
      GroupRoundTrip(p.groups[i].1, s.groups[p.groups[i].0], now);
    }
    LoadsTo(p.groups, (g: SavedGroup) => LoadGroup(g, now), want);
  }

  lemma {:induction false} LoadZsetMeaning(keys: seq<ZKey>)
    ensures LoadZset(keys).byScore == Elems(keys)
    ensures forall m :: ScoreOf(LoadZset(keys), m) == LastListed(keys, m)
  {
    if keys == [] {
      assert Elems(keys) == {};
    } else {
      var init := keys[..|keys| - 1];
      LoadZsetMeaning(init);
      ElemsPrefix(keys, |keys| - 1);
      assert keys[..|keys| - 1 + 1] == keys;
    }
  }

  ghost predicate OneScoreEach(keys: seq<ZKey>) {
    forall i, j :: 0 <= i < |keys| && 0 <= j < |keys| && keys[i].member == keys[j].member ==> keys[i] == keys[j]
  }

  /** Loading rebuilds a valid dual index exactly when no member is listed with two scores. */
  lemma {:induction false} LoadZsetValidIff(keys: seq<ZKey>)
    ensures ZsetValid(LoadZset(keys)) <==> OneScoreEach(keys)
  {
    LoadZsetMeaning(keys);
    var z := LoadZset(keys);
    if OneScoreEach(keys) {
      forall k | k in z.byScore ensures k.member in z.byMember && z.byMember[k.member] == k.score {
        LastListedDistinct(keys, k.member);
        assert ScoreOf(z, k.member) == Some(k.score);
      }
      forall m | m in z.byMember ensures ZKey(z.byMember[m], m) in z.byScore {
        LastListedDistinct(keys, m);
        assert ScoreOf(z, m) == LastListed(keys, m);
        var k :| k in keys && k.member == m;
      }
    }
    if ZsetValid(z) {
      forall i, j | 0 <= i < |keys| && 0 <= j < |keys| && keys[i].member == keys[j].member ensures keys[i] == keys[j] {
        assert keys[i] in z.byScore && keys[j] in z.byScore;
      }
    }
  }

  lemma {:induction false} ZsetRoundTrip(keys: seq<ZKey>, z: Zset)
    requires RepZset(keys, z)
    ensures LoadZset(keys) == Zset(KeysOf(z.byMember), z.byMember)
    ensures ZsetValid(LoadZset(keys))
  {
    LoadZsetMeaning(keys);
    assert OneScoreEach(keys);
    LoadZsetValidIff(keys);
    var r := LoadZset(keys);
    forall m ensures m in r.byMember <==> m in z.byMember {
      assert m in r.byMember ==> ZKey(r.byMember[m], m) in r.byScore;
      if m in z.byMember { assert ZKey(z.byMember[m], m) in r.byScore; }
    }
    forall m | m in z.byMember ensures r.byMember[m] == z.byMember[m] {
      assert ZKey(z.byMember[m], m) in r.byScore;
    }
  }

  lemma {:induction false} ValueRoundTrip(p: SavedValue, v: Value, now: Time)
    requires RepValue(p, v)
    ensures LoadValue(p, now) == ReloadedValue(v, now)
  {
    match v
    case Hash(m) => EnumerationLoads(p.fields, m);
    case SortedSet(z) => ZsetRoundTrip(p.keys, z);
    case Log(s) => StreamRoundTrip(p.stream, s, now);
    case _ =>
  }

  /** Loading a snapshot restores exactly the live keys, with their values and remaining times. */
  lemma {:induction false} StoreRoundTrip(p: SavedStore, ks: Keyspace, scripts: map<Bytes, Bytes>, saved: Time,
                                          loaded: Time)
    requires RepStore(p, ks, scripts, saved)
    ensures FromPairs(MapValues(p.entries, (e: SavedEntry) => LoadEntry(e, loaded))) == Reloaded(ks, saved, loaded)
    ensures FromPairs(p.scripts) == scripts
  {
    var want := Reloaded(ks, saved, loaded);
    assert want.Keys == Live(ks, saved).Keys;
    forall i | 0 <= i < |p.entries| ensures LoadEntry(p.entries[i].1, loaded) == want[p.entries[i].0] {
      ValueRoundTrip(p.entries[i].1.value, ks[p.entries[i].0].value, loaded);
    }
    LoadsTo(p.entries, (e: SavedEntry) => LoadEntry(e, loaded), want);
    EnumerationLoads(p.scripts, scripts);
  }

  /** The same value, as far as anyone can tell but for delivery times: those are `ReloadKeepsGroup`. */
  ghost predicate SameContent(v: Value, w: Value) {
    match v
    case Log(s) =>
      w.Log? && w.stream.entries == s.entries && w.stream.lastId == s.lastId && w.stream.groups.Keys == s.groups.Keys
    case SortedSet(z) => w.SortedSet? && w.zset.byMember == z.byMember && ZsetValid(w.zset)
    case _ => w == v
  }

  /**
   What a reload keeps of a keyspace: exactly the keys live at the save, each with its content; strings, hashes, sets
   and lists as they are, streams with their entries, last id and groups, sorted sets with every member's score.
   */
  lemma {:induction false} ReloadKeepsContent(ks: Keyspace, saved: Time, loaded: Time)
    ensures var r := Reloaded(ks, saved, loaded);
            && (forall k :: k in r <==> LiveSlot(ks, saved, k).Some?)
            && (forall k :: k in r ==> SameContent(ks[k].value, r[k].value))
            && (forall k :: k in r && ks[k].value.Log? ==>
                  forall n :: n in ks[k].value.stream.groups ==>
                    r[k].value.stream.groups[n] == ReloadedGroup(ks[k].value.stream.groups[n], loaded))
            && (forall k :: k in r && ks[k].expiresAt.None? ==> r[k].expiresAt.None?)
  {
    var r := Reloaded(ks, saved, loaded);
    forall k | k in r ensures SameContent(ks[k].value, r[k].value) {
      if ks[k].value.SortedSet? {
        ValidIsKeysOf(r[k].value.zset);
      }
    }
  }

  /** What a reload keeps of a group: cursor, ownership, pending ids and delivery counts. */
  lemma {:induction false} ReloadKeepsGroup(g: Group, loaded: Time)
    ensures ReloadedGroup(g, loaded).lastDelivered == g.lastDelivered
    ensures forall c, id :: Holds(ReloadedGroup(g, loaded), c, id) <==> Holds(g, c, id)
    ensures forall c, id :: Holds(g, c, id) ==>
              ReloadedGroup(g, loaded).consumers[c][id] == Pending(loaded, g.consumers[c][id].deliveryCount)
    ensures GroupInv(g) ==> GroupInv(ReloadedGroup(g, loaded))
  {
  }

  /**
   A key with at least a millisecond left keeps its remaining time, rounded down to milliseconds; one with less loses
   its expiry.
   */
  lemma {:induction false} ReloadKeepsExpiry(e: Entry, saved: Time, loaded: Time)
    requires e.expiresAt.Some? && !Expired(e, saved)
    ensures var left := e.expiresAt.value - saved;
            if left < NANOS_PER_MS then ReloadedExpiry(e, saved, loaded).None?
            else && ReloadedExpiry(e, saved, loaded).Some?
                 && loaded + left - NANOS_PER_MS < ReloadedExpiry(e, saved, loaded).value <= loaded + left
  {
  }

  // ----- saving and loading as loops -----

  lemma {:induction false} ListsKeysSnoc<K, V>(s: seq<(K, V)>, keys: set<K>, k: K, v: V)
    requires ListsKeys(s, keys) && k !in keys
    ensures ListsKeys(s + [(k, v)], keys + {k})
  {
    var t := s + [(k, v)];
    forall x | x in keys + {k} ensures exists i :: 0 <= i < |t| && t[i].0 == x {
      if x == k {
        assert t[|s|].0 == k;
      } else {
        var i :| 0 <= i < |s| && s[i].0 == x;
        assert t[i].0 == x;
      }
    }
  }

  lemma {:induction false} SameFirsts<K, V, W>(s: seq<(K, V)>, t: seq<(K, W)>, keys: set<K>)
    requires ListsKeys(s, keys) && |t| == |s| && forall i :: 0 <= i < |s| ==> t[i].0 == s[i].0
    ensures ListsKeys(t, keys)
  {
  }

  ghost predicate EnumeratesPart<K, V>(s: seq<(K, V)>, m: map<K, V>, done: set<K>) {
    ListsKeys(s, done) && done <= m.Keys && forall i :: 0 <= i < |s| ==> s[i].1 == m[s[i].0]
  }

  lemma {:induction false} EnumeratesMore<K, V>(s: seq<(K, V)>, m: map<K, V>, done: set<K>, k: K)
    requires EnumeratesPart(s, m, done) && k in m && k !in done
    ensures EnumeratesPart(s + [(k, m[k])], m, done + {k})
  {
    ListsKeysSnoc(s, done, k, m[k]);
  }

  /** HashMap iteration into a vector: every pair once, in no particular order. */
  method Enumerate<K(==), V>(m: map<K, V>) returns (s: seq<(K, V)>)
    ensures Enumerates(s, m)
  {
    s := [];
    var rest := m.Keys;
    ghost var done: set<K> := {};
    while rest != {}
      invariant done !! rest && done + rest == m.Keys
      invariant EnumeratesPart(s, m, done)
      decreases rest
    {
      var k :| k in rest;
      EnumeratesMore(s, m, done, k);
      s := s + [(k, m[k])];
      rest, done := rest - {k}, done + {k};
    }
    assert done == m.Keys;
  }

  method SaveGroup(g: Group) returns (p: SavedGroup)
    ensures RepGroup(p, g)
  {
    var order := Enumerate(g.consumers);
    var out: seq<(Bytes, SavedPel)> := [];
    for i := 0 to |order|
      invariant |out| == i
      invariant forall j :: 0 <= j < i ==> out[j].0 == order[j].0 && Enumerates(out[j].1, CountsIn(order[j].1))
    {
      var counts := Enumerate(CountsIn(order[i].1));
      out := out + [(order[i].0, counts)];
    }
    SameFirsts(order, out, g.consumers.Keys);
    p := SavedGroup(g.lastDelivered, out);
  }

  method SaveStream(s: Stream) returns (p: SavedStream)
    ensures RepStream(p, s)
  {
    var ids := Enumerate(s.entries);
    var entries: seq<(StreamId, SavedFields)> := [];
    for i := 0 to |ids|
      invariant |entries| == i
      invariant forall j :: 0 <= j < i ==> entries[j].0 == ids[j].0 && Enumerates(entries[j].1, ids[j].1)
    {
      var fields := Enumerate(ids[i].1);
      entries := entries + [(ids[i].0, fields)];
    }
    SameFirsts(ids, entries, s.entries.Keys);
    var names := Enumerate(s.groups);
    var groups: seq<(Bytes, SavedGroup)> := [];
    for i := 0 to |names|
      invariant |groups| == i
      invariant forall j :: 0 <= j < i ==> groups[j].0 == names[j].0 && RepGroup(groups[j].1, names[j].1)
    {
      var g := SaveGroup(names[i].1);
      groups := groups + [(names[i].0, g)];
    }
    SameFirsts(names, groups, s.groups.Keys);
    p := SavedStream(entries, s.lastId, groups);
  }

  method SaveZset(z: Zset) returns (keys: seq<ZKey>)
    ensures RepZset(keys, z)
  {
    var pairs := Enumerate(z.byMember);
    keys := seq(|pairs|, i requires 0 <= i < |pairs| => ZKey(pairs[i].1, pairs[i].0));
    forall k ensures k in Elems(keys) <==> k in KeysOf(z.byMember) {
      InKeysOf(z.byMember, k);
      if k in KeysOf(z.byMember) {
        var i :| 0 <= i < |pairs| && pairs[i].0 == k.member;
        assert keys[i] == k;
      }
    }
  }

  method SaveMembers(s: set<Bytes>) returns (members: seq<Bytes>)
    ensures Elems(members) == s
  {
    members := [];
    var rest := s;
    while rest != {}
      invariant Elems(members) + rest == s
      decreases rest
    {
      var m :| m in rest;
      var next := members + [m];
      assert Elems(next) == Elems(members) + {m};
      assert Elems(next) + (rest - {m}) == s;
      members, rest := next, rest - {m};
    }
    assert Elems(members) + rest == Elems(members);
  }

  method SaveValue(v: Value) returns (p: SavedValue)
    ensures RepValue(p, v)
  {
    match v {
      case Str(b) => p := SavedStr(b);
      case Hash(m) => var f := Enumerate(m); p := SavedHash(f);
      case Members(s) => var m := SaveMembers(s); p := SavedMembers(m);
      case SortedSet(z) => var keys := SaveZset(z); p := SavedZset(keys);
      case Log(s) => var q := SaveStream(s); p := SavedLog(q);
      case List(l) => p := SavedList(l);
    }
  }

  /** `PersistableStore::from_store`: every unexpired entry, in HashMap order. */
  method SaveStore(ks: Keyspace, scripts: map<Bytes, Bytes>, now: Time) returns (p: SavedStore)
    ensures RepStore(p, ks, scripts, now)
  {
    var entries: seq<(Bytes, SavedEntry)> := [];
    var order := Enumerate(Live(ks, now));
    for i := 0 to |order|
      invariant |entries| == i
      invariant forall j :: 0 <= j < i ==>
                  && entries[j].0 == order[j].0
                  && RepValue(entries[j].1.value, order[j].1.value)
                  && entries[j].1.ttlMs == RemainingMs(order[j].1, now)
    {
      var v := SaveValue(order[i].1.value);
      entries := entries + [(order[i].0, SavedEntry(v, RemainingMs(order[i].1, now)))];
    }
    SameFirsts(order, entries, Live(ks, now).Keys);
    var s := Enumerate(scripts);
    p := SavedStore(entries, s);
  }

  /** `PersistableStore::into_runtime`: insert entry by entry. */
  method LoadStore(p: SavedStore, now: Time) returns (ks: Keyspace, scripts: map<Bytes, Bytes>)
    ensures ks == FromPairs(MapValues(p.entries, (e: SavedEntry) => LoadEntry(e, now)))
    ensures scripts == FromPairs(p.scripts)
  {
    ghost var pairs := MapValues(p.entries, (e: SavedEntry) => LoadEntry(e, now));
    ks := map[];
    for i := 0 to |p.entries|
      invariant ks == FromPairs(pairs[..i])
    {
      ks := ks[p.entries[i].0 := LoadEntry(p.entries[i].1, now)];
      assert pairs[..i + 1][..i] == pairs[..i];
    }
    assert pairs[..|pairs|] == pairs;
    scripts := map[];
    for i := 0 to |p.scripts|
      invariant scripts == FromPairs(p.scripts[..i])
    {
      scripts := scripts[p.scripts[i].0 := p.scripts[i].1];
      assert p.scripts[..i + 1][..i] == p.scripts[..i];
    }
    assert p.scripts[..|p.scripts|] == p.scripts;
  }

  /** Saving at one time and loading at another. */
  method SaveThenLoad(ks: Keyspace, scripts: map<Bytes, Bytes>, saved: Time, loaded: Time) returns (ks': Keyspace,
                      scripts': map<Bytes, Bytes>)
    ensures ks' == Reloaded(ks, saved, loaded)
    ensures scripts' == scripts
  {
    var p := SaveStore(ks, scripts, saved);
    ks', scripts' := LoadStore(p, loaded);
    StoreRoundTrip(p, ks, scripts, saved, loaded);
  }
}
