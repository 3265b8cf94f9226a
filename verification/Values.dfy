/** The typed values of the keyspace: strings, hashes, sets, sorted sets, lists and streams. */
module Values {
  import opened Prelude
  import opened Ordering

  // ----- stream ids -----

  /** A stream entry id, ordered by milliseconds and then by sequence number. */
  datatype StreamId = StreamId(ms: u64, seqNo: u64)

  const ZERO_ID := StreamId(0, 0)
  const MAX_ID := StreamId(U64_MAX, U64_MAX)

  predicate IdLess(a: StreamId, b: StreamId) {
    a.ms < b.ms || (a.ms == b.ms && a.seqNo < b.seqNo)
  }

  predicate IdLeq(a: StreamId, b: StreamId) {
    a == b || IdLess(a, b)
  }

  lemma {:induction false} IdOrder()
    ensures StrictOrder(IdLess)
  {
  }

  /** The order in which a BTreeMap keyed by stream ids is iterated. */
  function SortedIds(s: set<StreamId>): (r: seq<StreamId>)
    ensures Ascending(r, IdLess) && Elems(r) == s && |r| == |s|
    ensures forall x :: x in r <==> x in s
  {
    IdOrder();
    var r := Sorted(s, IdLess);
    assert forall x :: x in r <==> x in Elems(r);
    r
  }

  /** `SortedIds` is the only ascending list of those ids. */
  lemma {:induction false} IsSortedIds(r: seq<StreamId>, s: set<StreamId>)
    requires Ascending(r, IdLess)
    requires forall x :: x in r <==> x in s
    ensures r == SortedIds(s)
  {
    IdOrder();
    AscendingUnique(r, SortedIds(s), IdLess);
  }

  // ----- scores -----

  /** A float score without NaN: the reals with two infinities. */
  datatype Score = NegInf | Fin(v: real) | PosInf

  predicate ScoreLess(a: Score, b: Score) {
    match (a, b)
    case (NegInf, _) => b != NegInf
    case (Fin(x), Fin(y)) => x < y
    case (Fin(_), PosInf) => true
    case (_, _) => false
  }

  predicate ScoreLeq(a: Score, b: Score) {
    a == b || ScoreLess(a, b)
  }

  /** Byte strings in dictionary order. */
  predicate BytesLess(a: Bytes, b: Bytes) {
    if b == [] then false
    else if a == [] then true
    else a[0] < b[0] || (a[0] == b[0] && BytesLess(a[1..], b[1..]))
  }

  lemma {:induction false} BytesIrreflexive(a: Bytes)
    ensures !BytesLess(a, a)
  {
    if a != [] {
      BytesIrreflexive(a[1..]);
    }
  }

  lemma {:induction false} BytesTotal(a: Bytes, b: Bytes)
    ensures a == b || BytesLess(a, b) || BytesLess(b, a)
  {
    if a != [] && b != [] && a[0] == b[0] {
      BytesTotal(a[1..], b[1..]);
      assert a == [a[0]] + a[1..] && b == [b[0]] + b[1..];
    }
  }

  lemma {:induction false} BytesTransitive(a: Bytes, b: Bytes, c: Bytes)
    requires BytesLess(a, b) && BytesLess(b, c)
    ensures BytesLess(a, c)
  {
    if a != [] && a[0] == b[0] && b[0] == c[0] {
      BytesTransitive(a[1..], b[1..], c[1..]);
    }
  }

  /** A key of a sorted set's score index. */
  datatype ZKey = ZKey(score: Score, member: Bytes)

  predicate ZKeyLess(a: ZKey, b: ZKey) {
    ScoreLess(a.score, b.score) || (a.score == b.score && BytesLess(a.member, b.member))
  }

  lemma {:induction false} ZKeyOrder()
    ensures StrictOrder(ZKeyLess)
  {
    forall x: ZKey ensures !ZKeyLess(x, x) {
      BytesIrreflexive(x.member);
    }
    forall x: ZKey, y: ZKey ensures x == y || ZKeyLess(x, y) || ZKeyLess(y, x) {
      BytesTotal(x.member, y.member);
    }
    forall x: ZKey, y: ZKey, z: ZKey | ZKeyLess(x, y) && ZKeyLess(y, z) ensures ZKeyLess(x, z) {
      if x.score == y.score == z.score {
        BytesTransitive(x.member, y.member, z.member);
      }
    }
  }

  function SortedKeys(s: set<ZKey>): (r: seq<ZKey>)
    ensures Ascending(r, ZKeyLess) && Elems(r) == s && |r| == |s|
    ensures forall x :: x in r <==> x in s
  {
    ZKeyOrder();
    var r := Sorted(s, ZKeyLess);
    assert forall x :: x in r <==> x in Elems(r);
    r
  }

  lemma {:induction false} IsSortedKeys(r: seq<ZKey>, s: set<ZKey>)
    requires Ascending(r, ZKeyLess)
    requires forall x :: x in r <==> x in s
    ensures r == SortedKeys(s)
  {
    ZKeyOrder();
    AscendingUnique(r, SortedKeys(s), ZKeyLess);
  }

  // ----- values -----

  /** A sorted set: a score-ordered index and a member-to-score index. */
  datatype Zset = Zset(byScore: set<ZKey>, byMember: map<Bytes, Score>)

  type Fields = map<Bytes, Bytes>

  datatype Pending = Pending(deliveryTime: Time, deliveryCount: u64)

  /** A consumer's pending entries list. */
  type Pel = map<StreamId, Pending>

  datatype Group = Group(lastDelivered: StreamId, consumers: map<Bytes, Pel>)

  datatype Stream = Stream(entries: map<StreamId, Fields>, lastId: StreamId, groups: map<Bytes, Group>)

  datatype Value =
    | Str(bytes: Bytes)
    | Hash(fields: Fields)
    | Members(members: set<Bytes>)
    | SortedSet(zset: Zset)
    | Log(stream: Stream)
    | List(items: seq<Bytes>)

  const EMPTY_ZSET := Zset({}, map[])
  const EMPTY_STREAM := Stream(map[], ZERO_ID, map[])

  /** A stored value with its optional expiry. */
  datatype Entry = Entry(value: Value, expiresAt: Option<Time>)

  type Keyspace = map<Bytes, Entry>

  datatype Error =
    | WrongType
    | NoGroup
    | BusyGroup
    | KeyNotFound
    | NoSuchKey
    | NotAnInteger
    | WouldOverflow
    | IndexOutOfRange
    | WrongArity
}
