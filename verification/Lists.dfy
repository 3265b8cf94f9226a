/** List values: index ranges, LREM in its three directions, and moving elements between ends. */
module Lists {
  import opened Prelude

  datatype ListEnd = Left | Right
  datatype InsertPosition = Before | After
  datatype LremDirection = Head(n: nat) | Tail(n: nat) | All

  // ----- index ranges -----

  /** Inclusive bounds with negative offsets from the tail, clamped; `None` when nothing is selected. */
  function NormalizeRange(start: i64, stop: i64, len: nat): Option<(nat, nat)> {
    if len == 0 then None
    else
      var s: int := if start < 0 then (if start + len < 0 then 0 else start + len) else start;
      var e: int := if stop < 0 then stop + len else (if stop < len - 1 then stop else len - 1);
      if s >= len || e < 0 || s > e then None else Some((s, e))
  }

  /** Index `i` lies between the two positions that `start` and `stop` denote. */
  predicate Selects(start: int, stop: int, len: nat, i: nat) {
    && (if start < 0 then start + len <= i else start <= i)
    && (if stop < 0 then i <= stop + len else i <= stop)
  }

  /** Clamping neither loses nor invents an index. */
  lemma {:induction false} NormalizeRangeMeaning(start: i64, stop: i64, len: nat)
    ensures forall i :: 0 <= i < len ==>
              (Selects(start, stop, len, i) <==>
               var r := NormalizeRange(start, stop, len); r.Some? && r.value.0 <= i <= r.value.1)
    ensures NormalizeRange(start, stop, len).Some? ==>
              NormalizeRange(start, stop, len).value.0 <= NormalizeRange(start, stop, len).value.1 < len
    ensures NormalizeRange(start, stop, len).None? <==> forall i: nat :: i < len ==> !Selects(start, stop, len, i)
  {
    var r := NormalizeRange(start, stop, len);
    if r.Some? {
      assert Selects(start, stop, len, r.value.0);
    }
  }

  function Slice(items: seq<Bytes>, start: i64, stop: i64): seq<Bytes> {
    NormalizeRangeMeaning(start, stop, |items|);
    match NormalizeRange(start, stop, |items|)
    case None => []
    case Some((s, e)) => items[s..e + 1]
  }

  /** LRANGE and LTRIM give exactly the elements the two indices select, in order. */
  lemma {:induction false} SliceMeaning(items: seq<Bytes>, start: i64, stop: i64) returns (a: nat, b: nat)
    ensures a <= b <= |items| && Slice(items, start, stop) == items[a..b]
    ensures forall i :: 0 <= i < |items| ==> (Selects(start, stop, |items|, i) <==> a <= i < b)
  {
    NormalizeRangeMeaning(start, stop, |items|);
    match NormalizeRange(start, stop, |items|)
    case None => a, b := 0, 0;
    case Some((s, e)) => a, b := s, e + 1;
  }

  // ----- LREM -----

  /** `unsigned_abs`: no overflow at the smallest i64. */
  function UnsignedAbs(count: int): nat {
    if count < 0 then -count else count
  }

  function ParseLremCount(count: i64): LremDirection {
    if count > 0 then Head(count) else if count < 0 then Tail(UnsignedAbs(count)) else All
  }

  function Reverse<T>(s: seq<T>): (r: seq<T>)
    ensures |r| == |s|
  {
    if s == [] then [] else Reverse(s[1..]) + [s[0]]
  }

  /** Drops the first `n` occurrences of `v`. */
  function RemoveFirst(s: seq<Bytes>, v: Bytes, n: nat): seq<Bytes> {
    if s == [] || n == 0 then s
    else if s[0] == v then RemoveFirst(s[1..], v, n - 1)
    else [s[0]] + RemoveFirst(s[1..], v, n)
  }

  function Without(s: seq<Bytes>, v: Bytes): seq<Bytes> {
    if s == [] then [] else if s[0] == v then Without(s[1..], v) else [s[0]] + Without(s[1..], v)
  }

  /** The meaning of LREM: from the head, from the tail by reversing twice, or everywhere. */
  function Lrem(s: seq<Bytes>, v: Bytes, count: i64): seq<Bytes> {
    match ParseLremCount(count)
    case Head(n) => RemoveFirst(s, v, n)
    case Tail(n) => Reverse(RemoveFirst(Reverse(s), v, n))
    case All => Without(s, v)
  }

  /** How many copies LREM may remove. */
  function LremLimit(s: seq<Bytes>, count: i64): nat {
    if count == 0 then |s| else UnsignedAbs(count)
  }

  lemma {:induction false} ReverseSnoc<T>(s: seq<T>, x: T)
    ensures Reverse(s + [x]) == [x] + Reverse(s)
  {
    if s == [] {
      assert [x][1..] == [];
    } else {
      assert (s + [x])[1..] == s[1..] + [x];
      ReverseSnoc(s[1..], x);
    }
  }

  lemma {:induction false} ReverseTwice<T>(s: seq<T>)
    ensures Reverse(Reverse(s)) == s
  {
    if s != [] {
      ReverseSnoc(Reverse(s[1..]), s[0]);
      ReverseTwice(s[1..]);
    }
  }

  lemma {:induction false} ReverseMultiset(s: seq<Bytes>)
    ensures multiset(Reverse(s)) == multiset(s)
  {
    if s != [] {
      ReverseMultiset(s[1..]);
      assert s == [s[0]] + s[1..];
    }
  }

  lemma {:induction false} WithoutSnoc(s: seq<Bytes>, x: Bytes, v: Bytes)
    ensures Without(s + [x], v) == Without(s, v) + (if x == v then [] else [x])
  {
    if s == [] {
      assert [x][1..] == [];
    } else {
      assert (s + [x])[1..] == s[1..] + [x];
      WithoutSnoc(s[1..], x, v);
    }
  }

  lemma {:induction false} WithoutReverse(s: seq<Bytes>, v: Bytes)
    ensures Without(Reverse(s), v) == Reverse(Without(s, v))
  {
    if s != [] {
      WithoutReverse(s[1..], v);
      WithoutSnoc(Reverse(s[1..]), s[0], v);
      if s[0] != v {
        assert ([s[0]] + Without(s[1..], v))[1..] == Without(s[1..], v);
      }
    }
  }

  lemma {:induction false} RemoveFirstKeeps(s: seq<Bytes>, v: Bytes, n: nat)
    ensures Without(RemoveFirst(s, v, n), v) == Without(s, v)
  {
    if s != [] && n > 0 {
      if s[0] == v {
        RemoveFirstKeeps(s[1..], v, n - 1);
      } else {
        RemoveFirstKeeps(s[1..], v, n);
        assert ([s[0]] + RemoveFirst(s[1..], v, n))[1..] == RemoveFirst(s[1..], v, n);
      }
    }
  }

  lemma {:induction false} RemoveFirstCounts(s: seq<Bytes>, v: Bytes, n: nat)
    ensures multiset(RemoveFirst(s, v, n))[v] == multiset(s)[v] - Min(n, multiset(s)[v])
    ensures |RemoveFirst(s, v, n)| == |s| - Min(n, multiset(s)[v])
  {
    if s != [] && n > 0 {
      assert s == [s[0]] + s[1..];
      assert multiset(s)[v] == multiset(s[1..])[v] + (if s[0] == v then 1 else 0);
      if s[0] == v {
        RemoveFirstCounts(s[1..], v, n - 1);
      } else {
        RemoveFirstCounts(s[1..], v, n);
      }
    }
  }

  /** The copies go, everything else keeps its place. */
  lemma {:induction false} RemoveFirstLaws(s: seq<Bytes>, v: Bytes, n: nat)
    ensures Without(RemoveFirst(s, v, n), v) == Without(s, v)
    ensures multiset(RemoveFirst(s, v, n))[v] == multiset(s)[v] - Min(n, multiset(s)[v])
    ensures |RemoveFirst(s, v, n)| == |s| - Min(n, multiset(s)[v])
  {
    RemoveFirstKeeps(s, v, n);
    RemoveFirstCounts(s, v, n);
  }

  lemma {:induction false} WithoutLaws(s: seq<Bytes>, v: Bytes)
    ensures Without(Without(s, v), v) == Without(s, v)
    ensures multiset(Without(s, v))[v] == 0
    ensures |Without(s, v)| == |s| - multiset(s)[v]
  {
    if s != [] {
      WithoutLaws(s[1..], v);
      assert s == [s[0]] + s[1..];
      if s[0] != v {
        assert ([s[0]] + Without(s[1..], v))[1..] == Without(s[1..], v);
      }
    }
  }

  /**
   LREM in every direction removes exactly min(limit, occurrences) copies and keeps the other
   elements, in order.
   */
  lemma {:induction false} LremLaws(s: seq<Bytes>, v: Bytes, count: i64)
    ensures Without(Lrem(s, v, count), v) == Without(s, v)
    ensures |s| - |Lrem(s, v, count)| == Min(LremLimit(s, count), multiset(s)[v])
    ensures multiset(Lrem(s, v, count))[v] == multiset(s)[v] - Min(LremLimit(s, count), multiset(s)[v])
  {
    assert multiset(s)[v] <= |s| by { CountBound(s, v); }
    match ParseLremCount(count)
    case Head(n) => RemoveFirstLaws(s, v, n);
    case Tail(n) =>
      ReverseMultiset(s);
      RemoveFirstLaws(Reverse(s), v, n);
      ReverseMultiset(RemoveFirst(Reverse(s), v, n));
      WithoutReverse(RemoveFirst(Reverse(s), v, n), v);
      WithoutReverse(s, v);
      ReverseTwice(Without(s, v));
    case All => WithoutLaws(s, v);
  }

  lemma {:induction false} CountBound(s: seq<Bytes>, v: Bytes)
    ensures multiset(s)[v] <= |s|
  {
  }

  // ----- LREM as loops -----

  /** `retain` with a budget of `n` removals. */
  method RetainHead(s: seq<Bytes>, v: Bytes, n: nat) returns (r: seq<Bytes>)
    ensures r == RemoveFirst(s, v, n)
  {
    r := [];
    var removed := 0;
    var i := 0;
    while i < |s|
      invariant i <= |s| && removed <= n
      invariant RemoveFirst(s, v, n) == r + RemoveFirst(s[i..], v, n - removed)
    {
      assert s[i..][1..] == s[i + 1..] && s[i..] == [s[i]] + s[i + 1..];
      if removed < n && s[i] == v {
        removed := removed + 1;
      } else {
        if removed == n { assert RemoveFirst(s[i..], v, 0) == [s[i]] + RemoveFirst(s[i + 1..], v, 0); }
        r := r + [s[i]];
      }
      i := i + 1;
    }
  }

  method RetainOthers(s: seq<Bytes>, v: Bytes) returns (r: seq<Bytes>)
    ensures r == Without(s, v)
  {
    r := [];
    var i := 0;
    while i < |s|
      invariant i <= |s|
      invariant Without(s, v) == r + Without(s[i..], v)
    {
      assert s[i..][1..] == s[i + 1..];
      if s[i] != v {
        r := r + [s[i]];
      }
      i := i + 1;
    }
  }

  /** Drops the last `n` occurrences of `v`, scanning from the tail. */
  function RemoveLast(s: seq<Bytes>, v: Bytes, n: nat): seq<Bytes> {
    if s == [] || n == 0 then s
    else
      var init, last := s[..|s| - 1], s[|s| - 1];
      if last == v then RemoveLast(init, v, n - 1) else RemoveLast(init, v, n) + [last]
  }

  lemma {:induction false} RemoveLastIsReversed(s: seq<Bytes>, v: Bytes, n: nat)
    ensures RemoveLast(s, v, n) == Reverse(RemoveFirst(Reverse(s), v, n))
  {
    if s == [] || n == 0 {
      ReverseTwice(s);
    } else {
      var init, last := s[..|s| - 1], s[|s| - 1];
      assert s == init + [last];
      ReverseSnoc(init, last);
      assert ([last] + Reverse(init))[1..] == Reverse(init);
      if last == v {
        RemoveLastIsReversed(init, v, n - 1);
      } else {
        RemoveLastIsReversed(init, v, n);
        var rest := RemoveFirst(Reverse(init), v, n);
        assert ([last] + rest)[1..] == rest;
      }
    }
  }

  /** Which copies go: all of those before some point, and none after it. */
  lemma {:induction false} RemoveFirstPoint(s: seq<Bytes>, v: Bytes, n: nat) returns (p: nat)
    ensures p <= |s| && RemoveFirst(s, v, n) == Without(s[..p], v) + s[p..]
    ensures multiset(s[..p])[v] == Min(n, multiset(s)[v])
  {
    if s == [] || n == 0 {
      p := 0;
    } else {
      var q := RemoveFirstPoint(s[1..], v, if s[0] == v then n - 1 else n);
      p := q + 1;
      assert s == [s[0]] + s[1..];
      assert s[..p] == [s[0]] + s[1..][..q] && s[p..] == s[1..][q..];
    }
  }

  /** The same from the tail: none before some point, and all of those after it. */
  lemma {:induction false} RemoveLastPoint(s: seq<Bytes>, v: Bytes, n: nat) returns (p: nat)
    ensures p <= |s| && RemoveLast(s, v, n) == s[..p] + Without(s[p..], v)
    ensures multiset(s[p..])[v] == Min(n, multiset(s)[v])
  {
    if s == [] || n == 0 {
      p := |s|;
      assert s[..p] == s && s[p..] == [];
    } else {
      var init, last := s[..|s| - 1], s[|s| - 1];
      var k, kept := if last == v then n - 1 else n, if last == v then [] else [last];
      p := RemoveLastPoint(init, v, k);
      assert RemoveLast(s, v, n) == RemoveLast(init, v, k) + kept;
      assert s == init + [last];
      PointSnoc(init, last, v, p);
      AppendAssociates(init[..p], Without(init[p..], v), kept);
    }
  }

  lemma {:induction false} PointSnoc(init: seq<Bytes>, last: Bytes, v: Bytes, p: nat)
    requires p <= |init|
    ensures (init + [last])[..p] == init[..p]
    ensures Without((init + [last])[p..], v) == Without(init[p..], v) + (if last == v then [] else [last])
    ensures multiset((init + [last])[p..])[v] == multiset(init[p..])[v] + (if last == v then 1 else 0)
    ensures multiset(init + [last])[v] == multiset(init)[v] + (if last == v then 1 else 0)
  {
    assert (init + [last])[p..] == init[p..] + [last];
    WithoutSnoc(init[p..], last, v);
  }

  lemma {:induction false} AppendAssociates(a: seq<Bytes>, b: seq<Bytes>, c: seq<Bytes>)
    ensures a + (b + c) == (a + b) + c
  {
  }

  /**
   Which copies LREM removes: with a positive count the first ones, with a negative count the last ones, with zero
   all. On the other side of the point nothing is touched.
   */
  lemma {:induction false} LremWhich(s: seq<Bytes>, v: Bytes, count: i64) returns (p: nat)
    ensures p <= |s|
    ensures count > 0 ==> Lrem(s, v, count) == Without(s[..p], v) + s[p..]
                          && multiset(s[..p])[v] == Min(count, multiset(s)[v])
    ensures count < 0 ==> Lrem(s, v, count) == s[..p] + Without(s[p..], v)
                          && multiset(s[p..])[v] == Min(UnsignedAbs(count), multiset(s)[v])
    ensures count == 0 ==> Lrem(s, v, count) == Without(s, v)
  {
    p := 0;
    if count > 0 {
      p := RemoveFirstPoint(s, v, count);
    } else if count < 0 {
      p := RemoveLastPoint(s, v, UnsignedAbs(count));
      RemoveLastIsReversed(s, v, UnsignedAbs(count));
    }
  }

  /** `idx` lists indices of `s` from `p` on, in descending order. */
  ghost predicate Descending(idx: seq<nat>, p: nat, end: nat) {
    && (forall k :: 0 <= k < |idx| ==> p <= idx[k] < end)
    && (forall j, k :: 0 <= j < k < |idx| ==> idx[j] > idx[k])
  }

  /** `s[p..]` without the elements at the descending indices `idx`. */
  ghost function Cut(s: seq<Bytes>, p: nat, idx: seq<nat>): seq<Bytes>
    requires p <= |s| && Descending(idx, p, |s|)
    decreases |idx|
  {
    if idx == [] then s[p..]
    else
      var last := idx[|idx| - 1];
      s[p..last] + Cut(s, last + 1, idx[..|idx| - 1])
  }

  lemma {:induction false} CutExtend(s: seq<Bytes>, p: nat, idx: seq<nat>)
    requires 0 < p <= |s| && Descending(idx, p, |s|)
    ensures Descending(idx, p - 1, |s|) && Cut(s, p - 1, idx) == [s[p - 1]] + Cut(s, p, idx)
  {
  }

  lemma {:induction false} CutTake(s: seq<Bytes>, p: nat, idx: seq<nat>)
    requires p < |s| && Descending(idx, p + 1, |s|)
    ensures Descending(idx + [p], p, |s|) && Cut(s, p, idx + [p]) == Cut(s, p + 1, idx)
  {
  }

  /** With the elements from `p` on scanned and the indices `idx` collected there, `goal` is still ahead. */
  ghost predicate Scanned(goal: seq<Bytes>, s: seq<Bytes>, v: Bytes, n: nat, p: nat, idx: seq<nat>) {
    && p <= |s| && |idx| <= n
    && Descending(idx, p, |s|)
    && goal == RemoveLast(s[..p], v, n - |idx|) + Cut(s, p, idx)
  }

  /** The tail scan: the last `n` matching indices, highest first. */
  method CollectTail(s: seq<Bytes>, v: Bytes, n: nat) returns (idx: seq<nat>)
    ensures Descending(idx, 0, |s|)
    ensures Cut(s, 0, idx) == RemoveLast(s, v, n)
  {
    ScanStart(s, v, n);
    idx := ScanTail(s, v, n, RemoveLast(s, v, n));
    ScanEnd(RemoveLast(s, v, n), s, v, n, idx);
  }

  /** The scan itself, from the last element to the first. */
  method ScanTail(s: seq<Bytes>, v: Bytes, n: nat, ghost goal: seq<Bytes>) returns (idx: seq<nat>)
    requires Scanned(goal, s, v, n, |s|, [])
    ensures Scanned(goal, s, v, n, 0, idx)
  {
    idx := [];
    var p: nat := |s|;
    while p > 0
      invariant Scanned(goal, s, v, n, p, idx)
    {
      if s[p - 1] == v && |idx| < n {
        ScanHit(goal, s, v, n, p, idx);
        idx := idx + [p - 1];
      } else {
        ScanMiss(goal, s, v, n, p, idx);
      }
      p := p - 1;
    }
  }

  lemma {:induction false} ScanStart(s: seq<Bytes>, v: Bytes, n: nat)
    ensures Scanned(RemoveLast(s, v, n), s, v, n, |s|, [])
  {
    assert s[..|s|] == s && s[|s|..] == [];
    assert RemoveLast(s, v, n) + [] == RemoveLast(s, v, n);
  }

  lemma {:induction false} ScanEnd(goal: seq<Bytes>, s: seq<Bytes>, v: Bytes, n: nat, idx: seq<nat>)
    requires Scanned(goal, s, v, n, 0, idx)
    ensures Cut(s, 0, idx) == goal
  {
    assert RemoveLast(s[..0], v, n - |idx|) == [];
    assert [] + Cut(s, 0, idx) == Cut(s, 0, idx);
  }

  lemma {:induction false} ScanHit(goal: seq<Bytes>, s: seq<Bytes>, v: Bytes, n: nat, p: nat, idx: seq<nat>)
    requires p > 0 && Scanned(goal, s, v, n, p, idx) && s[p - 1] == v && |idx| < n
    ensures Scanned(goal, s, v, n, p - 1, idx + [p - 1])
  {
    var k := n - |idx|;
    assert RemoveLast(s[..p], v, k) == RemoveLast(s[..p - 1], v, k - 1) by { RemoveLastStep(s, p, v, k); }
    CutTake(s, p - 1, idx);
    assert |idx + [p - 1]| == |idx| + 1;
  }

  lemma {:induction false} ScanMiss(goal: seq<Bytes>, s: seq<Bytes>, v: Bytes, n: nat, p: nat, idx: seq<nat>)
    requires p > 0 && Scanned(goal, s, v, n, p, idx) && (s[p - 1] != v || |idx| == n)
    ensures Scanned(goal, s, v, n, p - 1, idx)
  {
    RemoveLastStep(s, p, v, n - |idx|);
    CutExtend(s, p, idx);
    Regroup(RemoveLast(s[..p - 1], v, n - |idx|), s[p - 1], Cut(s, p, idx));
  }

  lemma {:induction false} RemoveLastStep(s: seq<Bytes>, p: nat, v: Bytes, n: nat)
    requires 0 < p <= |s|
    ensures RemoveLast(s[..p], v, n) ==
            if s[p - 1] == v && n > 0 then RemoveLast(s[..p - 1], v, n - 1)
              else RemoveLast(s[..p - 1], v, n) + [s[p - 1]]
  {
    assert s[..p][..p - 1] == s[..p - 1];
    if n == 0 {
      assert s[..p] == s[..p - 1] + [s[p - 1]];
    }
  }

  lemma {:induction false} Regroup(a: seq<Bytes>, x: Bytes, b: seq<Bytes>)
    ensures (a + [x]) + b == a + ([x] + b)
  {
  }

  /** Removing at descending indices never disturbs an index still to come. */
  method RemoveAt(s: seq<Bytes>, idx: seq<nat>) returns (r: seq<Bytes>)
    requires Descending(idx, 0, |s|)
    ensures r == Cut(s, 0, idx)
  {
    r := s;
    ghost var q := |s|;
    for k := 0 to |idx|
      invariant q == if k == 0 then |s| else idx[k - 1]
      invariant Descending(idx[..k], q, |s|)
      invariant r == s[..q] + Cut(s, q, idx[..k])
    {
      var i := idx[k];
      r := r[..i] + r[i + 1..];
      CutStep(s, q, idx, k);
      q := i;
    }
    assert idx[..|idx|] == idx;
    CutFromZero(s, q, idx);
  }

  lemma {:induction false} CutStep(s: seq<Bytes>, q: nat, idx: seq<nat>, k: nat)
    requires k < |idx| && Descending(idx, 0, |s|)
    requires q == if k == 0 then |s| else idx[k - 1]
    requires Descending(idx[..k], q, |s|)
    ensures idx[k] < q && Descending(idx[..k + 1], idx[k], |s|)
    ensures Cut(s, idx[k], idx[..k + 1]) == s[idx[k] + 1..q] + Cut(s, q, idx[..k])
  {
    var i := idx[k];
    assert idx[..k + 1][..k] == idx[..k] && idx[..k + 1][k] == i;
    if k == 0 {
      assert s[i + 1..] == s[i + 1..q] + s[q..];
    } else {
      assert idx[..k][k - 1] == q;
    }
  }

  lemma {:induction false} CutFromZero(s: seq<Bytes>, q: nat, idx: seq<nat>)
    requires Descending(idx, 0, |s|) && q == if |idx| == 0 then |s| else idx[|idx| - 1]
    requires Descending(idx, q, |s|)
    ensures Cut(s, 0, idx) == s[..q] + Cut(s, q, idx)
  {
  }

  /** The body of LREM. */
  method LremLoop(s: seq<Bytes>, count: i64, v: Bytes) returns (r: seq<Bytes>, removed: nat)
    ensures r == Lrem(s, v, count)
    ensures removed == |s| - |r|
    ensures removed == Min(LremLimit(s, count), multiset(s)[v])
  {
    match ParseLremCount(count) {
      case Head(n) =>
        r := RetainHead(s, v, n);
      case Tail(n) =>
        var idx := CollectTail(s, v, n);
        r := RemoveAt(s, idx);
        RemoveLastIsReversed(s, v, n);
      case All =>
        r := RetainOthers(s, v);
    }
    LremLaws(s, v, count);
    removed := |s| - |r|;
  }

  // ----- ends -----

  function Peek(s: seq<Bytes>, e: ListEnd): Bytes
    requires s != []
  {
    if e.Left? then s[0] else s[|s| - 1]
  }

  function Pop(s: seq<Bytes>, e: ListEnd): seq<Bytes>
    requires s != []
  {
    if e.Left? then s[1..] else s[..|s| - 1]
  }

  function Push(s: seq<Bytes>, v: Bytes, e: ListEnd): seq<Bytes> {
    if e.Left? then [v] + s else s + [v]
  }

  function PushAll(s: seq<Bytes>, vs: seq<Bytes>, e: ListEnd): seq<Bytes> {
    if vs == [] then s else Push(PushAll(s, vs[..|vs| - 1], e), vs[|vs| - 1], e)
  }

  /** Up to `n` elements from one end, in the order they come off. */
  function PopMany(s: seq<Bytes>, n: nat, e: ListEnd): (r: (seq<Bytes>, seq<Bytes>))
    ensures |r.0| == Min(n, |s|) && |r.0| + |r.1| == |s|
  {
    if n == 0 || s == [] then ([], s)
    else
      var rest := PopMany(Pop(s, e), n - 1, e);
      ([Peek(s, e)] + rest.0, rest.1)
  }

  /** LPUSH then RPUSH order: pushing left reverses, pushing right appends. */
  lemma {:induction false} PushAllMeaning(s: seq<Bytes>, vs: seq<Bytes>)
    ensures PushAll(s, vs, Right) == s + vs
    ensures PushAll(s, vs, Left) == Reverse(vs) + s
  {
    if vs != [] {
      var init, last := vs[..|vs| - 1], vs[|vs| - 1];
      PushAllMeaning(s, init);
      assert vs == init + [last];
      ReverseSnoc(init, last);
    }
  }

  /** The left end is the front, the right end the back: what comes off, and what stays. */
  lemma {:induction false} EndsMeaning(s: seq<Bytes>)
    requires s != []
    ensures [Peek(s, Left)] + Pop(s, Left) == s
    ensures Pop(s, Right) + [Peek(s, Right)] == s
  {
  }

  /** Several pops from the left take the front as it stands. */
  lemma {:induction false} PopLeftMeaning(s: seq<Bytes>, n: nat)
    ensures PopMany(s, n, Left) == (s[..Min(n, |s|)], s[Min(n, |s|)..])
    decreases n
  {
    if n > 0 && s != [] {
      PopLeftMeaning(s[1..], n - 1);
      var k := Min(n, |s|);
      assert s[..k] == [s[0]] + s[1..][..k - 1] && s[k..] == s[1..][k - 1..];
    }
  }

  /** Several pops from the right take the back, last element first. */
  lemma {:induction false} PopRightMeaning(s: seq<Bytes>, n: nat)
    ensures PopMany(s, n, Right) == (Reverse(s[|s| - Min(n, |s|)..]), s[..|s| - Min(n, |s|)])
    decreases n
  {
    if n > 0 && s != [] {
      var init, last := s[..|s| - 1], s[|s| - 1];
      PopRightMeaning(init, n - 1);
      var k := Min(n, |s|);
      assert s[|s| - k..] == init[|init| - (k - 1)..] + [last];
      ReverseSnoc(init[|init| - (k - 1)..], last);
      assert init[..|init| - (k - 1)] == s[..|s| - k];
    } else {
      assert s[|s|..] == [] && s[..|s|] == s;
    }
  }

  lemma {:induction false} PopConserves(s: seq<Bytes>, e: ListEnd)
    requires s != []
    ensures multiset(Pop(s, e)) + multiset{Peek(s, e)} == multiset(s)
  {
    if e.Left? {
      assert s == [s[0]] + s[1..];
    } else {
      assert s == s[..|s| - 1] + [s[|s| - 1]];
    }
  }

  lemma {:induction false} PushConserves(s: seq<Bytes>, v: Bytes, e: ListEnd)
    ensures multiset(Push(s, v, e)) == multiset(s) + multiset{v}
  {
  }

  function Rotate(s: seq<Bytes>): seq<Bytes>
    requires s != []
  {
    Push(Pop(s, Right), Peek(s, Right), Left)
  }

  function RotateN(s: seq<Bytes>, n: nat): (r: seq<Bytes>)
    requires s != []
    ensures |r| == |s|
  {
    if n == 0 then s else Rotate(RotateN(s, n - 1))
  }

  /** After `n` rotations the last `n` elements have come to the front. */
  lemma {:induction false} RotateNMeaning(s: seq<Bytes>, n: nat)
    requires s != [] && n <= |s|
    ensures RotateN(s, n) == s[|s| - n..] + s[..|s| - n]
  {
    if n > 0 {
      RotateNMeaning(s, n - 1);
      var k := |s| - n;
      var before := s[k + 1..] + s[..k + 1];
      assert s[..k + 1] == s[..k] + [s[k]];
      assert before[|before| - 1] == s[k] && before[..|before| - 1] == s[k + 1..] + s[..k];
      assert s[k..] == [s[k]] + s[k + 1..];
    }
  }

  lemma {:induction false} FullRotation(s: seq<Bytes>)
    requires s != []
    ensures RotateN(s, |s|) == s
  {
    RotateNMeaning(s, |s|);
  }
}
