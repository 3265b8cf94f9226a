/**
 The dual-index sorted set and the Z* commands on one value. Functions give the meaning of
 each step on values; class `SortedSetIndex` is the object the commands update in place.
 */
module SortedSets {
  import opened Prelude
  import opened Ordering
  import opened Values

  // ----- the two indices describe one relation -----

  ghost predicate ZsetValid(z: Zset) {
    && (forall m :: m in z.byMember ==> ZKey(z.byMember[m], m) in z.byScore)
    && (forall k :: k in z.byScore ==> k.member in z.byMember && z.byMember[k.member] == k.score)
  }

  /** The relation read off the member index alone. */
  function KeysOf(m: map<Bytes, Score>): set<ZKey> {
    set x | x in m :: ZKey(m[x], x)
  }

  lemma {:induction false} ValidIsKeysOf(z: Zset)
    ensures ZsetValid(z) <==> z.byScore == KeysOf(z.byMember)
  {
  }

  lemma {:induction false} InKeysOf(m: map<Bytes, Score>, k: ZKey)
    ensures k in KeysOf(m) <==> k.member in m && m[k.member] == k.score
  {
  }

  lemma {:induction false} KeysOfSize(m: map<Bytes, Score>)
    ensures |KeysOf(m)| == |m|
    decreases |m|
  {
    if m == map[] {
      assert KeysOf(m) == {};
    } else {
      var x :| x in m;
      var rest := m - {x};
      assert rest.Keys == m.Keys - {x};
      KeysOfSize(rest);
      forall k ensures k in KeysOf(m) <==> k in KeysOf(rest) || k == ZKey(m[x], x) {
        InKeysOf(m, k);
        InKeysOf(rest, k);
      }
      assert KeysOf(m) == KeysOf(rest) + {ZKey(m[x], x)};
      assert ZKey(m[x], x) !in KeysOf(rest);
    }
  }

  // ----- insert and remove -----

  function Inserted(z: Zset, member: Bytes, score: Score): Zset {
    if member in z.byMember then
      Zset(z.byScore - {ZKey(z.byMember[member], member)} + {ZKey(score, member)}, z.byMember[member := score])
    else
      Zset(z.byScore + {ZKey(score, member)}, z.byMember[member := score])
  }

  function Removed(z: Zset, member: Bytes): Zset {
    if member in z.byMember then
      Zset(z.byScore - {ZKey(z.byMember[member], member)}, z.byMember - {member})
    else z
  }

  lemma {:induction false} InsertKeepsValid(z: Zset, member: Bytes, score: Score)
    requires ZsetValid(z)
    ensures ZsetValid(Inserted(z, member, score))
  {
  }

  lemma {:induction false} RemoveKeepsValid(z: Zset, member: Bytes)
    requires ZsetValid(z)
    ensures ZsetValid(Removed(z, member))
  {
  }

  // ----- ZADD -----

  datatype ZaddFlags = ZaddFlags(nx: bool, xx: bool, gt: bool, lt: bool, ch: bool)

  /** Whether ZADD writes `score` for `member`, given what the set holds. */
  predicate ZaddWrites(z: Zset, member: Bytes, score: Score, fl: ZaddFlags) {
    if member in z.byMember then
      && !fl.nx
      && !(fl.gt && ScoreLeq(score, z.byMember[member]))
      && !(fl.lt && ScoreLeq(z.byMember[member], score))
      && score != z.byMember[member]
    else !fl.xx
  }

  function ZaddStep(z: Zset, item: ZKey, fl: ZaddFlags): Zset {
    if ZaddWrites(z, item.member, item.score, fl) then Inserted(z, item.member, item.score) else z
  }

  function ZaddAll(z: Zset, items: seq<ZKey>, fl: ZaddFlags): Zset {
    if items == [] then z
    else ZaddStep(ZaddAll(z, items[..|items| - 1], fl), items[|items| - 1], fl)
  }

  /** How many items changed the set, and how many of those added a member. */
  function ZaddChanged(z: Zset, items: seq<ZKey>, fl: ZaddFlags): nat {
    if items == [] then 0
    else
      var before := ZaddAll(z, items[..|items| - 1], fl);
      var last := items[|items| - 1];
      ZaddChanged(z, items[..|items| - 1], fl) + (if ZaddWrites(before, last.member, last.score, fl) then 1 else 0)
  }

  /** The score listed last for `m`, if any. */
  function LastListed(items: seq<ZKey>, m: Bytes): Option<Score> {
    if items == [] then None
    else if items[|items| - 1].member == m then Some(items[|items| - 1].score)
    else LastListed(items[..|items| - 1], m)
  }

  function ScoreOf(z: Zset, m: Bytes): Option<Score> {
    if m in z.byMember then Some(z.byMember[m]) else None
  }

  /**
   What ZADD does under every mix of flags: both indices stay in agreement, NX keeps every old
   score, XX adds nobody, GT never lowers and LT never raises a score, members that are not listed
   are untouched, and without conditions the last listed score wins.
   */
  lemma {:induction false} ZaddLaws(z: Zset, items: seq<ZKey>, fl: ZaddFlags)
    requires ZsetValid(z)
    ensures ZsetValid(ZaddAll(z, items, fl))
    ensures z.byMember.Keys <= ZaddAll(z, items, fl).byMember.Keys
    ensures fl.nx ==> forall m :: m in z.byMember ==> ScoreOf(ZaddAll(z, items, fl), m) == ScoreOf(z, m)
    ensures fl.xx ==> ZaddAll(z, items, fl).byMember.Keys == z.byMember.Keys
    ensures fl.gt ==> forall m :: m in z.byMember ==> ScoreLeq(z.byMember[m], ZaddAll(z, items, fl).byMember[m])
    ensures fl.lt ==> forall m :: m in z.byMember ==> ScoreLeq(ZaddAll(z, items, fl).byMember[m], z.byMember[m])
    ensures forall m :: LastListed(items, m).None? ==> ScoreOf(ZaddAll(z, items, fl), m) == ScoreOf(z, m)
    ensures !fl.nx && !fl.xx && !fl.gt && !fl.lt ==>
              forall m :: LastListed(items, m).Some? ==> ScoreOf(ZaddAll(z, items, fl), m) == LastListed(items, m)
  {
    if items != [] {
      var before := ZaddAll(z, items[..|items| - 1], fl);
      var last := items[|items| - 1];
      ZaddLaws(z, items[..|items| - 1], fl);
      InsertKeepsValid(before, last.member, last.score);
    }
  }

  /** Every score listed for `m` is at most, or at least, `s`. */
  ghost predicate ListedBelow(items: seq<ZKey>, m: Bytes, s: Score) {
    forall i :: 0 <= i < |items| && items[i].member == m ==> ScoreLeq(items[i].score, s)
  }

  ghost predicate ListedAbove(items: seq<ZKey>, m: Bytes, s: Score) {
    forall i :: 0 <= i < |items| && items[i].member == m ==> ScoreLeq(s, items[i].score)
  }

  /** The score listed first for `m`, if any. */
  function FirstListed(items: seq<ZKey>, m: Bytes): Option<Score> {
    if items == [] then None
    else
      var earlier := FirstListed(items[..|items| - 1], m);
      if earlier.Some? then earlier
      else if items[|items| - 1].member == m then Some(items[|items| - 1].score)
      else None
  }

  /**
   The score ZADD leaves is the old one or a listed one; XX adds nobody, NX gives a new member the score listed first.
   */
  lemma {:induction false} ZaddSource(z: Zset, items: seq<ZKey>, fl: ZaddFlags, m: Bytes)
    ensures var r := ScoreOf(ZaddAll(z, items, fl), m);
            && (r == ScoreOf(z, m) || exists i :: 0 <= i < |items| && items[i].member == m && r == Some(items[i].score))
            && (m in z.byMember && (fl.nx || (fl.gt && fl.lt)) ==> r == ScoreOf(z, m))
            && (m !in z.byMember && fl.nx ==> r == if fl.xx then None else FirstListed(items, m))
            && (r.None? <==> m !in z.byMember && (fl.xx || FirstListed(items, m).None?))
  {
    if items != [] {
      var init, last := items[..|items| - 1], items[|items| - 1];
      ZaddSource(z, init, fl, m);
      ZaddScoreStep(ZaddAll(z, init, fl), last, fl, m);
      var before, r := ScoreOf(ZaddAll(z, init, fl), m), ScoreOf(ZaddAll(z, items, fl), m);
      if r != before {
        assert items[|items| - 1].member == m && r == Some(items[|items| - 1].score);
      } else if before != ScoreOf(z, m) {
        var i :| 0 <= i < |init| && init[i].member == m && r == Some(init[i].score);
        assert items[i].member == m && r == Some(items[i].score);
      }
    }
  }

  /** With `ZaddSource`: GT leaves the greatest of the old score and the listed ones, LT the least. */
  lemma {:induction false} ZaddExtreme(z: Zset, items: seq<ZKey>, fl: ZaddFlags, m: Bytes)
    requires !fl.nx && fl.gt != fl.lt && m in ZaddAll(z, items, fl).byMember
    ensures var r := ZaddAll(z, items, fl).byMember[m];
            && (fl.gt ==> ListedBelow(items, m, r) && (m in z.byMember ==> ScoreLeq(z.byMember[m], r)))
            && (fl.lt ==> ListedAbove(items, m, r) && (m in z.byMember ==> ScoreLeq(r, z.byMember[m])))
  {
    if items != [] {
      var init, last := items[..|items| - 1], items[|items| - 1];
      var before := ZaddAll(z, init, fl);
      var r := ZaddAll(z, items, fl).byMember[m];
      ZaddScoreStep(before, last, fl, m);
      ListedSnoc(items, m, r);
      if m in before.byMember {
        ZaddExtreme(z, init, fl, m);
      } else {
        ZaddSource(z, init, fl, m);
        NotListed(init, m);
      }
    }
  }

  lemma {:induction false} NotListed(items: seq<ZKey>, m: Bytes)
    requires FirstListed(items, m).None?
    ensures forall i :: 0 <= i < |items| ==> items[i].member != m
  {
    if items != [] {
      NotListed(items[..|items| - 1], m);
      forall i | 0 <= i < |items| ensures items[i].member != m {
        if i < |items| - 1 { assert items[..|items| - 1][i] == items[i]; }
      }
    }
  }

  /** What one item does to the score of `m`. */
  lemma {:induction false} ZaddScoreStep(z: Zset, item: ZKey, fl: ZaddFlags, m: Bytes)
    ensures var before, after := ScoreOf(z, m), ScoreOf(ZaddStep(z, item, fl), m);
            if item.member != m then after == before
            else if before.None? then after == if fl.xx then None else Some(item.score)
            else if fl.nx || (fl.gt && ScoreLeq(item.score, before.value))
                    || (fl.lt && ScoreLeq(before.value, item.score)) then after == before
            else after == Some(item.score)
  {
  }

  lemma {:induction false} ListedSnoc(items: seq<ZKey>, m: Bytes, s: Score)
    requires items != []
    ensures var init, last := items[..|items| - 1], items[|items| - 1];
            && (ListedBelow(items, m, s) <==> ListedBelow(init, m, s) && (last.member == m ==> ScoreLeq(last.score, s)))
            && (ListedAbove(items, m, s) <==> ListedAbove(init, m, s) && (last.member == m ==> ScoreLeq(s, last.score)))
  {
  }

  /** The members whose presence or score differs. */
  ghost function Differing(a: Zset, b: Zset): set<Bytes> {
    set m | m in a.byMember.Keys + b.byMember.Keys && ScoreOf(a, m) != ScoreOf(b, m)
  }

  ghost predicate Lists(items: seq<ZKey>, m: Bytes) {
    exists i :: 0 <= i < |items| && items[i].member == m
  }

  /** Only listed members can differ. */
  lemma {:induction false} DiffersListed(z: Zset, items: seq<ZKey>, fl: ZaddFlags, m: Bytes)
    ensures m in Differing(z, ZaddAll(z, items, fl)) ==> Lists(items, m)
  {
    if items != [] {
      var init, last := items[..|items| - 1], items[|items| - 1];
      ZaddScoreStep(ZaddAll(z, init, fl), last, fl, m);
      DiffersListed(z, init, fl, m);
      if last.member == m {
        assert items[|items| - 1].member == m;
      } else if i :| 0 <= i < |init| && init[i].member == m {
        assert items[i].member == m;
      }
    }
  }

  /** With CH and each member listed once, the reply is the number of members that were added or rescored. */
  lemma {:induction false} ZaddChangedCounts(z: Zset, items: seq<ZKey>, fl: ZaddFlags)
    requires forall i, j :: 0 <= i < j < |items| ==> items[i].member != items[j].member
    ensures ZaddChanged(z, items, fl) == |Differing(z, ZaddAll(z, items, fl))|
  {
    if items == [] {
      assert Differing(z, z) == {};
    } else {
      var init, last := items[..|items| - 1], items[|items| - 1];
      ZaddChangedCounts(z, init, fl);
      DiffersListed(z, init, fl, last.member);
      assert forall i :: 0 <= i < |init| ==> init[i] == items[i] && init[i].member != last.member;
      OneMoreDiffers(z, ZaddAll(z, init, fl), last, fl);
    }
  }

  /** An item about a member that did not differ yet changes the difference by that member or not at all. */
  lemma {:induction false} OneMoreDiffers(z: Zset, before: Zset, item: ZKey, fl: ZaddFlags)
    requires item.member !in Differing(z, before)
    ensures Differing(z, ZaddStep(before, item, fl)) ==
            if ZaddWrites(before, item.member, item.score, fl) then Differing(z, before) + {item.member}
            else Differing(z, before)
  {
    var now := Differing(z, ZaddStep(before, item, fl));
    assert ScoreOf(z, item.member) == ScoreOf(before, item.member);
    forall m ensures m in now <==>
                     m in Differing(z, before) || (m == item.member && ZaddWrites(before, m, item.score, fl)) {
      ZaddScoreStep(before, item, fl, m);
    }
  }

  /** ZADD's reply: members added without CH, members added or rescored with CH. */
  function ZaddReply(z: Zset, items: seq<ZKey>, fl: ZaddFlags): int {
    if fl.ch then ZaddChanged(z, items, fl)
    else |ZaddAll(z, items, fl).byMember| - |z.byMember|
  }

  // ----- ZREM -----

  function RemoveAll(z: Zset, members: seq<Bytes>): Zset {
    if members == [] then z else Removed(RemoveAll(z, members[..|members| - 1]), members[|members| - 1])
  }

  lemma {:induction false} RemoveAllMeaning(z: Zset, members: seq<Bytes>)
    requires ZsetValid(z)
    ensures ZsetValid(RemoveAll(z, members))
    ensures RemoveAll(z, members).byMember == z.byMember - Elems(members)
  {
    if members != [] {
      var init := members[..|members| - 1];
      RemoveAllMeaning(z, init);
      RemoveKeepsValid(RemoveAll(z, init), members[|members| - 1]);
      assert members == init + [members[|members| - 1]];
      assert Elems(members) == Elems(init) + {members[|members| - 1]};
    } else {
      assert Elems(members) == {};
    }
  }

  // ----- range scans by score -----

  datatype ScoreBound = Inclusive(value: Score) | Exclusive(value: Score)

  predicate AboveMin(s: Score, lo: ScoreBound) {
    match lo
    case Inclusive(v) => ScoreLeq(v, s)
    case Exclusive(v) => ScoreLess(v, s)
  }

  predicate BelowMax(s: Score, hi: ScoreBound) {
    match hi
    case Inclusive(v) => ScoreLeq(s, v)
    case Exclusive(v) => ScoreLess(s, v)
  }

  predicate InBounds(s: Score, lo: ScoreBound, hi: ScoreBound) {
    AboveMin(s, lo) && BelowMax(s, hi)
  }

  /**
   Bounds: an inclusive bound admits its own score and an exclusive one does not, on every other score the two agree,
   and the scores between two admitted ones are admitted.
   */
  lemma {:induction false} BoundsMeaning(lo: ScoreBound, hi: ScoreBound, s: Score)
    ensures InBounds(s, Inclusive(s), Inclusive(s)) && !InBounds(s, Exclusive(s), hi) && !InBounds(s, lo, Exclusive(s))
    ensures s != lo.value ==> (InBounds(s, lo, hi) <==> InBounds(s, Inclusive(lo.value), hi))
    ensures s != hi.value ==> (InBounds(s, lo, hi) <==> InBounds(s, lo, Inclusive(hi.value)))
    ensures InBounds(s, Inclusive(NegInf), Inclusive(PosInf))
    ensures forall a, b :: InBounds(a, lo, hi) && InBounds(b, lo, hi) && ScoreLess(a, s) && ScoreLess(s, b) ==>
                           InBounds(s, lo, hi)
    ensures ScoreLess(s, lo.value) || ScoreLess(hi.value, s) ==> !InBounds(s, lo, hi)
  {
  }

  /** The plain meaning of a score range: filter everything, then sort by (score, member). */
  function RangeByScore(z: Zset, lo: ScoreBound, hi: ScoreBound): seq<ZKey> {
    SortedKeys(set k | k in z.byScore && InBounds(k.score, lo, hi))
  }

  /** In terms of the member index: every member whose score is in bounds, once, in order. */
  lemma {:induction false} RangeByMember(z: Zset, lo: ScoreBound, hi: ScoreBound)
    requires ZsetValid(z)
    ensures RangeByScore(z, lo, hi) ==
            SortedKeys(set m | m in z.byMember && InBounds(z.byMember[m], lo, hi) :: ZKey(z.byMember[m], m))
  {
    var a := set k | k in z.byScore && InBounds(k.score, lo, hi);
    var b := set m | m in z.byMember && InBounds(z.byMember[m], lo, hi) :: ZKey(z.byMember[m], m);
    forall k ensures k in a <==> k in b {
      if k in a { assert k == ZKey(z.byMember[k.member], k.member); }
    }
    assert a == b;
  }

  lemma {:induction false} FromLowerBound(k: ZKey, min: Score)
    ensures ZKeyLess(k, ZKey(min, [])) <==> ScoreLess(k.score, min)
  {
  }

  ghost predicate ScoresAscend(keys: seq<ZKey>) {
    forall i, j :: 0 <= i <= j < |keys| ==> ScoreLeq(keys[i].score, keys[j].score)
  }

  lemma {:induction false} SortedScoresAscend(keys: seq<ZKey>)
    requires Ascending(keys, ZKeyLess)
    ensures ScoresAscend(keys)
  {
  }

  /** From index `i` on no score is below `v`, if the first one is not. */
  lemma {:induction false} NoneBelow(keys: seq<ZKey>, i: nat, v: Score)
    requires ScoresAscend(keys)
    requires i < |keys| ==> !ScoreLess(keys[i].score, v)
    ensures forall k :: i <= k < |keys| ==> !ScoreLess(keys[k].score, v)
  {
  }

  lemma {:induction false} NoneEqual(keys: seq<ZKey>, i: nat, lo: ScoreBound)
    requires ScoresAscend(keys)
    requires forall k :: i <= k < |keys| ==> !ScoreLess(keys[k].score, lo.value)
    requires i < |keys| && lo.Exclusive? ==> keys[i].score != lo.value
    ensures forall k :: i <= k < |keys| ==> AboveMin(keys[k].score, lo)
  {
  }

  lemma {:induction false} NoneInside(keys: seq<ZKey>, i: nat, hi: ScoreBound)
    requires ScoresAscend(keys)
    requires i < |keys| ==> !BelowMax(keys[i].score, hi)
    ensures forall k :: i <= k < |keys| ==> !BelowMax(keys[k].score, hi)
  {
  }

  /** The BTreeMap range start: the first key at or above (min, empty member). */
  method SeekLower(keys: seq<ZKey>, lo: ScoreBound) returns (i: nat)
    requires ScoresAscend(keys)
    ensures i <= |keys|
    ensures forall k :: 0 <= k < i ==> ScoreLess(keys[k].score, lo.value)
    ensures forall k :: i <= k < |keys| ==> !ScoreLess(keys[k].score, lo.value)
  {
    var lower := ZKey(lo.value, []);
    i := 0;
    while i < |keys| && ZKeyLess(keys[i], lower)
      invariant i <= |keys|
      invariant forall k :: 0 <= k < i ==> ScoreLess(keys[k].score, lo.value)
    {
      FromLowerBound(keys[i], lo.value);
      i := i + 1;
    }
    if i < |keys| {
      FromLowerBound(keys[i], lo.value);
    }
    NoneBelow(keys, i, lo.value);
  }

  /**
   ZRANGEBYSCORE as the code runs it: start at (min, empty member), skip the members at the
   bound when it is exclusive, then take while the score is below the maximum.
   */
  method ScanByScore(z: Zset, lo: ScoreBound, hi: ScoreBound) returns (r: seq<ZKey>)
    ensures r == RangeByScore(z, lo, hi)
  {
    var keys := SortedKeys(z.byScore);
    SortedScoresAscend(keys);
    var i := SeekLower(keys, lo);
    while i < |keys| && lo.Exclusive? && keys[i].score == lo.value
      invariant i <= |keys|
      invariant forall k :: 0 <= k < i ==> !AboveMin(keys[k].score, lo)
      invariant forall k :: i <= k < |keys| ==> !ScoreLess(keys[k].score, lo.value)
    {
      i := i + 1;
    }
    NoneEqual(keys, i, lo);
    var end;
    r, end := TakeBelow(keys, i, hi);
    SliceIsFilter(keys, i, end, z, lo, hi);
  }

  /** The final `take_while`. */
  method TakeBelow(keys: seq<ZKey>, start: nat, hi: ScoreBound) returns (r: seq<ZKey>, i: nat)
    requires start <= |keys| && ScoresAscend(keys)
    ensures start <= i <= |keys| && r == keys[start..i]
    ensures forall k :: start <= k < |keys| ==> (k < i <==> BelowMax(keys[k].score, hi))
  {
    i, r := start, [];
    while i < |keys| && BelowMax(keys[i].score, hi)
      invariant start <= i <= |keys|
      invariant r == keys[start..i]
      invariant forall k :: start <= k < i ==> BelowMax(keys[k].score, hi)
    {
      r := r + [keys[i]];
      i := i + 1;
    }
    NoneInside(keys, i, hi);
  }

  lemma {:induction false} SliceMembers(keys: seq<ZKey>, start: nat, end: nat, lo: ScoreBound, hi: ScoreBound, x: ZKey)
    requires start <= end <= |keys|
    requires forall k :: 0 <= k < |keys| ==> (start <= k < end <==> InBounds(keys[k].score, lo, hi))
    ensures x in keys[start..end] <==> x in keys && InBounds(x.score, lo, hi)
  {
  }

  /** A slice that holds exactly the in-bounds keys of the sorted index is the sorted filter. */
  lemma {:induction false} SliceIsFilter(keys: seq<ZKey>, start: nat, end: nat, z: Zset, lo: ScoreBound, hi: ScoreBound)
    requires start <= end <= |keys|
    requires keys == SortedKeys(z.byScore)
    requires forall k :: 0 <= k < |keys| ==> (start <= k < end <==> InBounds(keys[k].score, lo, hi))
    ensures keys[start..end] == RangeByScore(z, lo, hi)
  {
    var r := keys[start..end];
    assert Ascending(r, ZKeyLess);
    forall x ensures x in r <==> x in z.byScore && InBounds(x.score, lo, hi) {
      SliceMembers(keys, start, end, lo, hi, x);
    }
    IsSortedKeys(r, set k | k in z.byScore && InBounds(k.score, lo, hi));
  }

  // ----- ZREMRANGEBYSCORE, ZRANGESTORE, ZRANGE -----

  function MembersOf(keys: seq<ZKey>): (r: seq<Bytes>)
    ensures |r| == |keys|
    ensures forall i :: 0 <= i < |keys| ==> r[i] == keys[i].member
  {
    seq(|keys|, i requires 0 <= i < |keys| => keys[i].member)
  }

  function RemoveRange(z: Zset, lo: ScoreBound, hi: ScoreBound): Zset {
    RemoveAll(z, MembersOf(RangeByScore(z, lo, hi)))
  }

  lemma {:induction false} InRange(z: Zset, lo: ScoreBound, hi: ScoreBound, m: Bytes)
    requires ZsetValid(z)
    ensures m in MembersOf(RangeByScore(z, lo, hi)) <==> m in z.byMember && InBounds(z.byMember[m], lo, hi)
    ensures m in z.byMember && InBounds(z.byMember[m], lo, hi) ==> ZKey(z.byMember[m], m) in RangeByScore(z, lo, hi)
  {
    var keys := RangeByScore(z, lo, hi);
    if m in z.byMember && InBounds(z.byMember[m], lo, hi) {
      assert ZKey(z.byMember[m], m) in keys;
      var i :| 0 <= i < |keys| && keys[i] == ZKey(z.byMember[m], m);
      assert MembersOf(keys)[i] == m;
    }
    if m in MembersOf(keys) {
      var i :| 0 <= i < |keys| && MembersOf(keys)[i] == m;
      assert keys[i] in keys;
    }
  }

  /** ZREMRANGEBYSCORE keeps exactly the members whose score is out of bounds. */
  lemma {:induction false} RemoveRangeMeaning(z: Zset, lo: ScoreBound, hi: ScoreBound)
    requires ZsetValid(z)
    ensures ZsetValid(RemoveRange(z, lo, hi))
    ensures forall m :: ScoreOf(RemoveRange(z, lo, hi), m) ==
                        if m in z.byMember && !InBounds(z.byMember[m], lo, hi) then Some(z.byMember[m]) else None
  {
    var members := MembersOf(RangeByScore(z, lo, hi));
    RemoveAllMeaning(z, members);
    forall m ensures ScoreOf(RemoveRange(z, lo, hi), m) ==
                     if m in z.byMember && !InBounds(z.byMember[m], lo, hi) then Some(z.byMember[m]) else None {
      InRange(z, lo, hi, m);
      assert m in Elems(members) <==> m in members;
    }
  }

  /** ZRANGESTORE's destination: the range inserted into an empty set. */
  function StoreRange(z: Zset, lo: ScoreBound, hi: ScoreBound): Zset {
    ZaddAll(EMPTY_ZSET, RangeByScore(z, lo, hi), ZaddFlags(false, false, false, false, false))
  }

  lemma {:induction false} LastListedDistinct(keys: seq<ZKey>, m: Bytes)
    requires forall i, j :: 0 <= i < |keys| && 0 <= j < |keys| && keys[i].member == keys[j].member ==>
             keys[i] == keys[j]
    ensures LastListed(keys, m).Some? <==> exists k :: k in keys && k.member == m
    ensures forall k :: k in keys && k.member == m ==> LastListed(keys, m) == Some(k.score)
  {
    if keys != [] {
      var init := keys[..|keys| - 1];
      LastListedDistinct(init, m);
      assert keys == init + [keys[|keys| - 1]];
      assert forall k :: k in keys <==> k in init || k == keys[|keys| - 1];
    }
  }

  lemma {:induction false} RangeScoreOf(z: Zset, lo: ScoreBound, hi: ScoreBound, m: Bytes)
    requires ZsetValid(z)
    ensures LastListed(RangeByScore(z, lo, hi), m) ==
            if m in z.byMember && InBounds(z.byMember[m], lo, hi) then Some(z.byMember[m]) else None
  {
    var keys := RangeByScore(z, lo, hi);
    forall i, j | 0 <= i < |keys| && 0 <= j < |keys| && keys[i].member == keys[j].member ensures keys[i] == keys[j] {
      assert keys[i] in keys && keys[j] in keys;
    }
    LastListedDistinct(keys, m);
    InRange(z, lo, hi, m);
    if LastListed(keys, m).Some? {
      var k :| k in keys && k.member == m;
    }
  }

  /** The destination of ZRANGESTORE holds exactly the source members in bounds. */
  lemma {:induction false} StoreRangeMeaning(z: Zset, lo: ScoreBound, hi: ScoreBound)
    requires ZsetValid(z)
    ensures ZsetValid(StoreRange(z, lo, hi))
    ensures forall m :: ScoreOf(StoreRange(z, lo, hi), m) ==
                        if m in z.byMember && InBounds(z.byMember[m], lo, hi) then Some(z.byMember[m]) else None
  {
    var keys := RangeByScore(z, lo, hi);
    ZaddLaws(EMPTY_ZSET, keys, ZaddFlags(false, false, false, false, false));
    forall m ensures ScoreOf(StoreRange(z, lo, hi), m) ==
                     if m in z.byMember && InBounds(z.byMember[m], lo, hi) then Some(z.byMember[m]) else None {
      RangeScoreOf(z, lo, hi, m);
    }
  }

  // ----- the object -----

  /** After the first `i` items: the set, the members added and the items that changed something. */
  ghost predicate ZaddSoFar(z: Zset, items: seq<ZKey>, i: nat, fl: ZaddFlags, now: Zset, added: int, changed: int)
    requires i <= |items|
  {
    && now == ZaddAll(z, items[..i], fl)
    && changed == ZaddChanged(z, items[..i], fl)
    && added == |now.byMember| - |z.byMember|
  }

  lemma {:induction false} ZaddNext(z: Zset, items: seq<ZKey>, i: nat, fl: ZaddFlags, now: Zset, added: int,
                                    changed: int)
    requires i < |items| && ZaddSoFar(z, items, i, fl, now, added, changed)
    ensures var writes := ZaddWrites(now, items[i].member, items[i].score, fl);
            var next := if writes then Inserted(now, items[i].member, items[i].score) else now;
            ZaddSoFar(z, items, i + 1, fl, next,
                      added + (if writes && items[i].member !in now.byMember then 1 else 0),
                      changed + (if writes then 1 else 0))
  {
    var member, score := items[i].member, items[i].score;
    assert items[..i + 1][..i] == items[..i];
    if member in now.byMember {
      assert now.byMember[member := score].Keys == now.byMember.Keys;
    } else {
      assert now.byMember[member := score].Keys == now.byMember.Keys + {member};
    }
  }

  /** The sorted set as the commands hold it: two indices updated in place. */
  class SortedSetIndex {
    var byScore: set<ZKey>
    var byMember: map<Bytes, Score>

    ghost function Value(): Zset
      reads this
    {
      Zset(byScore, byMember)
    }

    constructor (z: Zset)
      ensures Value() == z
    {
      byScore, byMember := z.byScore, z.byMember;
    }

    /** Reports whether the member is new. */
    method Insert(member: Bytes, score: Score) returns (isNew: bool)
      modifies this
      ensures Value() == Inserted(old(Value()), member, score)
      ensures isNew <==> member !in old(byMember)
      ensures ZsetValid(old(Value())) ==> ZsetValid(Value())
    {
      if member in byMember {
        byScore := byScore - {ZKey(byMember[member], member)};
        byScore := byScore + {ZKey(score, member)};
        byMember := byMember[member := score];
        isNew := false;
      } else {
        byScore := byScore + {ZKey(score, member)};
        byMember := byMember[member := score];
        isNew := true;
      }
    }

    /** Reports whether the member existed. */
    method Remove(member: Bytes) returns (existed: bool)
      modifies this
      ensures Value() == Removed(old(Value()), member)
      ensures existed <==> member in old(byMember)
      ensures ZsetValid(old(Value())) ==> ZsetValid(Value())
    {
      if member in byMember {
        var score := byMember[member];
        byMember := byMember - {member};
        byScore := byScore - {ZKey(score, member)};
        existed := true;
      } else {
        existed := false;
      }
    }

    method Zadd(items: seq<ZKey>, fl: ZaddFlags) returns (reply: int)
      modifies this
      ensures Value() == ZaddAll(old(Value()), items, fl)
      ensures reply == ZaddReply(old(Value()), items, fl)
      ensures ZsetValid(old(Value())) ==> ZsetValid(Value())
    {
      ghost var z := Value();
      var added, changed := 0, 0;
      for i := 0 to |items|
        invariant ZaddSoFar(z, items, i, fl, Value(), added, changed)
      {
        ZaddNext(z, items, i, fl, Value(), added, changed);
        var score, member := items[i].score, items[i].member;
        if member in byMember {
          var oldScore := byMember[member];
          if fl.nx { continue; }
          if fl.gt && ScoreLeq(score, oldScore) { continue; }
          if fl.lt && ScoreLeq(oldScore, score) { continue; }
          if score != oldScore {
            var _ := Insert(member, score);
            changed := changed + 1;
          }
        } else {
          if fl.xx { continue; }
          var _ := Insert(member, score);
          added := added + 1;
          changed := changed + 1;
        }
      }
      assert items[..|items|] == items;
      if ZsetValid(z) {
        ZaddLaws(z, items, fl);
      }
      reply := if fl.ch then changed else added;
    }

    method Zrem(members: seq<Bytes>) returns (count: nat)
      modifies this
      ensures Value() == RemoveAll(old(Value()), members)
      ensures count == |old(byMember)| - |byMember|
      ensures ZsetValid(old(Value())) ==> ZsetValid(Value())
    {
      ghost var z := Value();
      count := 0;
      for i := 0 to |members|
        invariant Value() == RemoveAll(z, members[..i])
        invariant count == |z.byMember| - |byMember|
        invariant ZsetValid(z) ==> ZsetValid(Value())
      {
        assert members[..i + 1][..|members[..i + 1]| - 1] == members[..i];
        if members[i] in byMember {
          assert (byMember - {members[i]}).Keys == byMember.Keys - {members[i]};
        }
        var existed := Remove(members[i]);
        if existed {
          count := count + 1;
        }
      }
      assert members[..|members|] == members;
    }

    method ZremRangeByScore(lo: ScoreBound, hi: ScoreBound) returns (count: nat)
      modifies this
      ensures Value() == RemoveRange(old(Value()), lo, hi)
      ensures count == |RangeByScore(old(Value()), lo, hi)|
      ensures ZsetValid(old(Value())) ==> ZsetValid(Value())
    {
      var toRemove := ScanByScore(Zset(byScore, byMember), lo, hi);
      count := |toRemove|;
      var _ := Zrem(MembersOf(toRemove));
    }
  }
}
