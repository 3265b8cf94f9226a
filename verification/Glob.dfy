/**
 PSUBSCRIBE / KEYS glob patterns. `GlobMatch` is the iterative matcher with one remembered
 star; `Matches` is the declarative meaning of a pattern: its token list accepts the string.
 */
module Glob {
  import opened Prelude

  const BANG: byte := 33
  const STAR: byte := 42
  const DASH: byte := 45
  const QUESTION: byte := 63
  const LBRACKET: byte := 91
  const BACKSLASH: byte := 92
  const RBRACKET: byte := 93
  const CARET: byte := 94

  datatype ClassItem = Single(b: byte) | Range(lo: byte, hi: byte)

  /** `Never` is a trailing backslash or an unterminated class: it accepts no byte. */
  datatype Token =
    | Star
    | AnyByte
    | Literal(b: byte)
    | Class(negated: bool, items: seq<ClassItem>)
    | Never

  predicate ItemAccepts(item: ClassItem, c: byte) {
    match item
    case Single(b) => c == b
    case Range(lo, hi) => lo <= c <= hi
  }

  predicate SomeItem(items: seq<ClassItem>, c: byte) {
    exists k :: 0 <= k < |items| && ItemAccepts(items[k], c)
  }

  /** Whether a one-byte token accepts byte `c`. */
  predicate Accepts(t: Token, c: byte) {
    match t
    case Star => false
    case AnyByte => true
    case Literal(b) => c == b
    case Class(negated, items) => SomeItem(items, c) != negated
    case Never => false
  }

  // ----- tokenising a pattern -----

  predicate RangeAt(p: Bytes, i: nat) {
    i + 2 < |p| && p[i + 1] == DASH && p[i + 2] != RBRACKET
  }

  /** The items of a class whose body starts at `i`, and where its `]` is (or the end). */
  function ClassBody(p: Bytes, i: nat): (r: (seq<ClassItem>, nat))
    requires i <= |p|
    ensures i <= r.1 <= |p|
    ensures r.1 < |p| ==> p[r.1] == RBRACKET
    decreases |p| - i
  {
    if i == |p| || p[i] == RBRACKET then ([], i)
    else if RangeAt(p, i) then
      var rest := ClassBody(p, i + 3);
      ([Range(p[i], p[i + 2])] + rest.0, rest.1)
    else
      var rest := ClassBody(p, i + 1);
      ([Single(p[i])] + rest.0, rest.1)
  }

  predicate NegatedAt(p: Bytes, i: nat) {
    i < |p| && (p[i] == CARET || p[i] == BANG)
  }

  /** The token at index `i` and the index of the next one. */
  function TokenAt(p: Bytes, i: nat): (r: (Token, nat))
    requires i < |p|
    ensures i < r.1 <= |p|
    ensures r.0.Star? <==> p[i] == STAR
  {
    if p[i] == BACKSLASH then
      if i + 1 < |p| then (Literal(p[i + 1]), i + 2) else (Never, i + 1)
    else if p[i] == STAR then (Star, i + 1)
    else if p[i] == QUESTION then (AnyByte, i + 1)
    else if p[i] == LBRACKET then
      var negated := NegatedAt(p, i + 1);
      var body := ClassBody(p, if negated then i + 2 else i + 1);
      if body.1 < |p| then (Class(negated, body.0), body.1 + 1) else (Never, body.1)
    else (Literal(p[i]), i + 1)
  }

  function Tokens(p: Bytes, i: nat): (ts: seq<Token>)
    requires i <= |p|
    decreases |p| - i
  {
    if i == |p| then [] else [TokenAt(p, i).0] + Tokens(p, TokenAt(p, i).1)
  }

  // ----- the meaning of a token list -----

  /** Whether `ts` accepts exactly the bytes of `s` from index `k` on. */
  predicate MatchesAt(ts: seq<Token>, s: Bytes, k: nat)
    requires k <= |s|
    decreases |ts|
  {
    if ts == [] then k == |s|
    else if ts[0].Star? then exists j :: k <= j <= |s| && MatchesAt(ts[1..], s, j)
    else k < |s| && Accepts(ts[0], s[k]) && MatchesAt(ts[1..], s, k + 1)
  }

  predicate Matches(pattern: Bytes, s: Bytes) {
    MatchesAt(Tokens(pattern, 0), s, 0)
  }

  predicate NoStar(ts: seq<Token>) {
    forall k :: 0 <= k < |ts| ==> !ts[k].Star?
  }

  /** `MatchesAt(ts, ..)` at `k` or anywhere after it. */
  predicate MatchesFrom(ts: seq<Token>, s: Bytes, k: nat) {
    exists j :: k <= j <= |s| && MatchesAt(ts, s, j)
  }

  predicate AcceptsRun(ts: seq<Token>, s: Bytes, k: nat)
    requires k + |ts| <= |s|
  {
    forall i :: 0 <= i < |ts| ==> Accepts(ts[i], s[k + i])
  }

  // ----- lemmas about the meaning -----

  lemma {:induction false} ConsMatches(t: Token, ts: seq<Token>, s: Bytes, k: nat)
    requires k <= |s|
    ensures t.Star? ==> (MatchesAt([t] + ts, s, k) <==> MatchesFrom(ts, s, k))
    ensures !t.Star? ==> (MatchesAt([t] + ts, s, k) <==> k < |s| && Accepts(t, s[k]) && MatchesAt(ts, s, k + 1))
  {
    assert ([t] + ts)[1..] == ts;
  }

  /** A run of one-byte tokens in front consumes exactly its own length. */
  lemma {:induction false} FixedPrefix(f: seq<Token>, ts: seq<Token>, s: Bytes, k: nat)
    requires k <= |s| && NoStar(f)
    ensures MatchesAt(f + ts, s, k) <==>
            k + |f| <= |s| && AcceptsRun(f, s, k) && MatchesAt(ts, s, k + |f|)
    decreases |f|
  {
    if f == [] {
      assert f + ts == ts;
    } else {
      assert f + ts == [f[0]] + (f[1..] + ts);
      ConsMatches(f[0], f[1..] + ts, s, k);
      if k < |s| {
        FixedPrefix(f[1..], ts, s, k + 1);
        assert k + |f| <= |s| ==> (AcceptsRun(f, s, k) <==> Accepts(f[0], s[k]) && AcceptsRun(f[1..], s, k + 1)) by {
          if k + |f| <= |s| {
            forall i | 1 <= i < |f| ensures f[i] == f[1..][i - 1] {}
          }
        }
      }
    }
  }

  lemma {:induction false} LaterStar(ts: seq<Token>, s: Bytes, k: nat, j: nat)
    requires k <= j <= |s| && ts != [] && ts[0].Star?
    ensures MatchesAt(ts, s, j) ==> MatchesAt(ts, s, k)
  {
  }

  /** Two stars in a row mean one star. */
  lemma {:induction false} DoubleStar(ts: seq<Token>, s: Bytes, k: nat)
    requires k <= |s|
    ensures MatchesAt([Star] + ([Star] + ts), s, k) <==> MatchesAt([Star] + ts, s, k)
  {
  }

  /**
   A new star makes the alternatives of the previous one superfluous: with `f` matched from
   `from` up to `si`, some placement of the old star succeeds iff the star at `si` does.
   */
  lemma {:induction false} StarDominates(f: seq<Token>, ts: seq<Token>, s: Bytes, from: nat, si: nat)
    requires from + |f| == si <= |s|
    requires NoStar(f) && AcceptsRun(f, s, from)
    requires ts != [] && ts[0].Star?
    ensures MatchesFrom(f + ts, s, from) <==> MatchesAt(ts, s, si)
  {
    FixedPrefix(f, ts, s, from);
    if MatchesFrom(f + ts, s, from) {
      var j :| from <= j <= |s| && MatchesAt(f + ts, s, j);
      FixedPrefix(f, ts, s, j);
      LaterStar(ts, s, si, j + |f|);
    }
  }

  /** At the end of the string only the current placement of the star can still succeed. */
  lemma {:induction false} OnlyCurrentPlacement(f: seq<Token>, ts: seq<Token>, s: Bytes, from: nat)
    requires from + |f| == |s|
    requires NoStar(f) && AcceptsRun(f, s, from)
    ensures MatchesFrom(f + ts, s, from) <==> MatchesAt(ts, s, |s|)
  {
    FixedPrefix(f, ts, s, from);
    if MatchesFrom(f + ts, s, from) {
      var j :| from <= j <= |s| && MatchesAt(f + ts, s, j);
      FixedPrefix(f, ts, s, j);
    }
  }

  /** When the placement at `from` fails, only later ones are left. */
  lemma {:induction false} NextPlacement(ts: seq<Token>, s: Bytes, from: nat)
    requires from <= |s| && !MatchesAt(ts, s, from)
    ensures MatchesFrom(ts, s, from) <==> MatchesFrom(ts, s, from + 1)
  {
  }

  lemma {:induction false} ExtendRun(f: seq<Token>, t: Token, s: Bytes, from: nat)
    requires from + |f| < |s|
    requires NoStar(f) && AcceptsRun(f, s, from)
    requires !t.Star? && Accepts(t, s[from + |f|])
    ensures NoStar(f + [t]) && AcceptsRun(f + [t], s, from)
  {
  }

  lemma {:induction false} Regroup(f: seq<Token>, t: Token, rest: seq<Token>)
    ensures f + ([t] + rest) == (f + [t]) + rest
  {
  }

  // ----- what the matcher's variables mean -----

  /** The pattern matches iff what is left can still be matched, now or after moving the star. */
  ghost predicate Progress(p: Bytes, s: Bytes, pi: nat, si: nat, starPi: Option<nat>, starSi: nat, f: seq<Token>) {
    && pi <= |p| && si <= |s|
    && (starPi.None? ==> starSi == 0 && (Matches(p, s) <==> MatchesAt(Tokens(p, pi), s, si)))
    && (starPi.Some? ==>
          && starPi.value <= pi
          && Tokens(p, starPi.value) == f + Tokens(p, pi)
          && starSi + |f| == si
          && NoStar(f) && AcceptsRun(f, s, starSi)
          && (Matches(p, s) <==> MatchesFrom(Tokens(p, starPi.value), s, starSi)))
  }

  /** The token at `pi` accepts the byte at `si`: advance both. */
  lemma {:induction false} ProgressAdvance(p: Bytes, s: Bytes, pi: nat, si: nat, starPi: Option<nat>, starSi: nat,
                                           f: seq<Token>)
    requires Progress(p, s, pi, si, starPi, starSi, f)
    requires pi < |p| && si < |s|
    requires !TokenAt(p, pi).0.Star? && Accepts(TokenAt(p, pi).0, s[si])
    ensures Progress(p, s, TokenAt(p, pi).1, si + 1, starPi, starSi, f + [TokenAt(p, pi).0])
  {
    var (t, next) := TokenAt(p, pi);
    var rest := Tokens(p, next);
    ConsMatches(t, rest, s, si);
    if starPi.Some? {
      ExtendRun(f, t, s, starSi);
      assert Tokens(p, starPi.value) == (f + [t]) + rest by {
        Regroup(f, t, rest);
      }
    }
  }

  /** The token at `pi` is a star and the stars end at `next`: remember the new star. */
  lemma {:induction false} ProgressStar(p: Bytes, s: Bytes, pi: nat, si: nat, starPi: Option<nat>, starSi: nat,
                                        f: seq<Token>, next: nat)
    requires Progress(p, s, pi, si, starPi, starSi, f)
    requires pi < next <= |p| && p[pi] == STAR
    requires MatchesAt(Tokens(p, pi), s, si) <==> MatchesAt([Star] + Tokens(p, next), s, si)
    ensures Progress(p, s, next, si, Some(next), si, [])
  {
    ConsMatches(Star, Tokens(p, next), s, si);
    assert [] + Tokens(p, next) == Tokens(p, next);
    if starPi.Some? {
      StarDominates(f, Tokens(p, pi), s, starSi, si);
    }
  }

  /** What is left at `pi` cannot match from `si`: fail, or move the remembered star by one byte. */
  lemma {:induction false} ProgressBacktrack(p: Bytes, s: Bytes, pi: nat, si: nat, starPi: Option<nat>, starSi: nat,
                                             f: seq<Token>)
    requires Progress(p, s, pi, si, starPi, starSi, f)
    requires si < |s| && !MatchesAt(Tokens(p, pi), s, si)
    ensures starPi.None? ==> !Matches(p, s)
    ensures starPi.Some? ==> Progress(p, s, starPi.value, starSi + 1, starPi, starSi + 1, [])
  {
    if starPi.Some? {
      FixedPrefix(f, Tokens(p, pi), s, starSi);
      NextPlacement(Tokens(p, starPi.value), s, starSi);
      assert [] + Tokens(p, starPi.value) == Tokens(p, starPi.value);
    }
  }

  lemma {:induction false} ProgressAtEnd(p: Bytes, s: Bytes, pi: nat, starPi: Option<nat>, starSi: nat, f: seq<Token>)
    requires Progress(p, s, pi, |s|, starPi, starSi, f)
    ensures Matches(p, s) <==> MatchesAt(Tokens(p, pi), s, |s|)
  {
    if starPi.Some? {
      OnlyCurrentPlacement(f, Tokens(p, pi), s, starSi);
    }
  }

  // ----- the matcher -----

  lemma {:induction false} SomeItemSnoc(items: seq<ClassItem>, item: ClassItem, c: byte)
    ensures SomeItem(items + [item], c) <==> SomeItem(items, c) || ItemAccepts(item, c)
  {
    var all := items + [item];
    assert all[|items|] == item;
    assert forall k :: 0 <= k < |items| ==> all[k] == items[k];
  }

  /** The item at index `i` of a class body and the index after it. */
  function ItemAt(p: Bytes, i: nat): (ClassItem, nat)
    requires i < |p|
  {
    if RangeAt(p, i) then (Range(p[i], p[i + 2]), i + 3) else (Single(p[i]), i + 1)
  }

  lemma {:induction false} ClassBodyStep(p: Bytes, start: nat, seen: seq<ClassItem>, i: nat)
    requires start <= i < |p| && p[i] != RBRACKET
    requires ClassBody(p, start) == (seen + ClassBody(p, i).0, ClassBody(p, i).1)
    ensures ItemAt(p, i).1 <= |p|
    ensures ClassBody(p, start) ==
            ((seen + [ItemAt(p, i).0]) + ClassBody(p, ItemAt(p, i).1).0, ClassBody(p, ItemAt(p, i).1).1)
  {
    var (item, next) := ItemAt(p, i);
    assert seen + ([item] + ClassBody(p, next).0) == (seen + [item]) + ClassBody(p, next).0;
  }

  /** The class scan: reads items up to `]` or the end and tells whether one accepts `c`. */
  method ScanClass(p: Bytes, start: nat, c: byte) returns (found: bool, pi: nat, ghost work: nat)
    requires start <= |p|
    ensures pi == ClassBody(p, start).1
    ensures found <==> SomeItem(ClassBody(p, start).0, c)
    ensures start + work <= pi
  {
    pi, found, work := start, false, 0;
    ghost var seen: seq<ClassItem> := [];
    assert [] + ClassBody(p, start).0 == ClassBody(p, start).0;
    while pi < |p| && p[pi] != RBRACKET
      invariant start + work <= pi <= |p|
      invariant found <==> SomeItem(seen, c)
      invariant ClassBody(p, start) == (seen + ClassBody(p, pi).0, ClassBody(p, pi).1)
      decreases |p| - pi
    {
      ClassBodyStep(p, start, seen, pi);
      SomeItemSnoc(seen, ItemAt(p, pi).0, c);
      seen := seen + [ItemAt(p, pi).0];
      if pi + 2 < |p| && p[pi + 1] == DASH && p[pi + 2] != RBRACKET {
        var lo, hi := p[pi], p[pi + 2];
        if lo <= hi && c >= lo && c <= hi {
          found := true;
        }
        pi := pi + 3;
      } else {
        if c == p[pi] {
          found := true;
        }
        pi := pi + 1;
      }
      work := work + 1;
    }
    assert seen + [] == seen;
  }

  /** Skips a run of stars; adjacent stars mean one. */
  method SkipStars(p: Bytes, start: nat, ghost s: Bytes, ghost si: nat) returns (pi: nat)
    requires start <= |p| && si <= |s|
    ensures start <= pi <= |p|
    ensures pi < |p| ==> p[pi] != STAR
    ensures forall k :: start <= k < pi ==> p[k] == STAR
    ensures MatchesAt([Star] + Tokens(p, start), s, si) <==> MatchesAt([Star] + Tokens(p, pi), s, si)
  {
    pi := start;
    while pi < |p| && p[pi] == STAR
      invariant start <= pi <= |p|
      invariant forall k :: start <= k < pi ==> p[k] == STAR
      invariant MatchesAt([Star] + Tokens(p, start), s, si) <==> MatchesAt([Star] + Tokens(p, pi), s, si)
    {
      DoubleStar(Tokens(p, pi + 1), s, si);
      pi := pi + 1;
    }
  }

  /**
   One round on a token other than a star: does it accept byte `c`, and if so where does the
   next token start? `work` counts the iterations of the class scan.
   */
  method StepToken(p: Bytes, start: nat, c: byte) returns (ok: bool, pi: nat, ghost work: nat)
    requires start < |p| && p[start] != STAR
    ensures ok <==> Accepts(TokenAt(p, start).0, c)
    ensures ok ==> pi == TokenAt(p, start).1
    ensures start + work < |p|
    ensures ok ==> start + work < pi
  {
    pi, work, ok := start, 0, false;
    if p[pi] == BACKSLASH {
      pi := pi + 1;
      if pi < |p| && c == p[pi] {
        pi, ok := pi + 1, true;
      }
    } else if p[pi] == QUESTION {
      pi, ok := pi + 1, true;
    } else if p[pi] == LBRACKET {
      pi := pi + 1;
      var negated := pi < |p| && (p[pi] == CARET || p[pi] == BANG);
      if negated {
        pi := pi + 1;
      }
      var found;
      found, pi, work := ScanClass(p, pi, c);
      var classEnd := pi < |p| && p[pi] == RBRACKET;
      if classEnd {
        pi := pi + 1;
      }
      ok := classEnd && ((found && !negated) || (!found && negated));
    } else if p[pi] == c {
      pi, ok := pi + 1, true;
    }
  }

  /** A round on a star: remember it, or succeed if nothing follows the stars. */
  method StarRound(p: Bytes, s: Bytes, pi: nat, si: nat, ghost starPi: Option<nat>, ghost starSi: nat,
                   ghost f: seq<Token>) returns (next: nat)
    requires Progress(p, s, pi, si, starPi, starSi, f)
    requires pi < |p| && p[pi] == STAR
    ensures pi < next <= |p|
    ensures Progress(p, s, next, si, Some(next), si, [])
    ensures next == |p| ==> Matches(p, s)
  {
    DoubleStarsFront(p, pi, s, si);
    next := SkipStars(p, pi, s, si);
    ProgressStar(p, s, pi, si, starPi, starSi, f, next);
    if next == |p| {
      TrailingStar(s, si);
    }
  }

  /** A round on another token: step over it, or know that what is left does not match here. */
  method TokenRound(p: Bytes, s: Bytes, pi: nat, si: nat, ghost starPi: Option<nat>, ghost starSi: nat,
                    ghost f: seq<Token>)
    returns (ok: bool, next: nat, ghost scanned: nat, ghost f': seq<Token>)
    requires Progress(p, s, pi, si, starPi, starSi, f)
    requires pi < |p| && si < |s| && p[pi] != STAR
    ensures ok ==> next <= |p| && Progress(p, s, next, si + 1, starPi, starSi, f')
    ensures !ok ==> !MatchesAt(Tokens(p, pi), s, si)
    ensures pi + scanned < |p|
    ensures ok ==> pi + scanned < next
  {
    ConsMatches(TokenAt(p, pi).0, Tokens(p, TokenAt(p, pi).1), s, si);
    ok, next, scanned := StepToken(p, pi, s[si]);
    f' := f + [TokenAt(p, pi).0];
    if ok {
      ProgressAdvance(p, s, pi, si, starPi, starSi, f);
    }
  }

  /** The string is used up: what is left of the pattern must be stars. */
  method FinalStars(p: Bytes, s: Bytes, pi: nat, ghost starPi: Option<nat>, ghost starSi: nat,
                    ghost f: seq<Token>) returns (end: nat)
    requires Progress(p, s, pi, |s|, starPi, starSi, f)
    ensures pi <= end <= |p|
    ensures end == |p| <==> Matches(p, s)
  {
    ProgressAtEnd(p, s, pi, starPi, starSi, f);
    end := SkipStars(p, pi, s, |s|);
    EndOfString(p, end, s);
    StarsAtEnd(p, pi, s);
  }

  /** `rounds` counts iterations of the main loop, `work` iterations of all loops. */
  datatype Cost = Cost(rounds: nat, work: nat)

  /** One more round, with `inner` iterations of an inner loop. */
  function Spend(c: Cost, inner: nat): Cost {
    Cost(c.rounds + 1, c.work + 1 + inner)
  }

  /** The bound for pattern length `m` and string length `n`. */
  ghost predicate Bounded(c: Cost, m: nat, n: nat) {
    c.rounds <= n * (m + 1) + m && c.work <= 2 * (n * (m + 1) + m)
  }

  /**
   The iterative matcher: it accepts exactly what the declarative matcher accepts, within the documented
   O(m*n) iterations, those of its inner loops included.
   */
  method GlobMatch(pattern: Bytes, s: Bytes) returns (matched: bool, ghost cost: Cost)
    ensures matched <==> Matches(pattern, s)
    ensures Bounded(cost, |pattern|, |s|)
  {
    var pi: nat, si: nat := 0, 0;
    var starPi: Option<nat> := None;
    var starSi: nat := 0;
    ghost var f: seq<Token> := [];
    cost := Cost(0, 0);
    NoCost(|pattern|);
    while si < |s|
      invariant pi <= |pattern| && starSi <= si <= |s|
      invariant Progress(pattern, s, pi, si, starPi, starSi, f)
      invariant starPi.Some? ==> starPi.value < |pattern|
      invariant Within(cost, starSi, pi, |pattern|)
      decreases |s| - starSi, |pattern| - pi
    {
      ghost var scanned := 0;
      if pi < |pattern| && pattern[pi] == STAR {
        var next := StarRound(pattern, s, pi, si, starPi, starSi, f);
        StarStep(cost, starSi, pi, si, next, |pattern|);
        cost := Spend(cost, next - pi);
        if next == |pattern| {
          LastRound(cost, si, next, 0, |pattern|, |s|);
          return true, cost;
        }
        pi, starPi, starSi, f := next, Some(next), si, [];
        continue;
      } else if pi < |pattern| {
        var ok, next;
        ghost var more;
        ok, next, scanned, more := TokenRound(pattern, s, pi, si, starPi, starSi, f);
        if ok {
          TokenStep(cost, starSi, pi, scanned, next, |pattern|);
          cost := Spend(cost, scanned);
          pi, si, f := next, si + 1, more;
          continue;
        }
      }
      ProgressBacktrack(pattern, s, pi, si, starPi, starSi, f);
      BackStep(cost, starSi, pi, scanned, if starPi.Some? then starPi.value else 0, |pattern|);
      cost := Spend(cost, scanned);
      if starPi.None? {
        LastRound(cost, starSi + 1, 0, 0, |pattern|, |s|);
        return false, cost;
      }
      pi := starPi.value;
      starSi := starSi + 1;
      si, f := starSi, [];
    }
    var end := FinalStars(pattern, s, pi, starPi, starSi, f);
    LastRound(cost, starSi, pi, end - pi, |pattern|, |s|);
    return end == |pattern|, cost.(work := cost.work + (end - pi));
  }

  lemma {:induction false} TrailingStar(s: Bytes, si: nat)
    requires si <= |s|
    ensures MatchesFrom([], s, si)
  {
    assert MatchesAt([], s, |s|);
  }

  /** The measure `starSi * (m + 1) + pi` bounds the rounds, and twice it the work. */
  ghost predicate Within(c: Cost, starSi: nat, pi: nat, m: nat) {
    c.rounds <= starSi * (m + 1) + pi && c.work <= 2 * (starSi * (m + 1) + pi)
  }

  lemma {:induction false} NoCost(m: nat)
    ensures Within(Cost(0, 0), 0, 0, m)
  {
  }

  lemma {:induction false} MonotoneBase(a: nat, b: nat, width: nat)
    requires a <= b
    ensures a * width <= b * width
  {
  }

  /** A star moves the saved position up to `si` and the pattern index past the stars. */
  lemma {:induction false} StarStep(c: Cost, starSi: nat, pi: nat, si: nat, next: nat, m: nat)
    requires Within(c, starSi, pi, m) && starSi <= si && pi < next
    ensures Within(Spend(c, next - pi), si, next, m)
  {
    MonotoneBase(starSi, si, m + 1);
  }

  lemma {:induction false} TokenStep(c: Cost, starSi: nat, pi: nat, scanned: nat, next: nat, m: nat)
    requires Within(c, starSi, pi, m) && pi + scanned < next
    ensures Within(Spend(c, scanned), starSi, next, m)
  {
  }

  /** Backtracking gives up the pattern index for one more byte of the string. */
  lemma {:induction false} BackStep(c: Cost, starSi: nat, pi: nat, scanned: nat, back: nat, m: nat)
    requires Within(c, starSi, pi, m) && pi + scanned <= m
    ensures Within(Spend(c, scanned), starSi + 1, back, m)
  {
    assert (starSi + 1) * (m + 1) == starSi * (m + 1) + (m + 1);
  }

  lemma {:induction false} LastRound(c: Cost, starSi: nat, pi: nat, tail: nat, m: nat, n: nat)
    requires Within(c, starSi, pi, m) && starSi <= n && pi + tail <= m
    ensures Bounded(c.(work := c.work + tail), m, n)
  {
    MonotoneBase(starSi, n, m + 1);
  }

  /** A leading star may be doubled. */
  lemma {:induction false} DoubleStarsFront(p: Bytes, pi: nat, s: Bytes, si: nat)
    requires pi < |p| && p[pi] == STAR && si <= |s|
    ensures MatchesAt(Tokens(p, pi), s, si) <==> MatchesAt([Star] + Tokens(p, pi), s, si)
  {
    DoubleStar(Tokens(p, pi + 1), s, si);
  }

  /** Past the last star, only the empty token list matches at the end of the string. */
  lemma {:induction false} EndOfString(p: Bytes, pi: nat, s: Bytes)
    requires pi <= |p| && (pi < |p| ==> p[pi] != STAR)
    ensures MatchesAt([Star] + Tokens(p, pi), s, |s|) <==> pi == |p|
  {
    ConsMatches(Star, Tokens(p, pi), s, |s|);
    if pi < |p| {
      ConsMatches(TokenAt(p, pi).0, Tokens(p, TokenAt(p, pi).1), s, |s|);
    } else {
      assert MatchesAt(Tokens(p, pi), s, |s|);
    }
  }

  /** At the end of the string an extra star changes nothing. */
  lemma {:induction false} StarsAtEnd(p: Bytes, pi: nat, s: Bytes)
    requires pi <= |p|
    ensures MatchesAt([Star] + Tokens(p, pi), s, |s|) <==> MatchesAt(Tokens(p, pi), s, |s|)
  {
    ConsMatches(Star, Tokens(p, pi), s, |s|);
  }
}
