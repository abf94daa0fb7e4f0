/** The nearest 100 artists and labels, tier by tier, and a hub's top 100 from two limited
    lists (api/explore_discovery.py, `_select` and `_build_hub`). */
module DiscoverySelect {
  import opened Seqs
  import opened DiscoveryGraph

  datatype Discovery = Discovery(eid: Eid, nodeLabel: NodeLabel, id: int, name: int, dist: nat, placeholder: bool, pop: int)

  const LIMIT := 100

  function Flag(b: bool): int { if b then 1 else 0 }

  /** Placeholders last, then the most established first, then id. */
  function TierKey(d: Discovery): seq<int> { [Flag(d.placeholder), -d.pop, d.id] }

  function NearKey(d: Discovery): seq<int> { [d.dist, if d.placeholder then 1 else 0, -d.pop, d.id] }

  function CheapKey(d: Discovery): seq<int> { [Flag(d.placeholder), d.id] }

  function Take<T>(s: seq<T>, n: nat): seq<T> { if |s| <= n then s else s[..n] }

  /** The simple form: sort everything, cut once. */
  function Nearest(al: seq<Discovery>): seq<Discovery> { Take(SortBy(al, NearKey), 100) }

  // ---- Sorting by distance first is sorting tier by tier ----------------------------------------------------------

  lemma {:induction false} InsertLeft<T>(a: seq<T>, b: seq<T>, x: T, key: T -> seq<int>)
    requires forall i :: 0 <= i < |b| ==> !LexLe(key(b[i]), key(x))
    ensures Insert(a + b, x, key) == Insert(a, x, key) + b
    decreases |b|
  {
    if b == [] {
      assert a + b == a;
    } else {
      var init, y := b[..|b| - 1], b[|b| - 1];
      assert (a + b)[..|a + b| - 1] == a + init;
      InsertLeft(a, init, x, key);
      assert b == init + [y];
    }
  }

  lemma {:induction false} InsertRight<T>(a: seq<T>, b: seq<T>, x: T, key: T -> seq<int>)
    requires forall i :: 0 <= i < |a| ==> LexLe(key(a[i]), key(x))
    ensures Insert(a + b, x, key) == a + Insert(b, x, key)
    decreases |b|
  {
    if b == [] {
      assert a + b == a;
      assert Insert(b, x, key) == [x];
    } else {
      var init, y := b[..|b| - 1], b[|b| - 1];
      assert (a + b)[..|a + b| - 1] == a + init && (a + b)[|a + b| - 1] == y;
      if !LexLe(key(y), key(x)) { InsertRight(a, init, x, key); }
    }
  }

  lemma SortSnoc<T>(s: seq<T>, x: T, key: T -> seq<int>)
    ensures SortBy(s + [x], key) == Insert(SortBy(s, key), x, key)
  {
  }

  lemma SortedMember<T>(s: seq<T>, keep: T -> bool, key: T -> seq<int>, x: T)
    requires x in SortBy(Filter(s, keep), key)
    ensures x in s && keep(x)
  {
    SameMembers(Filter(s, keep), SortBy(Filter(s, keep), key));
    FilterMembers(s, keep);
  }

  lemma FilterSnoc<T>(s: seq<T>, x: T, keep: T -> bool)
    ensures Filter(s + [x], keep) == Filter(s, keep) + if keep(x) then [x] else []
  {
  }

  /** `low` elements sort before the others. */
  ghost predicate Below<T(!new)>(low: T -> bool, high: T -> bool, key: T -> seq<int>) {
    var holds := (forall x :: high(x) <==> !low(x)) && forall x, y :: low(x) && high(y) ==> LexLe(key(x), key(y)) && !LexLe(key(y), key(x));
    holds
  }

  ghost predicate SplitSorted<T>(s: seq<T>, low: T -> bool, high: T -> bool, key: T -> seq<int>) {
    SortBy(s, key) == SortBy(Filter(s, low), key) + SortBy(Filter(s, high), key)
  }

  lemma SplitLow<T(!new)>(s: seq<T>, x: T, low: T -> bool, high: T -> bool, key: T -> seq<int>)
    requires Below(low, high, key) && low(x) && SplitSorted(s, low, high, key)
    ensures SplitSorted(s + [x], low, high, key)
  {
    var a, b := SortBy(Filter(s, low), key), SortBy(Filter(s, high), key);
    forall i | 0 <= i < |b| ensures !LexLe(key(b[i]), key(x)) { SortedMember(s, high, key, b[i]); }
    InsertLeft(a, b, x, key);
    SortSnoc(s, x, key);
    SortSnoc(Filter(s, low), x, key);
    FilterSnoc(s, x, low);
    FilterSnoc(s, x, high);
    assert Filter(s, high) + [] == Filter(s, high);
  }

  lemma SplitHigh<T(!new)>(s: seq<T>, x: T, low: T -> bool, high: T -> bool, key: T -> seq<int>)
    requires Below(low, high, key) && high(x) && SplitSorted(s, low, high, key)
    ensures SplitSorted(s + [x], low, high, key)
  {
    var a, b := SortBy(Filter(s, low), key), SortBy(Filter(s, high), key);
    forall i | 0 <= i < |a| ensures LexLe(key(a[i]), key(x)) { SortedMember(s, low, key, a[i]); }
    InsertRight(a, b, x, key);
    SortSnoc(s, x, key);
    SortSnoc(Filter(s, high), x, key);
    FilterSnoc(s, x, low);
    FilterSnoc(s, x, high);
    assert Filter(s, low) + [] == Filter(s, low);
  }

  /** Then sorting is sorting the low and the high apart. */
  lemma {:induction false} SortSplits<T(!new)>(s: seq<T>, low: T -> bool, high: T -> bool, key: T -> seq<int>)
    requires Below(low, high, key)
    ensures SplitSorted(s, low, high, key)
  {
    if s == [] {
      assert Filter(s, low) == [] && Filter(s, high) == [];
    } else {
      var init, x := s[..|s| - 1], s[|s| - 1];
      SortSplits(init, low, high, key);
      assert s == init + [x];
      if low(x) { SplitLow(init, x, low, high, key); } else { SplitHigh(init, x, low, high, key); }
    }
  }

  /** Sorting depends only on how the keys compare an earlier element with a later one. */
  lemma {:induction false} SameOrder<T>(s: seq<T>, key: T -> seq<int>, other: T -> seq<int>)
    requires forall i, j :: 0 <= i < j < |s| ==> (LexLe(key(s[i]), key(s[j])) <==> LexLe(other(s[i]), other(s[j])))
    ensures SortBy(s, key) == SortBy(s, other)
  {
    if s != [] {
      var init, x := s[..|s| - 1], s[|s| - 1];
      SameOrder(init, key, other);
      var r := SortBy(init, key);
      forall y | y in r ensures LexLe(key(y), key(x)) <==> LexLe(other(y), other(x)) {
        SameMember(init, r, y);
        var i :| 0 <= i < |init| && init[i] == y;
        assert s[i] == y;
      }
      SameInsert(r, x, key, other);
    }
  }

  lemma {:induction false} SameInsert<T>(r: seq<T>, x: T, key: T -> seq<int>, other: T -> seq<int>)
    requires forall y :: y in r ==> (LexLe(key(y), key(x)) <==> LexLe(other(y), other(x)))
    ensures Insert(r, x, key) == Insert(r, x, other)
  {
    if r != [] {
      assert r[|r| - 1] in r;
      SameInsert(r[..|r| - 1], x, key, other);
    }
  }

  // ---- Tier by tier ---------------------------------------------------------------------------------------------------

  function Upto(al: seq<Discovery>, d: int): seq<Discovery> { Filter(al, (x: Discovery) => x.dist <= d) }

  function Beyond(al: seq<Discovery>, d: int): seq<Discovery> { Filter(al, (x: Discovery) => x.dist > d) }

  function Tier(al: seq<Discovery>, d: int): seq<Discovery> { Filter(al, (x: Discovery) => x.dist == d) }

  lemma NearerIsBelow(low: Discovery -> bool, high: Discovery -> bool, d: int)
    requires (forall x :: low(x) <==> x.dist <= d) && (forall x :: high(x) <==> x.dist > d)
    ensures Below(low, high, NearKey)
  {
  }

  lemma NearSplits(al: seq<Discovery>, d: int)
    ensures SortBy(al, NearKey) == SortBy(Upto(al, d), NearKey) + SortBy(Beyond(al, d), NearKey)
  {
    var low, high := (x: Discovery) => x.dist <= d, (x: Discovery) => x.dist > d;
    NearerIsBelow(low, high, d);
    SortSplits(al, low, high, NearKey);
  }

  /** Within one distance the two keys order alike. */
  lemma TierOrder(al: seq<Discovery>, d: int)
    ensures SortBy(Tier(al, d), NearKey) == SortBy(Tier(al, d), TierKey)
  {
    FilterMembers(al, (x: Discovery) => x.dist == d);
    var tier := Tier(al, d);
    forall i, j | 0 <= i < j < |tier| ensures LexLe(NearKey(tier[i]), NearKey(tier[j])) <==> LexLe(TierKey(tier[i]), TierKey(tier[j])) {
      assert tier[i] in tier && tier[j] in tier;
      assert NearKey(tier[i])[1..] == TierKey(tier[i]) && NearKey(tier[j])[1..] == TierKey(tier[j]);
    }
    SameOrder(Tier(al, d), NearKey, TierKey);
  }

  /** Filtering twice is filtering by both. */
  lemma {:induction false} FilterTwice<T>(s: seq<T>, p: T -> bool, q: T -> bool, both: T -> bool)
    requires forall x :: x in s ==> (both(x) <==> p(x) && q(x))
    ensures Filter(Filter(s, p), q) == Filter(s, both)
  {
    if s != [] {
      var init, x := s[..|s| - 1], s[|s| - 1];
      FilterTwice(init, p, q, both);
      FilterSnoc(init, x, p);
      FilterSnoc(init, x, both);
      assert s == init + [x];
      assert x in s;
      if p(x) { FilterSnoc(Filter(init, p), x, q); } else { assert Filter(init, p) + [] == Filter(init, p); }
    }
  }

  /** What is within the next distance: what was, then that tier. */
  lemma NextTier(al: seq<Discovery>, d: int, next: int)
    requires d < next && forall x :: x in al ==> x.dist <= d || x.dist >= next
    ensures SortBy(Upto(al, next), NearKey) == SortBy(Upto(al, d), NearKey) + SortBy(Tier(al, next), TierKey)
    ensures Beyond(al, next) == Beyond(Beyond(al, d), next)
  {
    var up := Upto(al, next);
    NearSplits(up, d);
    FilterTwice(al, (x: Discovery) => x.dist <= next, (x: Discovery) => x.dist <= d, (x: Discovery) => x.dist <= d);
    FilterTwice(al, (x: Discovery) => x.dist <= next, (x: Discovery) => x.dist > d, (x: Discovery) => x.dist == next);
    FilterTwice(al, (x: Discovery) => x.dist > d, (x: Discovery) => x.dist > next, (x: Discovery) => x.dist > next);
    TierOrder(al, next);
  }

  lemma TakeBoth<T>(a: seq<T>, b: seq<T>, n: nat)
    ensures |a| <= n ==> Take(a + b, n) == a + Take(b, n - |a|)
    ensures |a| >= n ==> Take(a + b, n) == Take(a, n)
  {
  }

  /** One tier: all of it, in the cheap order, when it fits; the most established when not. */
  function TierTaken(tier: seq<Discovery>, room: nat): seq<Discovery> {
    if |tier| > room then SortBy(tier, TierKey)[..room] else SortBy(tier, CheapKey)
  }

  lemma TierTakenIs(tier: seq<Discovery>, room: nat)
    ensures multiset(TierTaken(tier, room)) == multiset(Take(SortBy(tier, TierKey), room))
    ensures |TierTaken(tier, room)| == |Take(SortBy(tier, TierKey), room)|
  {
  }

  function Nearer(al: seq<Discovery>, d: int): seq<Discovery> { Filter(al, (x: Discovery) => x.dist < d) }

  /** The tier at this distance does not fit in the room the nearer ones leave. */
  predicate IsCut(al: seq<Discovery>, d: int) {
    |Nearer(al, d)| < LIMIT < |Nearer(al, d)| + |Tier(al, d)|
  }

  /** The order of the chosen artists and labels. */
  function ChosenKey(al: seq<Discovery>, d: Discovery): seq<int> {
    [d.dist, if d.placeholder then 1 else 0] + if IsCut(al, d.dist) then [-d.pop, d.id] else [d.id]
  }

  ghost predicate ChosenSorted(al: seq<Discovery>, s: seq<Discovery>) {
    forall i, j :: 0 <= i < j < |s| ==> LexLe(ChosenKey(al, s[i]), ChosenKey(al, s[j]))
  }

  lemma ChosenIs(al: seq<Discovery>, d: Discovery)
    ensures ChosenKey(al, d) == [d.dist] + if IsCut(al, d.dist) then TierKey(d) else CheapKey(d)
  {
  }

  lemma SamePrefix(d: int, a: seq<int>, b: seq<int>)
    ensures LexLe([d] + a, [d] + b) <==> LexLe(a, b)
  {
    assert ([d] + a)[1..] == a && ([d] + b)[1..] == b;
  }

  lemma TierSize(al: seq<Discovery>, d: int, next: int)
    requires d < next && forall x :: x in al ==> x.dist <= d || x.dist >= next
    ensures Nearer(al, next) == Upto(al, d) && |Upto(al, next)| == |Upto(al, d)| + |Tier(al, next)|
  {
    FilterTwice(al, (x: Discovery) => true, (x: Discovery) => x.dist <= d, (x: Discovery) => x.dist < next);
    FilterTwice(al, (x: Discovery) => true, (x: Discovery) => x.dist <= d, (x: Discovery) => x.dist <= d);
    NextTier(al, d, next);
  }

  lemma TakenMember(tier: seq<Discovery>, room: nat, x: Discovery)
    requires x in TierTaken(tier, room)
    ensures x in tier
  {
    SameMembers(tier, SortBy(tier, TierKey));
    SameMembers(tier, SortBy(tier, CheapKey));
  }

  /** A tier is taken in the order its cut asks for. */
  lemma TierSorted(al: seq<Discovery>, next: int, room: nat)
    requires IsCut(al, next) <==> |Tier(al, next)| > room
    ensures ChosenSorted(al, TierTaken(Tier(al, next), room))
    ensures forall x :: x in TierTaken(Tier(al, next), room) ==> x.dist == next
  {
    var tier := Tier(al, next);
    var taken := TierTaken(tier, room);
    FilterMembers(al, (x: Discovery) => x.dist == next);
    forall x | x in taken ensures x.dist == next { TakenMember(tier, room, x); }
    SortBySorted(tier, TierKey);
    SortBySorted(tier, CheapKey);
    forall i, j | 0 <= i < j < |taken| ensures LexLe(ChosenKey(al, taken[i]), ChosenKey(al, taken[j])) {
      assert taken[i] in taken && taken[j] in taken;
      ChosenIs(al, taken[i]);
      ChosenIs(al, taken[j]);
      if IsCut(al, next) { SamePrefix(next, TierKey(taken[i]), TierKey(taken[j])); }
      else { SamePrefix(next, CheapKey(taken[i]), CheapKey(taken[j])); }
    }
  }

  lemma ChosenGrows(al: seq<Discovery>, d: int, next: int, chosen: seq<Discovery>, taken: seq<Discovery>)
    requires ChosenSorted(al, chosen) && ChosenSorted(al, taken) && d < next
    requires (forall x :: x in chosen ==> x.dist <= d) && (forall x :: x in taken ==> x.dist == next)
    ensures ChosenSorted(al, chosen + taken) && forall x :: x in chosen + taken ==> x.dist <= next
  {
    var both := chosen + taken;
    forall i, j | 0 <= i < j < |both| ensures LexLe(ChosenKey(al, both[i]), ChosenKey(al, both[j])) {
      if i < |chosen| <= j {
        assert both[i] in chosen && both[j] in taken;
        assert ChosenKey(al, both[i])[0] < ChosenKey(al, both[j])[0];
      }
    }
  }

  /** The order after one more tier. */
  lemma OrderStep(al: seq<Discovery>, d: int, next: int, chosen: seq<Discovery>, room: nat, taken: seq<Discovery>)
    requires TakenTo(al, d, chosen) && |chosen| < LIMIT && d < next && forall x :: x in al ==> x.dist <= d || x.dist >= next
    requires room == LIMIT - |chosen| && taken == TierTaken(Tier(al, next), room)
    requires ChosenSorted(al, chosen) && forall x :: x in chosen ==> x.dist <= d
    ensures ChosenSorted(al, chosen + taken) && forall x :: x in chosen + taken ==> x.dist <= next
  {
    TierSize(al, d, next);
    TierSorted(al, next, room);
    ChosenGrows(al, d, next, chosen, taken);
  }

  ghost predicate TakenTo(al: seq<Discovery>, d: int, chosen: seq<Discovery>) {
    var near := Take(SortBy(Upto(al, d), NearKey), LIMIT);
    multiset(chosen) == multiset(near) && |chosen| == |near|
  }

  lemma TakeMore<T>(was: seq<T>, more: seq<T>, chosen: seq<T>, taken: seq<T>, n: nat)
    requires |chosen| < n && multiset(chosen) == multiset(Take(was, n)) && |chosen| == |Take(was, n)|
    requires multiset(taken) == multiset(Take(more, n - |chosen|)) && |taken| == |Take(more, n - |chosen|)|
    ensures multiset(chosen + taken) == multiset(Take(was + more, n)) && |chosen + taken| == |Take(was + more, n)|
  {
    TakeBoth(was, more, n);
  }

  lemma TierStep(al: seq<Discovery>, d: int, next: int, chosen: seq<Discovery>, room: nat, taken: seq<Discovery>)
    requires TakenTo(al, d, chosen) && |chosen| < LIMIT && d < next && forall x :: x in al ==> x.dist <= d || x.dist >= next
    requires room == LIMIT - |chosen| && taken == TierTaken(Tier(al, next), room)
    ensures TakenTo(al, next, chosen + taken)
  {
    var was, more := SortBy(Upto(al, d), NearKey), SortBy(Tier(al, next), TierKey);
    TierTakenIs(Tier(al, next), room);
    TakeMore(was, more, chosen, taken, LIMIT);
    NextTier(al, d, next);
  }

  lemma TakenAll(al: seq<Discovery>, d: int, chosen: seq<Discovery>)
    requires TakenTo(al, d, chosen) && (|chosen| >= LIMIT || Beyond(al, d) == [])
    ensures multiset(chosen) == multiset(Nearest(al))
  {
    NearSplits(al, d);
    TakeBoth(SortBy(Upto(al, d), NearKey), SortBy(Beyond(al, d), NearKey), LIMIT);
  }

  lemma {:induction false} NoneUpto(al: seq<Discovery>, d: int)
    requires d < 0
    ensures Upto(al, d) == []
  {
    if al != [] { NoneUpto(al[..|al| - 1], d); }
  }

  /** The tiers of `_select`: the same artists and labels as sorting them all and cutting once,
      with popularity read only for the tier that does not fit. */
  method SelectNearest(al: seq<Discovery>) returns (chosen: seq<Discovery>)
    ensures multiset(chosen) == multiset(Nearest(al)) && ChosenSorted(al, chosen)
  {
    chosen := [];
    var d: int := -1;
    NoneUpto(al, -1);
    var rest := Beyond(al, d);
    while rest != [] && LIMIT - |chosen| > 0
      invariant d >= -1 && TakenTo(al, d, chosen) && rest == Beyond(al, d)
      invariant ChosenSorted(al, chosen) && forall x :: x in chosen ==> x.dist <= d
      decreases |rest|
    {
      var nearest := MinBy(rest, (x: Discovery) => [x.dist]);
      LeastBeyond(al, d, nearest);
      var tier := TierTaken(Tier(al, nearest.dist), LIMIT - |chosen|);
      TierStep(al, d, nearest.dist, chosen, LIMIT - |chosen|, tier);
      OrderStep(al, d, nearest.dist, chosen, LIMIT - |chosen|, tier);
      NextTier(al, d, nearest.dist);
      chosen := chosen + tier;
      d := nearest.dist;
      ghost var was := rest;
      rest := Filter(rest, (x: Discovery) => x.dist > d);
      Fewer(was, d, nearest);
    }
    TakenAll(al, d, chosen);
  }

  lemma LeastBeyond(al: seq<Discovery>, d: int, nearest: Discovery)
    requires Beyond(al, d) != [] && IsLeast(nearest, Beyond(al, d), (x: Discovery) => [x.dist])
    ensures nearest in al && nearest.dist > d && forall x :: x in al ==> x.dist <= d || x.dist >= nearest.dist
  {
    FilterMembers(al, (x: Discovery) => x.dist > d);
    forall x | x in al && x.dist > d ensures x.dist >= nearest.dist {
      assert x in Beyond(al, d);
      var k :| 0 <= k < |Beyond(al, d)| && Beyond(al, d)[k] == x;
      assert LexLe([nearest.dist], [x.dist]);
    }
  }

  lemma Fewer(s: seq<Discovery>, d: int, x: Discovery)
    requires x in s && x.dist <= d
    ensures |Filter(s, (y: Discovery) => y.dist > d)| < |s|
  {
    FilterDrops(s, (y: Discovery) => y.dist > d, x);
  }

  lemma {:induction false} FilterDrops<T>(s: seq<T>, keep: T -> bool, x: T)
    requires x in s && !keep(x)
    ensures |Filter(s, keep)| < |s|
  {
    var init, last := s[..|s| - 1], s[|s| - 1];
    if last == x {
      FilterMembers(init, keep);
    } else {
      assert s == init + [last];
      FilterDrops(init, keep, x);
    }
  }

  predicate IsGenreOrStyle(d: Discovery) { d.nodeLabel.Genre? || d.nodeLabel.Style? }

  predicate IsArtistOrLabel(d: Discovery) { d.nodeLabel.Artist? || d.nodeLabel.Label? }

  function GenreKey(d: Discovery): seq<int> { [d.dist, if d.nodeLabel.Genre? then 0 else 1, d.name] }

  /** The order of the answer: nearest first; within a distance genres and styles by label and
      name, then artists and labels in the order chosen. */
  function OutKey(al: seq<Discovery>): Discovery -> seq<int> {
    (d: Discovery) => if d.nodeLabel.Genre? || d.nodeLabel.Style? then [d.dist, 0, if d.nodeLabel.Genre? then 0 else 1, d.name] else [d.dist, 1] + ChosenKey(al, d)[1..]
  }

  lemma OutPair(al: seq<Discovery>, x: Discovery, y: Discovery)
    requires x.dist != y.dist || (IsGenreOrStyle(x) && !IsGenreOrStyle(y))
             || (IsGenreOrStyle(x) && IsGenreOrStyle(y) && LexLe(GenreKey(x), GenreKey(y)))
             || (!IsGenreOrStyle(x) && !IsGenreOrStyle(y) && LexLe(ChosenKey(al, x), ChosenKey(al, y)))
    ensures LexLe([x.dist], [y.dist]) <==> LexLe(OutKey(al)(x), OutKey(al)(y))
  {
    var a, b := OutKey(al)(x), OutKey(al)(y);
    if x.dist == y.dist {
      if IsGenreOrStyle(x) && IsGenreOrStyle(y) {
        assert a[1..] == [0] + GenreKey(x)[1..] && b[1..] == [0] + GenreKey(y)[1..];
        SamePrefix(0, GenreKey(x)[1..], GenreKey(y)[1..]);
      } else if !IsGenreOrStyle(x) {
        assert a[1..] == [1] + ChosenKey(al, x)[1..] && b[1..] == [1] + ChosenKey(al, y)[1..];
        SamePrefix(1, ChosenKey(al, x)[1..], ChosenKey(al, y)[1..]);
      } else {
        assert LexLe(a[1..], b[1..]);
      }
    }
  }

  /** The last, stable sort by distance gives that whole order. */
  lemma OutOrder(al: seq<Discovery>, gs: seq<Discovery>, chosen: seq<Discovery>, dist: Discovery -> seq<int>)
    requires SortedBy(gs, GenreKey) && ChosenSorted(al, chosen) && forall x :: dist(x) == [x.dist]
    requires (forall x :: x in gs ==> IsGenreOrStyle(x)) && (forall x :: x in chosen ==> !IsGenreOrStyle(x))
    ensures SortedBy(SortBy(gs + chosen, dist), OutKey(al))
  {
    var all := gs + chosen;
    forall i, j | 0 <= i < j < |all| ensures LexLe(dist(all[i]), dist(all[j])) <==> LexLe(OutKey(al)(all[i]), OutKey(al)(all[j])) {
      assert i < |gs| ==> all[i] in gs;
      assert j < |gs| ==> all[j] in gs;
      assert i >= |gs| ==> all[i] in chosen;
      assert j >= |gs| ==> all[j] in chosen;
      OutPair(al, all[i], all[j]);
    }
    SameOrder(all, dist, OutKey(al));
    SortBySorted(all, OutKey(al));
  }

  lemma ChosenKind(discovered: seq<Discovery>, al: seq<Discovery>, chosen: seq<Discovery>, x: Discovery)
    requires al == Filter(discovered, IsArtistOrLabel) && multiset(chosen) == multiset(Nearest(al)) && x in chosen
    ensures !IsGenreOrStyle(x)
  {
    FilterMembers(discovered, IsArtistOrLabel);
    assert x in multiset(chosen);
    assert x in Nearest(al);
    SameMember(al, SortBy(al, NearKey), x);
    assert x in al;
  }

  lemma {:induction false} FilterSame<T>(s: seq<T>, p: T -> bool, q: T -> bool)
    requires forall x :: x in s ==> (p(x) <==> q(x))
    ensures Filter(s, p) == Filter(s, q)
  {
    if s != [] {
      FilterSame(s[..|s| - 1], p, q);
      assert s[|s| - 1] in s;
    }
  }

  /** `_select`: every genre and style and the nearest artists and labels, in order. */
  method Select(discovered: seq<Discovery>) returns (out: seq<Discovery>)
    ensures multiset(out) == multiset(Filter(discovered, (d: Discovery) => d.nodeLabel.Genre? || d.nodeLabel.Style?))
                             + multiset(Nearest(Filter(discovered, (d: Discovery) => d.nodeLabel.Artist? || d.nodeLabel.Label?)))
    ensures SortedBy(out, OutKey(Filter(discovered, (d: Discovery) => d.nodeLabel.Artist? || d.nodeLabel.Label?)))
  {
    FilterSame(discovered, IsGenreOrStyle, (d: Discovery) => d.nodeLabel.Genre? || d.nodeLabel.Style?);
    FilterSame(discovered, IsArtistOrLabel, (d: Discovery) => d.nodeLabel.Artist? || d.nodeLabel.Label?);
    var al := Filter(discovered, IsArtistOrLabel);
    var chosen := SelectNearest(al);
    var genres := Filter(discovered, IsGenreOrStyle);
    var gs := SortBy(genres, GenreKey);
    out := SortBy(gs + chosen, (d: Discovery) => [d.dist]);
    SortBySorted(genres, GenreKey);
    FilterMembers(discovered, IsGenreOrStyle);
    SameMembers(genres, gs);
    forall x | x in chosen ensures !IsGenreOrStyle(x) { ChosenKind(discovered, al, chosen, x); }
    OutOrder(al, gs, chosen, (d: Discovery) => [d.dist]);
  }

  // ---- A hub's top 100 from two limited lists ----------------------------------------------------------------------------

  /** Two sorted lists interleaved, the first's elements first among equals. */
  function Merge<T>(a: seq<T>, b: seq<T>, key: T -> seq<int>): seq<T> {
    if a == [] then b
    else if b == [] then a
    else if LexLe(key(a[0]), key(b[0])) then [a[0]] + Merge(a[1..], b, key)
    else [b[0]] + Merge(a, b[1..], key)
  }

  lemma {:induction false} InsertFront<T>(s: seq<T>, x: T, key: T -> seq<int>)
    requires forall i :: 0 <= i < |s| ==> !LexLe(key(s[i]), key(x))
    ensures Insert(s, x, key) == [x] + s
  {
    if s != [] {
      var init, last := s[..|s| - 1], s[|s| - 1];
      InsertFront(init, x, key);
      assert [x] + s == ([x] + init) + [last];
    }
  }

  lemma AllAbove<T>(s: seq<T>, x: T, key: T -> seq<int>)
    requires SortedBy(s, key) && s != [] && !LexLe(key(s[0]), key(x))
    ensures forall i :: 0 <= i < |s| ==> !LexLe(key(s[i]), key(x))
  {
    forall i | 0 <= i < |s| ensures !LexLe(key(s[i]), key(x)) {
      if i > 0 && LexLe(key(s[i]), key(x)) { LexTransitive(key(s[0]), key(s[i]), key(x)); }
    }
  }

  lemma InsertHead<T>(s: seq<T>, x: T, key: T -> seq<int>)
    requires SortedBy(s, key) && s != []
    ensures Insert(s, x, key) == if LexLe(key(s[0]), key(x)) then [s[0]] + Insert(s[1..], x, key) else [x] + s
  {
    if LexLe(key(s[0]), key(x)) {
      InsertRight([s[0]], s[1..], x, key);
      assert [s[0]] + s[1..] == s;
    } else {
      AllAbove(s, x, key);
      InsertFront(s, x, key);
    }
  }

  lemma MergeHead<T>(a: seq<T>, y: T, b: seq<T>, key: T -> seq<int>)
    requires a != []
    ensures Merge(a, [y] + b, key) == if LexLe(key(a[0]), key(y)) then [a[0]] + Merge(a[1..], [y] + b, key) else [y] + Merge(a, b, key)
  {
    assert ([y] + b)[1..] == b;
  }

  /** Inserting after its equals into the merge is inserting into the second list. */
  ghost predicate InsertsSecond<T>(a: seq<T>, b: seq<T>, x: T, key: T -> seq<int>) {
    Insert(Merge(a, b, key), x, key) == Merge(a, Insert(b, x, key), key)
  }

  lemma InsertsFirstHead<T>(a: seq<T>, b: seq<T>, x: T, key: T -> seq<int>)
    requires a != [] && b != [] && LexLe(key(a[0]), key(b[0])) && SortedBy(b, key) && SortedBy(Merge(a, b, key), key)
    requires InsertsSecond(a[1..], b, x, key)
    ensures InsertsSecond(a, b, x, key)
  {
    var m := Merge(a, b, key);
    assert m[1..] == Merge(a[1..], b, key);
    InsertHead(m, x, key);
    InsertHead(b, x, key);
    if LexLe(key(b[0]), key(x)) {
      LexTransitive(key(a[0]), key(b[0]), key(x));
      MergeHead(a, b[0], Insert(b[1..], x, key), key);
    } else {
      MergeHead(a, x, b, key);
    }
  }

  lemma InsertsSecondHead<T>(a: seq<T>, b: seq<T>, x: T, key: T -> seq<int>)
    requires a != [] && b != [] && !LexLe(key(a[0]), key(b[0])) && SortedBy(b, key) && SortedBy(Merge(a, b, key), key)
    requires InsertsSecond(a, b[1..], x, key)
    ensures InsertsSecond(a, b, x, key)
  {
    var m := Merge(a, b, key);
    assert m[1..] == Merge(a, b[1..], key);
    InsertHead(m, x, key);
    InsertHead(b, x, key);
    LexTotal(key(a[0]), key(b[0]));
    if LexLe(key(b[0]), key(x)) {
      MergeHead(a, b[0], Insert(b[1..], x, key), key);
    } else {
      if LexLe(key(a[0]), key(x)) { LexTransitive(key(b[0]), key(a[0]), key(x)); }
      MergeHead(a, x, b, key);
    }
  }

  lemma InsertsAlone<T>(a: seq<T>, x: T, key: T -> seq<int>)
    requires a != [] && SortedBy(a, key) && InsertsSecond(a[1..], [], x, key)
    ensures InsertsSecond(a, [], x, key)
  {
    InsertHead(a, x, key);
    assert Insert([], x, key) == [x] && [x] + [] == [x];
    assert Merge(a[1..], [], key) == a[1..];
    MergeHead(a, x, [], key);
  }

  lemma {:induction false} InsertMerges<T>(a: seq<T>, b: seq<T>, x: T, key: T -> seq<int>)
    requires SortedBy(a, key) && SortedBy(b, key)
    ensures InsertsSecond(a, b, x, key)
    decreases |a| + |b|
  {
    if a != [] {
      MergeSorted(a, b, key);
      if b == [] {
        InsertMerges(a[1..], b, x, key);
        InsertsAlone(a, x, key);
      } else if LexLe(key(a[0]), key(b[0])) {
        InsertMerges(a[1..], b, x, key);
        InsertsFirstHead(a, b, x, key);
      } else {
        InsertMerges(a, b[1..], x, key);
        InsertsSecondHead(a, b, x, key);
      }
    }
  }

  lemma {:induction false} MergeMember<T>(a: seq<T>, b: seq<T>, key: T -> seq<int>, y: T)
    requires y in Merge(a, b, key)
    ensures y in a || y in b
    decreases |a| + |b|
  {
    if a != [] && b != [] {
      if LexLe(key(a[0]), key(b[0])) {
        if y != a[0] { MergeMember(a[1..], b, key, y); }
      } else {
        if y != b[0] { MergeMember(a, b[1..], key, y); }
      }
    }
  }

  lemma SortedHead<T>(h: T, rest: seq<T>, key: T -> seq<int>)
    requires SortedBy(rest, key) && forall i :: 0 <= i < |rest| ==> LexLe(key(h), key(rest[i]))
    ensures SortedBy([h] + rest, key)
  {
  }

  lemma HeadIsLeast<T>(s: seq<T>, key: T -> seq<int>, y: T)
    requires SortedBy(s, key) && y in s
    ensures LexLe(key(s[0]), key(y))
  {
    var i :| 0 <= i < |s| && s[i] == y;
    LexTotal(key(y), key(y));
  }

  lemma {:induction false} MergeSorted<T>(a: seq<T>, b: seq<T>, key: T -> seq<int>)
    requires SortedBy(a, key) && SortedBy(b, key)
    ensures SortedBy(Merge(a, b, key), key)
    decreases |a| + |b|
  {
    if a != [] && b != [] {
      LexTotal(key(a[0]), key(b[0]));
      LexTotal(key(a[0]), key(a[0]));
      LexTotal(key(b[0]), key(b[0]));
      var first := LexLe(key(a[0]), key(b[0]));
      var h, a', b' := if first then a[0] else b[0], if first then a[1..] else a, if first then b else b[1..];
      MergeSorted(a', b', key);
      var rest := Merge(a', b', key);
      forall i | 0 <= i < |rest| ensures LexLe(key(h), key(rest[i])) {
        MergeMember(a', b', key, rest[i]);
        if rest[i] in a { HeadIsLeast(a, key, rest[i]); LexTransitive(key(h), key(a[0]), key(rest[i])); }
        else { HeadIsLeast(b, key, rest[i]); LexTransitive(key(h), key(b[0]), key(rest[i])); }
      }
      SortedHead(h, rest, key);
    }
  }

  lemma SortMergesNext<T>(ab: seq<T>, b: seq<T>, x: T, sa: seq<T>, key: T -> seq<int>)
    requires SortedBy(sa, key) && SortBy(ab, key) == Merge(sa, SortBy(b, key), key)
    ensures SortBy(ab + [x], key) == Merge(sa, SortBy(b + [x], key), key)
  {
    SortSnoc(ab, x, key);
    SortSnoc(b, x, key);
    SortBySorted(b, key);
    InsertMerges(sa, SortBy(b, key), x, key);
  }

  lemma Unsnoc<T>(a: seq<T>, b: seq<T>)
    requires b != []
    ensures b == b[..|b| - 1] + [b[|b| - 1]] && a + b == (a + b[..|b| - 1]) + [b[|b| - 1]]
  {
  }

  lemma MergeNone<T>(a: seq<T>, key: T -> seq<int>)
    ensures Merge(a, [], key) == a
  {
  }

  /** Sorting two lists together is merging them sorted. */
  lemma {:induction false} SortMerges<T>(a: seq<T>, b: seq<T>, sa: seq<T>, key: T -> seq<int>)
    requires sa == SortBy(a, key)
    ensures SortBy(a + b, key) == Merge(sa, SortBy(b, key), key)
    decreases |b|
  {
    if b == [] {
      assert a + b == a;
      MergeNone(sa, key);
    } else {
      var init, x := b[..|b| - 1], b[|b| - 1];
      SortMerges(a, init, sa, key);
      SortBySorted(a, key);
      SortMergesNext(a + init, init, x, sa, key);
      Unsnoc(a, b);
    }
  }

  lemma TakeHead<T>(h: T, s: seq<T>, n: nat)
    requires n > 0
    ensures Take([h] + s, n) == [h] + Take(s, n - 1)
  {
  }

  lemma TakeSplit<T>(s: seq<T>, n: nat)
    requires n > 0 && s != []
    ensures Take(s, n) != [] && Take(s, n)[0] == s[0] && Take(s, n)[1..] == Take(s[1..], n - 1)
  {
  }

  /** The first `n` of a merge come from the first `n` of each list. */
  lemma {:induction false} TakeMerge<T>(a: seq<T>, b: seq<T>, n: nat, p: nat, q: nat, key: T -> seq<int>)
    requires n <= p && n <= q
    ensures Take(Merge(a, b, key), n) == Take(Merge(Take(a, p), Take(b, q), key), n)
    decreases n
  {
    if n > 0 && a != [] && b != [] {
      TakeSplit(a, p);
      TakeSplit(b, q);
      if LexLe(key(a[0]), key(b[0])) {
        TakeMerge(a[1..], b, n - 1, p - 1, q, key);
        TakeHead(a[0], Merge(a[1..], b, key), n);
        TakeHead(a[0], Merge(Take(a[1..], p - 1), Take(b, q), key), n);
      } else {
        TakeMerge(a, b[1..], n - 1, p, q - 1, key);
        TakeHead(b[0], Merge(a, b[1..], key), n);
        TakeHead(b[0], Merge(Take(a, p), Take(b[1..], q - 1), key), n);
      }
    }
  }

  lemma {:induction false} SortIdempotent<T>(s: seq<T>, key: T -> seq<int>)
    requires SortedBy(s, key)
    ensures SortBy(s, key) == s
  {
    if s != [] {
      var init, x := s[..|s| - 1], s[|s| - 1];
      SortIdempotent(init, key);
      assert s == init + [x];
      SortSnoc(init, x, key);
      assert init != [] ==> LexLe(key(init[|init| - 1]), key(x));
    }
  }

  lemma TakeSorted<T>(s: seq<T>, n: nat, key: T -> seq<int>)
    requires SortedBy(s, key)
    ensures SortBy(Take(s, n), key) == Take(s, n)
  {
    SortIdempotent(Take(s, n), key);
  }

  /** `_build_hub` merges the two separately limited scans, each in the same order. */
  function HubTop(artists: seq<Discovery>, labels: seq<Discovery>): seq<Discovery> {
    Take(SortBy(Take(SortBy(artists, TierKey), LIMIT) + Take(SortBy(labels, TierKey), LIMIT), TierKey), LIMIT)
  }

  /** That is the top of the full union. */
  lemma HubTopIsTop(artists: seq<Discovery>, labels: seq<Discovery>)
    ensures HubTop(artists, labels) == Take(SortBy(artists + labels, (d: Discovery) => [if d.placeholder then 1 else 0, -d.pop, d.id]), 100)
  {
    SameOrder(artists + labels, TierKey, (d: Discovery) => [if d.placeholder then 1 else 0, -d.pop, d.id]);
    var a, b := SortBy(artists, TierKey), SortBy(labels, TierKey);
    SortBySorted(artists, TierKey);
    SortBySorted(labels, TierKey);
    TakeSorted(a, LIMIT, TierKey);
    TakeSorted(b, LIMIT, TierKey);
    SortMerges(Take(a, LIMIT), Take(b, LIMIT), Take(a, LIMIT), TierKey);
    SortMerges(artists, labels, a, TierKey);
    TakeMerge(a, b, LIMIT, LIMIT, LIMIT, TierKey);
  }
}
