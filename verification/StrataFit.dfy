/** Fitting the credit and master planes into a budget (api/strata.py). */
module StrataFit {
  import opened Seqs
  import opened StrataCatalog
  import opened StrataCursor
  import opened StrataLadder
  import opened StrataFocus

  function OneOf<T(==)>(s: seq<T>): T -> bool { x => x in s }
  function NoneOf<T(==)>(s: seq<T>): T -> bool { x => x !in s }

  // ---- Credit levels ----------------------------------------------------------------------------

  datatype Level = Level(shown: seq<Credit>, folded: seq<Credit>)

  /** The credits every fallback keeps: the root and the focused credit. */
  function Base(l: Ladder, focus: Option<Focus>): seq<Credit> {
    if focus.Some? && focus.value.target.Under().Some? && focus.value.target.Under().value != l.root
    then [l.root, focus.value.target.Under().value]
    else [l.root]
  }

  function Others(l: Ladder, focus: Option<Focus>): seq<Credit> {
    Filter(l.creditOrder, NoneOf(Base(l, focus)))
  }

  predicate OnCredits(focus: Option<Focus>) {
    focus.Some? && focus.value.target.OtherCredits?
  }

  /** How many credits beyond the base the finest level draws. */
  function Most(l: Ladder, budget: Budget, focus: Option<Focus>): int {
    var base, rest := |Base(l, focus)|, |Others(l, focus)|;
    if base + rest <= budget.credits then rest else budget.credits - base - 1
  }

  function LevelWith(l: Ladder, focus: Option<Focus>, extra: nat): Level
    requires extra <= |Others(l, focus)|
  {
    var rest := Others(l, focus);
    Level(Filter(l.creditOrder, OneOf(Base(l, focus) + rest[..extra])), rest[extra..])
  }

  function FocusedLevel(l: Ladder, f: Focus): Level
    requires f.target.OtherCredits?
  {
    Level([l.root] + Page(f.target.credits, f.page, f.size), Rest(f.target.credits, f.page, f.size))
  }

  /** What the credit plane relies on: the root leads a duplicate-free order that lists the
      focused credit. */
  ghost predicate CreditsReady(l: Ladder, focus: Option<Focus>) {
    && l.creditOrder != [] && l.creditOrder[0] == l.root && Distinct(l.creditOrder)
    && (focus.Some? && focus.value.target.Under().Some? ==> focus.value.target.Under().value in l.creditOrder)
  }

  /** A level draws each credit or folds it, never both, keeps the parents the focus needs,
      and takes no more entries than the credit plane has. */
  ghost predicate LevelFits(l: Ladder, budget: Budget, focus: Option<Focus>, level: Level) {
    var holds :=
      && multiset(level.shown) + multiset(level.folded) == multiset(l.creditOrder)
      && Distinct(level.shown)
      && (forall c :: c in Base(l, focus) ==> c in level.shown)
      && l.root !in level.folded
      && |level.shown| + Flag(level.folded != []) <= budget.credits;
    holds
  }

  /** Nothing more than the base is drawn, unless the focus is on the credits themselves. */
  ghost predicate Coarsest(l: Ladder, focus: Option<Focus>, level: Level) {
    OnCredits(focus) || level.shown == Base(l, focus)
  }

  /** The fallbacks in the order they are tried. */
  ghost function Levels(l: Ladder, budget: Budget, focus: Option<Focus>): seq<Level>
    requires CreditsReady(l, focus) && budget.Valid()
  {
    if OnCredits(focus) then [FocusedLevel(l, focus.value)]
    else
      FallbacksFit(l, budget, focus);
      FallbackLevels(l, focus, Most(l, budget, focus))
  }

  function FallbackLevels(l: Ladder, focus: Option<Focus>, most: nat): seq<Level>
    requires most <= |Others(l, focus)|
  {
    seq(most + 1, k requires 0 <= k <= most => LevelWith(l, focus, most - k))
  }

  /** `_credit_levels`: from the finest plane to the coarsest the view can fall back to. */
  method CreditLevels(l: Ladder, budget: Budget, focus: Option<Focus>) returns (levels: seq<Level>)
    requires CreditsReady(l, focus) && budget.Valid()
    requires OnCredits(focus) ==> FocusOf(l, budget, focus.value)
    ensures levels == Levels(l, budget, focus)
    ensures levels != []
    ensures forall k :: 0 <= k < |levels| ==> LevelFits(l, budget, focus, levels[k])
    ensures Coarsest(l, focus, levels[|levels| - 1])
  {
    if OnCredits(focus) {
      FocusedLevelFits(l, budget, focus.value);
      return [FocusedLevel(l, focus.value)];
    }
    FallbacksFit(l, budget, focus);
    FallbackLevelsFit(l, budget, focus, Most(l, budget, focus));
    levels := Fallbacks(l, focus, Most(l, budget, focus));
  }

  lemma FallbackLevelsFit(l: Ladder, budget: Budget, focus: Option<Focus>, most: nat)
    requires most <= |Others(l, focus)| && Coarsest(l, focus, LevelWith(l, focus, 0))
    requires forall extra :: 0 <= extra <= most ==> LevelFits(l, budget, focus, LevelWith(l, focus, extra))
    ensures var levels := FallbackLevels(l, focus, most);
            |levels| == most + 1 && Coarsest(l, focus, levels[most]) && forall k :: 0 <= k < |levels| ==> LevelFits(l, budget, focus, levels[k])
  {
  }

  method Fallbacks(l: Ladder, focus: Option<Focus>, most: nat) returns (levels: seq<Level>)
    requires most <= |Others(l, focus)|
    ensures levels == FallbackLevels(l, focus, most)
  {
    levels := [];
    for k := 0 to most + 1
      invariant |levels| == k
      invariant forall j :: 0 <= j < k ==> levels[j] == LevelWith(l, focus, most - j)
    {
      levels := levels + [LevelWith(l, focus, most - k)];
    }
  }

  lemma FallbacksFit(l: Ladder, budget: Budget, focus: Option<Focus>)
    requires CreditsReady(l, focus) && budget.Valid()
    ensures 0 <= Most(l, budget, focus) <= |Others(l, focus)|
    ensures forall extra :: 0 <= extra <= Most(l, budget, focus) ==> LevelFits(l, budget, focus, LevelWith(l, focus, extra))
    ensures Coarsest(l, focus, LevelWith(l, focus, 0))
  {
    BaseListed(l, focus);
    OthersFacts(l.creditOrder, Base(l, focus));
    forall extra | 0 <= extra <= Most(l, budget, focus) ensures LevelFits(l, budget, focus, LevelWith(l, focus, extra)) {
      LevelWithFits(l, budget, focus, extra);
    }
    CoarsestLevel(l, focus);
  }

  lemma BaseListed(l: Ladder, focus: Option<Focus>)
    requires CreditsReady(l, focus)
    ensures Distinct(Base(l, focus)) && l.root in Base(l, focus)
    ensures forall c :: c in Base(l, focus) ==> c in l.creditOrder
  {
  }

  lemma OthersFacts<T>(order: seq<T>, base: seq<T>)
    requires Distinct(order) && Distinct(base) && forall c :: c in base ==> c in order
    ensures var rest := Filter(order, NoneOf(base));
            Distinct(rest) && |base| + |rest| == |order| && forall c :: c in rest <==> c in order && c !in base
  {
    FilterMembers(order, NoneOf(base));
    FilterDistinct(order, NoneOf(base));
    FilterMembers(order, OneOf(base));
    FilterDistinct(order, OneOf(base));
    FilterSplits(order, NoneOf(base), OneOf(base));
    DistinctPermutation(Filter(order, OneOf(base)), base);
    SameMembers(Filter(order, OneOf(base)), base);
  }

  /** Two parts of a duplicate-free sequence that share nothing and miss nothing. */
  lemma PartsCover<T>(order: seq<T>, a: seq<T>, b: seq<T>)
    requires Distinct(order) && Distinct(a) && Distinct(b)
    requires forall x :: x in order <==> x in a || x in b
    requires forall x :: x in a ==> x !in b
    ensures multiset(a) + multiset(b) == multiset(order) && |a| + |b| == |order|
  {
    DistinctCount(order);
    DistinctCount(a);
    DistinctCount(b);
    forall x ensures (multiset(a) + multiset(b))[x] == multiset(order)[x] {
      assert (multiset(a) + multiset(b))[x] == multiset(a)[x] + multiset(b)[x];
    }
    assert |multiset(a) + multiset(b)| == |a| + |b|;
  }

  /** Drawing the base and the first few others leaves exactly the remaining others. */
  lemma Partition<T>(order: seq<T>, base: seq<T>, rest: seq<T>, extra: nat, shown: seq<T>)
    requires extra <= |rest| && Distinct(order) && Distinct(rest)
    requires forall c :: c in rest <==> c in order && c !in base
    requires forall c :: c in base ==> c in order
    requires shown == Filter(order, OneOf(base + rest[..extra]))
    ensures multiset(shown) + multiset(rest[extra..]) == multiset(order)
    ensures Distinct(shown) && |shown| + |rest[extra..]| == |order|
    ensures forall c :: c in base ==> c in shown && c !in rest[extra..]
  {
    FilterMembers(order, OneOf(base + rest[..extra]));
    FilterDistinct(order, OneOf(base + rest[..extra]));
    TailMembers(rest, extra);
    PartsCover(order, shown, rest[extra..]);
  }

  lemma TailMembers<T>(s: seq<T>, k: nat)
    requires k <= |s| && Distinct(s)
    ensures Distinct(s[k..])
    ensures forall x :: x in s <==> x in s[..k] || x in s[k..]
    ensures forall x :: x in s[..k] ==> x !in s[k..]
  {
  }

  lemma LevelWithFits(l: Ladder, budget: Budget, focus: Option<Focus>, extra: nat)
    requires CreditsReady(l, focus) && budget.Valid()
    requires extra <= Most(l, budget, focus) <= |Others(l, focus)|
    ensures LevelFits(l, budget, focus, LevelWith(l, focus, extra))
  {
    BaseListed(l, focus);
    OthersFacts(l.creditOrder, Base(l, focus));
    Partition(l.creditOrder, Base(l, focus), Others(l, focus), extra, LevelWith(l, focus, extra).shown);
  }

  lemma CoarsestLevel(l: Ladder, focus: Option<Focus>)
    requires CreditsReady(l, focus)
    ensures Coarsest(l, focus, LevelWith(l, focus, 0))
  {
    var base := Base(l, focus);
    var shown := Filter(l.creditOrder, OneOf(base));
    assert base + Others(l, focus)[..0] == base;
    BaseListed(l, focus);
    FilterMembers(l.creditOrder, OneOf(base));
    FilterDistinct(l.creditOrder, OneOf(base));
    FilterHead(l.creditOrder, OneOf(base));
    SmallPermutation(shown, base);
  }

  lemma {:induction false} FilterHead<T>(s: seq<T>, keep: T -> bool)
    requires s != [] && keep(s[0])
    ensures Filter(s, keep) != [] && Filter(s, keep)[0] == s[0]
  {
    if |s| > 1 {
      FilterHead(s[..|s| - 1], keep);
    }
  }

  lemma SmallPermutation<T>(a: seq<T>, b: seq<T>)
    requires Distinct(a) && Distinct(b) && 1 <= |b| <= 2 && a != [] && a[0] == b[0]
    requires forall x :: x in a <==> x in b
    ensures a == b
  {
    DistinctPermutation(a, b);
    SameMembers(a, b);
    if |b| == 2 {
      assert b[1] in a;
    }
  }

  /** Prepending a page's owner: what is drawn and what is left still cover the order. */
  lemma HeadAndPage<T>(order: seq<T>, page: seq<T>, rest: seq<T>)
    requires order != [] && Distinct(order) && multiset(page) + multiset(rest) == multiset(order[1..])
    ensures multiset([order[0]] + page) + multiset(rest) == multiset(order)
    ensures Distinct([order[0]] + page) && order[0] !in rest
  {
    assert order == [order[0]] + order[1..];
    var all := [order[0]] + page + rest;
    assert multiset(all) == multiset(order);
    SameMembers(order, all);
    var drawn := [order[0]] + page;
    assert forall i :: 0 <= i < |drawn| ==> drawn[i] == all[i];
    forall i | 0 <= i < |rest| ensures rest[i] != order[0] {
      assert rest[i] == all[i + |drawn|] && all[0] == order[0];
    }
  }

  lemma FocusedLevelFits(l: Ladder, budget: Budget, f: Focus)
    requires CreditsReady(l, Some(f)) && budget.Valid() && FocusOf(l, budget, f) && f.target.OtherCredits?
    ensures LevelFits(l, budget, Some(f), FocusedLevel(l, f))
  {
    var cs := f.target.credits;
    PageAndRest(cs, f.page, f.size);
    if |cs| == f.size { WholePage(cs, f.page, f.size); }
    HeadAndPage(l.creditOrder, Page(cs, f.page, f.size), Rest(cs, f.page, f.size));
  }
}
