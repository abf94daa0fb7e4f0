/** The coarsest fallback always fits: the arithmetic between `Budget.validate`,
    `resolve_focus`, `_release_floor` and `_plan_masters` (api/strata.py). */
module StrataCoarsest {
  import opened Seqs
  import opened StrataCatalog
  import opened StrataCursor
  import opened StrataLadder
  import opened StrataFocus
  import opened StrataFit
  import opened StrataMasters

  // ---- Pages against the room they were sized for ------------------------------------------------------

  /** A page sized for two rooms either draws every member in the first or stays in the second. */
  lemma PageFits<T>(members: seq<T>, page: nat, size: int, withoutRest: int, withRest: int)
    requires members != [] && 1 <= withRest <= withoutRest
    requires size == PageSize(|members|, withoutRest, withRest) && size > 0 && page < Pages(|members|, size)
    ensures var drawn := |Page(members, page, size)|;
            drawn <= withRest || (drawn <= withoutRest && Rest(members, page, size) == [])
  {
  }

  // ---- Small filters ------------------------------------------------------------------------------------

  function Kept<T>(x: T, keep: T -> bool): seq<T> { if keep(x) then [x] else [] }

  lemma FilterOne<T>(a: T, keep: T -> bool)
    ensures Filter([a], keep) == Kept(a, keep)
  {
  }

  lemma FilterTwo<T>(a: T, b: T, keep: T -> bool)
    ensures Filter([a, b], keep) == Kept(a, keep) + Kept(b, keep)
  {
    assert [a, b][..1] == [a];
    FilterOne(a, keep);
  }

  // ---- Lanes ----------------------------------------------------------------------------------------------

  /** What one credit's lane takes on the release plane. */
  function LaneTakes(l: Ladder, focus: Option<Focus>, c: Credit): int {
    if l.Lane(c) != [] then LaneFloor(l, focus, c) else 0
  }

  lemma LanesOfOne(l: Ladder, focus: Option<Focus>, a: Credit)
    ensures |LanesOf(l, [a])| == Flag(l.Lane(a) != [])
    ensures LaneFloors(l, focus, LanesOf(l, [a])) == LaneTakes(l, focus, a)
  {
    FilterOne(a, HasLane(l));
    if l.Lane(a) != [] {
      assert LanesOf(l, [a]) == [a];
      SingleFloor(l, focus, a);
    } else {
      assert LanesOf(l, [a]) == [];
    }
  }

  lemma SingleFloor(l: Ladder, focus: Option<Focus>, a: Credit)
    ensures LaneFloors(l, focus, [a]) == LaneFloor(l, focus, a)
  {
  }

  lemma LanesOfTwo(l: Ladder, focus: Option<Focus>, a: Credit, b: Credit)
    ensures |LanesOf(l, [a, b])| == Flag(l.Lane(a) != []) + Flag(l.Lane(b) != [])
    ensures LaneFloors(l, focus, LanesOf(l, [a, b])) == LaneTakes(l, focus, a) + LaneTakes(l, focus, b)
  {
    FilterTwo(a, b, HasLane(l));
    FilterOne(a, HasLane(l));
    LanesOfOne(l, focus, a);
    if l.Lane(b) != [] {
      assert LanesOf(l, [a, b])[..|LanesOf(l, [a, b])| - 1] == LanesOf(l, [a]);
    } else {
      assert LanesOf(l, [a, b]) == LanesOf(l, [a]);
    }
  }

  lemma {:induction false} PlainLanes(l: Ladder, focus: Option<Focus>, cs: seq<Credit>)
    requires focus.None? || !focus.value.target.LaneReleases?
    ensures LaneFloors(l, focus, cs) == |cs|
  {
    if cs != [] { PlainLanes(l, focus, cs[..|cs| - 1]); }
  }

  lemma {:induction false} PlainMasters(focus: Option<Focus>, ms: seq<string>)
    requires focus.None? || !focus.value.target.MasterReleases?
    ensures MasterFloors(focus, ms) == |ms|
  {
    if ms != [] { PlainMasters(focus, ms[..|ms| - 1]); }
  }

  // ---- Buckets ---------------------------------------------------------------------------------------------

  /** A candidate hangs under a drawn credit and is not held by the focus. */
  lemma CandidateFacts(l: Ladder, shown: seq<Credit>, focus: Option<Focus>, m: string)
    requires KeyedMembers(l.byCredit, l.byMaster.order, CreditOf(l.masterCredit))
    requires m in Candidates(l, shown, focus)
    ensures m !in Pinned(focus) && m !in Remainder(focus)
    ensures m in l.masterCredit && l.masterCredit[m] in shown && m in l.Masters(l.masterCredit[m])
  {
    var all := Flat(shown, l.byCredit.at);
    var free := NoneOf(Pinned(focus) + Remainder(focus));
    SameMember(Filter(all, free), Candidates(l, shown, focus), m);
    FilterMembers(all, free);
    FlatMembers(shown, l.byCredit.at);
    var c :| c in shown && c in l.byCredit.at && m in l.byCredit.at[c];
    assert CreditOf(l.masterCredit)(m) == Some(c);
  }

  /** A credit with a master the focus does not hold. */
  predicate Spills(l: Ladder, focus: Option<Focus>, c: Credit) {
    exists m :: m in l.Masters(c) && m !in Pinned(focus) && m !in Remainder(focus)
  }

  /** In the coarsest mode each credit has at most one bucket, and only if it spills. */
  lemma WholeBuckets(l: Ladder, shown: seq<Credit>, focus: Option<Focus>)
    requires KeyedMembers(l.byCredit, l.byMaster.order, CreditOf(l.masterCredit))
    ensures forall b :: b in BucketsOf(l, false, Candidates(l, shown, focus)) ==>
              b.0 in shown && b.1 == ALL && Spills(l, focus, b.0)
  {
    var cs := Candidates(l, shown, focus);
    forall b | b in BucketsOf(l, false, cs) ensures b.0 in shown && b.1 == ALL && Spills(l, focus, b.0) {
      var m :| m in cs && BucketKey(l, false, m) == b;
      CandidateFacts(l, shown, focus, m);
    }
  }

  lemma {:induction false} PairsOf(shown: seq<Credit>, pairs: set<(Credit, string)>)
    requires forall b :: b in pairs ==> b.0 in shown && b.1 == ALL
    ensures |pairs| <= |shown|
  {
    if shown == [] {
      assert pairs == {};
    } else {
      var n := |shown| - 1;
      var last := (shown[n], ALL);
      PairsOf(shown[..n], pairs - {last});
      assert pairs <= (pairs - {last}) + {last};
    }
  }

  lemma OneBucket(pairs: set<(Credit, string)>, a: Credit, p: bool)
    requires forall b :: b in pairs ==> b == (a, ALL) && p
    ensures |pairs| <= Flag(p)
  {
    assert pairs <= {(a, ALL)};
    if pairs != {} {
      assert pairs == {(a, ALL)};
    }
  }

  lemma TwoBuckets(pairs: set<(Credit, string)>, a: Credit, b: Credit, p: bool, q: bool)
    requires a != b
    requires forall x :: x in pairs ==> (x == (a, ALL) && p) || (x == (b, ALL) && q)
    ensures |pairs| <= Flag(p) + Flag(q)
  {
    var rest := pairs - {(a, ALL)};
    OneBucket(rest, b, q);
    if (a, ALL) in pairs {
      assert pairs == rest + {(a, ALL)};
    } else {
      assert pairs == rest;
    }
  }

  /** Lanes and buckets of the coarsest view with a focused credit, or none. */
  lemma CoarseBuckets(l: Ladder, focus: Option<Focus>)
    requires KeyedMembers(l.byCredit, l.byMaster.order, CreditOf(l.masterCredit))
    ensures var base := Base(l, focus);
            |BucketsOf(l, false, Candidates(l, base, focus))|
            <= Flag(Spills(l, focus, l.root)) + if |base| == 2 then Flag(Spills(l, focus, base[1])) else 0
  {
    var base := Base(l, focus);
    WholeBuckets(l, base, focus);
    var pairs := BucketsOf(l, false, Candidates(l, base, focus));
    if |base| == 2 {
      TwoBuckets(pairs, base[0], base[1], Spills(l, focus, base[0]), Spills(l, focus, base[1]));
    } else {
      OneBucket(pairs, base[0], Spills(l, focus, base[0]));
    }
  }

  // ---- The four kinds of view -------------------------------------------------------------------------------

  /** What the lemmas below read of a valid ladder. */
  ghost predicate Hung(l: Ladder) {
    KeyedMembers(l.byCredit, l.byMaster.order, CreditOf(l.masterCredit))
  }

  lemma UnfocusedFits(l: Ladder, budget: Budget)
    requires Hung(l) && budget.Valid()
    ensures Fits(l, Base(l, None), budget, None, false, 0)
  {
    var cs := Candidates(l, [l.root], None);
    assert Base(l, None) == [l.root];
    assert cs[0..] == cs;
    CoarseBuckets(l, None);
    LanesOfOne(l, None, l.root);
    PlainLanes(l, None, LanesOf(l, [l.root]));
  }

  lemma CreditsFit(l: Ladder, budget: Budget, f: Focus, shown: seq<Credit>)
    requires Hung(l) && budget.Valid() && f.target.OtherCredits? && |shown| <= budget.credits
    ensures Fits(l, shown, budget, Some(f), false, 0)
  {
    var cs := Candidates(l, shown, Some(f));
    assert cs[0..] == cs;
    WholeBuckets(l, shown, Some(f));
    PairsOf(shown, BucketsOf(l, false, cs));
    FilterMembers(shown, HasLane(l));
    PlainLanes(l, Some(f), LanesOf(l, shown));
  }

  /** The lanes of the coarsest view are those `resolve_focus` counted. */
  lemma BaseLanes(l: Ladder, f: Focus, c: Credit)
    requires f.target.Under() == Some(c)
    ensures |LanesOf(l, Base(l, Some(f)))| == LaneCount(l, c)
    ensures LaneFloors(l, Some(f), LanesOf(l, Base(l, Some(f))))
            == LaneTakes(l, Some(f), l.root) + if c == l.root then 0 else LaneTakes(l, Some(f), c)
  {
    if c == l.root {
      assert Base(l, Some(f)) == [l.root];
      LanesOfOne(l, Some(f), l.root);
    } else {
      assert Base(l, Some(f)) == [l.root, c];
      LanesOfTwo(l, Some(f), l.root, c);
    }
  }

  /** Off-page or on it, the focus holds exactly its members. */
  lemma HeldMasters(f: Focus, m: string)
    requires f.target.MasterSet?
    ensures m in Pinned(Some(f)) || m in Remainder(Some(f)) <==> m in f.target.masters
  {
    var ms := f.target.masters;
    PageAndRest(ms, f.page, f.size);
    SameMember(Page(ms, f.page, f.size) + Rest(ms, f.page, f.size), ms, m);
  }

  lemma MasterSetSpills(l: Ladder, f: Focus)
    requires f.target.MasterSet?
    ensures Spills(l, Some(f), f.target.credit) ==> exists m :: m in l.Masters(f.target.credit) && m !in f.target.masters
    ensures Spills(l, Some(f), l.root) ==> l.Masters(l.root) != []
  {
  }

  /** What the planes hold beside a focused master set: its page, its rest, and what
      `resolve_focus` counted. */
  lemma MasterSetTakes(l: Ladder, f: Focus)
    requires Hung(l) && f.target.MasterSet?
    ensures var c, ms, base := f.target.credit, f.target.masters, Base(l, Some(f));
            && |BucketsOf(l, false, Candidates(l, base, Some(f)))| + |LanesOf(l, base)| <= OtherMasterEntries(l, c, ms)
            && FixedReleases(l, base, Some(f)) == |Pinned(Some(f))| + LaneCount(l, c)
  {
    var c := f.target.credit;
    CoarseBuckets(l, Some(f));
    MasterSetSpills(l, f);
    BaseLanes(l, f, c);
    PlainLanes(l, Some(f), LanesOf(l, Base(l, Some(f))));
    PlainMasters(Some(f), Pinned(Some(f)));
  }

  /** The page of a focused master set, with its rest, fits beside that. */
  lemma MasterPageFits(l: Ladder, budget: Budget, f: Focus, others: int, lanes: int)
    requires budget.Valid() && FocusOf(l, budget, f) && f.target.MasterSet?
    requires others == OtherMasterEntries(l, f.target.credit, f.target.masters) && lanes == LaneCount(l, f.target.credit)
    ensures |Pinned(Some(f))| + Flag(Remainder(Some(f)) != []) + others <= budget.masters && |Pinned(Some(f))| + lanes <= budget.releases
  {
    PageFits(f.target.masters, f.page, f.size,
      Least(budget.masters - others, budget.releases - lanes),
      Least(budget.masters - others - 1, budget.releases - lanes));
  }

  lemma MasterSetFits(l: Ladder, budget: Budget, f: Focus)
    requires Hung(l) && budget.Valid() && FocusOf(l, budget, f) && f.target.MasterSet?
    ensures Fits(l, Base(l, Some(f)), budget, Some(f), false, 0)
  {
    var cs := Candidates(l, Base(l, Some(f)), Some(f));
    assert cs[0..] == cs;
    MasterSetTakes(l, f);
    MasterPageFits(l, budget, f, OtherMasterEntries(l, f.target.credit, f.target.masters), LaneCount(l, f.target.credit));
  }

  /** A focused release set takes its own entries and leaves the lanes `resolve_focus` counted. */
  lemma FocusedReleases(l: Ladder, budget: Budget, f: Focus, c: Credit)
    requires FocusOf(l, budget, f) && (f.target.MasterReleases? || f.target.LaneReleases?) && f.target.Under() == Some(c)
    ensures FixedReleases(l, Base(l, Some(f)), Some(f)) == FocusEntries(f) + OtherLaneEntries(l, f.target, c)
  {
    BaseLanes(l, f, c);
    if f.target.LaneReleases? {
      FilterMembers(l.Lane(c), InDecade(f.target.decade));
      assert Pinned(Some(f)) == [];
    } else {
      assert Pinned(Some(f))[..0] == [];
      assert MasterFloors(Some(f), Pinned(Some(f))) == FocusEntries(f);
    }
  }

  lemma FocusedEntriesFit(l: Ladder, budget: Budget, f: Focus, c: Credit)
    requires budget.Valid() && FocusOf(l, budget, f) && (f.target.MasterReleases? || f.target.LaneReleases?) && f.target.Under() == Some(c)
    ensures FocusEntries(f) + OtherLaneEntries(l, f.target, c) <= budget.releases
  {
  }

  lemma ReleasesFit(l: Ladder, budget: Budget, f: Focus, c: Credit)
    requires Hung(l) && budget.Valid() && FocusOf(l, budget, f)
    requires f.target.MasterReleases? || f.target.LaneReleases?
    requires f.target.Under() == Some(c)
    ensures Fits(l, Base(l, Some(f)), budget, Some(f), false, 0)
  {
    var cs := Candidates(l, Base(l, Some(f)), Some(f));
    assert cs[0..] == cs;
    CoarseBuckets(l, Some(f));
    BaseLanes(l, f, c);
    FocusedReleases(l, budget, f, c);
    FocusedEntriesFit(l, budget, f, c);
  }

  /** `Budget.validate`'s floors make the coarsest level fit with or without a focus. */
  lemma CoarsestFits(l: Ladder, budget: Budget, focus: Option<Focus>, level: Level)
    requires Hung(l) && budget.Valid() && (focus.Some? ==> FocusOf(l, budget, focus.value))
    requires LevelFits(l, budget, focus, level) && Coarsest(l, focus, level)
    ensures Fits(l, level.shown, budget, focus, false, 0)
  {
    match focus {
      case None => UnfocusedFits(l, budget);
      case Some(f) =>
        match f.target {
          case OtherCredits(_) => CreditsFit(l, budget, f, level.shown);
          case MasterSet(_, _, _) => MasterSetFits(l, budget, f);
          case MasterReleases(_, c, _) => ReleasesFit(l, budget, f, c);
          case LaneReleases(c, _, _) => ReleasesFit(l, budget, f, c);
        }
    }
  }
}
