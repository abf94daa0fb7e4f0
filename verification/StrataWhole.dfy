/** The response to a discography that fits its budget has nothing folded (api/strata.py). */
module StrataWhole {
  import opened Seqs
  import opened StrataCatalog
  import opened StrataCursor
  import opened StrataLadder
  import opened StrataFocus
  import opened StrataFit
  import opened StrataMasters
  import opened StrataCoarsest
  import opened StrataReleases
  import opened StrataReleasePlan
  import opened StrataConserve
  import opened StrataView
  import opened StrataDrawn
  import opened StrataResponse

  /** Every credit, every master and lane, and every release has room on its plane. */
  ghost predicate AllFits(l: Ladder, budget: Budget) {
    && |l.creditOrder| <= budget.credits
    && |l.byMaster.order| + |LanesOf(l, l.creditOrder)| <= budget.masters
    && |l.items| <= budget.releases
  }

  // ---- The first level fits -----------------------------------------------------------------------------------------

  lemma MostIsAll(l: Ladder, budget: Budget)
    requires CreditsReady(l, None) && |l.creditOrder| <= budget.credits
    ensures Most(l, budget, None) == |Others(l, None)|
    ensures forall c :: c in l.creditOrder ==> c in Base(l, None) + Others(l, None)
  {
    BaseListed(l, None);
    OthersFacts(l.creditOrder, Base(l, None));
  }

  lemma LevelOfAll(l: Ladder)
    requires forall c :: c in l.creditOrder ==> c in Base(l, None) + Others(l, None)
    ensures LevelWith(l, None, |Others(l, None)|) == Level(l.creditOrder, [])
  {
    var rest := Others(l, None);
    assert rest[..|rest|] == rest && rest[|rest|..] == [];
    AllKept(l.creditOrder, OneOf(Base(l, None) + rest));
  }

  lemma FirstLevel(l: Ladder, budget: Budget)
    requires budget.Valid() && CreditsReady(l, None) && |l.creditOrder| <= budget.credits
    ensures Levels(l, budget, None) != [] && Levels(l, budget, None)[0] == Level(l.creditOrder, [])
  {
    FallbacksFit(l, budget, None);
    MostIsAll(l, budget);
    LevelOfAll(l);
  }

  lemma {:induction false} OneFloorEach(l: Ladder, cs: seq<Credit>)
    ensures LaneFloors(l, None, cs) == |cs|
  {
    if cs != [] { OneFloorEach(l, cs[..|cs| - 1]); }
  }

  lemma {:induction false} OneMasterFloorEach(ms: seq<string>)
    ensures MasterFloors(None, ms) == |ms|
  {
    if ms != [] { OneMasterFloorEach(ms[..|ms| - 1]); }
  }

  lemma AllCandidates(l: Ladder)
    requires l.Valid()
    ensures var cs := Candidates(l, l.creditOrder, None);
            multiset(cs) == multiset(Flat(l.creditOrder, l.byCredit.at)) == multiset(l.byMaster.order) && |cs| == |l.byMaster.order|
  {
    CreditsSplit(l, l.creditOrder, [], l.byCredit);
    AllKept(Flat(l.creditOrder, l.byCredit.at), NoneOf(Pinned(None) + Remainder(None)));
    assert |multiset(Candidates(l, l.creditOrder, None))| == |multiset(l.byMaster.order)|;
  }

  /** A list of non-empty groups has at least as many members as groups. */
  lemma {:induction false} GroupsHold<K, V>(keys: seq<K>, at: map<K, seq<V>>)
    requires forall k :: k in keys ==> k in at && at[k] != []
    ensures |Flat(keys, at)| >= |keys|
  {
    if keys != [] {
      var n := |keys| - 1;
      GroupsHold(keys[..n], at);
      assert keys[n] in keys;
    }
  }

  lemma LanesAreListed(l: Ladder)
    requires l.Valid()
    ensures |LanesOf(l, l.creditOrder)| <= |l.masterless.order|
  {
    var lanes := LanesOf(l, l.creditOrder);
    FilterMembers(l.creditOrder, HasLane(l));
    FilterDistinct(l.creditOrder, HasLane(l));
    DistinctSize(lanes);
    DistinctSize(l.masterless.order);
    Subset((set c | c in lanes), (set c | c in l.masterless.order));
  }

  lemma ItemsSum(l: Ladder)
    requires l.Valid()
    ensures |l.items| == |Flat(l.byMaster.order, l.byMaster.at)| + |Flat(l.masterless.order, l.masterless.at)|
    ensures |l.byMaster.order| + |LanesOf(l, l.creditOrder)| <= |l.items|
  {
    assert |multiset(l.items)| == |multiset(Flat(l.byMaster.order, l.byMaster.at))| + |multiset(Flat(l.masterless.order, l.masterless.at))|;
    GroupsHold(l.byMaster.order, l.byMaster.at);
    GroupsHold(l.masterless.order, l.masterless.at);
    LanesAreListed(l);
  }

  lemma NothingFolded(l: Ladder, cs: seq<string>)
    ensures BucketsOf(l, true, cs[|cs|..]) == {}
  {
    assert cs[|cs|..] == [];
  }

  lemma FixedIs(l: Ladder)
    ensures FixedMasters(l, l.creditOrder, None) == |LanesOf(l, l.creditOrder)| && FixedReleases(l, l.creditOrder, None) == |LanesOf(l, l.creditOrder)|
  {
    OneFloorEach(l, LanesOf(l, l.creditOrder));
  }

  lemma AllKeptFits(l: Ladder, budget: Budget)
    requires l.Valid() && AllFits(l, budget)
    ensures Fits(l, l.creditOrder, budget, None, true, |Candidates(l, l.creditOrder, None)|)
  {
    var cs := Candidates(l, l.creditOrder, None);
    AllCandidates(l);
    ItemsSum(l);
    FixedIs(l);
    NothingFolded(l, cs);
    FitsAll(l, cs, FixedMasters(l, l.creditOrder, None), FixedReleases(l, l.creditOrder, None), budget);
  }

  lemma FitsAll(l: Ladder, cs: seq<string>, fixedM: nat, fixedR: nat, budget: Budget)
    requires fixedM + |cs| <= budget.masters && fixedR + |cs| <= budget.releases && BucketsOf(l, true, cs[|cs|..]) == {}
    ensures FitsBeside(l, cs, fixedM, fixedR, budget, true, |cs|)
  {
  }

  lemma NoBuckets(l: Ladder, byDecade: bool, g: Groups<(Credit, string), string>)
    requires GroupsOf(g, [], BucketOf(l, byDecade))
    ensures g.order == []
  {
    BucketCount(l, byDecade, [], g);
    assert BucketsOf(l, byDecade, []) == {};
  }

  /** The first level and mode are taken. */
  lemma FirstTaken(l: Ladder, budget: Budget, plan: MasterPlan, i: nat, byDecade: bool, keep: nat)
    requires CreditsReady(l, None) && budget.Valid() && FinestPlan(l, budget, None, plan, i, byDecade, keep)
    requires Levels(l, budget, None) != [] && !NoneFit(l, Levels(l, budget, None)[0].shown, budget, None, true)
    ensures i == 0 && byDecade
  {
  }

  lemma MostKept(l: Ladder, shown: seq<Credit>, budget: Budget, byDecade: bool, keep: nat)
    requires KeepsMost(l, shown, budget, None, byDecade, keep) && Fits(l, shown, budget, None, byDecade, |Candidates(l, shown, None)|)
    ensures keep == |Candidates(l, shown, None)|
  {
  }

  lemma PlanOfAll(l: Ladder, level: Level, byDecade: bool, plan: MasterPlan, keep: nat)
    requires PlanWith(l, level, None, byDecade, plan, keep) && keep == |Candidates(l, level.shown, None)|
    ensures plan.level == level && plan.masters == Candidates(l, level.shown, None) && plan.lanes == LanesOf(l, level.shown)
    ensures plan.buckets.order == [] && plan.remainder == []
  {
    var cs := Candidates(l, level.shown, None);
    assert cs[keep..] == [] && cs[..keep] == cs && Pinned(None) + cs == cs;
    NoBuckets(l, byDecade, plan.buckets);
  }

  lemma SomeFits(l: Ladder, shown: seq<Credit>, budget: Budget, k: nat)
    requires Fits(l, shown, budget, None, true, k)
    ensures !NoneFit(l, shown, budget, None, true)
  {
    assert k in FittingKeeps(l, shown, budget, None, true);
  }

  /** So the plan folds no credit and buckets no master. */
  lemma WholePlan(l: Ladder, budget: Budget, plan: MasterPlan, i: nat, byDecade: bool, keep: nat)
    requires l.Valid() && AllFits(l, budget) && CreditsReady(l, None) && budget.Valid() && FinestPlan(l, budget, None, plan, i, byDecade, keep)
    ensures plan.level == Level(l.creditOrder, []) && plan.buckets.order == [] && plan.remainder == []
    ensures plan.masters == Candidates(l, l.creditOrder, None) && plan.lanes == LanesOf(l, l.creditOrder)
  {
    FirstLevel(l, budget);
    AllKeptFits(l, budget);
    SomeFits(l, l.creditOrder, budget, |Candidates(l, l.creditOrder, None)|);
    FirstTaken(l, budget, plan, i, byDecade, keep);
    MostKept(l, l.creditOrder, budget, byDecade, keep);
    PlanOfAll(l, Level(l.creditOrder, []), byDecade, plan, keep);
  }

  // ---- The first strategy fits ----------------------------------------------------------------------------------------

  lemma {:induction false} OpenLanesWhole(l: Ladder, cs: seq<Credit>)
    requires forall k :: 0 <= k < |cs| ==> l.Lane(cs[k]) != []
    ensures |OpenLanes(l, None, cs)| == |cs| && LaneItems(OpenLanes(l, None, cs)) == Flat(cs, l.masterless.at)
  {
    if cs != [] {
      var n := |cs| - 1;
      OpenLanesWhole(l, cs[..n]);
      LaneItemsAppend(OpenLanes(l, None, cs[..n]), OpenLane(cs[n], l.Lane(cs[n])));
    }
  }

  lemma WholeFixed(l: Ladder, masters: seq<string>, lanes: seq<Credit>)
    requires lanes == LanesOf(l, l.creditOrder)
    ensures FixedEntries(l, masters, lanes, None) == 0 && OpenMasters(None, masters) == masters
    ensures LaneItems(OpenLanes(l, None, lanes)) == Flat(lanes, l.masterless.at)
  {
    AllKept(masters, Unfocused(None));
    OneFloorEach(l, lanes);
    OneMasterFloorEach(masters);
    LanesParented(l, l.creditOrder);
    OpenLanesWhole(l, lanes);
  }

  lemma AllUnder(l: Ladder, masters: seq<string>)
    requires l.Valid() && multiset(masters) == multiset(l.byMaster.order)
    ensures forall k :: 0 <= k < |masters| ==> masters[k] in l.byMaster.at
  {
    SameMembers(masters, l.byMaster.order);
    forall k | 0 <= k < |masters| ensures masters[k] in l.byMaster.at { assert masters[k] in masters; }
  }

  lemma WholeEntries(l: Ladder, masters: seq<string>, lanes: seq<Credit>)
    requires l.Valid() && masters == Candidates(l, l.creditOrder, None) && lanes == LanesOf(l, l.creditOrder)
    ensures FixedEntries(l, masters, lanes, None) == 0
    ensures RuleEntries(l, RuleAt(0), OpenMasters(None, masters), OpenLanes(l, None, lanes)) == |l.items|
  {
    AllCandidates(l);
    WholeFixed(l, masters, lanes);
    AllUnder(l, masters);
    WholeMasters(l, masters);
    WholeLanes(OpenLanes(l, None, lanes));
    WholeCount(l, masters, lanes);
  }

  lemma WholeCount(l: Ladder, masters: seq<string>, lanes: seq<Credit>)
    requires l.Valid() && multiset(masters) == multiset(l.byMaster.order) && lanes == LanesOf(l, l.creditOrder)
    ensures |Flat(masters, l.byMaster.at)| + |Flat(lanes, l.masterless.at)| == |l.items|
  {
    ItemsSum(l);
    FlatPermutation(masters, l.byMaster.order, l.byMaster.at);
    LanesHold(l, l.creditOrder);
    CreditsSplit(l, l.creditOrder, [], l.masterless);
    assert |multiset(Flat(masters, l.byMaster.at))| == |multiset(Flat(l.byMaster.order, l.byMaster.at))|;
    assert |multiset(Flat(lanes, l.masterless.at))| == |multiset(Flat(l.masterless.order, l.masterless.at))|;
  }

  lemma WholePlane(l: Ladder, budget: Budget, masters: seq<string>, lanes: seq<Credit>, nodes: seq<Node>, aggs: seq<ReleaseAgg>)
    requires l.Valid() && |l.items| <= budget.releases && masters == Candidates(l, l.creditOrder, None) && lanes == LanesOf(l, l.creditOrder)
    requires FinestPlane(l, masters, lanes, budget, None, nodes, aggs)
    ensures aggs == [] && |nodes| == |l.items|
  {
    WholeEntries(l, masters, lanes);
    var r :| FinestAt(l, masters, lanes, budget, None, nodes, aggs, r);
    assert r == 0;
    assert aggs[0..] == aggs;
  }

  /** Whenever every credit, master and release fits its plane, an unfocused response folds
      nothing: every credit, every master and every release is drawn, and the lanes are the only
      aggregates. */
  lemma WholeWhenItFits(l: Ladder, budget: Budget, v: View)
    requires l.Valid() && Promised(l, budget, None, v) && AllFits(l, budget)
    ensures v.plan.level.folded == [] && v.plan.buckets.order == [] && v.plan.remainder == [] && v.aggs == []
    ensures multiset(v.plan.masters) == multiset(l.byMaster.order) && |v.nodes| == |l.items|
  {
    FinestWhole(l, budget, v);
  }

  lemma FinestWhole(l: Ladder, budget: Budget, v: View)
    requires l.Valid() && FinestView(l, budget, None, v) && AllFits(l, budget)
    ensures v.plan.level.folded == [] && v.plan.buckets.order == [] && v.plan.remainder == [] && v.aggs == []
    ensures multiset(v.plan.masters) == multiset(l.byMaster.order) && |v.nodes| == |l.items|
  {
    var i, byDecade, keep :| FinestPlan(l, budget, None, v.plan, i, byDecade, keep);
    WholePlan(l, budget, v.plan, i, byDecade, keep);
    WholePlane(l, budget, v.plan.masters, v.plan.lanes, v.nodes, v.aggs);
    AllCandidates(l);
  }
}
