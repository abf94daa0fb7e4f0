/** The master plane: which masters are drawn, and how the others fold (api/strata.py). */
module StrataMasters {
  import opened Seqs
  import opened StrataCatalog
  import opened StrataCursor
  import opened StrataLadder
  import opened StrataFocus
  import opened StrataFit

  datatype MasterPlan = MasterPlan(
    level: Level, masters: seq<string>, buckets: Groups<(Credit, string), string>,
    remainder: seq<string>, lanes: seq<Credit>)

  // ---- The fixed part of a plan -------------------------------------------------------------------

  /** The masters a focus draws whatever the budget. */
  function Pinned(focus: Option<Focus>): seq<string> {
    if focus.None? then []
    else
      match focus.value.target
      case MasterSet(_, _, ms) => Page(ms, focus.value.page, focus.value.size)
      case MasterReleases(m, _, _) => [m]
      case _ => []
  }

  /** The focused masters off the page. */
  function Remainder(focus: Option<Focus>): seq<string> {
    if focus.Some? && focus.value.target.MasterSet?
    then Rest(focus.value.target.masters, focus.value.page, focus.value.size)
    else []
  }

  function HasLane(l: Ladder): Credit -> bool { c => l.Lane(c) != [] }

  function LanesOf(l: Ladder, shown: seq<Credit>): seq<Credit> { Filter(shown, HasLane(l)) }

  /** `_master_priority`: collector state first, then the most releases, then the id. */
  function PriorityKey(l: Ladder): string -> seq<int> {
    m => [Flag(m !in l.stateful), -(if m in l.byMaster.at then |l.byMaster.at[m]| else 0)] + IdKey(m)
  }

  function Candidates(l: Ladder, shown: seq<Credit>, focus: Option<Focus>): seq<string> {
    SortBy(Filter(Flat(shown, l.byCredit.at), NoneOf(Pinned(focus) + Remainder(focus))), PriorityKey(l))
  }

  /** The entries a focused release set takes: its page, and one aggregate for the rest. */
  function FocusEntries(f: Focus): nat {
    var items := ReleaseItems(f.target);
    |Page(items, f.page, f.size)| + Flag(Rest(items, f.page, f.size) != [])
  }

  function MasterFloor(focus: Option<Focus>, m: string): nat {
    if focus.Some? && focus.value.target.MasterReleases? && focus.value.target.master == m
    then FocusEntries(focus.value) else 1
  }

  function LaneFloor(l: Ladder, focus: Option<Focus>, c: Credit): nat {
    if focus.Some? && focus.value.target.LaneReleases? && focus.value.target.lane == c
    then FocusEntries(focus.value) + Flag(|l.Lane(c)| > focus.value.target.Size()) else 1
  }

  function MasterFloors(focus: Option<Focus>, ms: seq<string>): nat {
    if ms == [] then 0 else MasterFloors(focus, ms[..|ms| - 1]) + MasterFloor(focus, ms[|ms| - 1])
  }

  function LaneFloors(l: Ladder, focus: Option<Focus>, cs: seq<Credit>): nat {
    if cs == [] then 0 else LaneFloors(l, focus, cs[..|cs| - 1]) + LaneFloor(l, focus, cs[|cs| - 1])
  }

  function FixedMasters(l: Ladder, shown: seq<Credit>, focus: Option<Focus>): nat {
    |Pinned(focus)| + Flag(Remainder(focus) != []) + |LanesOf(l, shown)|
  }

  /** `_release_floor` of the pinned masters and the drawn lanes. */
  function FixedReleases(l: Ladder, shown: seq<Credit>, focus: Option<Focus>): nat {
    MasterFloors(focus, Pinned(focus)) + LaneFloors(l, focus, LanesOf(l, shown))
  }

  // ---- Buckets --------------------------------------------------------------------------------------

  function BucketKey(l: Ladder, byDecade: bool, m: string): (Credit, string) {
    (if m in l.masterCredit then l.masterCredit[m] else [], Bucket(l, m, byDecade))
  }

  function BucketOf(l: Ladder, byDecade: bool): string -> Option<(Credit, string)> {
    m => Some(BucketKey(l, byDecade, m))
  }

  /** The distinct buckets some masters fold into. */
  ghost function BucketsOf(l: Ladder, byDecade: bool, ms: seq<string>): set<(Credit, string)> {
    set m | m in ms :: BucketKey(l, byDecade, m)
  }

  /** Keeping `k` of `cs` and bucketing the others fits both planes, beside what is fixed. */
  ghost predicate FitsBeside(l: Ladder, cs: seq<string>, fixedM: nat, fixedR: nat, budget: Budget, byDecade: bool, k: nat) {
    && k <= |cs|
    && fixedM + k + |BucketsOf(l, byDecade, cs[k..])| <= budget.masters
    && fixedR + k <= budget.releases
  }

  ghost predicate Fits(l: Ladder, shown: seq<Credit>, budget: Budget, focus: Option<Focus>, byDecade: bool, k: nat) {
    FitsBeside(l, Candidates(l, shown, focus), FixedMasters(l, shown, focus), FixedReleases(l, shown, focus), budget, byDecade, k)
  }

  /** The prefixes that fit, by length. */
  ghost function FittingKeeps(l: Ladder, shown: seq<Credit>, budget: Budget, focus: Option<Focus>, byDecade: bool): set<nat> {
    set k: nat | k <= |Candidates(l, shown, focus)| && Fits(l, shown, budget, focus, byDecade, k)
  }

  /** No prefix fits, not even the empty one. */
  ghost predicate NoneFit(l: Ladder, shown: seq<Credit>, budget: Budget, focus: Option<Focus>, byDecade: bool) {
    FittingKeeps(l, shown, budget, focus, byDecade) == {}
  }

  /** `keep` candidates fit, and no more do. */
  ghost predicate KeepsMost(l: Ladder, shown: seq<Credit>, budget: Budget, focus: Option<Focus>, byDecade: bool, keep: nat) {
    && Fits(l, shown, budget, focus, byDecade, keep)
    && (forall k :: keep < k ==> !Fits(l, shown, budget, focus, byDecade, k))
  }

  /** The plan that draws the pinned masters and the first `keep` candidates, and buckets
      the other candidates. */
  ghost predicate PlanWith(l: Ladder, level: Level, focus: Option<Focus>, byDecade: bool, plan: MasterPlan, keep: nat) {
    var cs := Candidates(l, level.shown, focus);
    && keep <= |cs|
    && plan.level == level
    && plan.masters == Pinned(focus) + cs[..keep]
    && plan.remainder == Remainder(focus)
    && plan.lanes == LanesOf(l, level.shown)
    && GroupsOf(plan.buckets, cs[keep..], BucketOf(l, byDecade))
    && multiset(Flat(plan.buckets.order, plan.buckets.at)) == multiset(cs[keep..])
  }

  ghost predicate PlanOf(l: Ladder, level: Level, budget: Budget, focus: Option<Focus>, byDecade: bool, plan: MasterPlan, keep: nat) {
    KeepsMost(l, level.shown, budget, focus, byDecade, keep) && PlanWith(l, level, focus, byDecade, plan, keep)
  }

  method BuildPlan(l: Ladder, level: Level, focus: Option<Focus>, byDecade: bool, keep: nat) returns (plan: MasterPlan)
    requires keep <= |Candidates(l, level.shown, focus)|
    ensures PlanWith(l, level, focus, byDecade, plan, keep)
  {
    var cs := Candidates(l, level.shown, focus);
    var folded := GroupBy(cs[keep..], BucketOf(l, byDecade));
    KeyedAll(cs[keep..], BucketOf(l, byDecade));
    plan := MasterPlan(level, Pinned(focus) + cs[..keep], folded, Remainder(focus), LanesOf(l, level.shown));
  }

  /** `_plan_masters`: the largest prefix of the priority order that fits both planes, or
      nothing when not even the empty prefix does. */
  method PlanMasters(l: Ladder, level: Level, budget: Budget, focus: Option<Focus>, byDecade: bool) returns (r: Option<MasterPlan>)
    ensures r.Some? ==> exists keep :: PlanOf(l, level, budget, focus, byDecade, r.value, keep)
    ensures r.None? ==> NoneFit(l, level.shown, budget, focus, byDecade)
  {
    var keep, fits := ChooseKeep(l, level.shown, budget, focus, byDecade);
    if !fits {
      return None;
    }
    var plan := BuildPlan(l, level, focus, byDecade, keep);
    assert PlanOf(l, level, budget, focus, byDecade, plan, keep);
    r := Some(plan);
  }

  method ChooseKeep(l: Ladder, shown: seq<Credit>, budget: Budget, focus: Option<Focus>, byDecade: bool) returns (keep: nat, fits: bool)
    ensures keep <= |Candidates(l, shown, focus)|
    ensures fits ==> KeepsMost(l, shown, budget, focus, byDecade, keep)
    ensures !fits ==> NoneFit(l, shown, budget, focus, byDecade)
  {
    keep, fits := KeepCandidates(l, Candidates(l, shown, focus), FixedMasters(l, shown, focus), FixedReleases(l, shown, focus), budget, byDecade);
  }

  /** The `keep`/`buckets` loop: fold from the end until both planes fit, counting buckets
      as they are opened; and whether what is left fits. */
  method KeepCandidates(l: Ladder, cs: seq<string>, fixedM: nat, fixedR: nat, budget: Budget, byDecade: bool)
    returns (keep: nat, fits: bool)
    ensures keep <= |cs|
    ensures forall k :: keep < k ==> !FitsBeside(l, cs, fixedM, fixedR, budget, byDecade, k)
    ensures fits <==> FitsBeside(l, cs, fixedM, fixedR, budget, byDecade, keep)
    ensures keep > 0 ==> fits
  {
    keep := |cs|;
    var buckets: map<(Credit, string), nat> := map[];
    while keep > 0 && (fixedM + keep + |buckets| > budget.masters || fixedR + keep > budget.releases)
      invariant keep <= |cs|
      invariant buckets.Keys == BucketsOf(l, byDecade, cs[keep..])
      invariant NoMoreFit(l, cs, fixedM, fixedR, budget, byDecade, keep)
    {
      assert |buckets| == |BucketsOf(l, byDecade, cs[keep..])|;
      OneFewer(l, cs, fixedM, fixedR, budget, byDecade, keep);
      keep := keep - 1;
      var key := BucketKey(l, byDecade, cs[keep]);
      assert cs[keep..] == [cs[keep]] + cs[keep + 1..];
      BucketsExtend(l, byDecade, cs[keep], cs[keep + 1..]);
      buckets := buckets[key := if key in buckets then buckets[key] + 1 else 1];
    }
    assert |buckets| == |BucketsOf(l, byDecade, cs[keep..])|;
    fits := fixedM + keep + |buckets| <= budget.masters && fixedR + keep <= budget.releases;
  }

  /** Nothing longer than `keep` fits. */
  ghost predicate NoMoreFit(l: Ladder, cs: seq<string>, fixedM: nat, fixedR: nat, budget: Budget, byDecade: bool, keep: nat) {
    var holds := forall k :: keep < k ==> !FitsBeside(l, cs, fixedM, fixedR, budget, byDecade, k);
    holds
  }

  lemma OneFewer(l: Ladder, cs: seq<string>, fixedM: nat, fixedR: nat, budget: Budget, byDecade: bool, keep: nat)
    requires keep > 0 && NoMoreFit(l, cs, fixedM, fixedR, budget, byDecade, keep) && !FitsBeside(l, cs, fixedM, fixedR, budget, byDecade, keep)
    ensures NoMoreFit(l, cs, fixedM, fixedR, budget, byDecade, keep - 1)
  {
  }

  lemma BucketsExtend(l: Ladder, byDecade: bool, m: string, ms: seq<string>)
    ensures BucketsOf(l, byDecade, [m] + ms) == {BucketKey(l, byDecade, m)} + BucketsOf(l, byDecade, ms)
  {
  }

  lemma {:induction false} DistinctSize<T>(s: seq<T>)
    requires Distinct(s)
    ensures |set x | x in s| == |s|
  {
    if s != [] {
      var n := |s| - 1;
      DistinctSize(s[..n]);
      assert s == s[..n] + [s[n]];
      assert (set x | x in s) == (set x | x in s[..n]) + {s[n]};
    }
  }

  lemma BucketCount(l: Ladder, byDecade: bool, ms: seq<string>, g: Groups<(Credit, string), string>)
    requires GroupsOf(g, ms, BucketOf(l, byDecade))
    ensures |g.order| == |BucketsOf(l, byDecade, ms)|
  {
    GroupsIndexed(g, ms, BucketOf(l, byDecade));
    forall k | k in g.order ensures k in BucketsOf(l, byDecade, ms) {
      var m := g.at[k][0];
      assert m in g.at[k];
      assert BucketOf(l, byDecade)(m) == Some(k);
    }
    forall k | k in BucketsOf(l, byDecade, ms) ensures k in g.order {
      var m :| m in ms && BucketKey(l, byDecade, m) == k;
      assert BucketOf(l, byDecade)(m) == Some(k);
    }
    assert (set k | k in g.order) == BucketsOf(l, byDecade, ms);
    DistinctSize(g.order);
  }

  /** No master with collector state folds while a candidate without one is kept. */
  lemma StatefulFoldLast(l: Ladder, shown: seq<Credit>, focus: Option<Focus>, i: nat, j: nat)
    requires i < j < |Candidates(l, shown, focus)|
    requires Candidates(l, shown, focus)[j] in l.stateful
    ensures Candidates(l, shown, focus)[i] in l.stateful
  {
    SortBySorted(Filter(Flat(shown, l.byCredit.at), NoneOf(Pinned(focus) + Remainder(focus))), PriorityKey(l));
    var cs := Candidates(l, shown, focus);
    assert LexLe(PriorityKey(l)(cs[i]), PriorityKey(l)(cs[j]));
  }
}
