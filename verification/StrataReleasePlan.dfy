/** Planning the whole release plane within its budget (api/strata.py, `plan_releases`). */
module StrataReleasePlan {
  import opened Seqs
  import opened StrataCatalog
  import opened StrataCursor
  import opened StrataLadder
  import opened StrataFocus
  import opened StrataFit
  import opened StrataMasters
  import opened StrataReleases

  /** The drawn masters the plan may name, and a focus whose set is of this ladder. */
  ghost predicate Plannable(l: Ladder, masters: seq<string>, focus: Option<Focus>) {
    && Distinct(masters) && (forall k :: 0 <= k < |masters| ==> masters[k] in l.byMaster.at && masters[k] in l.masterCredit)
    && (focus.Some? ==> TargetOf(l, focus.value.target) && focus.value.id == TargetId(focus.value.target))
  }

  /** Each member of the focused set is drawn as often as it is on the page: those on it are,
      the others are not. */
  ghost predicate PageDrawn(f: Focus, nodes: seq<Node>) {
    forall i :: i in ReleaseItems(f.target) ==> multiset(NodeItems(nodes))[i] == multiset(PageItems(f))[i]
  }

  /** The focus draws its page, and nothing else is fixed. */
  ghost predicate DrawsPage(focus: Option<Focus>, on: bool, nodes: seq<Node>) {
    NodeItems(nodes) == if on && focus.Some? then PageItems(focus.value) else []
  }

  lemma NoneThenPage(focus: Option<Focus>, nodes: seq<Node>, ns: seq<Node>, was: bool, now: bool)
    requires DrawsPage(focus, was, nodes) && DrawsPage(focus, now, ns) && !(was && now)
    ensures DrawsPage(focus, was || now, nodes + ns)
  {
    NodeItemsAppend(nodes, ns);
  }

  /** What the focus has fixed and what stays open among some masters. The entries fixed
      and the masters left open are exactly the floor `_release_floor` counts. */
  ghost predicate MastersSplit(l: Ladder, masters: seq<string>, lanes: seq<Credit>, focus: Option<Focus>, done: seq<string>,
                               nodes: seq<Node>, aggs: seq<ReleaseAgg>, open: seq<string>) {
    && open == OpenMasters(focus, done)
    && EntriesUnder(l, masters, lanes, nodes, aggs)
    && Holds(nodes, aggs) + multiset(Flat(open, l.byMaster.at)) == multiset(Flat(done, l.byMaster.at))
    && |nodes| + |aggs| + |open| == MasterFloors(focus, done)
    && DrawsPage(focus, FocusOn(focus, done), nodes) && |aggs| <= Flag(FocusOn(focus, done))
  }

  predicate FocusOn(focus: Option<Focus>, ms: seq<string>) {
    exists m :: m in ms && FocusedMaster(focus, m)
  }

  lemma SplitFocused(l: Ladder, masters: seq<string>, lanes: seq<Credit>, focus: Option<Focus>, k: nat,
                     nodes: seq<Node>, aggs: seq<ReleaseAgg>, open: seq<string>, ns: seq<Node>, xs: seq<ReleaseAgg>)
    requires Distinct(masters) && k < |masters| && masters[k] in l.byMaster.at && FocusedMaster(focus, masters[k]) && TargetOf(l, focus.value.target)
    requires MastersSplit(l, masters, lanes, focus, masters[..k], nodes, aggs, open)
    requires EntriesUnder(l, masters, lanes, ns, xs) && NodeItems(ns) == PageItems(focus.value) && |xs| <= 1
    requires Holds(ns, xs) == multiset(ReleaseItems(focus.value.target)) && |ns| + |xs| == FocusEntries(focus.value)
    ensures MastersSplit(l, masters, lanes, focus, masters[..k + 1], nodes + ns, aggs + xs, open)
  {
    MastersStep(l, focus, masters, k);
    EntriesAppend(l, masters, lanes, nodes, aggs, ns, xs);
    HoldsAppend(nodes, aggs, ns, xs);
    FocusOnStep(focus, masters, k);
    NoneThenPage(focus, nodes, ns, false, true);
    var none: multiset<Item> := multiset{};
    SumOfParts(Holds(nodes, aggs), multiset(Flat(open, l.byMaster.at)), multiset(Flat(masters[..k], l.byMaster.at)),
      Holds(ns, xs), none, multiset(l.byMaster.at[masters[k]]));
  }

  lemma SplitOpen(l: Ladder, masters: seq<string>, lanes: seq<Credit>, focus: Option<Focus>, k: nat,
                  nodes: seq<Node>, aggs: seq<ReleaseAgg>, open: seq<string>)
    requires k < |masters| && masters[k] in l.byMaster.at && !FocusedMaster(focus, masters[k])
    requires MastersSplit(l, masters, lanes, focus, masters[..k], nodes, aggs, open)
    ensures MastersSplit(l, masters, lanes, focus, masters[..k + 1], nodes, aggs, open + [masters[k]])
  {
    var none: multiset<Item> := multiset{};
    MastersStep(l, focus, masters, k);
    FlatAppend(open, [masters[k]], l.byMaster.at);
    SingleFlat(masters[k], l.byMaster.at);
    FocusOnStep(focus, masters, k);
    SumOfParts(Holds(nodes, aggs), multiset(Flat(open, l.byMaster.at)), multiset(Flat(masters[..k], l.byMaster.at)),
      none, multiset(l.byMaster.at[masters[k]]), multiset(l.byMaster.at[masters[k]]));
  }

  lemma FocusOnStep(focus: Option<Focus>, masters: seq<string>, k: nat)
    requires k < |masters|
    ensures FocusOn(focus, masters[..k + 1]) <==> FocusOn(focus, masters[..k]) || FocusedMaster(focus, masters[k])
    ensures Distinct(masters) ==> !(FocusOn(focus, masters[..k]) && FocusedMaster(focus, masters[k]))
  {
  }

  /** One turn of the first loop. */
  method SplitMaster(l: Ladder, masters: seq<string>, ghost lanes: seq<Credit>, focus: Option<Focus>, k: nat,
                     nodes: seq<Node>, aggs: seq<ReleaseAgg>, open: seq<string>)
    returns (nodes': seq<Node>, aggs': seq<ReleaseAgg>, open': seq<string>)
    requires Plannable(l, masters, focus) && k < |masters|
    requires MastersSplit(l, masters, lanes, focus, masters[..k], nodes, aggs, open)
    ensures MastersSplit(l, masters, lanes, focus, masters[..k + 1], nodes', aggs', open')
  {
    if FocusedMaster(focus, masters[k]) {
      var ns, xs := DrawFocus(l, masters, lanes, focus.value);
      SplitFocused(l, masters, lanes, focus, k, nodes, aggs, open, ns, xs);
      nodes', aggs', open' := nodes + ns, aggs + xs, open;
    } else {
      SplitOpen(l, masters, lanes, focus, k, nodes, aggs, open);
      nodes', aggs', open' := nodes, aggs, open + [masters[k]];
    }
  }

  /** The masters' half of the first loops. */
  method SplitMasters(l: Ladder, masters: seq<string>, ghost lanes: seq<Credit>, focus: Option<Focus>)
    returns (nodes: seq<Node>, aggs: seq<ReleaseAgg>, open: seq<string>)
    requires Plannable(l, masters, focus)
    ensures MastersSplit(l, masters, lanes, focus, masters, nodes, aggs, open)
  {
    nodes, aggs, open := [], [], [];
    for k := 0 to |masters|
      invariant MastersSplit(l, masters, lanes, focus, masters[..k], nodes, aggs, open)
    {
      nodes, aggs, open := SplitMaster(l, masters, lanes, focus, k, nodes, aggs, open);
    }
    assert masters[..|masters|] == masters;
  }

  lemma SingleFlat<K, V>(k: K, at: map<K, seq<V>>)
    ensures Flat([k], at) == if k in at then at[k] else []
  {
  }

  lemma MastersStep(l: Ladder, focus: Option<Focus>, masters: seq<string>, k: nat)
    requires k < |masters| && masters[k] in l.byMaster.at
    ensures OpenMasters(focus, masters[..k + 1]) == OpenMasters(focus, masters[..k]) + if FocusedMaster(focus, masters[k]) then [] else [masters[k]]
    ensures MasterFloors(focus, masters[..k + 1]) == MasterFloors(focus, masters[..k]) + MasterFloor(focus, masters[k])
    ensures multiset(Flat(masters[..k + 1], l.byMaster.at)) == multiset(Flat(masters[..k], l.byMaster.at)) + multiset(l.byMaster.at[masters[k]])
  {
    assert masters[..k + 1][..k] == masters[..k];
    FlatStep(masters, k, l.byMaster.at);
  }

  lemma LanesStep(l: Ladder, focus: Option<Focus>, lanes: seq<Credit>, k: nat)
    requires k < |lanes|
    ensures OpenLanes(l, focus, lanes[..k + 1]) == OpenLanes(l, focus, lanes[..k]) +
              if Leftover(l, focus, lanes[k]) == [] then [] else [OpenLane(lanes[k], Leftover(l, focus, lanes[k]))]
    ensures LaneFloors(l, focus, lanes[..k + 1]) == LaneFloors(l, focus, lanes[..k]) + LaneFloor(l, focus, lanes[k])
    ensures multiset(Flat(lanes[..k + 1], l.masterless.at)) == multiset(Flat(lanes[..k], l.masterless.at)) + multiset(l.Lane(lanes[k]))
  {
    assert lanes[..k + 1][..k] == lanes[..k];
  }

  lemma LaneItemsAppend(a: seq<OpenLane>, lane: OpenLane)
    ensures LaneItems(a + [lane]) == LaneItems(a) + lane.items
  {
  }

  predicate FocusOnLane(focus: Option<Focus>, cs: seq<Credit>) {
    exists c :: c in cs && FocusedLane(focus, c)
  }

  /** The same for lanes: a focused lane may also leave some of its items open. */
  ghost predicate LanesSplit(l: Ladder, masters: seq<string>, lanes: seq<Credit>, focus: Option<Focus>, done: seq<Credit>,
                             nodes: seq<Node>, aggs: seq<ReleaseAgg>, open: seq<OpenLane>) {
    && open == OpenLanes(l, focus, done)
    && LanesOpen(l, lanes, open)
    && EntriesUnder(l, masters, lanes, nodes, aggs)
    && Holds(nodes, aggs) + multiset(LaneItems(open)) == multiset(Flat(done, l.masterless.at))
    && |nodes| + |aggs| + |open| == LaneFloors(l, focus, done)
    && DrawsPage(focus, FocusOnLane(focus, done), nodes) && |aggs| <= Flag(FocusOnLane(focus, done))
  }

  /** What one lane adds: its fixed entries hold `held`, and its leftover stays open. */
  lemma LaneAdds(l: Ladder, masters: seq<string>, lanes: seq<Credit>, focus: Option<Focus>, k: nat,
                 nodes: seq<Node>, aggs: seq<ReleaseAgg>, open: seq<OpenLane>, ns: seq<Node>, xs: seq<ReleaseAgg>)
    requires k < |lanes| && Distinct(lanes)
    requires LanesSplit(l, masters, lanes, focus, lanes[..k], nodes, aggs, open)
    requires EntriesUnder(l, masters, lanes, ns, xs)
    requires Holds(ns, xs) + multiset(Leftover(l, focus, lanes[k])) == multiset(l.Lane(lanes[k]))
    requires |ns| + |xs| + Flag(Leftover(l, focus, lanes[k]) != []) == LaneFloor(l, focus, lanes[k])
    requires DrawsPage(focus, FocusedLane(focus, lanes[k]), ns) && |xs| <= Flag(FocusedLane(focus, lanes[k]))
    ensures var left := Leftover(l, focus, lanes[k]);
            LanesSplit(l, masters, lanes, focus, lanes[..k + 1], nodes + ns, aggs + xs,
              open + if left == [] then [] else [OpenLane(lanes[k], left)])
  {
    var left := Leftover(l, focus, lanes[k]);
    LanesStep(l, focus, lanes, k);
    EntriesAppend(l, masters, lanes, nodes, aggs, ns, xs);
    HoldsAppend(nodes, aggs, ns, xs);
    FocusOnLaneStep(focus, lanes, k);
    NoneThenPage(focus, nodes, ns, FocusOnLane(focus, lanes[..k]), FocusedLane(focus, lanes[k]));
    LeftOpen(l, focus, lanes, open, lanes[k]);
    SumOfParts(Holds(nodes, aggs), multiset(LaneItems(open)), multiset(Flat(lanes[..k], l.masterless.at)),
      Holds(ns, xs), multiset(left), multiset(l.Lane(lanes[k])));
  }

  lemma SumOfParts<T>(h1: multiset<T>, o1: multiset<T>, w1: multiset<T>, h2: multiset<T>, o2: multiset<T>, w2: multiset<T>)
    requires h1 + o1 == w1 && h2 + o2 == w2
    ensures (h1 + h2) + (o1 + o2) == w1 + w2
  {
  }

  /** A lane's leftover joins the open lanes. */
  lemma LeftOpen(l: Ladder, focus: Option<Focus>, lanes: seq<Credit>, open: seq<OpenLane>, c: Credit)
    requires LanesOpen(l, lanes, open) && c in lanes
    ensures var left := Leftover(l, focus, c);
            var open' := open + if left == [] then [] else [OpenLane(c, left)];
            LanesOpen(l, lanes, open') && multiset(LaneItems(open')) == multiset(LaneItems(open)) + multiset(left)
  {
    var left := Leftover(l, focus, c);
    LeftoverInLane(l, focus, c);
    if left != [] {
      LaneItemsAppend(open, OpenLane(c, left));
      LanesOpenStep(l, lanes, open, OpenLane(c, left));
    } else {
      assert open + [] == open;
    }
  }

  lemma LanesOpenStep(l: Ladder, lanes: seq<Credit>, open: seq<OpenLane>, lane: OpenLane)
    requires LanesOpen(l, lanes, open)
    requires lane.lane in lanes && lane.items != [] && forall i :: i in lane.items ==> i in l.Lane(lane.lane)
    ensures LanesOpen(l, lanes, open + [lane])
  {
  }

  lemma FocusOnLaneStep(focus: Option<Focus>, lanes: seq<Credit>, k: nat)
    requires k < |lanes|
    ensures FocusOnLane(focus, lanes[..k + 1]) <==> FocusOnLane(focus, lanes[..k]) || FocusedLane(focus, lanes[k])
    ensures Distinct(lanes) ==> !(FocusOnLane(focus, lanes[..k]) && FocusedLane(focus, lanes[k]))
  {
  }

  /** What the focus fixes of one lane. */
  method DrawLane(l: Ladder, ghost masters: seq<string>, ghost lanes: seq<Credit>, focus: Option<Focus>, c: Credit)
    returns (nodes: seq<Node>, aggs: seq<ReleaseAgg>)
    requires Plannable(l, masters, focus) && c in lanes && l.Lane(c) != []
    ensures EntriesUnder(l, masters, lanes, nodes, aggs)
    ensures Holds(nodes, aggs) + multiset(Leftover(l, focus, c)) == multiset(l.Lane(c))
    ensures |nodes| + |aggs| + Flag(Leftover(l, focus, c) != []) == LaneFloor(l, focus, c)
    ensures DrawsPage(focus, FocusedLane(focus, c), nodes) && |aggs| <= Flag(FocusedLane(focus, c))
  {
    nodes, aggs := [], [];
    if FocusedLane(focus, c) {
      nodes, aggs := DrawFocus(l, masters, lanes, focus.value);
      LeftoverSplits(l, focus, c);
    }
  }

  /** One turn of the second loop. */
  method SplitLane(l: Ladder, ghost masters: seq<string>, lanes: seq<Credit>, focus: Option<Focus>, k: nat,
                   nodes: seq<Node>, aggs: seq<ReleaseAgg>, open: seq<OpenLane>)
    returns (nodes': seq<Node>, aggs': seq<ReleaseAgg>, open': seq<OpenLane>)
    requires Plannable(l, masters, focus) && Distinct(lanes) && k < |lanes| && l.Lane(lanes[k]) != []
    requires LanesSplit(l, masters, lanes, focus, lanes[..k], nodes, aggs, open)
    ensures LanesSplit(l, masters, lanes, focus, lanes[..k + 1], nodes', aggs', open')
  {
    var ns, xs := DrawLane(l, masters, lanes, focus, lanes[k]);
    LaneAdds(l, masters, lanes, focus, k, nodes, aggs, open, ns, xs);
    var left := Leftover(l, focus, lanes[k]);
    nodes', aggs', open' := nodes + ns, aggs + xs, open + if left == [] then [] else [OpenLane(lanes[k], left)];
  }

  /** The lanes' half. */
  method SplitLanes(l: Ladder, ghost masters: seq<string>, lanes: seq<Credit>, focus: Option<Focus>)
    returns (nodes: seq<Node>, aggs: seq<ReleaseAgg>, open: seq<OpenLane>)
    requires Plannable(l, masters, focus) && Distinct(lanes)
    requires forall k :: 0 <= k < |lanes| ==> l.Lane(lanes[k]) != []
    ensures LanesSplit(l, masters, lanes, focus, lanes, nodes, aggs, open)
  {
    nodes, aggs, open := [], [], [];
    for k := 0 to |lanes|
      invariant LanesSplit(l, masters, lanes, focus, lanes[..k], nodes, aggs, open)
    {
      nodes, aggs, open := SplitLane(l, masters, lanes, focus, k, nodes, aggs, open);
    }
    assert lanes[..|lanes|] == lanes;
  }

  lemma LeftoverInLane(l: Ladder, focus: Option<Focus>, c: Credit)
    ensures forall i :: i in Leftover(l, focus, c) ==> i in l.Lane(c)
  {
    if FocusedLane(focus, c) {
      FilterMembers(l.Lane(c), NoneOf(focus.value.target.laneItems));
    }
  }

  // ---- The coarsest rule ---------------------------------------------------------------------------------------

  /** How many entries a rule takes for what is open. */
  ghost function RuleEntries(l: Ladder, rule: Rule, ms: seq<string>, lanes: seq<OpenLane>): nat {
    MastersEntries(l, rule, ms) + LanesEntries(rule, lanes)
  }

  lemma {:induction false} NothingKept<T>(s: seq<T>, keep: T -> bool, drop: T -> bool)
    requires forall x :: x in s ==> !keep(x) && drop(x)
    ensures Filter(s, keep) == [] && Filter(s, drop) == s
  {
    if s != [] { NothingKept(s[..|s| - 1], keep, drop); }
  }

  lemma {:induction false} CoarsestMasters(l: Ladder, ms: seq<string>)
    requires forall k :: 0 <= k < |ms| ==> ms[k] in l.byMaster.at && l.byMaster.at[ms[k]] != []
    ensures MastersEntries(l, RuleAt(4), ms) == |ms|
  {
    if ms != [] {
      var m := ms[|ms| - 1];
      CoarsestMasters(l, ms[..|ms| - 1]);
      NothingKept(Members(l, m), Drawn(l, RuleAt(4), m), Folded(l, RuleAt(4), m));
    }
  }

  lemma {:induction false} CoarsestLanes(lanes: seq<OpenLane>)
    requires forall k :: 0 <= k < |lanes| ==> lanes[k].items != []
    ensures LanesEntries(RuleAt(4), lanes) == |lanes|
  {
    if lanes != [] {
      var lane := lanes[|lanes| - 1];
      CoarsestLanes(lanes[..|lanes| - 1]);
      NothingKept(lane.items, LaneDrawn(RuleAt(4)), LaneFolded(RuleAt(4)));
    }
  }

  /** Some entries are what a rule makes of what is open. */
  ghost predicate RuleMade(l: Ladder, masters: seq<string>, lanes: seq<Credit>, rule: Rule, ms: seq<string>, open: seq<OpenLane>,
                           nodes: seq<Node>, aggs: seq<ReleaseAgg>) {
    && EntriesUnder(l, masters, lanes, nodes, aggs)
    && NodeItems(nodes) == DrawnOf(l, rule, ms) + LaneDrawnOf(rule, open) && AggsFollow(rule.everything, rule.byDecade, aggs)
    && Holds(nodes, aggs) == multiset(Flat(ms, l.byMaster.at)) + multiset(LaneItems(open))
    && |nodes| + |aggs| == RuleEntries(l, rule, ms, open)
  }

  ghost predicate Foldable(l: Ladder, masters: seq<string>, lanes: seq<Credit>, ms: seq<string>, open: seq<OpenLane>) {
    && (forall k :: 0 <= k < |ms| ==> ms[k] in masters && ms[k] in l.byMaster.at && l.byMaster.at[ms[k]] != [] && ms[k] in l.masterCredit)
    && LanesOpen(l, lanes, open)
  }

  method FoldOpen(l: Ladder, ghost masters: seq<string>, ghost lanes: seq<Credit>, rule: Rule, ms: seq<string>, open: seq<OpenLane>)
    returns (nodes: seq<Node>, aggs: seq<ReleaseAgg>)
    requires Foldable(l, masters, lanes, ms, open) && ItemsKeyed(l)
    ensures RuleMade(l, masters, lanes, rule, ms, open, nodes, aggs)
  {
    var n1, a1 := FoldMasters(l, masters, lanes, rule, ms);
    var n2, a2 := FoldLanes(l, masters, lanes, rule, open);
    EntriesAppend(l, masters, lanes, n1, a1, n2, a2);
    HoldsAppend(n1, a1, n2, a2);
    NodeItemsAppend(n1, n2);
    AggsFollowBoth(rule.everything, rule.byDecade, a1, a2);
    nodes, aggs := n1 + n2, a1 + a2;
  }

  lemma CoarsestRule(l: Ladder, masters: seq<string>, lanes: seq<Credit>, ms: seq<string>, open: seq<OpenLane>)
    requires Foldable(l, masters, lanes, ms, open)
    ensures RuleEntries(l, RuleAt(4), ms, open) == |ms| + |open|
  {
    CoarsestMasters(l, ms);
    CoarsestLanes(open);
  }

  /** No rule before `r` fits. */
  ghost predicate NoneBefore(l: Ladder, budget: Budget, fixed: nat, ms: seq<string>, open: seq<OpenLane>, r: nat) {
    r < 5 && forall j :: 0 <= j < r ==> fixed + RuleEntries(l, RuleAt(j), ms, open) > budget.releases
  }

  /** `r` is the finest rule that fits beside `fixed` entries. */
  ghost predicate Finest(l: Ladder, budget: Budget, fixed: nat, ms: seq<string>, open: seq<OpenLane>, r: nat) {
    NoneBefore(l, budget, fixed, ms, open, r) && fixed + RuleEntries(l, RuleAt(r), ms, open) <= budget.releases
  }

  lemma NextRule(l: Ladder, masters: seq<string>, lanes: seq<Credit>, budget: Budget, fixed: nat, ms: seq<string>, open: seq<OpenLane>, r: nat)
    requires Foldable(l, masters, lanes, ms, open) && fixed + |ms| + |open| <= budget.releases
    requires NoneBefore(l, budget, fixed, ms, open, r)
    requires fixed + RuleEntries(l, RuleAt(r), ms, open) > budget.releases
    ensures NoneBefore(l, budget, fixed, ms, open, r + 1)
  {
    CoarsestRule(l, masters, lanes, ms, open);
  }

  /** The strategy loop: the last rule always fits when the open masters and lanes have
      room for one entry each. */
  method ChooseRule(l: Ladder, ghost masters: seq<string>, ghost lanes: seq<Credit>, budget: Budget, fixed: nat, ms: seq<string>, open: seq<OpenLane>)
    returns (nodes: seq<Node>, aggs: seq<ReleaseAgg>, r: nat)
    requires Foldable(l, masters, lanes, ms, open) && ItemsKeyed(l)
    requires fixed + |ms| + |open| <= budget.releases
    ensures Finest(l, budget, fixed, ms, open, r)
    ensures RuleMade(l, masters, lanes, RuleAt(r), ms, open, nodes, aggs)
  {
    nodes, aggs := FoldOpen(l, masters, lanes, RuleAt(0), ms, open);
    r := 0;
    while fixed + |nodes| + |aggs| > budget.releases
      invariant NoneBefore(l, budget, fixed, ms, open, r)
      invariant RuleMade(l, masters, lanes, RuleAt(r), ms, open, nodes, aggs)
      decreases 5 - r
    {
      NextRule(l, masters, lanes, budget, fixed, ms, open, r);
      r := r + 1;
      nodes, aggs := FoldOpen(l, masters, lanes, RuleAt(r), ms, open);
    }
  }

  // ---- The whole plane --------------------------------------------------------------------------------------------

  /** The entries the focus fixes: the floor less one entry for each open master and lane. */
  ghost function FixedEntries(l: Ladder, masters: seq<string>, lanes: seq<Credit>, focus: Option<Focus>): int {
    MasterFloors(focus, masters) + LaneFloors(l, focus, lanes) - |OpenMasters(focus, masters)| - |OpenLanes(l, focus, lanes)|
  }

  /** Which releases the `r`th strategy draws: all; the originals and the stateful ones, twice;
      the stateful ones; none. */
  predicate Draws(r: nat, original: bool, stateful: bool) {
    r == 0 || (r <= 2 && original) || (r <= 3 && stateful)
  }

  /** The item is its master's original. */
  predicate IsAnchor(l: Ladder, m: string, i: Item) {
    i.release.provider == Discogs && m in l.anchor && i.release.id == l.anchor[m]
  }

  predicate InFocus(focus: Option<Focus>, c: Credit, i: Item) {
    FocusedLane(focus, c) && i in focus.value.target.laneItems
  }

  /** Outside the focus an item is a node, as often as it is listed, exactly when the strategy
      draws it; no lane item is an original. */
  ghost predicate NodesFollow(l: Ladder, masters: seq<string>, lanes: seq<Credit>, focus: Option<Focus>, r: nat, nodes: seq<Node>) {
    var holds :=
      && (forall m, i :: m in masters && !FocusedMaster(focus, m) && m in l.byMaster.at && i in l.byMaster.at[m] ==>
            multiset(NodeItems(nodes))[i] == if Draws(r, IsAnchor(l, m, i), i.Stateful()) then multiset(l.byMaster.at[m])[i] else 0)
      && (forall c, i :: c in lanes && i in l.Lane(c) && !InFocus(focus, c, i) ==>
            multiset(NodeItems(nodes))[i] == if Draws(r, false, i.Stateful()) then multiset(l.Lane(c))[i] else 0);
    holds
  }

  /** But for the focus's own aggregate, nothing folds when everything is drawn; a lane folds by
      decade under the next strategy and whole under the others; a master always folds whole. */
  ghost predicate FoldsFollow(focus: Option<Focus>, r: nat, aggs: seq<ReleaseAgg>) {
    var own := if focus.Some? && (focus.value.target.MasterReleases? || focus.value.target.LaneReleases?) then 1 else 0;
    exists n :: 0 <= n <= own && n <= |aggs| && AggsFollow(r == 0, r <= 1, aggs[n..])
  }

  /** The plane is what the finest strategy that fits makes of it. */
  ghost predicate FinestPlane(l: Ladder, masters: seq<string>, lanes: seq<Credit>, budget: Budget, focus: Option<Focus>, nodes: seq<Node>, aggs: seq<ReleaseAgg>) {
    exists r :: FinestAt(l, masters, lanes, budget, focus, nodes, aggs, r)
  }

  ghost predicate FinestAt(l: Ladder, masters: seq<string>, lanes: seq<Credit>, budget: Budget, focus: Option<Focus>, nodes: seq<Node>, aggs: seq<ReleaseAgg>, r: nat) {
    var fixed, ms, open := FixedEntries(l, masters, lanes, focus), OpenMasters(focus, masters), OpenLanes(l, focus, lanes);
    && fixed >= 0
    && Finest(l, budget, fixed, ms, open, r) && |nodes| + |aggs| == fixed + RuleEntries(l, RuleAt(r), ms, open)
    && NodesFollow(l, masters, lanes, focus, r, nodes) && FoldsFollow(focus, r, aggs)
  }

  /** A release plane within its budget that loses nothing under the drawn masters and
      lanes, by the finest rule that fits. */
  ghost predicate ReleasePlane(l: Ladder, masters: seq<string>, lanes: seq<Credit>, budget: Budget, focus: Option<Focus>,
                               nodes: seq<Node>, aggs: seq<ReleaseAgg>) {
    && EntriesUnder(l, masters, lanes, nodes, aggs)
    && Holds(nodes, aggs) == multiset(Flat(masters, l.byMaster.at)) + multiset(Flat(lanes, l.masterless.at))
    && |nodes| + |aggs| <= budget.releases
    && (FocusOn(focus, masters) || FocusOnLane(focus, lanes) ==> PageDrawn(focus.value, nodes))
    && FinestPlane(l, masters, lanes, budget, focus, nodes, aggs)
  }

  lemma OpenFoldable(l: Ladder, masters: seq<string>, lanes: seq<Credit>, focus: Option<Focus>, nodes: seq<Node>, aggs: seq<ReleaseAgg>, open: seq<OpenLane>)
    requires Plannable(l, masters, focus) && Indexed(l.byMaster)
    requires LanesSplit(l, masters, lanes, focus, lanes, nodes, aggs, open)
    ensures Foldable(l, masters, lanes, OpenMasters(focus, masters), open)
  {
    var ms := OpenMasters(focus, masters);
    FilterMembers(masters, Unfocused(focus));
    forall k | 0 <= k < |ms| ensures ms[k] in masters && ms[k] in l.byMaster.at && l.byMaster.at[ms[k]] != [] && ms[k] in l.masterCredit {
      assert ms[k] in ms;
      var j :| 0 <= j < |masters| && masters[j] == ms[k];
    }
  }

  lemma PlaneCount(l: Ladder, masters: seq<string>, lanes: seq<Credit>, budget: Budget, focus: Option<Focus>, r: nat,
                   fixed: nat, ms: seq<string>, open: seq<OpenLane>, nodes: seq<Node>, aggs: seq<ReleaseAgg>)
    requires ms == OpenMasters(focus, masters) && open == OpenLanes(l, focus, lanes)
    requires fixed + |ms| + |open| == MasterFloors(focus, masters) + LaneFloors(l, focus, lanes)
    requires Finest(l, budget, fixed, ms, open, r) && |nodes| + |aggs| == fixed + RuleEntries(l, RuleAt(r), ms, open)
    requires NodesFollow(l, masters, lanes, focus, r, nodes) && FoldsFollow(focus, r, aggs)
    ensures FinestPlane(l, masters, lanes, budget, focus, nodes, aggs)
    ensures |nodes| + |aggs| <= budget.releases
  {
    assert FinestAt(l, masters, lanes, budget, focus, nodes, aggs, r);
  }

  /** Fixed and folded entries together lose nothing. */
  lemma PlaneHolds(l: Ladder, masters: seq<string>, lanes: seq<Credit>, focus: Option<Focus>, rule: Rule,
                   n1: seq<Node>, a1: seq<ReleaseAgg>, ms: seq<string>,
                   n2: seq<Node>, a2: seq<ReleaseAgg>, open: seq<OpenLane>,
                   n3: seq<Node>, a3: seq<ReleaseAgg>)
    requires MastersSplit(l, masters, lanes, focus, masters, n1, a1, ms)
    requires LanesSplit(l, masters, lanes, focus, lanes, n2, a2, open)
    requires RuleMade(l, masters, lanes, rule, ms, open, n3, a3)
    ensures EntriesUnder(l, masters, lanes, n1 + n2 + n3, a1 + a2 + a3)
    ensures Holds(n1 + n2 + n3, a1 + a2 + a3) == multiset(Flat(masters, l.byMaster.at)) + multiset(Flat(lanes, l.masterless.at))
  {
    EntriesAppend(l, masters, lanes, n1, a1, n2, a2);
    EntriesAppend(l, masters, lanes, n1 + n2, a1 + a2, n3, a3);
    HoldsAppend(n1, a1, n2, a2);
    HoldsAppend(n1 + n2, a1 + a2, n3, a3);
  }

  // ---- The focused page and nothing else of its set ------------------------------------------------------------------

  /** No open master holds a member of the focused set. */
  lemma OpenMastersLack(l: Ladder, focus: Option<Focus>, masters: seq<string>, i: Item)
    requires ItemsKeyed(l) && focus.Some? && TargetOf(l, focus.value.target) && i in ReleaseItems(focus.value.target)
    ensures i !in Flat(OpenMasters(focus, masters), l.byMaster.at)
  {
    var open := OpenMasters(focus, masters);
    FilterMembers(masters, Unfocused(focus));
    forall m | m in open && m in l.byMaster.at ensures i !in l.byMaster.at[m] {
      assert Unfocused(focus)(m);
      MasterLacks(l, focus, m, i);
    }
    NotInFlat(open, l.byMaster.at, i);
  }

  lemma MasterLacks(l: Ladder, focus: Option<Focus>, m: string, i: Item)
    requires ItemsKeyed(l) && focus.Some? && TargetOf(l, focus.value.target) && i in ReleaseItems(focus.value.target)
    requires m in l.byMaster.at && !FocusedMaster(focus, m)
    ensures i !in l.byMaster.at[m]
  {
    TargetKeyed(l, focus.value.target, i);
  }

  lemma NotInFlat<K, V>(keys: seq<K>, at: map<K, seq<V>>, v: V)
    requires forall k :: k in keys && k in at ==> v !in at[k]
    ensures v !in Flat(keys, at)
  {
    FlatMembers(keys, at);
  }

  lemma TargetKeyed(l: Ladder, t: Target, i: Item)
    requires ItemsKeyed(l) && TargetOf(l, t) && i in ReleaseItems(t)
    ensures t.MasterReleases? ==> ItemMaster(i) == Some(t.master) && ItemLane(i).None?
    ensures t.LaneReleases? ==> ItemLane(i) == Some(t.lane) && ItemMaster(i).None?
    ensures t.MasterReleases? || t.LaneReleases?
  {
    if t.LaneReleases? { FilterMembers(l.Lane(t.lane), InDecade(t.decade)); }
  }

  /** Nor does what a lane has left. */
  lemma LeftoverLacks(l: Ladder, focus: Option<Focus>, c: Credit, i: Item)
    requires ItemsKeyed(l) && focus.Some? && TargetOf(l, focus.value.target) && i in ReleaseItems(focus.value.target)
    ensures i !in Leftover(l, focus, c)
  {
    TargetKeyed(l, focus.value.target, i);
    if FocusedLane(focus, c) { FilterMembers(l.Lane(c), NoneOf(focus.value.target.laneItems)); }
  }

  lemma {:induction false} OpenLanesLack(l: Ladder, focus: Option<Focus>, cs: seq<Credit>, i: Item)
    requires ItemsKeyed(l) && focus.Some? && TargetOf(l, focus.value.target) && i in ReleaseItems(focus.value.target)
    ensures i !in LaneItems(OpenLanes(l, focus, cs))
  {
    if cs == [] {
      assert OpenLanes(l, focus, cs) == [] && LaneItems([]) == [];
    } else {
      var n := |cs| - 1;
      var open, left := OpenLanes(l, focus, cs[..n]), Leftover(l, focus, cs[n]);
      OpenLanesLack(l, focus, cs[..n], i);
      LeftoverLacks(l, focus, cs[n], i);
      LaneItemsJoin(open, cs[n], left);
      assert OpenLanes(l, focus, cs) == open + if left == [] then [] else [OpenLane(cs[n], left)];
    }
  }

  lemma LaneItemsJoin(open: seq<OpenLane>, c: Credit, left: seq<Item>)
    ensures LaneItems(open + if left == [] then [] else [OpenLane(c, left)]) == LaneItems(open) + left
  {
    if left == [] {
      assert open + [] == open && LaneItems(open) + left == LaneItems(open);
    } else {
      LaneItemsAppend(open, OpenLane(c, left));
    }
  }

  /** So what a rule makes of them draws none. */
  lemma RuleLacks(l: Ladder, masters: seq<string>, lanes: seq<Credit>, focus: Option<Focus>, rule: Rule, n3: seq<Node>, a3: seq<ReleaseAgg>, i: Item)
    requires ItemsKeyed(l) && focus.Some? && TargetOf(l, focus.value.target) && i in ReleaseItems(focus.value.target)
    requires RuleMade(l, masters, lanes, rule, OpenMasters(focus, masters), OpenLanes(l, focus, lanes), n3, a3)
    ensures multiset(NodeItems(n3))[i] == 0
  {
    OpenMastersLack(l, focus, masters, i);
    OpenLanesLack(l, focus, lanes, i);
    NoneDrawn(n3, a3, Flat(OpenMasters(focus, masters), l.byMaster.at), LaneItems(OpenLanes(l, focus, lanes)), i);
  }

  lemma NoneDrawn(nodes: seq<Node>, aggs: seq<ReleaseAgg>, a: seq<Item>, b: seq<Item>, i: Item)
    requires Holds(nodes, aggs) == multiset(a) + multiset(b) && i !in a && i !in b
    ensures multiset(NodeItems(nodes))[i] == 0
  {
    assert multiset(a)[i] == 0 && multiset(b)[i] == 0;
    assert Holds(nodes, aggs)[i] == 0;
  }

  lemma CountsAdd(n1: seq<Node>, n2: seq<Node>, n3: seq<Node>, i: Item)
    ensures multiset(NodeItems(n1 + n2 + n3))[i] == multiset(NodeItems(n1))[i] + multiset(NodeItems(n2))[i] + multiset(NodeItems(n3))[i]
  {
    NodeItemsAppend(n1, n2);
    NodeItemsAppend(n1 + n2, n3);
  }

  /** The plane draws exactly the page of the focused set. */
  lemma PlaneDrawsPage(l: Ladder, masters: seq<string>, lanes: seq<Credit>, focus: Option<Focus>, rule: Rule,
                       n1: seq<Node>, n2: seq<Node>, n3: seq<Node>, a3: seq<ReleaseAgg>)
    requires ItemsKeyed(l) && focus.Some? && TargetOf(l, focus.value.target)
    requires DrawsPage(focus, FocusOn(focus, masters), n1) && DrawsPage(focus, FocusOnLane(focus, lanes), n2)
    requires RuleMade(l, masters, lanes, rule, OpenMasters(focus, masters), OpenLanes(l, focus, lanes), n3, a3)
    requires FocusOn(focus, masters) || FocusOnLane(focus, lanes)
    ensures PageDrawn(focus.value, n1 + n2 + n3)
  {
    forall i | i in ReleaseItems(focus.value.target) ensures multiset(NodeItems(n1 + n2 + n3))[i] == multiset(PageItems(focus.value))[i] {
      CountsAdd(n1, n2, n3, i);
      RuleLacks(l, masters, lanes, focus, rule, n3, a3, i);
    }
  }

  // ---- What the strategy draws -----------------------------------------------------------------------------------------

  lemma {:induction false} FilterCount<T>(s: seq<T>, keep: T -> bool, x: T)
    ensures multiset(Filter(s, keep))[x] == if keep(x) then multiset(s)[x] else 0
  {
    if s != [] {
      FilterCount(s[..|s| - 1], keep, x);
      Snoc(s);
    }
  }

  lemma RuleIs(l: Ladder, r: nat, m: string, i: Item)
    requires r < 5
    ensures DrawnUnder(l, RuleAt(r), m, i) <==> Draws(r, IsAnchor(l, m, i), i.Stateful())
    ensures DrawnFromLane(RuleAt(r), i) <==> Draws(r, false, i.Stateful())
    ensures RuleAt(r).byDecade <==> r <= 1
  {
  }

  lemma NotCounted<T>(s: seq<T>, x: T)
    requires x !in s
    ensures multiset(s)[x] == 0
  {
  }

  lemma LastDrawn(l: Ladder, rule: Rule, last: string, m: string, i: Item)
    requires ItemsKeyed(l) && last in l.byMaster.at && m in l.byMaster.at && i in l.byMaster.at[m]
    ensures multiset(Filter(Members(l, last), Drawn(l, rule, last)))[i] == if last == m && DrawnUnder(l, rule, m, i) then multiset(l.byMaster.at[m])[i] else 0
  {
    FilterCount(Members(l, last), Drawn(l, rule, last), i);
    if last != m { NotUnder(l, last, i); }
  }

  lemma {:induction false} DrawnCount(l: Ladder, rule: Rule, ms: seq<string>, m: string, i: Item)
    requires ItemsKeyed(l) && Distinct(ms) && (forall k :: 0 <= k < |ms| ==> ms[k] in l.byMaster.at) && m in l.byMaster.at && i in l.byMaster.at[m]
    ensures multiset(DrawnOf(l, rule, ms))[i] == if m in ms && DrawnUnder(l, rule, m, i) then multiset(l.byMaster.at[m])[i] else 0
  {
    if ms != [] {
      var init, last := ms[..|ms| - 1], ms[|ms| - 1];
      DrawnCount(l, rule, init, m, i);
      LastDrawn(l, rule, last, m, i);
      RuleCount(DrawnOf(l, rule, init), Filter(Members(l, last), Drawn(l, rule, last)), i);
      LastOf(ms, m);
    }
  }

  /** A member of a distinct sequence is its last or among the others, not both. */
  lemma LastOf<T>(s: seq<T>, x: T)
    requires s != [] && Distinct(s)
    ensures x in s <==> x in s[..|s| - 1] || x == s[|s| - 1]
    ensures !(x in s[..|s| - 1] && x == s[|s| - 1])
  {
  }

  lemma NotUnder(l: Ladder, m: string, i: Item)
    requires ItemsKeyed(l) && m in l.byMaster.at && ItemMaster(i) != Some(m)
    ensures multiset(l.byMaster.at[m])[i] == 0
  {
    NotCounted(l.byMaster.at[m], i);
  }

  lemma {:induction false} DrawnLacks(l: Ladder, rule: Rule, ms: seq<string>, i: Item)
    requires ItemsKeyed(l) && (forall k :: 0 <= k < |ms| ==> ms[k] in l.byMaster.at) && ItemMaster(i).None?
    ensures multiset(DrawnOf(l, rule, ms))[i] == 0
  {
    if ms != [] {
      var init, last := ms[..|ms| - 1], ms[|ms| - 1];
      DrawnLacks(l, rule, init, i);
      FilterCount(Members(l, last), Drawn(l, rule, last), i);
      NotUnder(l, last, i);
      RuleCount(DrawnOf(l, rule, init), Filter(Members(l, last), Drawn(l, rule, last)), i);
    }
  }

  lemma LaneDrawnJoin(rule: Rule, open: seq<OpenLane>, c: Credit, left: seq<Item>)
    ensures LaneDrawnOf(rule, open + if left == [] then [] else [OpenLane(c, left)]) == LaneDrawnOf(rule, open) + Filter(left, LaneDrawn(rule))
  {
    if left == [] {
      assert open + [] == open && LaneDrawnOf(rule, open) + [] == LaneDrawnOf(rule, open);
    } else {
      assert (open + [OpenLane(c, left)])[..|open|] == open;
    }
  }

  lemma LeftoverCount(l: Ladder, focus: Option<Focus>, c: Credit, i: Item)
    ensures !InFocus(focus, c, i) ==> multiset(Leftover(l, focus, c))[i] == multiset(l.Lane(c))[i]
    ensures i !in l.Lane(c) ==> multiset(Leftover(l, focus, c))[i] == 0
  {
    if FocusedLane(focus, c) { FilterCount(l.Lane(c), NoneOf(focus.value.target.laneItems), i); }
    if i !in l.Lane(c) { NotCounted(l.Lane(c), i); }
  }

  lemma LaneLastDrawn(l: Ladder, focus: Option<Focus>, rule: Rule, last: Credit, c: Credit, i: Item)
    requires ItemsKeyed(l) && i in l.Lane(c) && !InFocus(focus, c, i)
    ensures multiset(Filter(Leftover(l, focus, last), LaneDrawn(rule)))[i] == if last == c && DrawnFromLane(rule, i) then multiset(l.Lane(c))[i] else 0
  {
    FilterCount(Leftover(l, focus, last), LaneDrawn(rule), i);
    LeftoverCount(l, focus, last, i);
    NotInLane(l, c, last, i);
  }

  lemma OpenLanesStep(l: Ladder, focus: Option<Focus>, rule: Rule, cs: seq<Credit>, i: Item)
    requires cs != []
    ensures multiset(LaneDrawnOf(rule, OpenLanes(l, focus, cs)))[i]
            == multiset(LaneDrawnOf(rule, OpenLanes(l, focus, cs[..|cs| - 1])))[i] + multiset(Filter(Leftover(l, focus, cs[|cs| - 1]), LaneDrawn(rule)))[i]
  {
    var open, last := OpenLanes(l, focus, cs[..|cs| - 1]), cs[|cs| - 1];
    LaneDrawnJoin(rule, open, last, Leftover(l, focus, last));
    RuleCount(LaneDrawnOf(rule, open), Filter(Leftover(l, focus, last), LaneDrawn(rule)), i);
  }

  lemma {:induction false} LaneDrawnCount(l: Ladder, focus: Option<Focus>, rule: Rule, cs: seq<Credit>, c: Credit, i: Item)
    requires ItemsKeyed(l) && Distinct(cs) && i in l.Lane(c) && !InFocus(focus, c, i)
    ensures multiset(LaneDrawnOf(rule, OpenLanes(l, focus, cs)))[i] == if c in cs && DrawnFromLane(rule, i) then multiset(l.Lane(c))[i] else 0
  {
    if cs != [] {
      LaneDrawnCount(l, focus, rule, cs[..|cs| - 1], c, i);
      OpenLanesStep(l, focus, rule, cs, i);
      LaneLastDrawn(l, focus, rule, cs[|cs| - 1], c, i);
      LastOf(cs, c);
    }
  }

  lemma NotInLane(l: Ladder, c: Credit, d: Credit, i: Item)
    requires ItemsKeyed(l)
    ensures i in l.Lane(c) && i in l.Lane(d) ==> c == d
    ensures i in l.Lane(c) ==> ItemMaster(i).None?
  {
    assert i in l.Lane(c) ==> ItemLane(i) == Some(c);
    assert i in l.Lane(d) ==> ItemLane(i) == Some(d);
  }

  lemma {:induction false} LaneDrawnLacks(l: Ladder, focus: Option<Focus>, rule: Rule, cs: seq<Credit>, i: Item)
    requires ItemsKeyed(l) && ItemMaster(i).Some?
    ensures multiset(LaneDrawnOf(rule, OpenLanes(l, focus, cs)))[i] == 0
  {
    if cs != [] {
      var last := cs[|cs| - 1];
      LaneDrawnLacks(l, focus, rule, cs[..|cs| - 1], i);
      OpenLanesStep(l, focus, rule, cs, i);
      FilterCount(Leftover(l, focus, last), LaneDrawn(rule), i);
      LeftoverCount(l, focus, last, i);
      NotInLane(l, last, last, i);
    }
  }

  /** What the focus fixes draws nothing outside its set. */
  lemma FixedLacks(focus: Option<Focus>, on: bool, nodes: seq<Node>, i: Item)
    requires DrawsPage(focus, on, nodes) && (focus.Some? ==> i !in ReleaseItems(focus.value.target))
    ensures multiset(NodeItems(nodes))[i] == 0
  {
    if focus.Some? { FocusItems(focus.value); }
    NotCounted(NodeItems(nodes), i);
  }

  lemma OutsideFocus(l: Ladder, focus: Option<Focus>, m: string, i: Item)
    requires ItemsKeyed(l) && (focus.Some? ==> TargetOf(l, focus.value.target)) && m in l.byMaster.at && i in l.byMaster.at[m] && !FocusedMaster(focus, m)
    ensures focus.Some? ==> i !in ReleaseItems(focus.value.target)
  {
    if focus.Some? && i in ReleaseItems(focus.value.target) { TargetKeyed(l, focus.value.target, i); }
  }

  lemma OutsideFocusLane(l: Ladder, focus: Option<Focus>, c: Credit, i: Item)
    requires ItemsKeyed(l) && (focus.Some? ==> TargetOf(l, focus.value.target)) && i in l.Lane(c) && !InFocus(focus, c, i)
    ensures focus.Some? ==> i !in ReleaseItems(focus.value.target)
  {
    if focus.Some? && i in ReleaseItems(focus.value.target) { TargetKeyed(l, focus.value.target, i); }
  }

  lemma PlaneFollows(l: Ladder, masters: seq<string>, lanes: seq<Credit>, focus: Option<Focus>, r: nat,
                     n1: seq<Node>, n2: seq<Node>, n3: seq<Node>, a3: seq<ReleaseAgg>)
    requires r < 5 && ItemsKeyed(l) && Plannable(l, masters, focus) && Distinct(lanes)
    requires DrawsPage(focus, FocusOn(focus, masters), n1) && DrawsPage(focus, FocusOnLane(focus, lanes), n2)
    requires RuleMade(l, masters, lanes, RuleAt(r), OpenMasters(focus, masters), OpenLanes(l, focus, lanes), n3, a3)
    ensures NodesFollow(l, masters, lanes, focus, r, n1 + n2 + n3)
  {
    var nodes := n1 + n2 + n3;
    forall m, i | m in masters && !FocusedMaster(focus, m) && m in l.byMaster.at && i in l.byMaster.at[m]
      ensures multiset(NodeItems(nodes))[i] == if Draws(r, IsAnchor(l, m, i), i.Stateful()) then multiset(l.byMaster.at[m])[i] else 0
    {
      MasterFollows(l, masters, lanes, focus, r, n1, n2, n3, a3, m, i);
    }
    forall c, i | c in lanes && i in l.Lane(c) && !InFocus(focus, c, i)
      ensures multiset(NodeItems(nodes))[i] == if Draws(r, false, i.Stateful()) then multiset(l.Lane(c))[i] else 0
    {
      LaneFollows(l, masters, lanes, focus, r, n1, n2, n3, a3, c, i);
    }
  }

  lemma OpenAre(l: Ladder, masters: seq<string>, focus: Option<Focus>)
    requires Plannable(l, masters, focus)
    ensures var ms := OpenMasters(focus, masters);
            Distinct(ms) && (forall k :: 0 <= k < |ms| ==> ms[k] in l.byMaster.at) && forall m :: m in ms <==> m in masters && !FocusedMaster(focus, m)
  {
    var ms := OpenMasters(focus, masters);
    FilterMembers(masters, Unfocused(focus));
    FilterDistinct(masters, Unfocused(focus));
    forall k | 0 <= k < |ms| ensures ms[k] in l.byMaster.at {
      assert ms[k] in ms;
      var j :| 0 <= j < |masters| && masters[j] == ms[k];
    }
  }

  lemma RuleCount(a: seq<Item>, b: seq<Item>, i: Item)
    ensures multiset(a + b)[i] == multiset(a)[i] + multiset(b)[i]
  {
  }

  lemma RuleNodes(l: Ladder, masters: seq<string>, lanes: seq<Credit>, rule: Rule, ms: seq<string>, open: seq<OpenLane>, n3: seq<Node>, a3: seq<ReleaseAgg>, i: Item)
    requires RuleMade(l, masters, lanes, rule, ms, open, n3, a3)
    ensures multiset(NodeItems(n3))[i] == multiset(DrawnOf(l, rule, ms))[i] + multiset(LaneDrawnOf(rule, open))[i]
  {
    RuleCount(DrawnOf(l, rule, ms), LaneDrawnOf(rule, open), i);
  }

  lemma MasterInRule(l: Ladder, masters: seq<string>, lanes: seq<Credit>, focus: Option<Focus>, r: nat, m: string, i: Item)
    requires r < 5 && ItemsKeyed(l) && Plannable(l, masters, focus)
    requires m in masters && !FocusedMaster(focus, m) && m in l.byMaster.at && i in l.byMaster.at[m]
    ensures multiset(DrawnOf(l, RuleAt(r), OpenMasters(focus, masters)))[i] + multiset(LaneDrawnOf(RuleAt(r), OpenLanes(l, focus, lanes)))[i]
            == if Draws(r, IsAnchor(l, m, i), i.Stateful()) then multiset(l.byMaster.at[m])[i] else 0
  {
    OpenAre(l, masters, focus);
    DrawnCount(l, RuleAt(r), OpenMasters(focus, masters), m, i);
    assert ItemMaster(i) == Some(m);
    LaneDrawnLacks(l, focus, RuleAt(r), lanes, i);
    RuleIs(l, r, m, i);
  }

  lemma MasterFollows(l: Ladder, masters: seq<string>, lanes: seq<Credit>, focus: Option<Focus>, r: nat,
                      n1: seq<Node>, n2: seq<Node>, n3: seq<Node>, a3: seq<ReleaseAgg>, m: string, i: Item)
    requires r < 5 && ItemsKeyed(l) && Plannable(l, masters, focus)
    requires DrawsPage(focus, FocusOn(focus, masters), n1) && DrawsPage(focus, FocusOnLane(focus, lanes), n2)
    requires RuleMade(l, masters, lanes, RuleAt(r), OpenMasters(focus, masters), OpenLanes(l, focus, lanes), n3, a3)
    requires m in masters && !FocusedMaster(focus, m) && m in l.byMaster.at && i in l.byMaster.at[m]
    ensures multiset(NodeItems(n1 + n2 + n3))[i] == if Draws(r, IsAnchor(l, m, i), i.Stateful()) then multiset(l.byMaster.at[m])[i] else 0
  {
    CountsAdd(n1, n2, n3, i);
    OutsideFocus(l, focus, m, i);
    FixedLacks(focus, FocusOn(focus, masters), n1, i);
    FixedLacks(focus, FocusOnLane(focus, lanes), n2, i);
    RuleNodes(l, masters, lanes, RuleAt(r), OpenMasters(focus, masters), OpenLanes(l, focus, lanes), n3, a3, i);
    MasterInRule(l, masters, lanes, focus, r, m, i);
  }

  lemma LaneInRule(l: Ladder, masters: seq<string>, lanes: seq<Credit>, focus: Option<Focus>, r: nat, c: Credit, i: Item)
    requires r < 5 && ItemsKeyed(l) && Plannable(l, masters, focus) && Distinct(lanes) && c in lanes && i in l.Lane(c) && !InFocus(focus, c, i)
    ensures multiset(DrawnOf(l, RuleAt(r), OpenMasters(focus, masters)))[i] + multiset(LaneDrawnOf(RuleAt(r), OpenLanes(l, focus, lanes)))[i]
            == if Draws(r, false, i.Stateful()) then multiset(l.Lane(c))[i] else 0
  {
    OpenAre(l, masters, focus);
    NotInLane(l, c, c, i);
    DrawnLacks(l, RuleAt(r), OpenMasters(focus, masters), i);
    LaneDrawnCount(l, focus, RuleAt(r), lanes, c, i);
    RuleIs(l, r, "", i);
  }

  lemma LaneFollows(l: Ladder, masters: seq<string>, lanes: seq<Credit>, focus: Option<Focus>, r: nat,
                    n1: seq<Node>, n2: seq<Node>, n3: seq<Node>, a3: seq<ReleaseAgg>, c: Credit, i: Item)
    requires r < 5 && ItemsKeyed(l) && Plannable(l, masters, focus) && Distinct(lanes)
    requires DrawsPage(focus, FocusOn(focus, masters), n1) && DrawsPage(focus, FocusOnLane(focus, lanes), n2)
    requires RuleMade(l, masters, lanes, RuleAt(r), OpenMasters(focus, masters), OpenLanes(l, focus, lanes), n3, a3)
    requires c in lanes && i in l.Lane(c) && !InFocus(focus, c, i)
    ensures multiset(NodeItems(n1 + n2 + n3))[i] == if Draws(r, false, i.Stateful()) then multiset(l.Lane(c))[i] else 0
  {
    CountsAdd(n1, n2, n3, i);
    OutsideFocusLane(l, focus, c, i);
    FixedLacks(focus, FocusOn(focus, masters), n1, i);
    FixedLacks(focus, FocusOnLane(focus, lanes), n2, i);
    RuleNodes(l, masters, lanes, RuleAt(r), OpenMasters(focus, masters), OpenLanes(l, focus, lanes), n3, a3, i);
    LaneInRule(l, masters, lanes, focus, r, c, i);
  }

  lemma FoldsAre(focus: Option<Focus>, masters: seq<string>, lanes: seq<Credit>, r: nat, a1: seq<ReleaseAgg>, a2: seq<ReleaseAgg>, a3: seq<ReleaseAgg>)
    requires r < 5 && |a1| <= Flag(FocusOn(focus, masters)) && |a2| <= Flag(FocusOnLane(focus, lanes)) && AggsFollow(RuleAt(r).everything, RuleAt(r).byDecade, a3)
    ensures FoldsFollow(focus, r, a1 + a2 + a3)
  {
    var aggs, n := a1 + a2 + a3, |a1| + |a2|;
    assert aggs[n..] == a3;
    assert (RuleAt(r).byDecade <==> r <= 1) && (RuleAt(r).everything <==> r == 0);
  }

  /** `plan_releases`. The original's closing assertion, that the last strategy always
      returns, is the termination of `ChooseRule`. */
  method PlanReleases(l: Ladder, masters: seq<string>, lanes: seq<Credit>, budget: Budget, focus: Option<Focus>)
    returns (nodes: seq<Node>, aggs: seq<ReleaseAgg>)
    requires Plannable(l, masters, focus) && Indexed(l.byMaster) && ItemsKeyed(l) && Distinct(lanes)
    requires forall k :: 0 <= k < |lanes| ==> l.Lane(lanes[k]) != []
    requires MasterFloors(focus, masters) + LaneFloors(l, focus, lanes) <= budget.releases
    ensures ReleasePlane(l, masters, lanes, budget, focus, nodes, aggs)
  {
    var n1, a1, ms := SplitMasters(l, masters, lanes, focus);
    var n2, a2, open := SplitLanes(l, masters, lanes, focus);
    OpenFoldable(l, masters, lanes, focus, n2, a2, open);
    var n3, a3, r := ChooseRule(l, masters, lanes, budget, |n1| + |a1| + |n2| + |a2|, ms, open);
    PlaneHolds(l, masters, lanes, focus, RuleAt(r), n1, a1, ms, n2, a2, open, n3, a3);
    if FocusOn(focus, masters) || FocusOnLane(focus, lanes) { PlaneDrawsPage(l, masters, lanes, focus, RuleAt(r), n1, n2, n3, a3); }
    PlaneFollows(l, masters, lanes, focus, r, n1, n2, n3, a3);
    FoldsAre(focus, masters, lanes, r, a1, a2, a3);
    PlaneCount(l, masters, lanes, budget, focus, r, |n1| + |a1| + |n2| + |a2|, ms, open, n1 + n2 + n3, a1 + a2 + a3);
    nodes, aggs := n1 + n2 + n3, a1 + a2 + a3;
  }
}
