/** The release plane: what each drawn master and lane draws, and what it folds
    (api/strata.py, `plan_releases` and `_fold_releases`). */
module StrataReleases {
  import opened Seqs
  import opened StrataCatalog
  import opened StrataCursor
  import opened StrataLadder
  import opened StrataFocus
  import opened StrataFit
  import opened StrataMasters

  datatype Node = Node(item: Item, parent: string)
  datatype ReleaseAgg = ReleaseAgg(id: string, parent: string, items: seq<Item>, decade: Option<string>)

  /** A no-master lane with the items the focus does not hold. */
  datatype OpenLane = OpenLane(lane: Credit, items: seq<Item>)

  function MasterId(m: string): string { "m:" + m }
  function LaneId(c: Credit): string { "nm:" + CreditId(c) }

  function Nodes(items: seq<Item>, parent: string): (r: seq<Node>)
    ensures |r| == |items|
  {
    if items == [] then [] else Nodes(items[..|items| - 1], parent) + [Node(items[|items| - 1], parent)]
  }

  function Drawing(n: Node): seq<Item> { [n.item] }
  function Holding(a: ReleaseAgg): seq<Item> { a.items }
  function Waiting(lane: OpenLane): seq<Item> { lane.items }

  function NodeItems(nodes: seq<Node>): seq<Item> { FlatMap(nodes, Drawing) }
  function AggItems(aggs: seq<ReleaseAgg>): seq<Item> { FlatMap(aggs, Holding) }
  function LaneItems(lanes: seq<OpenLane>): seq<Item> { FlatMap(lanes, Waiting) }

  lemma NodeItemsAppend(a: seq<Node>, b: seq<Node>)
    ensures NodeItems(a + b) == NodeItems(a) + NodeItems(b)
  {
    FlatMapAppend(a, b, Drawing);
  }

  lemma AggItemsConcat(a: seq<ReleaseAgg>, b: seq<ReleaseAgg>)
    ensures AggItems(a + b) == AggItems(a) + AggItems(b)
  {
    FlatMapAppend(a, b, Holding);
  }

  /** Everything some entries draw or hold. */
  ghost function Holds(nodes: seq<Node>, aggs: seq<ReleaseAgg>): multiset<Item> {
    multiset(NodeItems(nodes)) + multiset(AggItems(aggs))
  }

  lemma HoldsAppend(n1: seq<Node>, a1: seq<ReleaseAgg>, n2: seq<Node>, a2: seq<ReleaseAgg>)
    ensures Holds(n1 + n2, a1 + a2) == Holds(n1, a1) + Holds(n2, a2)
  {
    NodeItemsAppend(n1, n2);
    AggItemsConcat(a1, a2);
  }

  // ---- What an entry may be ------------------------------------------------------------------------------

  /** A node draws an item under its own master or lane, and that parent is drawn. */
  ghost predicate NodeUnder(l: Ladder, masters: seq<string>, lanes: seq<Credit>, n: Node) {
    || (exists m :: m in masters && m in l.byMaster.at && n.parent == MasterId(m) && n.item in l.byMaster.at[m])
    || (exists c :: c in lanes && n.parent == LaneId(c) && n.item in l.Lane(c))
  }

  /** An aggregate's id names the member set `t`, which contains everything it holds, and
      its parent is the drawn master or lane of that set. */
  ghost predicate AggFor(l: Ladder, masters: seq<string>, lanes: seq<Credit>, a: ReleaseAgg, t: Target) {
    && TargetOf(l, t) && a.id == TargetId(t) && a.items != []
    && (forall i :: i in a.items ==> i in ReleaseItems(t))
    && match t
       case MasterReleases(m, _, _) => m in masters && a.parent == MasterId(m) && a.decade.None?
       case LaneReleases(c, d, _) => c in lanes && a.parent == LaneId(c) && a.decade == d
       case _ => false
  }

  ghost predicate AggUnder(l: Ladder, masters: seq<string>, lanes: seq<Credit>, a: ReleaseAgg) {
    exists t :: AggFor(l, masters, lanes, a, t)
  }

  /** Every entry of a plane is under a drawn parent. */
  ghost predicate EntriesUnder(l: Ladder, masters: seq<string>, lanes: seq<Credit>, nodes: seq<Node>, aggs: seq<ReleaseAgg>) {
    && (forall k :: 0 <= k < |nodes| ==> NodeUnder(l, masters, lanes, nodes[k]))
    && (forall k :: 0 <= k < |aggs| ==> AggUnder(l, masters, lanes, aggs[k]))
  }

  lemma EntriesAppend(l: Ladder, masters: seq<string>, lanes: seq<Credit>, n1: seq<Node>, a1: seq<ReleaseAgg>, n2: seq<Node>, a2: seq<ReleaseAgg>)
    requires EntriesUnder(l, masters, lanes, n1, a1) && EntriesUnder(l, masters, lanes, n2, a2)
    ensures EntriesUnder(l, masters, lanes, n1 + n2, a1 + a2)
  {
  }

  // ---- The folding rules ------------------------------------------------------------------------------------

  /** Which releases a rule draws: all of them, or the originals and the stateful ones. */
  datatype Rule = Rule(everything: bool, originals: bool, stateful: bool, byDecade: bool)

  /** Drawing everything, then the four strategies from the finest to the coarsest. */
  function RuleAt(r: nat): Rule
    requires r < 5
  {
    match r
    case 0 => Rule(true, true, true, true)
    case 1 => Rule(false, true, true, true)
    case 2 => Rule(false, true, true, false)
    case 3 => Rule(false, false, true, false)
    case 4 => Rule(false, false, false, false)
  }

  predicate DrawnUnder(l: Ladder, rule: Rule, m: string, i: Item) {
    || rule.everything
    || (rule.originals && i.release.provider == Discogs && m in l.anchor && i.release.id == l.anchor[m])
    || (rule.stateful && i.Stateful())
  }

  function Drawn(l: Ladder, rule: Rule, m: string): Item -> bool { i => DrawnUnder(l, rule, m, i) }
  function Folded(l: Ladder, rule: Rule, m: string): Item -> bool { i => !DrawnUnder(l, rule, m, i) }

  predicate DrawnFromLane(rule: Rule, i: Item) { rule.everything || (rule.stateful && i.Stateful()) }
  function LaneDrawn(rule: Rule): Item -> bool { i => DrawnFromLane(rule, i) }
  function LaneFolded(rule: Rule): Item -> bool { i => !DrawnFromLane(rule, i) }

  function ItemDecade(i: Item): Option<string> { Some(Decade(i.year)) }
  ghost function Decades(items: seq<Item>): set<string> { set i | i in items :: Decade(i.year) }

  function Members(l: Ladder, m: string): seq<Item> { if m in l.byMaster.at then l.byMaster.at[m] else [] }

  /** How many entries a master takes under a rule. */
  function MasterEntries(l: Ladder, rule: Rule, m: string): nat {
    |Filter(Members(l, m), Drawn(l, rule, m))| + Flag(Filter(Members(l, m), Folded(l, rule, m)) != [])
  }

  ghost function LaneEntries(rule: Rule, lane: OpenLane): nat {
    var rest := Filter(lane.items, LaneFolded(rule));
    |Filter(lane.items, LaneDrawn(rule))| + if rule.byDecade then |Decades(rest)| else Flag(rest != [])
  }

  function MastersEntries(l: Ladder, rule: Rule, ms: seq<string>): nat {
    if ms == [] then 0 else MastersEntries(l, rule, ms[..|ms| - 1]) + MasterEntries(l, rule, ms[|ms| - 1])
  }

  lemma MastersEntriesStep(l: Ladder, rule: Rule, ms: seq<string>, k: nat)
    requires k < |ms|
    ensures MastersEntries(l, rule, ms[..k + 1]) == MastersEntries(l, rule, ms[..k]) + MasterEntries(l, rule, ms[k])
  {
    assert ms[..k + 1][..k] == ms[..k];
  }

  ghost function LanesEntries(rule: Rule, lanes: seq<OpenLane>): nat {
    if lanes == [] then 0 else LanesEntries(rule, lanes[..|lanes| - 1]) + LaneEntries(rule, lanes[|lanes| - 1])
  }

  // ---- What a rule draws -----------------------------------------------------------------------------------------

  /** What the open masters draw, one after the other. */
  function DrawnOf(l: Ladder, rule: Rule, ms: seq<string>): seq<Item> {
    if ms == [] then [] else DrawnOf(l, rule, ms[..|ms| - 1]) + Filter(Members(l, ms[|ms| - 1]), Drawn(l, rule, ms[|ms| - 1]))
  }

  /** What the open lanes draw. */
  function LaneDrawnOf(rule: Rule, lanes: seq<OpenLane>): seq<Item> {
    if lanes == [] then [] else LaneDrawnOf(rule, lanes[..|lanes| - 1]) + Filter(lanes[|lanes| - 1].items, LaneDrawn(rule))
  }

  /** A lane folds by decade under a rule that says so; a master always folds whole. */
  predicate AggFollows(byDecade: bool, a: ReleaseAgg) {
    a.items != [] && (a.decade.Some? <==> byDecade && a.items[0].release.masterId.None?)
  }

  /** And nothing folds under a rule that draws everything. */
  ghost predicate AggsFollow(everything: bool, byDecade: bool, aggs: seq<ReleaseAgg>) {
    (everything ==> aggs == []) && forall k :: 0 <= k < |aggs| ==> AggFollows(byDecade, aggs[k])
  }

  lemma AggsFollowBoth(everything: bool, byDecade: bool, a: seq<ReleaseAgg>, b: seq<ReleaseAgg>)
    requires AggsFollow(everything, byDecade, a) && AggsFollow(everything, byDecade, b)
    ensures AggsFollow(everything, byDecade, a + b)
  {
  }

  /** Each item lies under its own master only, or in its own lane only. */
  ghost predicate ItemsKeyed(l: Ladder) {
    var holds :=
      && (forall m, i :: m in l.byMaster.at && i in l.byMaster.at[m] ==> ItemMaster(i) == Some(m))
      && (forall c, i :: i in l.Lane(c) ==> ItemLane(i) == Some(c));
    holds
  }

  // ---- Entries of one master or lane -------------------------------------------------------------------------------------

  /** Every open lane holds some of its credit's lane. */
  ghost predicate LanesOpen(l: Ladder, lanes: seq<Credit>, open: seq<OpenLane>) {
    forall k :: 0 <= k < |open| ==>
      && open[k].lane in lanes && open[k].items != []
      && forall i :: i in open[k].items ==> i in l.Lane(open[k].lane)
  }

  /** Drawing some of a master's items under it. */
  lemma NodesUnderMaster(l: Ladder, masters: seq<string>, lanes: seq<Credit>, m: string, items: seq<Item>)
    requires m in masters && m in l.byMaster.at
    requires forall i :: i in items ==> i in l.byMaster.at[m]
    ensures EntriesUnder(l, masters, lanes, Nodes(items, MasterId(m)), [])
    ensures NodeItems(Nodes(items, MasterId(m))) == items
  {
  }

  lemma NodesUnderLane(l: Ladder, masters: seq<string>, lanes: seq<Credit>, c: Credit, items: seq<Item>)
    requires c in lanes && forall i :: i in items ==> i in l.Lane(c)
    ensures EntriesUnder(l, masters, lanes, Nodes(items, LaneId(c)), [])
    ensures NodeItems(Nodes(items, LaneId(c))) == items
  {
  }

  function MasterAgg(m: string, items: seq<Item>): ReleaseAgg {
    ReleaseAgg("ra:m:" + m, MasterId(m), items, None)
  }

  function LaneAgg(c: Credit, decade: Option<string>, items: seq<Item>): ReleaseAgg {
    ReleaseAgg("ra:nm:" + Labelled(c, decade), LaneId(c), items, decade)
  }

  lemma MasterAggUnder(l: Ladder, masters: seq<string>, lanes: seq<Credit>, m: string, items: seq<Item>)
    requires m in masters && m in l.byMaster.at && m in l.masterCredit
    requires items != [] && forall i :: i in items ==> i in l.byMaster.at[m]
    ensures AggUnder(l, masters, lanes, MasterAgg(m, items))
  {
    var t := MasterReleases(m, l.masterCredit[m], l.byMaster.at[m]);
    assert items[0] in items;
    assert AggFor(l, masters, lanes, MasterAgg(m, items), t);
  }

  lemma LaneAggUnder(l: Ladder, masters: seq<string>, lanes: seq<Credit>, c: Credit, decade: Option<string>, items: seq<Item>)
    requires c in lanes && items != []
    requires forall i :: i in items ==> i in l.Lane(c) && InDecade(decade)(i)
    ensures AggUnder(l, masters, lanes, LaneAgg(c, decade, items))
  {
    FilterMembers(l.Lane(c), InDecade(decade));
    var t := LaneReleases(c, decade, LaneTagged(l, c, decade));
    assert items[0] in items;
    assert AggFor(l, masters, lanes, LaneAgg(c, decade, items), t);
  }

  lemma SingleAgg(a: ReleaseAgg)
    ensures AggItems([a]) == a.items && AggItems([]) == []
  {
    FlatMapOne(a, Holding);
  }

  lemma MasterAggFollows(l: Ladder, byDecade: bool, m: string, items: seq<Item>)
    requires ItemsKeyed(l) && m in l.byMaster.at && items != [] && forall i :: i in items ==> i in l.byMaster.at[m]
    ensures AggFollows(byDecade, MasterAgg(m, items))
  {
    assert items[0] in items && ItemMaster(items[0]) == Some(m);
  }

  // ---- Folding --------------------------------------------------------------------------------------------------

  /** One master: draw what the rule keeps, hold the rest in one aggregate. */
  method FoldMaster(l: Ladder, ghost masters: seq<string>, ghost lanes: seq<Credit>, rule: Rule, m: string) returns (nodes: seq<Node>, aggs: seq<ReleaseAgg>)
    requires m in masters && m in l.byMaster.at && m in l.masterCredit && ItemsKeyed(l)
    ensures EntriesUnder(l, masters, lanes, nodes, aggs)
    ensures NodeItems(nodes) == Filter(l.byMaster.at[m], Drawn(l, rule, m)) && AggsFollow(rule.everything, rule.byDecade, aggs)
    ensures Holds(nodes, aggs) == multiset(l.byMaster.at[m])
    ensures |nodes| + |aggs| == MasterEntries(l, rule, m)
  {
    var kept, rest := Filter(Members(l, m), Drawn(l, rule, m)), Filter(Members(l, m), Folded(l, rule, m));
    FilterSplits(Members(l, m), Drawn(l, rule, m), Folded(l, rule, m));
    MasterParts(l, rule, m, kept, rest);
    NodesUnderMaster(l, masters, lanes, m, kept);
    nodes := Nodes(kept, MasterId(m));
    aggs := FoldMasterRest(l, masters, lanes, rule, m, rest);
  }

  lemma MasterParts(l: Ladder, rule: Rule, m: string, kept: seq<Item>, rest: seq<Item>)
    requires m in l.byMaster.at && kept == Filter(Members(l, m), Drawn(l, rule, m)) && rest == Filter(Members(l, m), Folded(l, rule, m))
    ensures (forall i :: i in kept ==> i in l.byMaster.at[m]) && (forall i :: i in rest ==> i in l.byMaster.at[m])
    ensures rule.everything ==> rest == []
  {
    if rule.everything && rest != [] { assert rest[0] in rest; }
    FilterMembers(Members(l, m), Drawn(l, rule, m));
    FilterMembers(Members(l, m), Folded(l, rule, m));
  }

  /** What a rule folds of a master. */
  method FoldMasterRest(l: Ladder, ghost masters: seq<string>, ghost lanes: seq<Credit>, rule: Rule, m: string, rest: seq<Item>) returns (aggs: seq<ReleaseAgg>)
    requires m in masters && m in l.byMaster.at && m in l.masterCredit && ItemsKeyed(l) && (rule.everything ==> rest == []) && forall i :: i in rest ==> i in l.byMaster.at[m]
    ensures EntriesUnder(l, masters, lanes, [], aggs) && AggsFollow(rule.everything, rule.byDecade, aggs)
    ensures AggItems(aggs) == rest && |aggs| == Flag(rest != [])
  {
    aggs := [];
    if rest != [] {
      MasterAggUnder(l, masters, lanes, m, rest);
      SingleAgg(MasterAgg(m, rest));
      MasterAggFollows(l, rule.byDecade, m, rest);
      aggs := [MasterAgg(m, rest)];
    }
  }

  method FoldMasters(l: Ladder, ghost masters: seq<string>, ghost lanes: seq<Credit>, rule: Rule, open: seq<string>) returns (nodes: seq<Node>, aggs: seq<ReleaseAgg>)
    requires ItemsKeyed(l) && forall k :: 0 <= k < |open| ==> open[k] in masters && open[k] in l.byMaster.at && open[k] in l.masterCredit
    ensures EntriesUnder(l, masters, lanes, nodes, aggs)
    ensures NodeItems(nodes) == DrawnOf(l, rule, open) && AggsFollow(rule.everything, rule.byDecade, aggs)
    ensures Holds(nodes, aggs) == multiset(Flat(open, l.byMaster.at))
    ensures |nodes| + |aggs| == MastersEntries(l, rule, open)
  {
    nodes, aggs := [], [];
    for k := 0 to |open|
      invariant EntriesUnder(l, masters, lanes, nodes, aggs)
      invariant NodeItems(nodes) == DrawnOf(l, rule, open[..k]) && AggsFollow(rule.everything, rule.byDecade, aggs)
      invariant Holds(nodes, aggs) == multiset(Flat(open[..k], l.byMaster.at))
      invariant |nodes| + |aggs| == MastersEntries(l, rule, open[..k])
    {
      var ns, xs := FoldMaster(l, masters, lanes, rule, open[k]);
      FlatStep(open, k, l.byMaster.at);
      MastersEntriesStep(l, rule, open, k);
      DrawnStep(l, rule, open, k);
      NodeItemsAppend(nodes, ns);
      AggsFollowBoth(rule.everything, rule.byDecade, aggs, xs);
      EntriesAppend(l, masters, lanes, nodes, aggs, ns, xs);
      HoldsAppend(nodes, aggs, ns, xs);
      nodes, aggs := nodes + ns, aggs + xs;
    }
    assert open[..|open|] == open;
  }

  lemma DrawnStep(l: Ladder, rule: Rule, ms: seq<string>, k: nat)
    requires k < |ms|
    ensures DrawnOf(l, rule, ms[..k + 1]) == DrawnOf(l, rule, ms[..k]) + Filter(Members(l, ms[k]), Drawn(l, rule, ms[k]))
  {
    assert ms[..k + 1][..k] == ms[..k];
  }

  /** A lane's rest, one aggregate per decade. */
  method FoldDecades(l: Ladder, ghost masters: seq<string>, ghost lanes: seq<Credit>, c: Credit, rest: seq<Item>) returns (aggs: seq<ReleaseAgg>)
    requires c in lanes && ItemsKeyed(l) && forall i :: i in rest ==> i in l.Lane(c)
    ensures EntriesUnder(l, masters, lanes, [], aggs) && AggsFollow(false, true, aggs)
    ensures Holds([], aggs) == multiset(rest)
    ensures |aggs| == |Decades(rest)|
  {
    var groups := GroupBy(rest, ItemDecade);
    KeyedAll(rest, ItemDecade);
    DecadeCount(rest, groups);
    forall k | 0 <= k < |groups.order|
      ensures groups.order[k] in groups.at
      ensures AggUnder(l, masters, lanes, LaneAgg(c, Some(groups.order[k]), groups.at[groups.order[k]]))
    {
      DecadeGroup(l, masters, lanes, c, rest, groups, groups.order[k]);
    }
    aggs := DecadeAggs(l, masters, lanes, c, groups.order, groups.at);
    forall k | 0 <= k < |aggs| ensures AggFollows(true, aggs[k]) { DecadeAggFollows(l, c, rest, groups, k, aggs[k]); }
  }

  lemma DecadeAggFollows(l: Ladder, c: Credit, rest: seq<Item>, groups: Groups<string, Item>, k: nat, a: ReleaseAgg)
    requires ItemsKeyed(l) && (forall i :: i in rest ==> i in l.Lane(c)) && GroupsOf(groups, rest, ItemDecade) && k < |groups.order|
    requires groups.order[k] in groups.at && a == LaneAgg(c, Some(groups.order[k]), groups.at[groups.order[k]])
    ensures AggFollows(true, a)
  {
    SelectMembers(rest, ItemDecade, groups.order[k]);
    assert a.items[0] in a.items;
    assert a.items[0] in l.Lane(c) && ItemLane(a.items[0]) == Some(c);
  }

  method DecadeAggs(l: Ladder, ghost masters: seq<string>, ghost lanes: seq<Credit>, c: Credit, order: seq<string>, at: map<string, seq<Item>>)
    returns (aggs: seq<ReleaseAgg>)
    requires forall k :: 0 <= k < |order| ==> order[k] in at
    requires forall k :: 0 <= k < |order| ==> AggUnder(l, masters, lanes, LaneAgg(c, Some(order[k]), at[order[k]]))
    ensures EntriesUnder(l, masters, lanes, [], aggs)
    ensures Holds([], aggs) == multiset(Flat(order, at))
    ensures |aggs| == |order| && forall k :: 0 <= k < |aggs| ==> aggs[k] == LaneAgg(c, Some(order[k]), at[order[k]])
  {
    aggs := seq(|order|, k requires 0 <= k < |order| => LaneAgg(c, Some(order[k]), at[order[k]]));
    DecadeAggsHold(order, at, aggs);
  }

  lemma {:induction false} DecadeAggsHold(order: seq<string>, at: map<string, seq<Item>>, aggs: seq<ReleaseAgg>)
    requires |aggs| == |order| && forall k :: 0 <= k < |order| ==> order[k] in at && aggs[k].items == at[order[k]]
    ensures AggItems(aggs) == Flat(order, at)
  {
    if order != [] {
      var n := |order| - 1;
      DecadeAggsHold(order[..n], at, aggs[..n]);
    }
  }

  lemma DecadeGroup(l: Ladder, masters: seq<string>, lanes: seq<Credit>, c: Credit, rest: seq<Item>, groups: Groups<string, Item>, tag: string)
    requires c in lanes && (forall i :: i in rest ==> i in l.Lane(c))
    requires GroupsOf(groups, rest, ItemDecade) && tag in groups.at
    ensures AggUnder(l, masters, lanes, LaneAgg(c, Some(tag), groups.at[tag]))
  {
    SelectMembers(rest, ItemDecade, tag);
    forall i | i in groups.at[tag] ensures InDecade(Some(tag))(i) {
      assert ItemDecade(i) == Some(tag);
    }
    LaneAggUnder(l, masters, lanes, c, Some(tag), groups.at[tag]);
  }

  lemma DecadeCount(items: seq<Item>, g: Groups<string, Item>)
    requires GroupsOf(g, items, ItemDecade)
    ensures |g.order| == |Decades(items)|
  {
    GroupsIndexed(g, items, ItemDecade);
    forall k | k in g.order ensures k in Decades(items) {
      var i := g.at[k][0];
      assert i in g.at[k];
      assert ItemDecade(i) == Some(k);
    }
    forall k | k in Decades(items) ensures k in g.order {
      var i :| i in items && Decade(i.year) == k;
      assert ItemDecade(i) == Some(k);
    }
    assert (set k | k in g.order) == Decades(items);
    DistinctSize(g.order);
  }

  /** One lane: draw what the rule keeps, hold the rest by decade or whole. */
  method FoldLane(l: Ladder, ghost masters: seq<string>, ghost lanes: seq<Credit>, rule: Rule, lane: OpenLane) returns (nodes: seq<Node>, aggs: seq<ReleaseAgg>)
    requires lane.lane in lanes && ItemsKeyed(l) && forall i :: i in lane.items ==> i in l.Lane(lane.lane)
    ensures EntriesUnder(l, masters, lanes, nodes, aggs)
    ensures NodeItems(nodes) == Filter(lane.items, LaneDrawn(rule)) && AggsFollow(rule.everything, rule.byDecade, aggs)
    ensures Holds(nodes, aggs) == multiset(lane.items)
    ensures |nodes| + |aggs| == LaneEntries(rule, lane)
  {
    var kept, rest := Filter(lane.items, LaneDrawn(rule)), Filter(lane.items, LaneFolded(rule));
    LaneSplits(rule, lane, kept, rest);
    NodesUnderLane(l, masters, lanes, lane.lane, kept);
    nodes, aggs := Nodes(kept, LaneId(lane.lane)), [];
    if rest != [] {
      aggs := FoldRest(l, masters, lanes, rule, lane.lane, rest);
    }
  }

  lemma LaneSplits(rule: Rule, lane: OpenLane, kept: seq<Item>, rest: seq<Item>)
    requires kept == Filter(lane.items, LaneDrawn(rule)) && rest == Filter(lane.items, LaneFolded(rule))
    ensures multiset(kept) + multiset(rest) == multiset(lane.items) && (rest != [] ==> !rule.everything)
    ensures (forall i :: i in kept ==> i in lane.items) && forall i :: i in rest ==> i in lane.items
    ensures LaneEntries(rule, lane) == |kept| + if rest == [] then 0 else if rule.byDecade then |Decades(rest)| else 1
  {
    FilterSplits(lane.items, LaneDrawn(rule), LaneFolded(rule));
    FilterMembers(lane.items, LaneDrawn(rule));
    FilterMembers(lane.items, LaneFolded(rule));
    assert rest != [] ==> rest[0] in rest;
    assert rest == [] ==> Decades(rest) == {};
  }

  /** What a rule folds of a lane, by decade or whole. */
  method FoldRest(l: Ladder, ghost masters: seq<string>, ghost lanes: seq<Credit>, rule: Rule, c: Credit, rest: seq<Item>) returns (aggs: seq<ReleaseAgg>)
    requires c in lanes && rest != [] && !rule.everything && ItemsKeyed(l) && forall i :: i in rest ==> i in l.Lane(c)
    ensures EntriesUnder(l, masters, lanes, [], aggs) && AggsFollow(rule.everything, rule.byDecade, aggs)
    ensures multiset(AggItems(aggs)) == multiset(rest)
    ensures |aggs| == if rule.byDecade then |Decades(rest)| else 1
  {
    if rule.byDecade {
      aggs := FoldDecades(l, masters, lanes, c, rest);
    } else {
      LaneAggUnder(l, masters, lanes, c, None, rest);
      SingleAgg(LaneAgg(c, None, rest));
      aggs := [LaneAgg(c, None, rest)];
    }
  }

  method FoldLanes(l: Ladder, ghost masters: seq<string>, ghost lanes: seq<Credit>, rule: Rule, open: seq<OpenLane>) returns (nodes: seq<Node>, aggs: seq<ReleaseAgg>)
    requires LanesOpen(l, lanes, open) && ItemsKeyed(l)
    ensures EntriesUnder(l, masters, lanes, nodes, aggs)
    ensures NodeItems(nodes) == LaneDrawnOf(rule, open) && AggsFollow(rule.everything, rule.byDecade, aggs)
    ensures Holds(nodes, aggs) == multiset(LaneItems(open))
    ensures |nodes| + |aggs| == LanesEntries(rule, open)
  {
    nodes, aggs := [], [];
    for k := 0 to |open|
      invariant EntriesUnder(l, masters, lanes, nodes, aggs)
      invariant NodeItems(nodes) == LaneDrawnOf(rule, open[..k]) && AggsFollow(rule.everything, rule.byDecade, aggs)
      invariant Holds(nodes, aggs) == multiset(LaneItems(open[..k]))
      invariant |nodes| + |aggs| == LanesEntries(rule, open[..k])
    {
      var ns, xs := FoldLane(l, masters, lanes, rule, open[k]);
      LanesDrawnStep(rule, open, k);
      NodeItemsAppend(nodes, ns);
      AggsFollowBoth(rule.everything, rule.byDecade, aggs, xs);
      EntriesAppend(l, masters, lanes, nodes, aggs, ns, xs);
      HoldsAppend(nodes, aggs, ns, xs);
      nodes, aggs := nodes + ns, aggs + xs;
    }
    assert open[..|open|] == open;
  }

  lemma LanesDrawnStep(rule: Rule, open: seq<OpenLane>, k: nat)
    requires k < |open|
    ensures LaneDrawnOf(rule, open[..k + 1]) == LaneDrawnOf(rule, open[..k]) + Filter(open[k].items, LaneDrawn(rule))
    ensures LanesEntries(rule, open[..k + 1]) == LanesEntries(rule, open[..k]) + LaneEntries(rule, open[k])
    ensures LaneItems(open[..k + 1]) == LaneItems(open[..k]) + open[k].items
  {
    assert open[..k + 1][..k] == open[..k];
  }

  // ---- The focused part -----------------------------------------------------------------------------------------

  predicate FocusedMaster(focus: Option<Focus>, m: string) {
    focus.Some? && focus.value.target.MasterReleases? && focus.value.target.master == m
  }

  predicate FocusedLane(focus: Option<Focus>, c: Credit) {
    focus.Some? && focus.value.target.LaneReleases? && focus.value.target.lane == c
  }

  function Unfocused(focus: Option<Focus>): string -> bool { m => !FocusedMaster(focus, m) }

  function OpenMasters(focus: Option<Focus>, ms: seq<string>): seq<string> { Filter(ms, Unfocused(focus)) }

  /** What a lane still has to draw or fold once the focus has taken its members. */
  function Leftover(l: Ladder, focus: Option<Focus>, c: Credit): seq<Item> {
    if FocusedLane(focus, c) then Filter(l.Lane(c), NoneOf(focus.value.target.laneItems)) else l.Lane(c)
  }

  function OpenLanes(l: Ladder, focus: Option<Focus>, cs: seq<Credit>): seq<OpenLane> {
    if cs == [] then []
    else
      var n := |cs| - 1;
      OpenLanes(l, focus, cs[..n]) +
      if Leftover(l, focus, cs[n]) == [] then [] else [OpenLane(cs[n], Leftover(l, focus, cs[n]))]
  }

  function PageItems(f: Focus): seq<Item> { Page(ReleaseItems(f.target), f.page, f.size) }
  function RestItems(f: Focus): seq<Item> { Rest(ReleaseItems(f.target), f.page, f.size) }

  lemma FocusItems(f: Focus)
    ensures multiset(PageItems(f)) + multiset(RestItems(f)) == multiset(ReleaseItems(f.target))
    ensures forall i :: i in PageItems(f) || i in RestItems(f) ==> i in ReleaseItems(f.target)
  {
    PageAndRest(ReleaseItems(f.target), f.page, f.size);
    forall i | i in PageItems(f) || i in RestItems(f) ensures i in ReleaseItems(f.target) {
      SameMember(PageItems(f) + RestItems(f), ReleaseItems(f.target), i);
    }
  }

  /** The focused page as nodes, the rest of the members under the focus's own id. */
  method DrawFocus(l: Ladder, ghost masters: seq<string>, ghost lanes: seq<Credit>, f: Focus) returns (nodes: seq<Node>, aggs: seq<ReleaseAgg>)
    requires TargetOf(l, f.target) && f.id == TargetId(f.target)
    requires match f.target
             case MasterReleases(m, _, _) => m in masters
             case LaneReleases(c, _, _) => c in lanes
             case _ => false
    ensures EntriesUnder(l, masters, lanes, nodes, aggs)
    ensures NodeItems(nodes) == PageItems(f)
    ensures Holds(nodes, aggs) == multiset(ReleaseItems(f.target))
    ensures |nodes| + |aggs| == FocusEntries(f)
    ensures |aggs| <= 1 && forall k :: 0 <= k < |aggs| ==> aggs[k].id == f.id
  {
    FocusItems(f);
    aggs := [];
    match f.target {
      case MasterReleases(m, _, items) =>
        NodesUnderMaster(l, masters, lanes, m, PageItems(f));
        nodes := Nodes(PageItems(f), MasterId(m));
        if RestItems(f) != [] {
          MasterAggUnder(l, masters, lanes, m, RestItems(f));
          SingleAgg(MasterAgg(m, RestItems(f)));
          aggs := [ReleaseAgg(f.id, MasterId(m), RestItems(f), None)];
        }
      case LaneReleases(c, decade, items) =>
        FilterMembers(l.Lane(c), InDecade(decade));
        NodesUnderLane(l, masters, lanes, c, PageItems(f));
        nodes := Nodes(PageItems(f), LaneId(c));
        if RestItems(f) != [] {
          LaneAggUnder(l, masters, lanes, c, decade, RestItems(f));
          SingleAgg(LaneAgg(c, decade, RestItems(f)));
          aggs := [ReleaseAgg(f.id, LaneId(c), RestItems(f), decade)];
        }
    }
  }

  lemma LeftoverSplits(l: Ladder, focus: Option<Focus>, c: Credit)
    requires FocusedLane(focus, c) && TargetOf(l, focus.value.target)
    ensures multiset(ReleaseItems(focus.value.target)) + multiset(Leftover(l, focus, c)) == multiset(l.Lane(c))
    ensures Leftover(l, focus, c) != [] <==> |l.Lane(c)| > focus.value.target.Size()
  {
    var t := focus.value.target;
    FilterMembers(l.Lane(c), InDecade(t.decade));
    FilterSplits(l.Lane(c), InDecade(t.decade), NoneOf(t.laneItems));
  }
}
