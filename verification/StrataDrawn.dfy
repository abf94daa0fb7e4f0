/** Which releases a response draws, told by the catalog and the caller's marks, and the response
    to a discography that fits (api/strata.py). */
module StrataDrawn {
  import opened Seqs
  import opened StrataCatalog
  import opened StrataCursor
  import opened StrataLadder
  import opened StrataFocus
  import opened StrataFit
  import opened StrataMasters
  import opened StrataReleases
  import opened StrataReleasePlan
  import opened StrataView

  // ---- By the catalog and the marks ------------------------------------------------------------------------------

  /** Under an open master: the releases the strategy draws, its original being the catalog's. */
  ghost predicate MasterSeen(l: Ladder, catalog: Catalog, marks: Marks, nodes: seq<Node>, r: nat, m: string)
    requires m in l.byMaster.at
  {
    exists o :: IsOriginal(catalog, m, o) && MasterSeenBy(l, marks, nodes, r, m, o)
  }

  ghost predicate MasterSeenBy(l: Ladder, marks: Marks, nodes: seq<Node>, r: nat, m: string, o: Release)
    requires m in l.byMaster.at
  {
    forall i :: i in l.byMaster.at[m] ==>
      (i in NodeItems(nodes) <==> Draws(r, IsDiscogs(i.release) && i.release.id == o.id, Marked(marks, i.release)))
  }

  /** Outside the focus: under each drawn master the originals and the marked releases the
      strategy keeps; in each lane the marked ones. */
  ghost predicate RuleSeen(l: Ladder, catalog: Catalog, marks: Marks, focus: Option<Focus>, v: View, r: nat) {
    && (forall m :: m in v.plan.masters && !FocusedMaster(focus, m) && m in l.byMaster.at ==> MasterSeen(l, catalog, marks, v.nodes, r, m))
    && (forall c, i :: c in v.plan.lanes && i in l.Lane(c) && !InFocus(focus, c, i) ==>
          (i in NodeItems(v.nodes) <==> Draws(r, false, Marked(marks, i.release))))
  }

  lemma StatefulIsMarked(catalog: Catalog, marks: Marks, rs: seq<Release>, items: seq<Item>, i: Item)
    requires ItemsAre(catalog, marks, items, rs) && i in items
    ensures i.Stateful() <==> Marked(marks, i.release)
  {
    var k :| 0 <= k < |items| && items[k] == i;
    assert ItemIs(catalog, marks, rs[k], items[k]);
  }

  lemma Listed(l: Ladder, i: Item)
    requires l.Valid()
    ensures forall m :: m in l.byMaster.at && i in l.byMaster.at[m] ==> i in l.items
    ensures forall c :: i in l.Lane(c) ==> i in l.items
  {
  }

  lemma CountIsMember<T>(s: seq<T>, whole: seq<T>, drawn: bool, x: T)
    requires x in whole && multiset(s)[x] == if drawn then multiset(whole)[x] else 0
    ensures x in s <==> drawn
  {
    assert multiset(whole)[x] > 0;
    assert x in s <==> x in multiset(s);
  }

  lemma MasterIsSeen(l: Ladder, catalog: Catalog, marks: Marks, rs: seq<Release>, focus: Option<Focus>, v: View, r: nat, m: string)
    requires l.Valid() && AnchorsOf(catalog, l.anchor, l.masterCredit) && ItemsAre(catalog, marks, l.items, rs)
    requires NodesFollow(l, v.plan.masters, v.plan.lanes, focus, r, v.nodes)
    requires m in v.plan.masters && !FocusedMaster(focus, m) && m in l.byMaster.at
    ensures MasterSeen(l, catalog, marks, v.nodes, r, m)
  {
    var o :| IsOriginal(catalog, m, o) && l.anchor[m] == o.id && l.masterCredit[m] == o.credit;
    forall i | i in l.byMaster.at[m]
      ensures i in NodeItems(v.nodes) <==> Draws(r, IsDiscogs(i.release) && i.release.id == o.id, Marked(marks, i.release))
    {
      Listed(l, i);
      StatefulIsMarked(catalog, marks, rs, l.items, i);
      CountIsMember(NodeItems(v.nodes), l.byMaster.at[m], Draws(r, IsAnchor(l, m, i), i.Stateful()), i);
    }
    assert MasterSeenBy(l, marks, v.nodes, r, m, o);
  }

  lemma RuleIsSeen(l: Ladder, catalog: Catalog, marks: Marks, rs: seq<Release>, focus: Option<Focus>, v: View, r: nat)
    requires l.Valid() && AnchorsOf(catalog, l.anchor, l.masterCredit) && ItemsAre(catalog, marks, l.items, rs)
    requires NodesFollow(l, v.plan.masters, v.plan.lanes, focus, r, v.nodes)
    ensures RuleSeen(l, catalog, marks, focus, v, r)
  {
    forall m | m in v.plan.masters && !FocusedMaster(focus, m) && m in l.byMaster.at ensures MasterSeen(l, catalog, marks, v.nodes, r, m) {
      MasterIsSeen(l, catalog, marks, rs, focus, v, r, m);
    }
    forall c, i | c in v.plan.lanes && i in l.Lane(c) && !InFocus(focus, c, i)
      ensures i in NodeItems(v.nodes) <==> Draws(r, false, Marked(marks, i.release))
    {
      Listed(l, i);
      StatefulIsMarked(catalog, marks, rs, l.items, i);
      CountIsMember(NodeItems(v.nodes), l.Lane(c), Draws(r, false, i.Stateful()), i);
    }
  }

  /** The response draws what the finest strategy that fits says. */
  ghost predicate DrawnByRule(l: Ladder, catalog: Catalog, marks: Marks, budget: Budget, focus: Option<Focus>, v: View) {
    exists r :: FinestAt(l, v.plan.masters, v.plan.lanes, budget, focus, v.nodes, v.aggs, r) && RuleSeen(l, catalog, marks, focus, v, r)
  }

  lemma DrawsByRule(l: Ladder, catalog: Catalog, marks: Marks, rs: seq<Release>, budget: Budget, focus: Option<Focus>, v: View)
    requires l.Valid() && AnchorsOf(catalog, l.anchor, l.masterCredit) && ItemsAre(catalog, marks, l.items, rs)
    requires FinestPlane(l, v.plan.masters, v.plan.lanes, budget, focus, v.nodes, v.aggs)
    ensures DrawnByRule(l, catalog, marks, budget, focus, v)
  {
    var r :| FinestAt(l, v.plan.masters, v.plan.lanes, budget, focus, v.nodes, v.aggs, r);
    RuleIsSeen(l, catalog, marks, rs, focus, v, r);
  }

  // ---- A discography that fits ---------------------------------------------------------------------------------------

  lemma {:induction false} AllKept<T>(s: seq<T>, keep: T -> bool)
    requires forall x :: x in s ==> keep(x)
    ensures Filter(s, keep) == s
  {
    if s != [] {
      AllKept(s[..|s| - 1], keep);
      Snoc(s);
    }
  }

  lemma {:induction false} NoneKept<T>(s: seq<T>, keep: T -> bool)
    requires forall x :: x in s ==> !keep(x)
    ensures Filter(s, keep) == []
  {
    if s != [] { NoneKept(s[..|s| - 1], keep); }
  }

  /** Drawing everything takes one entry for each release. */
  lemma {:induction false} WholeMasters(l: Ladder, ms: seq<string>)
    requires forall k :: 0 <= k < |ms| ==> ms[k] in l.byMaster.at
    ensures MastersEntries(l, RuleAt(0), ms) == |Flat(ms, l.byMaster.at)|
  {
    if ms != [] {
      var m := ms[|ms| - 1];
      WholeMasters(l, ms[..|ms| - 1]);
      AllKept(Members(l, m), Drawn(l, RuleAt(0), m));
      NoneKept(Members(l, m), Folded(l, RuleAt(0), m));
    }
  }

  lemma {:induction false} WholeLanes(lanes: seq<OpenLane>)
    ensures LanesEntries(RuleAt(0), lanes) == |LaneItems(lanes)|
  {
    if lanes != [] {
      var n := |lanes| - 1;
      WholeLanes(lanes[..n]);
      AllKept(lanes[n].items, LaneDrawn(RuleAt(0)));
      NoneKept(lanes[n].items, LaneFolded(RuleAt(0)));
      assert Decades([]) == {};
      LaneItemsAppend(lanes[..n], lanes[n]);
      Snoc(lanes);
    }
  }
}
