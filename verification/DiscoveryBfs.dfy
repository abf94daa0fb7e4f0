/** The layered breadth-first search (api/explore_discovery.py, `_bfs`, `_expand`, `_path`). */
module DiscoveryBfs {
  import opened Seqs
  import opened DiscoveryGraph

  /** A neighbour of the frontier and the lowest `index * 8 + code` that reaches it. */
  datatype Row = Row(eid: Eid, best: nat)

  /** One expansion: the frontier nodes, in path order, and the relationships to follow. */
  datatype Batch = Batch(members: seq<Eid>, types: set<Rel>)

  predicate Via(g: Graph, b: Batch, i: nat, rel: Rel, v: Eid)
    requires i < |b.members|
  {
    rel in b.types && Adjacent(g, b.members[i], rel, v)
  }

  /** What the expansion promises of a row: the least member, then the least relationship. */
  ghost predicate RowOk(g: Graph, b: Batch, r: Row) {
    && r.best / 8 < |b.members| && r.best % 8 < 6 && Via(g, b, r.best / 8, RelOf(r.best % 8), r.eid)
    && forall i, rel :: 0 <= i < |b.members| && Via(g, b, i, rel, r.eid) ==> r.best <= i * 8 + Code(rel)
  }

  ghost predicate Next(g: Graph, b: Batch, v: Eid) {
    exists i, rel :: 0 <= i < |b.members| && Via(g, b, i, rel, v)
  }

  ghost predicate RowsOk(g: Graph, b: Batch, rows: seq<Row>) {
    && (forall r :: r in rows ==> RowOk(g, b, r))
    && (forall v :: Next(g, b, v) ==> exists r :: r in rows && r.eid == v)
  }

  /** The least relationship of a batch's types between two nodes. */
  function LeastRel(g: Graph, b: Batch, i: nat, v: Eid, c: nat): (r: Option<nat>)
    requires i < |b.members| && c <= 6
    ensures r.Some? ==> c <= r.value < 6 && Via(g, b, i, RelOf(r.value), v)
    ensures forall rel :: Code(rel) >= c && Via(g, b, i, rel, v) ==> r.Some? && r.value <= Code(rel)
    decreases 6 - c
  {
    if c == 6 then None
    else if Via(g, b, i, RelOf(c), v) then Some(c)
    else
      assert forall rel :: Code(rel) == c ==> rel == RelOf(c);
      LeastRel(g, b, i, v, c + 1)
  }

  /** `min(index * 8 + code)` over the members from `i` on. */
  function Best(g: Graph, b: Batch, v: Eid, i: nat): (r: Option<nat>)
    requires i <= |b.members|
    ensures r.Some? ==> i <= r.value / 8 < |b.members| && r.value % 8 < 6 && Via(g, b, r.value / 8, RelOf(r.value % 8), v)
    ensures forall j, rel :: i <= j < |b.members| && Via(g, b, j, rel, v) ==> r.Some? && r.value <= j * 8 + Code(rel)
    decreases |b.members| - i
  {
    if i == |b.members| then None
    else
      var c := LeastRel(g, b, i, v, 0);
      if c.Some? then Some(i * 8 + c.value) else Best(g, b, v, i + 1)
  }

  /** `_expand`, one row per distinct neighbour, sorted by name and id. */
  method Expand(g: Graph, b: Batch) returns (rows: seq<Row>)
    ensures RowsOk(g, b, rows)
  {
    var found: seq<Row> := [];
    var pending := g.nodes.Keys;
    while pending != {}
      invariant pending <= g.nodes.Keys
      invariant forall r :: r in found ==> RowOk(g, b, r)
      invariant forall v :: v in g.nodes.Keys - pending && Next(g, b, v) ==> exists r :: r in found && r.eid == v
      decreases pending
    {
      var v :| v in pending;
      var best := Best(g, b, v, 0);
      if best.Some? {
        assert RowOk(g, b, Row(v, best.value));
        var was := found;
        found := found + [Row(v, best.value)];
        assert found[|was|] == Row(v, best.value) && forall r :: r in was ==> r in found;
      }
      pending := pending - {v};
    }
    assert forall v :: Next(g, b, v) ==> v in g.nodes;
    rows := SortBy(found, (r: Row) => RowKey(g, r));
    SameMembers(found, rows);
  }

  function RowKey(g: Graph, r: Row): seq<int> {
    [if r.eid in g.nodes then g.nodes[r.eid].name else 0, r.eid]
  }

  // ---- The search tree --------------------------------------------------------------------------------------------

  type Dists = map<Eid, nat>
  type Parents = map<Eid, (Eid, Rel)>
  type PathNames = map<Eid, seq<int>>

  /** `v`'s parent is next to it and one step nearer, and its path is its parent's and `v`. */
  ghost predicate ParentOk(g: Graph, dist: Dists, parent: Parents, ns: PathNames, v: Eid)
    requires v in parent
  {
    var (u, rel) := parent[v];
    && v in dist && u in dist && v in ns && u in ns && v in g.nodes
    && dist[v] == dist[u] + 1 && Adjacent(g, u, rel, v) && ns[v] == ns[u] + [g.nodes[v].name] && |ns[u]| == dist[u] + 1
  }

  ghost predicate TreeOk(g: Graph, start: Eid, dist: Dists, parent: Parents, ns: PathNames) {
    var holds :=
      && start in g.nodes && start in dist && dist[start] == 0 && ns.Keys == dist.Keys && ns[start] == [g.nodes[start].name]
      && parent.Keys == dist.Keys - {start}
      && forall v :: v in parent ==> ParentOk(g, dist, parent, ns, v);
    holds
  }

  ghost predicate RelsOk(g: Graph, p: seq<Eid>, rels: seq<Rel>) {
    |rels| + 1 == |p| && forall i :: 0 <= i < |rels| ==> Adjacent(g, p[i], rels[i], p[i + 1])
  }

  /** A walk of these names along these relationships. */
  ghost predicate PathOk(g: Graph, start: Eid, v: Eid, k: nat, names: seq<int>, rels: seq<Rel>) {
    exists p :: WalkTo(g, start, v, k, p) && Names(g, p) == names && RelsOk(g, p, rels)
  }

  lemma RelsWalk(g: Graph, p: seq<Eid>, rels: seq<Rel>)
    requires RelsOk(g, p, rels) && p[0] in g.nodes
    ensures Walk(g, p)
  {
    forall i | 0 <= i < |p| ensures p[i] in g.nodes && (i > 0 ==> Linked(g, p[i - 1], p[i])) {
      if i > 0 { assert Adjacent(g, p[i - 1], rels[i - 1], p[i]); }
    }
  }

  /** `_path`: follow parents to the start. Distances strictly decrease, so it ends. */
  method PathOf(g: Graph, start: Eid, ghost dist: Dists, parent: Parents, ghost ns: PathNames, eid: Eid) returns (names: seq<int>, rels: seq<Rel>)
    requires TreeOk(g, start, dist, parent, ns) && eid in dist
    ensures names == ns[eid] && PathOk(g, start, eid, dist[eid], names, rels)
  {
    assert eid in parent ==> ParentOk(g, dist, parent, ns, eid);
    var cur := eid;
    ghost var p := [eid];
    names, rels := [g.nodes[eid].name], [];
    while cur in parent
      invariant cur in dist && cur in g.nodes && p != [] && p[0] == cur && p[|p| - 1] == eid && RelsOk(g, p, rels) && dist[cur] + |rels| == dist[eid]
      invariant (forall i :: 0 <= i < |p| ==> p[i] in g.nodes) && names == Names(g, p) && ns[eid] == ns[cur] + names[1..]
      decreases dist[cur]
    {
      assert ParentOk(g, dist, parent, ns, cur);
      var (up, rel) := parent[cur];
      assert ns[cur] + names[1..] == ns[up] + names;
      names, rels := [g.nodes[up].name] + names, [rel] + rels;
      p := [up] + p;
      assert names[1..] == Names(g, p[1..]);
      assert names == Names(g, p);
      cur := up;
    }
    assert ns[eid] == names;
    RelsWalk(g, p, rels);
  }

  // ---- One layer -----------------------------------------------------------------------------------------------------

  /** While the layer `d + 1` is filled, everything nearer is as it was. */
  ghost predicate InLayer(g: Graph, start: Eid, d: nat, dist0: Dists, ns0: PathNames, dist: Dists, parent: Parents, ns: PathNames) {
    var holds :=
      && TreeOk(g, start, dist, parent, ns)
      && ns0.Keys == dist0.Keys && (forall v :: v in dist0 ==> v in dist && dist[v] == dist0[v] <= d && ns[v] == ns0[v])
      && (forall v :: v in dist && v !in dist0 ==> dist[v] == d + 1);
    holds
  }

  /** The batch's members are nodes at distance `d`, in path order. */
  ghost predicate BatchOk(b: Batch, d: nat, dist0: Dists, ns0: PathNames) {
    var holds :=
      && (forall i :: 0 <= i < |b.members| ==> b.members[i] in dist0 && dist0[b.members[i]] == d && b.members[i] in ns0)
      && (forall i, j :: 0 <= i < j < |b.members| ==> LexLe(ns0[b.members[i]], ns0[b.members[j]]));
    holds
  }

  /** `v` was found, and its parent's path is no greater than any of the batch's that reach it. */
  ghost predicate Covered(g: Graph, b: Batch, d: nat, ns0: PathNames, dist: Dists, parent: Parents, v: Eid) {
    && v in dist
    && (dist[v] == d + 1 && v in parent ==> parent[v].0 in ns0 && forall i, rel :: 0 <= i < |b.members| && b.members[i] in ns0 && Via(g, b, i, rel, v) ==> LexLe(ns0[parent[v].0], ns0[b.members[i]]))
  }

  /** Found nodes stay found, and a layer's parents only get smaller paths. */
  ghost predicate Progress(d: nat, ns0: PathNames, dist: Dists, parent: Parents, dist': Dists, parent': Parents) {
    forall v :: v in dist ==>
      && v in dist' && dist'[v] == dist[v] && (v in parent' <==> v in parent)
      && (dist[v] == d + 1 && v in parent && parent[v].0 in ns0 ==> parent'[v].0 in ns0 && LexLe(ns0[parent'[v].0], ns0[parent[v].0]))
  }

  lemma CoveredStays(g: Graph, b: Batch, d: nat, ns0: PathNames, dist: Dists, parent: Parents, dist': Dists, parent': Parents, v: Eid)
    requires Covered(g, b, d, ns0, dist, parent, v) && Progress(d, ns0, dist, parent, dist', parent')
    ensures Covered(g, b, d, ns0, dist', parent', v)
  {
    if dist'[v] == d + 1 && v in parent' {
      forall i, rel | 0 <= i < |b.members| && b.members[i] in ns0 && Via(g, b, i, rel, v)
        ensures LexLe(ns0[parent'[v].0], ns0[b.members[i]])
      {
        LexTransitive(ns0[parent'[v].0], ns0[parent[v].0], ns0[b.members[i]]);
      }
    }
  }

  lemma ProgressBoth(d: nat, ns0: PathNames, d0: Dists, p0: Parents, d1: Dists, p1: Parents, d2: Dists, p2: Parents)
    requires Progress(d, ns0, d0, p0, d1, p1) && Progress(d, ns0, d1, p1, d2, p2)
    ensures Progress(d, ns0, d0, p0, d2, p2)
  {
    forall v | v in d0 && d0[v] == d + 1 && v in p0 && p0[v].0 in ns0 ensures p2[v].0 in ns0 && LexLe(ns0[p2[v].0], ns0[p0[v].0]) {
      LexTransitive(ns0[p2[v].0], ns0[p1[v].0], ns0[p0[v].0]);
    }
  }

  lemma NoProgress(d: nat, ns0: PathNames, dist: Dists, parent: Parents)
    ensures Progress(d, ns0, dist, parent, dist, parent)
  {
    forall v | v in parent && parent[v].0 in ns0 ensures LexLe(ns0[parent[v].0], ns0[parent[v].0]) {
      LexTotal(ns0[parent[v].0], ns0[parent[v].0]);
    }
  }

  /** The row names the member with the least path that reaches its node. */
  lemma BestIsLeast(g: Graph, b: Batch, d: nat, dist0: Dists, ns0: PathNames, r: Row, i: nat, rel: Rel)
    requires RowOk(g, b, r) && BatchOk(b, d, dist0, ns0) && i < |b.members| && Via(g, b, i, rel, r.eid)
    ensures LexLe(ns0[b.members[r.best / 8]], ns0[b.members[i]])
  {
    assert r.best <= i * 8 + Code(rel);
    if r.best / 8 == i { LexTotal(ns0[b.members[i]], ns0[b.members[i]]); }
  }

  /** A parent no greater than the row's covers the node for the batch. */
  lemma RowCovers(g: Graph, b: Batch, d: nat, dist0: Dists, ns0: PathNames, r: Row, dist: Dists, parent: Parents)
    requires RowOk(g, b, r) && BatchOk(b, d, dist0, ns0) && r.eid in dist
    requires dist[r.eid] == d + 1 && r.eid in parent ==> parent[r.eid].0 in ns0 && LexLe(ns0[parent[r.eid].0], ns0[b.members[r.best / 8]])
    ensures Covered(g, b, d, ns0, dist, parent, r.eid)
  {
    if dist[r.eid] == d + 1 && r.eid in parent {
      var u := parent[r.eid].0;
      forall i, rel | 0 <= i < |b.members| && b.members[i] in ns0 && Via(g, b, i, rel, r.eid) ensures LexLe(ns0[u], ns0[b.members[i]]) {
        BestIsLeast(g, b, d, dist0, ns0, r, i, rel);
        LexTransitive(ns0[u], ns0[b.members[r.best / 8]], ns0[b.members[i]]);
      }
    }
  }

  /** Giving `v` of the new layer a parent of the old one keeps the tree. */
  lemma Adopt(g: Graph, start: Eid, d: nat, dist0: Dists, ns0: PathNames, dist: Dists, parent: Parents, ns: PathNames, v: Eid, u: Eid, rel: Rel)
    requires InLayer(g, start, d, dist0, ns0, dist, parent, ns)
    requires v !in dist || dist[v] == d + 1
    requires u in dist0 && dist0[u] == d && |ns0[u]| == d + 1 && Adjacent(g, u, rel, v)
    ensures v in g.nodes && InLayer(g, start, d, dist0, ns0, dist[v := d + 1], parent[v := (u, rel)], ns[v := ns0[u] + [g.nodes[v].name]])
  {
  }

  /** The layer's state after some rows: found nodes, and what is covered so far. */
  ghost predicate Filling(g: Graph, start: Eid, d: nat, dist0: Dists, ns0: PathNames, dist: Dists, parent: Parents, ns: PathNames, frontier: seq<Eid>) {
    var holds :=
      && InLayer(g, start, d, dist0, ns0, dist, parent, ns)
      && (forall v :: v in frontier <==> v in dist && v !in dist0);
    holds
  }

  /** A node the last hop does not keep. */
  predicate Skipped(g: Graph, last: bool, v: Eid) {
    last && v in g.nodes && !IsEligible(g.nodes[v].nodeLabel)
  }

  /** One row of an expansion. */
  method AddRow(g: Graph, start: Eid, d: nat, last: bool, b: Batch, r: Row, ghost dist0: Dists, ghost ns0: PathNames,
                dist: Dists, parent: Parents, ghost ns: PathNames, frontier: seq<Eid>)
    returns (dist': Dists, parent': Parents, ghost ns': PathNames, frontier': seq<Eid>)
    requires RowOk(g, b, r) && BatchOk(b, d, dist0, ns0) && Filling(g, start, d, dist0, ns0, dist, parent, ns, frontier)
    ensures Filling(g, start, d, dist0, ns0, dist', parent', ns', frontier')
    ensures Progress(d, ns0, dist, parent, dist', parent')
    ensures Skipped(g, last, r.eid) || Covered(g, b, d, ns0, dist', parent', r.eid)
    ensures forall v :: v in dist' && Skipped(g, last, v) ==> v in dist
  {
    dist', parent', ns', frontier' := dist, parent, ns, frontier;
    NoProgress(d, ns0, dist, parent);
    var u, rel := b.members[r.best / 8], RelOf(r.best % 8);
    LayerLength(g, start, d, dist0, ns0, dist, parent, ns, u);
    if r.eid !in dist {
      if last && !IsEligible(g.nodes[r.eid].nodeLabel) { return; }
      Adopt(g, start, d, dist0, ns0, dist, parent, ns, r.eid, u, rel);
      dist', parent' := dist[r.eid := d + 1], parent[r.eid := (u, rel)];
      ns' := ns[r.eid := ns0[u] + [g.nodes[r.eid].name]];
      frontier' := frontier + [r.eid];
      LexTotal(ns0[u], ns0[u]);
    } else if dist[r.eid] == d + 1 {
      LayerParent(g, start, d, dist0, ns0, dist, parent, ns, r.eid);
      var mine, _ := PathOf(g, start, dist, parent, ns, u);
      var held, _ := PathOf(g, start, dist, parent, ns, parent[r.eid].0);
      LexTotal(mine, held);
      LexTotal(mine, mine);
      if !LexLe(held, mine) {
        Adopt(g, start, d, dist0, ns0, dist, parent, ns, r.eid, u, rel);
        dist', parent' := dist[r.eid := d + 1], parent[r.eid := (u, rel)];
        ns' := ns[r.eid := ns0[u] + [g.nodes[r.eid].name]];
      }
    }
    RowCovers(g, b, d, dist0, ns0, r, dist', parent');
  }

  lemma LayerLength(g: Graph, start: Eid, d: nat, dist0: Dists, ns0: PathNames, dist: Dists, parent: Parents, ns: PathNames, u: Eid)
    requires InLayer(g, start, d, dist0, ns0, dist, parent, ns) && u in dist0
    ensures |ns0[u]| == dist0[u] + 1 && u in g.nodes
  {
    if u != start { assert ParentOk(g, dist, parent, ns, u); }
  }

  lemma LayerParent(g: Graph, start: Eid, d: nat, dist0: Dists, ns0: PathNames, dist: Dists, parent: Parents, ns: PathNames, v: Eid)
    requires InLayer(g, start, d, dist0, ns0, dist, parent, ns) && v in dist && dist[v] == d + 1
    ensures v in parent && parent[v].0 in dist0 && dist0[parent[v].0] == d
  {
  }

  /** Every node the batch reaches is covered, or is one the last hop drops. */
  ghost predicate BatchCovered(g: Graph, b: Batch, d: nat, last: bool, ns0: PathNames, dist: Dists, parent: Parents) {
    forall v :: Next(g, b, v) ==> Skipped(g, last, v) || Covered(g, b, d, ns0, dist, parent, v)
  }

  lemma BatchStays(g: Graph, b: Batch, d: nat, last: bool, ns0: PathNames, dist: Dists, parent: Parents, dist': Dists, parent': Parents)
    requires BatchCovered(g, b, d, last, ns0, dist, parent) && Progress(d, ns0, dist, parent, dist', parent')
    ensures BatchCovered(g, b, d, last, ns0, dist', parent')
  {
    forall v | Next(g, b, v) && !Skipped(g, last, v) ensures Covered(g, b, d, ns0, dist', parent', v) {
      CoveredStays(g, b, d, ns0, dist, parent, dist', parent', v);
    }
  }

  /** All rows of an expansion. */
  method AddBatch(g: Graph, start: Eid, d: nat, last: bool, b: Batch, ghost dist0: Dists, ghost ns0: PathNames,
                  dist: Dists, parent: Parents, ghost ns: PathNames, frontier: seq<Eid>)
    returns (dist': Dists, parent': Parents, ghost ns': PathNames, frontier': seq<Eid>)
    requires BatchOk(b, d, dist0, ns0) && Filling(g, start, d, dist0, ns0, dist, parent, ns, frontier)
    ensures Filling(g, start, d, dist0, ns0, dist', parent', ns', frontier')
    ensures Progress(d, ns0, dist, parent, dist', parent') && BatchCovered(g, b, d, last, ns0, dist', parent')
    ensures forall v :: v in dist' && Skipped(g, last, v) ==> v in dist
  {
    var rows := Expand(g, b);
    dist', parent', ns', frontier' := dist, parent, ns, frontier;
    NoProgress(d, ns0, dist, parent);
    for i := 0 to |rows|
      invariant Filling(g, start, d, dist0, ns0, dist', parent', ns', frontier')
      invariant RowsDone(g, b, d, last, ns0, dist, parent, dist', parent', rows[..i])
    {
      ghost var d1, p1 := dist', parent';
      dist', parent', ns', frontier' := AddRow(g, start, d, last, b, rows[i], dist0, ns0, dist', parent', ns', frontier');
      RowsStep(g, b, d, last, ns0, dist, parent, d1, p1, dist', parent', rows, i);
    }
    RowsCoverBatch(g, b, d, last, ns0, dist, parent, dist', parent', rows);
  }

  ghost predicate RowsDone(g: Graph, b: Batch, d: nat, last: bool, ns0: PathNames, dist: Dists, parent: Parents, dist': Dists, parent': Parents, rows: seq<Row>) {
    var holds :=
      && Progress(d, ns0, dist, parent, dist', parent') && RowsCovered(g, b, d, last, ns0, dist', parent', rows)
      && (forall v :: v in dist' && Skipped(g, last, v) ==> v in dist);
    holds
  }

  lemma RowsStep(g: Graph, b: Batch, d: nat, last: bool, ns0: PathNames, dist: Dists, parent: Parents, d1: Dists, p1: Parents, d2: Dists, p2: Parents, rows: seq<Row>, i: nat)
    requires i < |rows| && RowsDone(g, b, d, last, ns0, dist, parent, d1, p1, rows[..i]) && Progress(d, ns0, d1, p1, d2, p2)
    requires Skipped(g, last, rows[i].eid) || Covered(g, b, d, ns0, d2, p2, rows[i].eid)
    requires forall v :: v in d2 && Skipped(g, last, v) ==> v in d1
    ensures RowsDone(g, b, d, last, ns0, dist, parent, d2, p2, rows[..i + 1])
  {
    ProgressBoth(d, ns0, dist, parent, d1, p1, d2, p2);
    RowsStay(g, b, d, last, ns0, d1, p1, d2, p2, rows[..i]);
    assert rows[..i + 1] == rows[..i] + [rows[i]];
  }

  lemma RowsCoverBatch(g: Graph, b: Batch, d: nat, last: bool, ns0: PathNames, dist: Dists, parent: Parents, dist': Dists, parent': Parents, rows: seq<Row>)
    requires RowsOk(g, b, rows) && RowsDone(g, b, d, last, ns0, dist, parent, dist', parent', rows[..|rows|])
    ensures BatchCovered(g, b, d, last, ns0, dist', parent') && Progress(d, ns0, dist, parent, dist', parent')
    ensures forall v :: v in dist' && Skipped(g, last, v) ==> v in dist
  {
  }

  ghost predicate RowsCovered(g: Graph, b: Batch, d: nat, last: bool, ns0: PathNames, dist: Dists, parent: Parents, rows: seq<Row>) {
    forall r :: r in rows ==> Skipped(g, last, r.eid) || Covered(g, b, d, ns0, dist, parent, r.eid)
  }

  lemma RowsStay(g: Graph, b: Batch, d: nat, last: bool, ns0: PathNames, dist: Dists, parent: Parents, dist': Dists, parent': Parents, rows: seq<Row>)
    requires RowsCovered(g, b, d, last, ns0, dist, parent, rows) && Progress(d, ns0, dist, parent, dist', parent')
    ensures RowsCovered(g, b, d, last, ns0, dist', parent', rows)
  {
    forall r | r in rows && !Skipped(g, last, r.eid) ensures Covered(g, b, d, ns0, dist', parent', r.eid) {
      CoveredStays(g, b, d, ns0, dist, parent, dist', parent', r.eid);
    }
  }
}
