/** The whole search: every eligible node within `hops`, at its true distance, with the least
    name sequence (api/explore_discovery.py, `_bfs`). */
module DiscoverySearch {
  import opened Seqs
  import opened DiscoveryGraph
  import opened DiscoveryBfs

  /** Every found node is at its shortest distance with its least name sequence. */
  ghost predicate Exact(g: Graph, start: Eid, dist: Dists, ns: PathNames) {
    forall v :: v in dist ==> v in ns && DistIs(g, start, v, dist[v]) && LeastNames(g, start, v, dist[v], ns[v])
  }

  /** Every node within `d` was found, but for those a last hop drops. */
  ghost predicate Complete(g: Graph, start: Eid, d: nat, last: bool, dist: Dists) {
    forall v, k :: 0 <= k <= d && Reached(g, start, v, k) && !Skipped(g, last, v) ==> v in dist
  }

  /** The batches between them follow every edge that matters. */
  ghost predicate BatchesCover(g: Graph, bs: seq<Batch>, d: nat, last: bool, dist0: Dists) {
    forall u, rel, v :: u in dist0 && dist0[u] == d && Adjacent(g, u, rel, v) && !Skipped(g, last, v) ==> Followed(g, bs, u, rel)
  }

  ghost predicate Followed(g: Graph, bs: seq<Batch>, u: Eid, rel: Rel) {
    exists j, i :: 0 <= j < |bs| && 0 <= i < |bs[j].members| && bs[j].members[i] == u && rel in bs[j].types
  }

  ghost predicate AllCovered(g: Graph, bs: seq<Batch>, d: nat, last: bool, ns0: PathNames, dist: Dists, parent: Parents) {
    forall j :: 0 <= j < |bs| ==> BatchCovered(g, bs[j], d, last, ns0, dist, parent)
  }

  /** A node at distance `d` was found there. */
  lemma FoundAt(g: Graph, start: Eid, d: nat, dist0: Dists, ns0: PathNames, u: Eid)
    requires Exact(g, start, dist0, ns0) && Complete(g, start, d, false, dist0) && DistIs(g, start, u, d)
    ensures u in dist0 && dist0[u] == d
  {
  }

  /** A neighbour of a node at distance `d` is covered by some batch. */
  lemma NeighbourCovered(g: Graph, start: Eid, bs: seq<Batch>, d: nat, last: bool, dist0: Dists, ns0: PathNames, dist: Dists, parent: Parents, u: Eid, v: Eid)
    requires BatchesCover(g, bs, d, last, dist0) && AllCovered(g, bs, d, last, ns0, dist, parent)
    requires u in dist0 && dist0[u] == d && u in ns0 && Linked(g, u, v) && !Skipped(g, last, v)
    ensures v in dist && (dist[v] == d + 1 && v in parent ==> parent[v].0 in ns0 && LexLe(ns0[parent[v].0], ns0[u]))
  {
    var rel :| Adjacent(g, u, rel, v);
    assert Followed(g, bs, u, rel);
    var j, i :| 0 <= j < |bs| && 0 <= i < |bs[j].members| && bs[j].members[i] == u && rel in bs[j].types;
    assert Via(g, bs[j], i, rel, v);
    assert Next(g, bs[j], v);
    assert BatchCovered(g, bs[j], d, last, ns0, dist, parent);
    assert Covered(g, bs[j], d, ns0, dist, parent, v);
  }

  ghost predicate LayerDone(g: Graph, start: Eid, bs: seq<Batch>, d: nat, last: bool, dist0: Dists, ns0: PathNames, dist: Dists, parent: Parents, ns: PathNames) {
    var holds :=
      && Exact(g, start, dist0, ns0) && Complete(g, start, d, false, dist0) && InLayer(g, start, d, dist0, ns0, dist, parent, ns)
      && BatchesCover(g, bs, d, last, dist0) && AllCovered(g, bs, d, last, ns0, dist, parent)
      && (forall v :: v in dist && Skipped(g, last, v) ==> v in dist0);
    holds
  }

  lemma NewIsExact(g: Graph, start: Eid, bs: seq<Batch>, d: nat, last: bool, dist0: Dists, ns0: PathNames, dist: Dists, parent: Parents, ns: PathNames, v: Eid)
    requires LayerDone(g, start, bs, d, last, dist0, ns0, dist, parent, ns) && v in dist && v !in dist0
    ensures dist[v] == d + 1 && DistIs(g, start, v, d + 1) && LeastNames(g, start, v, d + 1, ns[v])
  {
    LayerParent(g, start, d, dist0, ns0, dist, parent, ns, v);
    assert ParentOk(g, dist, parent, ns, v);
    var u := parent[v].0;
    assert Linked(g, u, v);
    forall j | 0 <= j <= d ensures !Reached(g, start, v, j) {
      assert !Skipped(g, false, v);
    }
    NextLayer(g, start, u, v, d);
    forall w | DistIs(g, start, w, d) && Linked(g, w, v) ensures w in ns0 && LeastNames(g, start, w, d, ns0[w]) && LexLe(ns0[u], ns0[w]) {
      FoundAt(g, start, d, dist0, ns0, w);
      NeighbourCovered(g, start, bs, d, last, dist0, ns0, dist, parent, w, v);
    }
    LeastThroughParent(g, start, u, v, d, ns0[u], ns0);
  }

  lemma NewIsFound(g: Graph, start: Eid, bs: seq<Batch>, d: nat, last: bool, dist0: Dists, ns0: PathNames, dist: Dists, parent: Parents, ns: PathNames, v: Eid, k: nat)
    requires LayerDone(g, start, bs, d, last, dist0, ns0, dist, parent, ns) && k <= d + 1 && Reached(g, start, v, k) && !Skipped(g, last, v)
    ensures v in dist
  {
    var j := NearestReach(g, start, v, k);
    if j <= d {
      assert !Skipped(g, false, v);
    } else {
      var u := HasNearer(g, start, v, d);
      FoundAt(g, start, d, dist0, ns0, u);
      NeighbourCovered(g, start, bs, d, last, dist0, ns0, dist, parent, u, v);
    }
  }

  /** A finished layer is exact and complete. */
  lemma LayerIsExact(g: Graph, start: Eid, bs: seq<Batch>, d: nat, last: bool, dist0: Dists, ns0: PathNames, dist: Dists, parent: Parents, ns: PathNames)
    requires LayerDone(g, start, bs, d, last, dist0, ns0, dist, parent, ns)
    ensures Exact(g, start, dist, ns) && Complete(g, start, d + 1, last, dist)
  {
    forall v | v in dist ensures v in ns && DistIs(g, start, v, dist[v]) && LeastNames(g, start, v, dist[v], ns[v]) {
      if v !in dist0 { NewIsExact(g, start, bs, d, last, dist0, ns0, dist, parent, ns, v); }
    }
    forall v, k | 0 <= k <= d + 1 && Reached(g, start, v, k) && !Skipped(g, last, v) ensures v in dist {
      NewIsFound(g, start, bs, d, last, dist0, ns0, dist, parent, ns, v, k);
    }
  }

  // ---- Path order -----------------------------------------------------------------------------------------------------

  lemma {:induction false} LexPrefix(a: seq<int>, b: seq<int>, x: int, y: int)
    requires LexLe(a + [x], b + [y]) && |a| == |b|
    ensures LexLe(a, b)
  {
    if a != [] {
      assert (a + [x])[1..] == a[1..] + [x] && (b + [y])[1..] == b[1..] + [y];
      if a[0] == b[0] { LexPrefix(a[1..], b[1..], x, y); }
    }
  }

  lemma {:induction false} FilterSorted<T>(s: seq<T>, keep: T -> bool, key: T -> seq<int>)
    requires SortedBy(s, key)
    ensures SortedBy(Filter(s, keep), key)
  {
    if s != [] {
      var init, last := s[..|s| - 1], s[|s| - 1];
      FilterSorted(init, keep, key);
      var kept := Filter(init, keep);
      forall i | 0 <= i < |kept| ensures LexLe(key(kept[i]), key(last)) {
        FilterMember(init, keep, kept[i]);
        SeenBefore(s, |s| - 1, kept[i], key);
      }
    }
  }

  lemma FilterMember<T>(s: seq<T>, keep: T -> bool, x: T)
    requires x in Filter(s, keep)
    ensures x in s
  {
  }

  lemma SeenBefore<T>(s: seq<T>, n: nat, x: T, key: T -> seq<int>)
    requires SortedBy(s, key) && n < |s| && x in s[..n]
    ensures LexLe(key(x), key(s[n]))
  {
  }

  /** The frontier in path order: by name sequence, then id. */
  method SortFrontier(g: Graph, start: Eid, d: nat, dist: Dists, parent: Parents, ghost ns: PathNames, frontier: seq<Eid>)
    returns (sorted: seq<Eid>, keys: map<Eid, seq<int>>)
    requires TreeOk(g, start, dist, parent, ns) && forall v :: v in frontier ==> v in dist && dist[v] == d
    ensures forall v :: v in sorted <==> v in frontier
    ensures forall v :: v in frontier ==> v in keys && keys[v] == ns[v]
    ensures SortedBy(sorted, (e: Eid) => PathKey(keys, e))
  {
    keys := map[];
    for i := 0 to |frontier|
      invariant forall v :: v in frontier[..i] ==> v in keys && keys[v] == ns[v]
    {
      var names, _ := PathOf(g, start, dist, parent, ns, frontier[i]);
      keys := keys[frontier[i] := names];
      assert frontier[..i + 1] == frontier[..i] + [frontier[i]];
    }
    assert frontier[..|frontier|] == frontier;
    ghost var key := (e: Eid) => PathKey(keys, e);
    sorted := SortBy(frontier, (e: Eid) => PathKey(keys, e));
    SortBySorted(frontier, (e: Eid) => PathKey(keys, e));
    SameMembers(frontier, sorted);
  }

  function PathKey(keys: map<Eid, seq<int>>, e: Eid): seq<int> {
    if e in keys then keys[e] + [e] else []
  }

  /** Members taken from the sorted frontier, in its order, make a batch. */
  lemma SortedBatch(g: Graph, start: Eid, d: nat, dist: Dists, parent: Parents, ns: PathNames, keys: map<Eid, seq<int>>, members: seq<Eid>, types: set<Rel>)
    requires TreeOk(g, start, dist, parent, ns)
    requires forall v :: v in members ==> v in dist && dist[v] == d && v in keys && keys[v] == ns[v]
    requires SortedBy(members, (e: Eid) => PathKey(keys, e))
    ensures BatchOk(Batch(members, types), d, dist, ns)
  {
    forall i, j | 0 <= i < j < |members| ensures LexLe(ns[members[i]], ns[members[j]]) {
      var u, v := members[i], members[j];
      assert u in members && v in members;
      assert LexLe(PathKey(keys, u), PathKey(keys, v));
      assert u != start ==> ParentOk(g, dist, parent, ns, u);
      assert v != start ==> ParentOk(g, dist, parent, ns, v);
      LexPrefix(ns[u], ns[v], u, v);
    }
    forall i | 0 <= i < |members| ensures members[i] in dist && dist[members[i]] == d && members[i] in ns { assert members[i] in members; }
  }

  // ---- The search --------------------------------------------------------------------------------------------------------

  const EXPAND_ALL: set<Rel> := {By, On, Is, AliasOf, MemberOf, DerivedFrom}
  const FROM_RELEASE: set<Rel> := {By, On, Is}
  const FROM_ARTIST: set<Rel> := {AliasOf, MemberOf}

  predicate FromRelease(g: Graph, e: Eid) { e in g.nodes && (g.nodes[e].nodeLabel.Release? || g.nodes[e].nodeLabel.Master?) }

  predicate FromArtist(g: Graph, e: Eid) { e in g.nodes && g.nodes[e].nodeLabel.Artist? }

  /** The batches of a hop: the whole frontier, or, on the last hop, only what can still lead to
      an eligible node. */
  function Batches(g: Graph, sorted: seq<Eid>, last: bool): seq<Batch> {
    if last then
      [Batch(Filter(sorted, (e: Eid) => FromRelease(g, e)), FROM_RELEASE), Batch(Filter(sorted, (e: Eid) => FromArtist(g, e)), FROM_ARTIST)]
    else [Batch(sorted, EXPAND_ALL)]
  }

  lemma BatchesAreOk(g: Graph, start: Eid, d: nat, last: bool, dist: Dists, parent: Parents, ns: PathNames, keys: map<Eid, seq<int>>, sorted: seq<Eid>)
    requires TreeOk(g, start, dist, parent, ns) && SortedBy(sorted, (e: Eid) => PathKey(keys, e))
    requires forall v :: v in sorted ==> v in dist && dist[v] == d && v in keys && keys[v] == ns[v]
    ensures forall j :: 0 <= j < |Batches(g, sorted, last)| ==> BatchOk(Batches(g, sorted, last)[j], d, dist, ns)
  {
    if last {
      FilterSorted(sorted, (e: Eid) => FromRelease(g, e), (e: Eid) => PathKey(keys, e));
      FilterSorted(sorted, (e: Eid) => FromArtist(g, e), (e: Eid) => PathKey(keys, e));
      FilterMembers(sorted, (e: Eid) => FromRelease(g, e));
      FilterMembers(sorted, (e: Eid) => FromArtist(g, e));
      SortedBatch(g, start, d, dist, parent, ns, keys, Filter(sorted, (e: Eid) => FromRelease(g, e)), FROM_RELEASE);
      SortedBatch(g, start, d, dist, parent, ns, keys, Filter(sorted, (e: Eid) => FromArtist(g, e)), FROM_ARTIST);
    } else {
      SortedBatch(g, start, d, dist, parent, ns, keys, sorted, EXPAND_ALL);
    }
  }

  /** The pruned last hop follows every edge to an eligible node. */
  lemma BatchesFollow(g: Graph, d: nat, last: bool, dist: Dists, sorted: seq<Eid>)
    requires Typed(g) && forall v :: v in dist && dist[v] == d ==> v in sorted
    ensures BatchesCover(g, Batches(g, sorted, last), d, last, dist)
  {
    var bs := Batches(g, sorted, last);
    forall u, rel, v | u in dist && dist[u] == d && Adjacent(g, u, rel, v) && !Skipped(g, last, v) ensures Followed(g, bs, u, rel) {
      if last {
        LastHopIsComplete(g, u, rel, v);
        FilterMembers(sorted, (e: Eid) => FromRelease(g, e));
        FilterMembers(sorted, (e: Eid) => FromArtist(g, e));
        var j := if FromRelease(g, u) then 0 else 1;
        assert u in bs[j].members && rel in bs[j].types;
        var i :| 0 <= i < |bs[j].members| && bs[j].members[i] == u;
      } else {
        assert rel in bs[0].types;
        var i :| 0 <= i < |bs[0].members| && bs[0].members[i] == u;
      }
    }
  }

  /** One hop. */
  method Hop(g: Graph, start: Eid, d: nat, last: bool, dist: Dists, parent: Parents, ghost ns: PathNames, frontier: seq<Eid>)
    returns (dist': Dists, parent': Parents, ghost ns': PathNames, frontier': seq<Eid>)
    requires Typed(g) && SearchOk(g, start, d, false, dist, parent, ns, frontier)
    ensures SearchOk(g, start, d + 1, last, dist', parent', ns', frontier')
  {
    var sorted, keys := SortFrontier(g, start, d, dist, parent, ns, frontier);
    var bs := Batches(g, sorted, last);
    BatchesAreOk(g, start, d, last, dist, parent, ns, keys, sorted);
    BatchesFollow(g, d, last, dist, sorted);
    dist', parent', ns', frontier' := AddBatches(g, start, d, last, bs, dist, parent, ns);
    LayerIsExact(g, start, bs, d, last, dist, ns, dist', parent', ns');
  }

  /** Every batch of the hop in turn. */
  method AddBatches(g: Graph, start: Eid, d: nat, last: bool, bs: seq<Batch>, dist: Dists, parent: Parents, ghost ns: PathNames)
    returns (dist': Dists, parent': Parents, ghost ns': PathNames, frontier': seq<Eid>)
    requires TreeOk(g, start, dist, parent, ns) && (forall v :: v in dist ==> dist[v] <= d)
    requires forall j :: 0 <= j < |bs| ==> BatchOk(bs[j], d, dist, ns)
    ensures Filling(g, start, d, dist, ns, dist', parent', ns', frontier') && AllCovered(g, bs, d, last, ns, dist', parent')
    ensures forall v :: v in dist' && Skipped(g, last, v) ==> v in dist
  {
    dist', parent', ns', frontier' := dist, parent, ns, [];
    for j := 0 to |bs|
      invariant Filling(g, start, d, dist, ns, dist', parent', ns', frontier')
      invariant AllCovered(g, bs[..j], d, last, ns, dist', parent')
      invariant forall v :: v in dist' && Skipped(g, last, v) ==> v in dist
    {
      ghost var d1, p1 := dist', parent';
      dist', parent', ns', frontier' := AddBatch(g, start, d, last, bs[j], dist, ns, dist', parent', ns', frontier');
      CoverageStays(g, bs, j, d, last, ns, d1, p1, dist', parent');
    }
    assert bs[..|bs|] == bs;
  }

  lemma CoverageStays(g: Graph, bs: seq<Batch>, j: nat, d: nat, last: bool, ns0: PathNames, dist: Dists, parent: Parents, dist': Dists, parent': Parents)
    requires j < |bs| && AllCovered(g, bs[..j], d, last, ns0, dist, parent) && Progress(d, ns0, dist, parent, dist', parent')
    requires BatchCovered(g, bs[j], d, last, ns0, dist', parent')
    ensures AllCovered(g, bs[..j + 1], d, last, ns0, dist', parent')
  {
    var done := bs[..j + 1];
    forall i | 0 <= i < |done| ensures BatchCovered(g, done[i], d, last, ns0, dist', parent') {
      if i < j {
        assert bs[..j][i] == done[i];
        BatchStays(g, done[i], d, last, ns0, dist, parent, dist', parent');
      }
    }
  }

  /** After `d` hops: an exact tree, complete to distance `d`, with the last layer in hand. */
  ghost predicate SearchOk(g: Graph, start: Eid, d: nat, last: bool, dist: Dists, parent: Parents, ns: PathNames, frontier: seq<Eid>) {
    var holds :=
      && TreeOk(g, start, dist, parent, ns) && Exact(g, start, dist, ns) && Complete(g, start, d, last, dist)
      && (forall v :: v in dist ==> dist[v] <= d) && (forall v :: v in frontier <==> v in dist && dist[v] == d);
    holds
  }

  datatype Found = Found(dist: nat, names: seq<int>, rels: seq<Rel>)

  /** `_bfs`: every Artist, Label, Genre and Style within `hops`, and nothing else, each at its
      shortest distance with the least name sequence of all its shortest paths. */
  method Bfs(g: Graph, start: Eid, hops: nat) returns (found: map<Eid, Found>)
    requires start in g.nodes && Typed(g)
    ensures forall v :: v in found <==>
              && v in g.nodes && v != start && (exists k: nat :: k <= hops && Reached(g, start, v, k))
              && var kind := g.nodes[v].nodeLabel; kind.Artist? || kind.Label? || kind.Genre? || kind.Style?
    ensures forall v :: v in found ==>
              && DistIs(g, start, v, found[v].dist) && LeastNames(g, start, v, found[v].dist, found[v].names)
              && PathOk(g, start, v, found[v].dist, found[v].names, found[v].rels)
  {
    var dist: Dists, parent: Parents, frontier: seq<Eid> := map[start := 0], map[], [start];
    ghost var ns: PathNames := map[start := [g.nodes[start].name]];
    StartOk(g, start, dist, parent, ns, frontier);
    for depth := 0 to hops
      invariant SearchOk(g, start, depth, depth == hops && hops > 0, dist, parent, ns, frontier)
    {
      dist, parent, ns, frontier := Hop(g, start, depth, depth == hops - 1, dist, parent, ns, frontier);
    }
    found := Report(g, start, hops, dist, parent, ns);
    ReportIsAll(g, start, hops, hops > 0, dist, parent, ns, frontier, found);
  }

  lemma StartOk(g: Graph, start: Eid, dist: Dists, parent: Parents, ns: PathNames, frontier: seq<Eid>)
    requires start in g.nodes && dist == map[start := 0] && parent == map[] && ns == map[start := [g.nodes[start].name]] && frontier == [start]
    ensures SearchOk(g, start, 0, false, dist, parent, ns, frontier)
  {
    StartWalk(g, start);
    forall v, k | 0 <= k <= 0 && Reached(g, start, v, k) ensures v in dist {
      var p :| WalkTo(g, start, v, k, p);
    }
  }

  /** The eligible found nodes, each with its path. */
  method Report(g: Graph, start: Eid, hops: nat, dist: Dists, parent: Parents, ghost ns: PathNames) returns (found: map<Eid, Found>)
    requires TreeOk(g, start, dist, parent, ns)
    ensures forall v :: v in found <==> v in dist && v != start && v in g.nodes && IsEligible(g.nodes[v].nodeLabel)
    ensures forall v :: v in found ==> found[v].dist == dist[v] && found[v].names == ns[v] && PathOk(g, start, v, dist[v], ns[v], found[v].rels)
  {
    found := map[];
    var pending := dist.Keys;
    while pending != {}
      invariant pending <= dist.Keys
      invariant forall v :: v in found <==> v in dist && v !in pending && v != start && v in g.nodes && IsEligible(g.nodes[v].nodeLabel)
      invariant forall v :: v in found ==> found[v].dist == dist[v] && found[v].names == ns[v] && PathOk(g, start, v, dist[v], ns[v], found[v].rels)
      decreases pending
    {
      var v :| v in pending;
      if v != start && v in g.nodes && IsEligible(g.nodes[v].nodeLabel) {
        var names, rels := PathOf(g, start, dist, parent, ns, v);
        found := found[v := Found(dist[v], names, rels)];
      }
      pending := pending - {v};
    }
  }

  lemma ReportIsAll(g: Graph, start: Eid, hops: nat, last: bool, dist: Dists, parent: Parents, ns: PathNames, frontier: seq<Eid>, found: map<Eid, Found>)
    requires SearchOk(g, start, hops, last, dist, parent, ns, frontier)
    requires forall v :: v in found <==> v in dist && v != start && v in g.nodes && IsEligible(g.nodes[v].nodeLabel)
    ensures forall v :: v in found <==>
              && v in g.nodes && v != start && (exists k: nat :: k <= hops && Reached(g, start, v, k))
              && var kind := g.nodes[v].nodeLabel; kind.Artist? || kind.Label? || kind.Genre? || kind.Style?
  {
  }
}
