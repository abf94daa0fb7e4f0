/** Walks, shortest distances and least name sequences in the catalog graph
    (api/explore_discovery.py). */
module DiscoveryGraph {
  import opened Seqs

  /** Element ids and names are opaque but ordered, so numbers stand for them. */
  type Eid = nat

  datatype Rel = AliasOf | By | DerivedFrom | Is | MemberOf | On

  /** `_REL_CODES`. */
  function Code(r: Rel): (c: nat)
    ensures c < 6
  {
    match r
    case AliasOf => 0
    case By => 1
    case DerivedFrom => 2
    case Is => 3
    case MemberOf => 4
    case On => 5
  }

  /** `_REL_BY_CODE`. */
  function RelOf(c: nat): (r: Rel)
    requires c < 6
    ensures Code(r) == c
  {
    if c == 0 then AliasOf else if c == 1 then By else if c == 2 then DerivedFrom
    else if c == 3 then Is else if c == 4 then MemberOf else On
  }

  datatype NodeLabel = Artist | Label | Genre | Style | Release | Master | OtherLabel

  datatype Node = Node(nodeLabel: NodeLabel, name: int, id: int, nameless: bool)

  datatype Edge = Edge(from: Eid, rel: Rel, to: Eid)

  datatype Graph = Graph(nodes: map<Eid, Node>, edges: set<Edge>)

  predicate IsEligible(l: NodeLabel) { l.Artist? || l.Label? || l.Genre? || l.Style? }

  /** Edges are followed either way. */
  predicate Adjacent(g: Graph, u: Eid, rel: Rel, v: Eid) {
    u in g.nodes && v in g.nodes && (Edge(u, rel, v) in g.edges || Edge(v, rel, u) in g.edges)
  }

  /** Every edge joins its ends both ways, and nothing else joins. */
  lemma AdjacentIs(g: Graph, u: Eid, rel: Rel, v: Eid)
    ensures Adjacent(g, u, rel, v) <==> Adjacent(g, v, rel, u)
    ensures u in g.nodes && v in g.nodes && Edge(u, rel, v) in g.edges ==> Adjacent(g, u, rel, v)
    ensures Adjacent(g, u, rel, v) ==> exists e :: e in g.edges && e.rel == rel && {e.from, e.to} == {u, v}
  {
    if Edge(u, rel, v) in g.edges { assert {Edge(u, rel, v).from, Edge(u, rel, v).to} == {u, v}; }
    if Edge(v, rel, u) in g.edges { assert {Edge(v, rel, u).from, Edge(v, rel, u).to} == {u, v}; }
  }

  ghost predicate Linked(g: Graph, u: Eid, v: Eid) {
    exists rel :: Adjacent(g, u, rel, v)
  }

  /** The edge typing of the catalog graph. */
  predicate TypedEdge(a: NodeLabel, rel: Rel, b: NodeLabel) {
    match rel
    case By => (a.Release? || a.Master?) && b.Artist?
    case On => (a.Release? || a.Master?) && b.Label?
    case Is => (a.Release? || a.Master?) && (b.Genre? || b.Style?)
    case AliasOf => a.Artist? && b.Artist?
    case MemberOf => a.Artist? && b.Artist?
    case DerivedFrom => a.Release? && b.Master?
  }

  ghost predicate Typed(g: Graph) {
    forall e :: e in g.edges && e.from in g.nodes && e.to in g.nodes ==>
      TypedEdge(g.nodes[e.from].nodeLabel, e.rel, g.nodes[e.to].nodeLabel)
  }

  // ---- Walks ------------------------------------------------------------------------------------------------------

  ghost predicate Walk(g: Graph, p: seq<Eid>) {
    && p != [] && (forall i :: 0 <= i < |p| ==> p[i] in g.nodes)
    && (forall i :: 0 < i < |p| ==> Linked(g, p[i - 1], p[i]))
  }

  ghost predicate WalkTo(g: Graph, start: Eid, v: Eid, k: nat, p: seq<Eid>) {
    Walk(g, p) && |p| == k + 1 && p[0] == start && p[k] == v
  }

  ghost predicate Reached(g: Graph, start: Eid, v: Eid, k: nat) {
    exists p :: WalkTo(g, start, v, k, p)
  }

  /** The shortest distance from `start` to `v`. */
  ghost predicate DistIs(g: Graph, start: Eid, v: Eid, k: nat) {
    Reached(g, start, v, k) && forall j :: 0 <= j < k ==> !Reached(g, start, v, j)
  }

  function Names(g: Graph, p: seq<Eid>): seq<int>
    requires forall i :: 0 <= i < |p| ==> p[i] in g.nodes
  {
    seq(|p|, i requires 0 <= i < |p| => g.nodes[p[i]].name)
  }

  /** `ns` is the least name sequence of a walk of length `k`. */
  ghost predicate LeastNames(g: Graph, start: Eid, v: Eid, k: nat, ns: seq<int>) {
    && (exists p :: WalkTo(g, start, v, k, p) && Names(g, p) == ns)
    && (forall p :: WalkTo(g, start, v, k, p) ==> LexLe(ns, Names(g, p)))
  }

  lemma WalkInit(g: Graph, start: Eid, v: Eid, k: nat, p: seq<Eid>)
    requires WalkTo(g, start, v, k + 1, p)
    ensures WalkTo(g, start, p[k], k, p[..k + 1]) && Linked(g, p[k], v) && p[k] in g.nodes && v in g.nodes
    ensures Names(g, p) == Names(g, p[..k + 1]) + [g.nodes[v].name]
  {
  }

  lemma WalkOn(g: Graph, start: Eid, u: Eid, k: nat, p: seq<Eid>, v: Eid)
    requires WalkTo(g, start, u, k, p) && Linked(g, u, v)
    ensures WalkTo(g, start, v, k + 1, p + [v])
    ensures Names(g, p + [v]) == Names(g, p) + [g.nodes[v].name]
  {
  }

  lemma ReachOn(g: Graph, start: Eid, u: Eid, k: nat, v: Eid)
    requires Reached(g, start, u, k) && Linked(g, u, v)
    ensures Reached(g, start, v, k + 1)
  {
    var p :| WalkTo(g, start, u, k, p);
    WalkOn(g, start, u, k, p, v);
  }

  /** The node before the last of a shortest walk is one step nearer. */
  lemma OneStepNearer(g: Graph, start: Eid, v: Eid, k: nat, p: seq<Eid>)
    requires DistIs(g, start, v, k + 1) && WalkTo(g, start, v, k + 1, p)
    ensures DistIs(g, start, p[k], k)
  {
    WalkInit(g, start, v, k, p);
    forall j | 0 <= j < k ensures !Reached(g, start, p[k], j) {
      if Reached(g, start, p[k], j) { ReachOn(g, start, p[k], j, v); }
    }
  }

  lemma {:induction false} LexAppend(a: seq<int>, b: seq<int>, x: int)
    requires LexLe(a, b) && |a| == |b|
    ensures LexLe(a + [x], b + [x])
  {
    if a != [] {
      assert (a + [x])[1..] == a[1..] + [x] && (b + [x])[1..] == b[1..] + [x];
      if a[0] == b[0] { LexAppend(a[1..], b[1..], x); }
    }
  }

  /** The least names of `v` go through a neighbour, one step nearer, with the least names. */
  lemma LeastThroughParent(g: Graph, start: Eid, u: Eid, v: Eid, k: nat, ns: seq<int>, least: map<Eid, seq<int>>)
    requires DistIs(g, start, v, k + 1) && Linked(g, u, v) && LeastNames(g, start, u, k, ns)
    requires forall w :: DistIs(g, start, w, k) && Linked(g, w, v) ==> w in least && LeastNames(g, start, w, k, least[w]) && LexLe(ns, least[w])
    ensures v in g.nodes && LeastNames(g, start, v, k + 1, ns + [g.nodes[v].name])
  {
    var p :| WalkTo(g, start, u, k, p) && Names(g, p) == ns;
    WalkOn(g, start, u, k, p, v);
    forall q | WalkTo(g, start, v, k + 1, q) ensures LexLe(ns + [g.nodes[v].name], Names(g, q)) {
      WalkInit(g, start, v, k, q);
      OneStepNearer(g, start, v, k, q);
      var w, front := q[k], q[..k + 1];
      LexTransitive(ns, least[w], Names(g, front));
      LexAppend(ns, Names(g, front), g.nodes[v].name);
    }
  }

  /** A node next to one at distance `k`, and not within `k`, is at distance `k + 1`. */
  lemma NextLayer(g: Graph, start: Eid, u: Eid, v: Eid, k: nat)
    requires DistIs(g, start, u, k) && Linked(g, u, v) && forall j :: 0 <= j <= k ==> !Reached(g, start, v, j)
    ensures DistIs(g, start, v, k + 1)
  {
    ReachOn(g, start, u, k, v);
  }

  /** A node at distance `k + 1` is next to one at distance `k`. */
  lemma HasNearer(g: Graph, start: Eid, v: Eid, k: nat) returns (u: Eid)
    requires DistIs(g, start, v, k + 1)
    ensures DistIs(g, start, u, k) && Linked(g, u, v)
  {
    var p :| WalkTo(g, start, v, k + 1, p);
    OneStepNearer(g, start, v, k, p);
    WalkInit(g, start, v, k, p);
    u := p[k];
  }

  lemma {:induction false} NearestReach(g: Graph, start: Eid, v: Eid, k: nat) returns (j: nat)
    requires Reached(g, start, v, k)
    ensures j <= k && DistIs(g, start, v, j)
    decreases k
  {
    if i :| 0 <= i < k && Reached(g, start, v, i) {
      j := NearestReach(g, start, v, i);
    } else {
      j := k;
    }
  }

  lemma StartWalk(g: Graph, start: Eid)
    requires start in g.nodes
    ensures DistIs(g, start, start, 0) && LeastNames(g, start, start, 0, [g.nodes[start].name])
  {
    assert WalkTo(g, start, start, 0, [start]);
    assert Names(g, [start]) == [g.nodes[start].name];
    forall p | WalkTo(g, start, start, 0, p) ensures LexLe([g.nodes[start].name], Names(g, p)) {
      assert p == [start];
      LexTotal([g.nodes[start].name], [g.nodes[start].name]);
    }
  }

  /** The last hop's two batches miss no eligible node: only a release or master, by `BY`, `ON`
      or `IS`, or an artist, by `ALIAS_OF` or `MEMBER_OF`, is next to one. */
  lemma LastHopIsComplete(g: Graph, u: Eid, rel: Rel, v: Eid)
    requires Typed(g) && Adjacent(g, u, rel, v) && IsEligible(g.nodes[v].nodeLabel)
    ensures ((g.nodes[u].nodeLabel.Release? || g.nodes[u].nodeLabel.Master?) && rel in {By, On, Is})
            || (g.nodes[u].nodeLabel.Artist? && rel in {AliasOf, MemberOf})
  {
  }
}
