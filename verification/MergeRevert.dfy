/** A revert in any reachable state finds exactly one predecessor per compressed row and
    restores the stacks (api/catalog_merge.py, `revert_supersession`). */
module MergeRevert {
  import opened Seqs
  import opened CatalogMerge
  import opened MergeForest

  /** An open, uncompressed row, at a new instant. */
  ghost predicate Revertible(s: Tables, h: Stacks, id: RowId, t: nat) {
    Inv(s, h) && t > s.now && id in s.rows && s.rows[id].until.None? && s.rows[id].via.None?
  }

  /** `a`'s top row was compressed by the merge `id`. */
  ghost predicate Through(rows: map<RowId, Row>, h: Stacks, a: ItemId, id: RowId) {
    a in h && |h[a]| >= 2 && Top(h[a]) in rows && rows[Top(h[a])].via == Some(id)
  }

  function Below(stack: seq<RowId>): RowId
    requires |stack| >= 2
  {
    stack[|stack| - 2]
  }

  /** A compressed top names the merge it went through, and every row but the top went into
      an item that was merged further. */
  lemma StackShape(rows: map<RowId, Row>, h: Stacks, a: ItemId, stack: seq<RowId>, i: nat)
    requires StackOk(rows, h, a, stack) && i < |stack|
    ensures |stack| > 1 ==> rows[Top(stack)].via.Some?
    ensures i + 1 < |stack| ==> rows[stack[i]].survivor in h
  {
    if |stack| > 1 { assert Compresses(rows, h, stack, |stack| - 1); }
    if i + 1 < |stack| { assert Compresses(rows, h, stack, i + 1); }
  }

  lemma AloneStack(rows: map<RowId, Row>, h: Stacks, x: ItemId, stack: seq<RowId>)
    requires StackOk(rows, h, x, stack) && rows[Top(stack)].via.None?
    ensures stack == [Top(stack)]
  {
    StackShape(rows, h, x, stack, 0);
  }

  /** A directly merged item whose row is open has just that row on its stack. */
  lemma DirectIsAlone(s: Tables, h: Stacks, id: RowId, t: nat)
    requires Revertible(s, h, id, t)
    ensures var x := s.rows[id].superseded;
            x in h && h[x] == [id] && s.rows[id].survivor !in h && s.rows[id].survivor != x
  {
    var x := s.rows[id].superseded;
    assert x in h && id == Top(h[x]);
    AloneStack(s.rows, h, x, h[x]);
    assert StackOk(s.rows, h, x, h[x]);
    assert RowOk(s, id);
  }

  /** The row below a compressed top went into the reverted item, and closed as the top opened. */
  lemma BelowIsPredecessor(s: Tables, h: Stacks, id: RowId, t: nat, a: ItemId)
    requires Revertible(s, h, id, t) && Through(s.rows, h, a, id)
    ensures var x, p, c := s.rows[id].superseded, Below(h[a]), Top(h[a]);
            && p in s.rows && p != id && p != c && a != x
            && s.rows[p].superseded == s.rows[c].superseded == a && s.rows[p].survivor == x
            && s.rows[p].until == Some(s.rows[c].from) && s.rows[c].until.None? && s.rows[c].from <= s.now
  {
    DirectIsAlone(s, h, id, t);
    assert StackOk(s.rows, h, a, h[a]);
    assert RowOk(s, Top(h[a]));
    var i := |h[a]| - 1;
    assert Compresses(s.rows, h, h[a], i);
    var b := s.rows[h[a][i - 1]].survivor;
    assert StackOk(s.rows, h, b, h[b]);
    assert s.rows[h[a][i - 1]].until == Some(s.rows[h[a][i]].from);
    assert h[a][i - 1] == Below(h[a]);
  }

  /** The compressed rows are the tops that went through the merge. */
  lemma CompressedIsTop(s: Tables, h: Stacks, id: RowId, t: nat, c: RowId)
    requires Revertible(s, h, id, t) && c in CompressedBy(s.rows, id)
    ensures var a := s.rows[c].superseded; Through(s.rows, h, a, id) && c == Top(h[a])
  {
    var a := s.rows[c].superseded;
    assert c == Top(h[a]);
    assert StackOk(s.rows, h, a, h[a]);
  }

  lemma TopIsCompressed(s: Tables, h: Stacks, id: RowId, t: nat, a: ItemId)
    requires Revertible(s, h, id, t) && Through(s.rows, h, a, id)
    ensures Top(h[a]) in CompressedBy(s.rows, id)
  {
    assert StackOk(s.rows, h, a, h[a]);
  }

  ghost function Reopened(s: Tables, id: RowId, t: nat): set<RowId>
    requires id in s.rows
  {
    Predecessors(CloseMerge(s.rows, id, t), CompressedBy(s.rows, id), s.rows[id].superseded)
  }

  /** The rows the revert re-opens are those just below the compressed tops. */
  lemma ReopenedIsBelow(s: Tables, h: Stacks, id: RowId, t: nat, p: RowId)
    requires Revertible(s, h, id, t) && p in Reopened(s, id, t)
    ensures var a := s.rows[p].superseded; Through(s.rows, h, a, id) && p == Below(h[a])
  {
    var closed, x := CloseMerge(s.rows, id, t), s.rows[id].superseded;
    var c :| c in CompressedBy(s.rows, id) && c in closed && Precedes(closed, x, p, c);
    CompressedIsTop(s, h, id, t, c);
    BelowIsPredecessor(s, h, id, t, s.rows[c].superseded);
    SameClosing(s, h, id, t, p, c, Below(h[s.rows[c].superseded]));
  }

  /** Two rows of one item that closed at one past instant are one row. */
  lemma SameClosing(s: Tables, h: Stacks, id: RowId, t: nat, p: RowId, c: RowId, q: RowId)
    requires Revertible(s, h, id, t) && p in s.rows && q in s.rows && c in s.rows && s.rows[c].from <= s.now
    requires s.rows[p].superseded == s.rows[q].superseded && s.rows[q].until == Some(s.rows[c].from)
    requires CloseMerge(s.rows, id, t)[p].until == Some(s.rows[c].from)
    ensures p == q
  {
  }

  lemma BelowIsReopened(s: Tables, h: Stacks, id: RowId, t: nat, a: ItemId)
    requires Revertible(s, h, id, t) && Through(s.rows, h, a, id)
    ensures Below(h[a]) in Reopened(s, id, t)
  {
    var closed, x := CloseMerge(s.rows, id, t), s.rows[id].superseded;
    BelowIsPredecessor(s, h, id, t, a);
    TopIsCompressed(s, h, id, t, a);
    assert Precedes(closed, x, Below(h[a]), Top(h[a]));
  }

  // ---- As many predecessors as compressed rows ----------------------------------------------------------

  lemma {:induction false} InjectiveSize<K, V>(m: map<K, V>)
    requires forall a, b :: a in m && b in m && m[a] == m[b] ==> a == b
    ensures |m.Values| == |m.Keys|
  {
    if m.Keys == {} {
      assert m.Values == {};
    } else {
      var k :| k in m;
      var rest := m - {k};
      InjectiveSize(rest);
      assert m.Keys == rest.Keys + {k};
      assert m.Values == rest.Values + {m[k]};
      assert m[k] !in rest.Values;
    }
  }

  lemma SameCount(rows: map<RowId, Row>, f: map<ItemId, RowId>, g: map<ItemId, RowId>)
    requires f.Keys == g.Keys
    requires forall a :: a in f ==> f[a] in rows && rows[f[a]].superseded == a && g[a] in rows && rows[g[a]].superseded == a
    ensures |f.Values| == |g.Values|
  {
    InjectiveSize(f);
    InjectiveSize(g);
  }

  ghost function TopMap(rows: map<RowId, Row>, h: Stacks, id: RowId): map<ItemId, RowId> {
    map a | a in h && Through(rows, h, a, id) :: Top(h[a])
  }

  ghost function BelowMap(rows: map<RowId, Row>, h: Stacks, id: RowId): map<ItemId, RowId> {
    map a | a in h && Through(rows, h, a, id) :: Below(h[a])
  }

  lemma TopsAndBelows(s: Tables, h: Stacks, id: RowId, t: nat)
    requires Revertible(s, h, id, t)
    ensures |TopMap(s.rows, h, id).Values| == |BelowMap(s.rows, h, id).Values|
  {
    var tops, belows := TopMap(s.rows, h, id), BelowMap(s.rows, h, id);
    forall a | a in tops
      ensures tops[a] in s.rows && s.rows[tops[a]].superseded == a && belows[a] in s.rows && s.rows[belows[a]].superseded == a
    {
      BelowIsPredecessor(s, h, id, t, a);
    }
    SameCount(s.rows, tops, belows);
  }

  lemma TopsAre(s: Tables, h: Stacks, id: RowId, t: nat)
    requires Revertible(s, h, id, t)
    ensures TopMap(s.rows, h, id).Values == CompressedBy(s.rows, id)
  {
    var tops := TopMap(s.rows, h, id);
    forall c | c in CompressedBy(s.rows, id) ensures c in tops.Values {
      CompressedIsTop(s, h, id, t, c);
      assert tops[s.rows[c].superseded] == c;
    }
    forall c | c in tops.Values ensures c in CompressedBy(s.rows, id) {
      var a :| a in tops && tops[a] == c;
      TopIsCompressed(s, h, id, t, a);
    }
  }

  lemma BelowsAre(s: Tables, h: Stacks, id: RowId, t: nat)
    requires Revertible(s, h, id, t)
    ensures BelowMap(s.rows, h, id).Values == Reopened(s, id, t)
  {
    var belows := BelowMap(s.rows, h, id);
    forall p | p in Reopened(s, id, t) ensures p in belows.Values {
      ReopenedIsBelow(s, h, id, t, p);
      assert belows[s.rows[p].superseded] == p;
    }
    forall p | p in belows.Values ensures p in Reopened(s, id, t) {
      var a :| a in belows && belows[a] == p;
      BelowIsReopened(s, h, id, t, a);
    }
  }

  /** The mismatch the original checks for cannot arise: each compressed row has exactly
      one predecessor. */
  lemma OnePredecessorEach(s: Tables, h: Stacks, id: RowId, t: nat)
    requires Revertible(s, h, id, t)
    ensures |Reopened(s, id, t)| == |CompressedBy(s.rows, id)|
  {
    TopsAre(s, h, id, t);
    BelowsAre(s, h, id, t);
    TopsAndBelows(s, h, id, t);
  }

  // ---- A revert keeps the invariant -------------------------------------------------------------------------

  ghost function RevertedStacks(rows: map<RowId, Row>, h: Stacks, id: RowId, x: ItemId): Stacks {
    map a | a in h && a != x :: if Through(rows, h, a, id) then h[a][..|h[a]| - 1] else h[a]
  }

  ghost function RevertedRows(s: Tables, id: RowId, t: nat): map<RowId, Row>
    requires id in s.rows
  {
    Reopen(CloseMerge(s.rows, id, t), Reopened(s, id, t))
  }

  /** The reverted row and the compressed tops close, the rows below them re-open, and no
      other row changes. */
  lemma RevertedRowIs(s: Tables, h: Stacks, id: RowId, t: nat, r: RowId)
    requires Revertible(s, h, id, t) && r in s.rows
    ensures var a, rows' := s.rows[r].superseded, RevertedRows(s, id, t);
            && r in rows'
            && (r == id || (Through(s.rows, h, a, id) && r == Top(h[a])) ==> rows'[r] == s.rows[r].(until := Some(t)))
            && (Through(s.rows, h, a, id) && r == Below(h[a]) ==> rows'[r] == s.rows[r].(until := None))
            && (r != id && (Through(s.rows, h, a, id) ==> r != Top(h[a]) && r != Below(h[a])) ==> rows'[r] == s.rows[r])
  {
    var a := s.rows[r].superseded;
    if r in Reopened(s, id, t) { ReopenedIsBelow(s, h, id, t, r); }
    if r in CompressedBy(s.rows, id) { CompressedIsTop(s, h, id, t, r); }
    if Through(s.rows, h, a, id) {
      BelowIsPredecessor(s, h, id, t, a);
      BelowIsReopened(s, h, id, t, a);
      TopIsCompressed(s, h, id, t, a);
    }
    DirectIsAlone(s, h, id, t);
  }

  /** A link that went into the reverted item is a top. */
  lemma LinkIsTop(s: Tables, h: Stacks, id: RowId, t: nat, a: ItemId, i: nat)
    requires Revertible(s, h, id, t) && a in h && 0 < i < |h[a]|
    requires h[a][i - 1] in s.rows && s.rows[h[a][i - 1]].survivor == s.rows[id].superseded
    ensures Through(s.rows, h, a, id) && i == |h[a]| - 1
  {
    DirectIsAlone(s, h, id, t);
    assert StackOk(s.rows, h, a, h[a]);
    assert Compresses(s.rows, h, h[a], i);
    StackShape(s.rows, h, a, h[a], i);
  }

  /** The reverted stack is a chain that ends at an item not superseded. */
  lemma RevertKeepsEnds(s: Tables, h: Stacks, id: RowId, t: nat, a: ItemId, stack: seq<RowId>)
    requires Revertible(s, h, id, t) && a in h && a != s.rows[id].superseded
    requires stack == RevertedStacks(s.rows, h, id, s.rows[id].superseded)[a]
    ensures Chained(RevertedRows(s, id, t), a, stack)
    ensures RevertedRows(s, id, t)[Top(stack)].survivor !in RevertedStacks(s.rows, h, id, s.rows[id].superseded)
  {
    assert StackOk(s.rows, h, a, h[a]);
    RevertKeepsChain(s, h, id, t, a, |stack|);
    assert stack == h[a][..|stack|];
    StackAfter(s, h, id, t, a, |stack| - 1);
    if Through(s.rows, h, a, id) { BelowIsPredecessor(s, h, id, t, a); }
  }

  lemma RevertKeepsStack(s: Tables, h: Stacks, id: RowId, t: nat, a: ItemId)
    requires Revertible(s, h, id, t) && a in h && a != s.rows[id].superseded
    ensures var h' := RevertedStacks(s.rows, h, id, s.rows[id].superseded);
            StackOk(RevertedRows(s, id, t), h', a, h'[a])
  {
    var rows', h' := RevertedRows(s, id, t), RevertedStacks(s.rows, h, id, s.rows[id].superseded);
    RevertKeepsEnds(s, h, id, t, a, h'[a]);
    forall i | 0 < i < |h'[a]| ensures Compresses(rows', h', h'[a], i) { RevertKeepsLink(s, h, id, t, a, i); }
  }

  /** The rows of a reverted stack. */
  lemma StackAfter(s: Tables, h: Stacks, id: RowId, t: nat, a: ItemId, i: nat)
    requires Revertible(s, h, id, t) && a in h && a != s.rows[id].superseded
    requires i < |RevertedStacks(s.rows, h, id, s.rows[id].superseded)[a]|
    ensures var rows', n := RevertedRows(s, id, t), |RevertedStacks(s.rows, h, id, s.rows[id].superseded)[a]|;
            var r := h[a][i];
            && r in s.rows && r in rows' && s.rows[r].superseded == a
            && rows'[r] == if i == n - 1 then s.rows[r].(until := None) else s.rows[r]
  {
    assert StackOk(s.rows, h, a, h[a]);
    var r := h[a][i];
    assert s.rows[r].superseded == a;
    DirectIsAlone(s, h, id, t);
    DistinctStack(s, h, a);
    RevertedRowIs(s, h, id, t, r);
  }

  /** A stack never repeats a row: each opened after the one below it. */
  lemma {:induction false} StackAscends(rows: map<RowId, Row>, a: ItemId, stack: seq<RowId>, i: nat, j: nat)
    requires Chained(rows, a, stack) && i < j < |stack|
    ensures rows[stack[i]].from < rows[stack[j]].from
    decreases j
  {
    assert rows[stack[j - 1]].from < rows[stack[j]].from;
    if i < j - 1 { StackAscends(rows, a, stack, i, j - 1); }
  }

  lemma DistinctStack(s: Tables, h: Stacks, a: ItemId)
    requires Inv(s, h) && a in h
    ensures Distinct(h[a])
  {
    assert StackOk(s.rows, h, a, h[a]);
    forall i, j | 0 <= i < j < |h[a]| ensures h[a][i] != h[a][j] { StackAscends(s.rows, a, h[a], i, j); }
  }

  /** The `i`th row of a chain cut to `n` rows: as it was, but the last one re-opened. */
  ghost predicate CutRow(rows: map<RowId, Row>, rows': map<RowId, Row>, was: seq<RowId>, n: nat, i: nat) {
    && i < n <= |was| && was[i] in rows && was[i] in rows'
    && rows'[was[i]] == if i == n - 1 then rows[was[i]].(until := None) else rows[was[i]]
  }

  /** A chain cut short, its new last row re-opened, is a chain. */
  lemma ChainCut(rows: map<RowId, Row>, rows': map<RowId, Row>, a: ItemId, was: seq<RowId>, n: nat)
    requires Chained(rows, a, was) && 0 < n <= |was|
    requires forall i :: 0 <= i < n ==> CutRow(rows, rows', was, n, i)
    ensures Chained(rows', a, was[..n])
  {
    var stack := was[..n];
    assert forall i :: 0 <= i < n ==> stack[i] == was[i] && CutRow(rows, rows', was, n, i);
    assert rows'[Top(stack)].until.None?;
  }

  lemma RevertKeepsChain(s: Tables, h: Stacks, id: RowId, t: nat, a: ItemId, n: nat)
    requires Revertible(s, h, id, t) && a in h && a != s.rows[id].superseded
    requires 0 < n == |RevertedStacks(s.rows, h, id, s.rows[id].superseded)[a]| <= |h[a]|
    ensures Chained(RevertedRows(s, id, t), a, h[a][..n])
  {
    forall i | 0 <= i < n ensures CutRow(s.rows, RevertedRows(s, id, t), h[a], n, i) { StackAfter(s, h, id, t, a, i); }
    assert StackOk(s.rows, h, a, h[a]);
    ChainCut(s.rows, RevertedRows(s, id, t), a, h[a], n);
  }

  /** A link of a cut stack, between rows that kept their merge, still compresses. */
  lemma CarriesLink(rows: map<RowId, Row>, h: Stacks, was: seq<RowId>, rows': map<RowId, Row>, h': Stacks, stack: seq<RowId>, i: nat)
    requires 0 < i < |stack| <= |was| && (forall j :: 0 <= j < |was| ==> was[j] in rows) && (forall j :: 0 <= j < |stack| ==> stack[j] in rows')
    requires stack[i] == was[i] && stack[i - 1] == was[i - 1] && Compresses(rows, h, was, i)
    requires SameMerge(rows, rows', was[i]) && SameMerge(rows, rows', was[i - 1])
    requires var b := rows[was[i - 1]].survivor; b in h' && h'[b] != [] && h'[b][0] == h[b][0] && SameMerge(rows, rows', h[b][0])
    ensures Compresses(rows', h', stack, i)
  {
  }

  /** The row is there before and after, and differs at most in when it closed. */
  ghost predicate SameMerge(rows: map<RowId, Row>, rows': map<RowId, Row>, r: RowId) {
    r in rows && r in rows' && rows'[r] == rows[r].(until := rows'[r].until)
  }

  lemma RevertKeepsLink(s: Tables, h: Stacks, id: RowId, t: nat, a: ItemId, i: nat)
    requires Revertible(s, h, id, t) && a in h && a != s.rows[id].superseded
    requires 0 < i < |RevertedStacks(s.rows, h, id, s.rows[id].superseded)[a]|
    requires forall j :: 0 <= j < |RevertedStacks(s.rows, h, id, s.rows[id].superseded)[a]| ==>
               RevertedStacks(s.rows, h, id, s.rows[id].superseded)[a][j] in RevertedRows(s, id, t)
    ensures var h' := RevertedStacks(s.rows, h, id, s.rows[id].superseded);
            Compresses(RevertedRows(s, id, t), h', h'[a], i)
  {
    var x := s.rows[id].superseded;
    var rows', h' := RevertedRows(s, id, t), RevertedStacks(s.rows, h, id, x);
    assert StackOk(s.rows, h, a, h[a]);
    assert Compresses(s.rows, h, h[a], i);
    var b := s.rows[h[a][i - 1]].survivor;
    if b == x { LinkIsTop(s, h, id, t, a, i); }
    StackAfter(s, h, id, t, a, i);
    StackAfter(s, h, id, t, a, i - 1);
    BottomStays(s, h, id, t, b);
    CarriesLink(s.rows, h, h[a], rows', h', h'[a], i);
  }

  lemma BottomStays(s: Tables, h: Stacks, id: RowId, t: nat, b: ItemId)
    requires Revertible(s, h, id, t) && b in h && b != s.rows[id].superseded
    ensures var h' := RevertedStacks(s.rows, h, id, s.rows[id].superseded);
            b in h' && h'[b] != [] && h[b] != [] && h'[b][0] == h[b][0] && SameMerge(s.rows, RevertedRows(s, id, t), h[b][0])
  {
    assert StackOk(s.rows, h, b, h[b]);
    StackAfter(s, h, id, t, b, 0);
  }

  lemma RevertedTop(s: Tables, h: Stacks, id: RowId, t: nat, r: RowId)
    requires Revertible(s, h, id, t) && r in s.rows && RevertedRows(s, id, t)[r].until.None?
    ensures var a, h' := s.rows[r].superseded, RevertedStacks(s.rows, h, id, s.rows[id].superseded);
            a in h' && h'[a] != [] && r == Top(h'[a])
  {
    var a := s.rows[r].superseded;
    DirectIsAlone(s, h, id, t);
    RevertedRowIs(s, h, id, t, r);
    if Through(s.rows, h, a, id) {
      BelowIsPredecessor(s, h, id, t, a);
    } else {
      assert s.rows[r].until.None?;
      assert r == Top(h[a]);
    }
    assert a in h ==> StackOk(s.rows, h, a, h[a]);
  }

  lemma RevertKeepsTops(s: Tables, h: Stacks, id: RowId, t: nat)
    requires Revertible(s, h, id, t)
    ensures OpenAreTops(RevertedRows(s, id, t), RevertedStacks(s.rows, h, id, s.rows[id].superseded))
  {
    var rows', h' := RevertedRows(s, id, t), RevertedStacks(s.rows, h, id, s.rows[id].superseded);
    forall r | r in rows' && rows'[r].until.None?
      ensures rows'[r].superseded in h' && h'[rows'[r].superseded] != [] && r == Top(h'[rows'[r].superseded])
    {
      RevertedTop(s, h, id, t, r);
      RevertedRowIs(s, h, id, t, r);
    }
  }

  lemma RevertKeepsApart(s: Tables, h: Stacks, id: RowId, t: nat)
    requires Revertible(s, h, id, t)
    ensures ClosedApart(RevertedRows(s, id, t))
  {
    var rows' := RevertedRows(s, id, t);
    forall r | r in rows' && rows'[r].until.Some?
      ensures r in s.rows && rows'[r].superseded == s.rows[r].superseded
              && rows'[r].until == (if s.rows[r].until.None? then Some(t) else s.rows[r].until)
    {
      RevertedRowIs(s, h, id, t, r);
      if r in CompressedBy(s.rows, id) { CompressedIsTop(s, h, id, t, r); }
    }
    ClosingKeepsApart(s, h, rows', t);
  }

  /** Every open, uncompressed row of a reachable state can be reverted. */
  lemma RevertSucceeds(s: Tables, h: Stacks, id: RowId, t: nat)
    requires Revertible(s, h, id, t)
    ensures Revert(s, id, t) == Ok(MoveBack(s.(rows := RevertedRows(s, id, t), now := t), id))
  {
    OnePredecessorEach(s, h, id, t);
    assert RowOk(s, id);
  }

  lemma RevertedRowOk(s: Tables, h: Stacks, id: RowId, t: nat, r: RowId)
    requires Revertible(s, h, id, t) && r in s.rows
    ensures r in RevertedRows(s, id, t) && RowOk(s.(rows := RevertedRows(s, id, t), now := t), r)
  {
    assert RowOk(s, r);
    RevertedRowIs(s, h, id, t, r);
  }

  ghost function RevertedTables(s: Tables, id: RowId, t: nat): Tables
    requires id in s.rows
  {
    s.(rows := RevertedRows(s, id, t), now := t)
  }

  lemma RowsRevertInv(s: Tables, h: Stacks, id: RowId, t: nat)
    requires Revertible(s, h, id, t)
    ensures Inv(RevertedTables(s, id, t), RevertedStacks(s.rows, h, id, s.rows[id].superseded))
  {
    var s', h' := RevertedTables(s, id, t), RevertedStacks(s.rows, h, id, s.rows[id].superseded);
    RevertKeepsApart(s, h, id, t);
    RevertKeepsTops(s, h, id, t);
    forall r | r in s'.rows ensures RowOk(s', r) { RevertedRowOk(s, h, id, t, r); }
    forall a | a in h' ensures StackOk(s'.rows, h', a, h'[a]) { RevertKeepsStack(s, h, id, t, a); }
  }

  lemma MoveBackKeepsInv(s: Tables, h: Stacks, id: RowId)
    requires Inv(s, h)
    ensures Inv(MoveBack(s, id), h)
  {
    var s' := MoveBack(s, id);
    forall r | r in s'.rows ensures RowOk(s', r) { assert RowOk(s, r); }
  }

  /** A revert keeps the invariant, for the stacks without the reverted merge. */
  lemma RevertKeepsInv(s: Tables, h: Stacks, id: RowId, t: nat)
    requires Revertible(s, h, id, t)
    ensures Revert(s, id, t).Ok? && Inv(Revert(s, id, t).value, RevertedStacks(s.rows, h, id, s.rows[id].superseded))
  {
    RevertSucceeds(s, h, id, t);
    RowsRevertInv(s, h, id, t);
    MoveBackKeepsInv(RevertedTables(s, id, t), RevertedStacks(s.rows, h, id, s.rows[id].superseded), id);
  }
}
