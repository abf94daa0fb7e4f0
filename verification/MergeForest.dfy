/** Over every run of merges and reverts, the open supersession rows are the
    path-compressed form of the forest of direct merges (api/catalog_merge.py). */
module MergeForest {
  import opened Seqs
  import opened CatalogMerge

  // ---- Reading the invariant --------------------------------------------------------------------------

  /** An item has an open row exactly when it is stacked, and that row is its stack's top. */
  lemma OpenRowsAre(s: Tables, h: Stacks, i: ItemId)
    requires Inv(s, h)
    ensures i in h ==> OpenRows(s, i) == {Top(h[i])}
    ensures i !in h ==> OpenRows(s, i) == {}
  {
  }

  // ---- A fresh merge -------------------------------------------------------------------------------------

  ghost predicate Fresh(s: Tables, h: Stacks, x: ItemId, d: ItemId, t: nat) {
    && Inv(s, h) && t > s.now && x !in h && d !in h
    && x != d && x in s.kinds && d in s.kinds && s.kinds[x] == s.kinds[d]
  }

  function ClosedIf(row: Row, closes: bool, t: nat): Row {
    if closes && row.until.None? then row.(until := Some(t)) else row
  }

  /** `a`'s chain ends at `x`. */
  ghost predicate EndsAt(rows: map<RowId, Row>, h: Stacks, a: ItemId, x: ItemId) {
    a in h && h[a] != [] && Top(h[a]) in rows && rows[Top(h[a])].survivor == x
  }

  /** The rows a fresh merge leaves: old ones as they were or closed, and one new open row
      for `x` and for each item whose chain ended at `x`. */
  ghost predicate RowsMerged(rows: map<RowId, Row>, h: Stacks, rows': map<RowId, Row>, x: ItemId, d: ItemId, t: nat) {
    && (forall r :: r in rows ==> r in rows' && rows'[r] == ClosedIf(rows[r], rows[r].survivor == x, t))
    && (forall a :: a == x || EndsAt(rows, h, a, x) ==> RowId(t, a) in rows' && RowId(t, a) !in rows)
    && (forall r :: r in rows' && r !in rows ==> NewRow(rows, h, rows'[r], r, x, d, t))
  }

  ghost predicate NewRow(rows: map<RowId, Row>, h: Stacks, row: Row, r: RowId, x: ItemId, d: ItemId, t: nat) {
    && r == RowId(t, r.item) && row.superseded == r.item && row.survivor == d && row.from == t && row.until.None?
    && if r.item == x then row.via.None? else EndsAt(rows, h, r.item, x) && row.via == Some(RowId(t, x))
  }

  lemma EndsAtSurvived(s: Tables, h: Stacks, x: ItemId, a: ItemId)
    requires Inv(s, h)
    ensures a in SurvivedItems(s, x) <==> EndsAt(s.rows, h, a, x)
  {
  }

  lemma NotYet(s: Tables, h: Stacks, r: RowId, t: nat)
    requires Inv(s, h) && t > s.now
    ensures r in s.rows ==> r.at < t && s.rows[r].from < t
  {
  }

  lemma OldRowsMerge(s: Tables, h: Stacks, x: ItemId, d: ItemId, cause: Cause, decision: nat, t: nat, r: RowId)
    requires Fresh(s, h, x, d, t) && r in s.rows
    ensures var rows' := OpenRow(s, x, d, cause, decision, t).rows;
            r in rows' && rows'[r] == ClosedIf(s.rows[r], s.rows[r].survivor == x, t)
  {
  }

  lemma NewRowsMerge(s: Tables, h: Stacks, x: ItemId, d: ItemId, cause: Cause, decision: nat, t: nat, r: RowId)
    requires Fresh(s, h, x, d, t) && r in OpenRow(s, x, d, cause, decision, t).rows && r !in s.rows
    ensures NewRow(s.rows, h, OpenRow(s, x, d, cause, decision, t).rows[r], r, x, d, t)
  {
  }

  lemma OpenRowMerges(s: Tables, h: Stacks, x: ItemId, d: ItemId, cause: Cause, decision: nat, t: nat)
    requires Fresh(s, h, x, d, t)
    ensures RowsMerged(s.rows, h, OpenRow(s, x, d, cause, decision, t).rows, x, d, t)
  {
    var rows' := OpenRow(s, x, d, cause, decision, t).rows;
    forall r | r in s.rows ensures r in rows' && rows'[r] == ClosedIf(s.rows[r], s.rows[r].survivor == x, t) {
      OldRowsMerge(s, h, x, d, cause, decision, t, r);
    }
    forall a | a == x || EndsAt(s.rows, h, a, x) ensures RowId(t, a) in rows' && RowId(t, a) !in s.rows {
      EndsAtSurvived(s, h, x, a);
      NotYet(s, h, RowId(t, a), t);
    }
    forall r | r in rows' && r !in s.rows ensures NewRow(s.rows, h, rows'[r], r, x, d, t) {
      NewRowsMerge(s, h, x, d, cause, decision, t, r);
    }
  }

  /** Within a stack only the top row is open, so only it can be closed by a merge. */
  lemma StackUnder(rows: map<RowId, Row>, h: Stacks, rows': map<RowId, Row>, x: ItemId, d: ItemId, t: nat, a: ItemId)
    requires RowsMerged(rows, h, rows', x, d, t) && a in h && Chained(rows, a, h[a])
    ensures forall i :: 0 <= i < |h[a]| ==> h[a][i] in rows'
    ensures forall i :: 0 <= i < |h[a]| - 1 ==> rows'[h[a][i]] == rows[h[a][i]]
    ensures rows'[Top(h[a])] == ClosedIf(rows[Top(h[a])], EndsAt(rows, h, a, x), t)
  {
    forall i | 0 <= i < |h[a]| - 1 ensures rows'[h[a][i]] == rows[h[a][i]] {
      assert rows[h[a][i]].until == Some(rows[h[a][i + 1]].from);
    }
  }

  lemma MergeKeepsChain(rows: map<RowId, Row>, h: Stacks, rows': map<RowId, Row>, x: ItemId, d: ItemId, t: nat, a: ItemId)
    requires RowsMerged(rows, h, rows', x, d, t) && a in h && a != x && Chained(rows, a, h[a])
    requires rows[Top(h[a])].from < t
    ensures Chained(rows', a, h[a] + if EndsAt(rows, h, a, x) then [RowId(t, a)] else [])
  {
  }

  /** How the stacks grow. */
  ghost predicate StacksMerged(rows: map<RowId, Row>, h: Stacks, h': Stacks, x: ItemId, t: nat) {
    && h'.Keys == h.Keys + {x} && h'[x] == [RowId(t, x)]
    && forall b :: b in h ==> h'[b] == h[b] + if EndsAt(rows, h, b, x) then [RowId(t, b)] else []
  }

  lemma MergeKeepsLink(rows: map<RowId, Row>, h: Stacks, rows': map<RowId, Row>, h': Stacks, x: ItemId, d: ItemId, t: nat, a: ItemId, i: nat)
    requires RowsMerged(rows, h, rows', x, d, t) && StacksMerged(rows, h, h', x, t)
    requires a in h && a != x && Chained(rows, a, h[a]) && 0 < i < |h'[a]|
    requires i < |h[a]| ==> Compresses(rows, h, h[a], i) && rows[h[a][i - 1]].survivor != x
    requires forall j :: 0 <= j < |h'[a]| ==> h'[a][j] in rows'
    ensures Compresses(rows', h', h'[a], i)
  {
  }

  /** A stack survives the merge, with one more row if its chain ended at `x`. */
  lemma MergeKeepsStack(rows: map<RowId, Row>, h: Stacks, rows': map<RowId, Row>, h': Stacks, x: ItemId, d: ItemId, t: nat, a: ItemId)
    requires RowsMerged(rows, h, rows', x, d, t) && StacksMerged(rows, h, h', x, t)
    requires x !in h && d !in h && x != d && a in h && StackOk(rows, h, a, h[a]) && rows[Top(h[a])].from < t
    ensures StackOk(rows', h', a, h'[a])
  {
    MergeKeepsChain(rows, h, rows', x, d, t, a);
    forall i | 0 < i < |h'[a]| ensures Compresses(rows', h', h'[a], i) {
      if i < |h[a]| { assert Compresses(rows, h, h[a], i); }
      MergeKeepsLink(rows, h, rows', h', x, d, t, a, i);
    }
    StackUnder(rows, h, rows', x, d, t, a);
    if EndsAt(rows, h, a, x) {
      assert Top(h'[a]) == RowId(t, a);
      assert NewRow(rows, h, rows'[RowId(t, a)], RowId(t, a), x, d, t);
    }
  }

  ghost function MergedStacks(rows: map<RowId, Row>, h: Stacks, x: ItemId, t: nat): Stacks {
    (map a | a in h :: h[a] + if EndsAt(rows, h, a, x) then [RowId(t, a)] else [])[x := [RowId(t, x)]]
  }

  /** Closing a few open rows, at most one per item, at a new instant keeps closings apart. */
  lemma ClosingKeepsApart(s: Tables, h: Stacks, rows': map<RowId, Row>, t: nat)
    requires Inv(s, h) && t > s.now
    requires forall r :: r in rows' && rows'[r].until.Some? ==>
               r in s.rows && rows'[r].superseded == s.rows[r].superseded
               && rows'[r].until == (if s.rows[r].until.None? then Some(t) else s.rows[r].until)
    ensures ClosedApart(rows')
  {
  }

  lemma MergedRowOk(s: Tables, h: Stacks, x: ItemId, d: ItemId, cause: Cause, decision: nat, t: nat, r: RowId)
    requires Fresh(s, h, x, d, t) && r in OpenRow(s, x, d, cause, decision, t).rows
    ensures RowOk(OpenRow(s, x, d, cause, decision, t), r)
  {
    OpenRowMerges(s, h, x, d, cause, decision, t);
    if r in s.rows {
      assert RowOk(s, r);
    } else {
      assert NewRow(s.rows, h, OpenRow(s, x, d, cause, decision, t).rows[r], r, x, d, t);
      if r.item != x {
        assert StackOk(s.rows, h, r.item, h[r.item]);
        assert RowOk(s, Top(h[r.item]));
      }
    }
  }

  /** After a merge an item's open row is its top. */
  lemma MergedTop(s: Tables, h: Stacks, rows': map<RowId, Row>, h': Stacks, x: ItemId, d: ItemId, t: nat, r: RowId)
    requires Inv(s, h) && RowsMerged(s.rows, h, rows', x, d, t) && StacksMerged(s.rows, h, h', x, t) && x !in h
    requires r in rows' && rows'[r].until.None?
    ensures rows'[r].superseded in h' && h'[rows'[r].superseded] != [] && r == Top(h'[rows'[r].superseded])
  {
    if r in s.rows {
      assert s.rows[r].until.None?;
      var a := s.rows[r].superseded;
      assert a in h && r == Top(h[a]);
      assert StackOk(s.rows, h, a, h[a]);
    } else {
      assert NewRow(s.rows, h, rows'[r], r, x, d, t);
    }
  }

  lemma NewStackOk(s: Tables, h: Stacks, x: ItemId, d: ItemId, rows': map<RowId, Row>, h': Stacks, t: nat)
    requires Fresh(s, h, x, d, t) && RowsMerged(s.rows, h, rows', x, d, t) && h' == MergedStacks(s.rows, h, x, t)
    ensures StackOk(rows', h', x, h'[x])
  {
    assert NewRow(s.rows, h, rows'[RowId(t, x)], RowId(t, x), x, d, t);
  }

  lemma StacksMerge(s: Tables, h: Stacks, x: ItemId, d: ItemId, t: nat)
    requires Fresh(s, h, x, d, t)
    ensures StacksMerged(s.rows, h, MergedStacks(s.rows, h, x, t), x, t)
  {
  }

  lemma MergeKeepsStacks(s: Tables, h: Stacks, x: ItemId, d: ItemId, rows': map<RowId, Row>, t: nat, a: ItemId)
    requires Fresh(s, h, x, d, t) && RowsMerged(s.rows, h, rows', x, d, t) && a in MergedStacks(s.rows, h, x, t)
    ensures StackOk(rows', MergedStacks(s.rows, h, x, t), a, MergedStacks(s.rows, h, x, t)[a])
  {
    if a == x {
      NewStackOk(s, h, x, d, rows', MergedStacks(s.rows, h, x, t), t);
    } else {
      assert StackOk(s.rows, h, a, h[a]);
      NotYet(s, h, Top(h[a]), t);
      StacksMerge(s, h, x, d, t);
      MergeKeepsStack(s.rows, h, rows', MergedStacks(s.rows, h, x, t), x, d, t, a);
    }
  }

  lemma MergeKeepsApart(s: Tables, h: Stacks, x: ItemId, d: ItemId, rows': map<RowId, Row>, t: nat)
    requires Fresh(s, h, x, d, t) && RowsMerged(s.rows, h, rows', x, d, t)
    ensures ClosedApart(rows')
  {
    forall r | r in rows' && rows'[r].until.Some?
      ensures r in s.rows && rows'[r].superseded == s.rows[r].superseded
              && rows'[r].until == (if s.rows[r].until.None? then Some(t) else s.rows[r].until)
    {
      assert r !in s.rows ==> NewRow(s.rows, h, rows'[r], r, x, d, t);
    }
    ClosingKeepsApart(s, h, rows', t);
  }

  /** Every open row is its item's top. */
  ghost predicate OpenAreTops(rows: map<RowId, Row>, h: Stacks) {
    forall r :: r in rows && rows[r].until.None? ==> rows[r].superseded in h && h[rows[r].superseded] != [] && r == Top(h[rows[r].superseded])
  }

  lemma MergeKeepsTops(s: Tables, h: Stacks, x: ItemId, d: ItemId, rows': map<RowId, Row>, t: nat)
    requires Fresh(s, h, x, d, t) && RowsMerged(s.rows, h, rows', x, d, t)
    ensures OpenAreTops(rows', MergedStacks(s.rows, h, x, t))
  {
    var h' := MergedStacks(s.rows, h, x, t);
    forall r | r in rows' && rows'[r].until.None?
      ensures rows'[r].superseded in h' && h'[rows'[r].superseded] != [] && r == Top(h'[rows'[r].superseded])
    {
      MergedTop(s, h, rows', h', x, d, t, r);
    }
  }

  /** A fresh merge keeps the invariant. */
  lemma MergeKeepsInv(s: Tables, h: Stacks, x: ItemId, d: ItemId, cause: Cause, decision: nat, t: nat)
    requires Fresh(s, h, x, d, t)
    ensures Inv(OpenRow(s, x, d, cause, decision, t), MergedStacks(s.rows, h, x, t))
  {
    var s' := OpenRow(s, x, d, cause, decision, t);
    var h' := MergedStacks(s.rows, h, x, t);
    OpenRowMerges(s, h, x, d, cause, decision, t);
    MergeKeepsApart(s, h, x, d, s'.rows, t);
    MergeKeepsTops(s, h, x, d, s'.rows, t);
    forall r | r in s'.rows ensures RowOk(s', r) { MergedRowOk(s, h, x, d, cause, decision, t, r); }
    forall a | a in h' ensures StackOk(s'.rows, h', a, h'[a]) { MergeKeepsStacks(s, h, x, d, s'.rows, t, a); }
  }

  /** Re-pointing references leaves the rows alone. */
  lemma RepointKeepsInv(s: Tables, h: Stacks, x: ItemId, d: ItemId, id: RowId)
    requires Inv(s, h) && id.at <= s.now
    ensures Inv(Repoint(s, x, d, id), h)
  {
  }
}
