/** What a merge and a revert leave in the tables, row by row and reference by reference, and
    where every reference is after any run of them (api/catalog_merge.py). */
module MergeMeaning {
  import opened Seqs
  import opened CatalogMerge
  import opened MergeForest
  import opened MergeRevert
  import opened MergeRuns

  /** Some stacks of direct merges explain the tables; every run of merges and reverts keeps it so. */
  ghost predicate Stacked(s: Tables) {
    exists h :: Inv(s, h)
  }

  // ---- A merge -------------------------------------------------------------------------------------------------

  /** Every reference to `x` is now to `d`, and every other is where it was. */
  ghost predicate RefsMoved(refs: map<Ref, ItemId>, refs': map<Ref, ItemId>, x: ItemId, d: ItemId) {
    refs'.Keys == refs.Keys && forall r :: r in refs ==> refs'[r] == if refs[r] == x then d else refs[r]
  }

  /** What the ledger says of a reference under a row. */
  function EntryOf(ledger: map<RowId, map<Ref, Move>>, id: RowId, r: Ref): Option<Move> {
    if id in ledger && r in ledger[id] then Some(ledger[id][r]) else None
  }

  /** A reference that moved is ledgered under `id`, unless it was already. */
  ghost predicate MovesLedgered(s: Tables, s': Tables, x: ItemId, d: ItemId, id: RowId) {
    forall i, r :: EntryOf(s'.ledger, i, r) ==
      if i == id && r in s.refs && s.refs[r] == x && EntryOf(s.ledger, i, r).None? then Some(Move(x, d)) else EntryOf(s.ledger, i, r)
  }

  predicate OpenInto(row: Row, x: ItemId) { row.survivor == x && row.until.None? }

  /** A row into `x` closes, and one into `d` opens for its item, with its cause and decision. */
  ghost predicate Rerouted(rows': map<RowId, Row>, r: RowId, row: Row, x: ItemId, d: ItemId, t: nat) {
    && r in rows' && rows'[r] == row.(until := Some(t))
    && RowId(t, row.superseded) in rows'
    && rows'[RowId(t, row.superseded)] == Row(row.superseded, d, row.cause, row.decision, t, None, Some(RowId(t, x)))
  }

  /** The new row carries the caller's cause and decision; each row into `x` is re-routed; no
      other row changes or appears. */
  ghost predicate RowsOpened(rows: map<RowId, Row>, rows': map<RowId, Row>, x: ItemId, d: ItemId, cause: Cause, decision: nat, t: nat) {
    && RowId(t, x) !in rows && RowId(t, x) in rows' && rows'[RowId(t, x)] == Row(x, d, cause, decision, t, None, None)
    && (forall r :: r in rows ==> r in rows' && if OpenInto(rows[r], x) then Rerouted(rows', r, rows[r], x, d, t) else rows'[r] == rows[r])
    && (forall r :: r in rows' && r !in rows ==> r == RowId(t, x) || exists p :: p in rows && OpenInto(rows[p], x) && r == RowId(t, rows[p].superseded))
  }

  /** Everything a merge of `x` into `d` leaves. */
  ghost predicate MergeLeaves(s: Tables, existing: Option<RowId>, x: ItemId, d: ItemId, cause: Cause, decision: nat, t: nat, s': Tables, id: RowId) {
    var holds :=
      && s'.kinds == s.kinds && s'.now == t && RefsMoved(s.refs, s'.refs, x, d) && MovesLedgered(s, s', x, d, id)
      && (existing.Some? ==> id == existing.value && s'.rows == s.rows)
      && (existing.None? ==> id == RowId(t, x) && RowsOpened(s.rows, s'.rows, x, d, cause, decision, t));
    holds
  }

  lemma RepointLeaves(s: Tables, x: ItemId, d: ItemId, id: RowId)
    ensures var s' := Repoint(s, x, d, id); RefsMoved(s.refs, s'.refs, x, d) && MovesLedgered(s, s', x, d, id)
  {
  }

  /** The one open row of a survived item is the one its compressed row takes after. */
  lemma CompressedKeeps(s: Tables, h: Stacks, x: ItemId, d: ItemId, id: RowId, t: nat, r: RowId)
    requires Inv(s, h) && r in s.rows && OpenInto(s.rows[r], x)
    ensures CompressedAs(OpenCompressed(s, x, d, id, t), s.rows[r], d, t, id)
  {
    OnlyOpen(s, h, r);
    AloneIsCompressed(s, x, d, id, t, r);
  }

  /** `rows` holds `row`'s compression under `id` into `d`. */
  ghost predicate CompressedAs(rows: map<RowId, Row>, row: Row, d: ItemId, t: nat, id: RowId) {
    var k := RowId(t, row.superseded);
    k in rows && rows[k] == Row(row.superseded, d, row.cause, row.decision, t, None, Some(id))
  }

  lemma AloneIsCompressed(s: Tables, x: ItemId, d: ItemId, id: RowId, t: nat, r: RowId)
    requires r in s.rows && OpenInto(s.rows[r], x)
    requires forall q :: q in s.rows && s.rows[q].until.None? && s.rows[q].superseded == s.rows[r].superseded ==> q == r
    ensures CompressedAs(OpenCompressed(s, x, d, id, t), s.rows[r], d, t, id)
  {
    assert s.rows[r].superseded in SurvivedItems(s, x);
  }

  /** An item has one open row. */
  lemma OnlyOpen(s: Tables, h: Stacks, r: RowId)
    requires Inv(s, h) && r in s.rows && s.rows[r].until.None?
    ensures forall q :: q in s.rows && s.rows[q].until.None? && s.rows[q].superseded == s.rows[r].superseded ==> q == r
  {
    OpenRowsAre(s, h, s.rows[r].superseded);
    assert r in OpenRows(s, s.rows[r].superseded);
    forall q | q in s.rows && s.rows[q].until.None? && s.rows[q].superseded == s.rows[r].superseded ensures q == r {
      assert q in OpenRows(s, s.rows[r].superseded);
    }
  }

  lemma OpensRows(s: Tables, h: Stacks, x: ItemId, d: ItemId, cause: Cause, decision: nat, t: nat)
    requires Fresh(s, h, x, d, t)
    ensures RowsOpened(s.rows, OpenRow(s, x, d, cause, decision, t).rows, x, d, cause, decision, t)
  {
    var rows' := OpenRow(s, x, d, cause, decision, t).rows;
    OpensOwn(s, h, x, d, cause, decision, t);
    forall r | r in s.rows ensures r in rows' && if OpenInto(s.rows[r], x) then Rerouted(rows', r, s.rows[r], x, d, t) else rows'[r] == s.rows[r] {
      OldRowsMerge(s, h, x, d, cause, decision, t, r);
      if OpenInto(s.rows[r], x) { CompressedKeeps(s, h, x, d, RowId(t, x), t, r); }
    }
    forall r | r in rows' && r !in s.rows && r != RowId(t, x)
      ensures exists p :: p in s.rows && OpenInto(s.rows[p], x) && r == RowId(t, s.rows[p].superseded)
    {
      OnlyCompressed(s, x, d, RowId(t, x), t, r);
    }
  }

  lemma OpensOwn(s: Tables, h: Stacks, x: ItemId, d: ItemId, cause: Cause, decision: nat, t: nat)
    requires Fresh(s, h, x, d, t)
    ensures var rows' := OpenRow(s, x, d, cause, decision, t).rows;
            RowId(t, x) !in s.rows && RowId(t, x) in rows' && rows'[RowId(t, x)] == Row(x, d, cause, decision, t, None, None)
  {
    NotYet(s, h, RowId(t, x), t);
    OpenRowsAre(s, h, x);
    forall r | r in s.rows && OpenInto(s.rows[r], x) ensures s.rows[r].superseded != x { assert r !in OpenRows(s, x); }
    assert RowId(t, x) !in OpenCompressed(s, x, d, RowId(t, x), t);
  }

  lemma OnlyCompressed(s: Tables, x: ItemId, d: ItemId, id: RowId, t: nat, r: RowId)
    requires r in OpenCompressed(s, x, d, id, t)
    ensures exists p :: p in s.rows && OpenInto(s.rows[p], x) && r == RowId(t, s.rows[p].superseded)
  {
  }

  lemma FreshPair(s: Tables, h: Stacks, x: ItemId, d: ItemId, t: nat)
    requires Inv(s, h) && t > s.now && CheckPair(s, x, d) == Ok(None)
    ensures Fresh(s, h, x, d, t)
  {
    OpenRowsAre(s, h, x);
    OpenRowsAre(s, h, d);
  }

  /** `merge_items` leaves that. */
  lemma MergeIs(s: Tables, h: Stacks, existing: Option<RowId>, x: ItemId, d: ItemId, cause: Cause, decision: nat, t: nat)
    requires Inv(s, h) && t > s.now && CheckPair(s, x, d) == Ok(existing)
    ensures var (s', id) := MergeInto(s, existing, x, d, cause, decision, t); MergeLeaves(s, existing, x, d, cause, decision, t, s', id)
  {
    match existing {
      case Some(id) => RepointLeaves(s, x, d, id);
      case None =>
        FreshPair(s, h, x, d, t);
        OpensRows(s, h, x, d, cause, decision, t);
        RepointLeaves(OpenRow(s, x, d, cause, decision, t), x, d, RowId(t, x));
    }
  }

  ghost function DirectOf(s: Tables, h: Stacks): Forest {
    map a | a in h :: if h[a] != [] && h[a][0] in s.rows then s.rows[h[a][0]].survivor else a
  }

  lemma InvIsGood(s: Tables, h: Stacks)
    requires Inv(s, h)
    ensures Good(World(s, DirectOf(s, h)), h)
  {
  }

  lemma MergedStacked(s: Tables, x: ItemId, d: ItemId, cause: Cause, decision: nat, t: nat)
    requires Stacked(s) && t > s.now && Merge(s, x, d, cause, decision, t).Ok?
    ensures Stacked(Merge(s, x, d, cause, decision, t).value.0)
  {
    var h :| Inv(s, h);
    InvIsGood(s, h);
    MergeGood(World(s, DirectOf(s, h)), h, x, d, cause, decision, t);
  }

  // ---- What that means ------------------------------------------------------------------------------------------

  /** `x` resolves to `d` in one hop, nothing resolves to `x`, and no reference is on it. */
  ghost predicate MovedOnto(s: Tables, x: ItemId, d: ItemId, id: RowId) {
    && OpenRows(s, x) == {id} && id in s.rows && s.rows[id].survivor == d && OpenRows(s, d) == {}
    && (forall r :: r in s.rows ==> !OpenInto(s.rows[r], x))
    && (forall r :: r in s.refs ==> s.refs[r] != x)
  }

  lemma PairIs(s: Tables, h: Stacks, x: ItemId, d: ItemId, existing: Option<RowId>)
    requires Inv(s, h) && CheckPair(s, x, d) == Ok(existing)
    ensures x != d && OpenRows(s, d) == {}
    ensures existing.None? ==> OpenRows(s, x) == {}
    ensures existing.Some? ==> OpenRows(s, x) == {existing.value} && s.rows[existing.value].survivor == d
  {
    OpenRowsAre(s, h, x);
  }

  /** Nothing is open into a superseded item. */
  lemma NoneInto(s: Tables, h: Stacks, x: ItemId, r: RowId)
    requires Inv(s, h) && OpenRows(s, x) != {} && r in s.rows
    ensures !OpenInto(s.rows[r], x)
  {
    OpenRowsAre(s, h, x);
    if s.rows[r].until.None? {
      var a := s.rows[r].superseded;
      assert StackOk(s.rows, h, a, h[a]);
    }
  }

  lemma MergedOnto(s: Tables, h: Stacks, existing: Option<RowId>, x: ItemId, d: ItemId, cause: Cause, decision: nat, t: nat, s': Tables, id: RowId)
    requires Inv(s, h) && CheckPair(s, x, d) == Ok(existing) && MergeLeaves(s, existing, x, d, cause, decision, t, s', id)
    ensures MovedOnto(s', x, d, id)
  {
    PairIs(s, h, x, d, existing);
    match existing {
      case Some(_) => forall r | r in s'.rows ensures !OpenInto(s'.rows[r], x) { NoneInto(s, h, x, r); }
      case None =>
        forall r | r in s'.rows ensures s'.rows[r].superseded == x && s'.rows[r].until.None? <==> r == id { OpenAfter(s, x, d, cause, decision, t, s', r); }
        forall r | r in s'.rows ensures !OpenInto(s'.rows[r], x) { OpenAfter(s, x, d, cause, decision, t, s', r); }
        forall r | r in s'.rows ensures !(s'.rows[r].superseded == d && s'.rows[r].until.None?) { OpenAfter(s, x, d, cause, decision, t, s', r); }
    }
  }

  /** The open rows after a fresh merge: the new one, those re-routed, and those elsewhere. */
  lemma OpenAfter(s: Tables, x: ItemId, d: ItemId, cause: Cause, decision: nat, t: nat, s': Tables, r: RowId)
    requires RowsOpened(s.rows, s'.rows, x, d, cause, decision, t) && OpenRows(s, x) == {} && OpenRows(s, d) == {} && x != d && r in s'.rows
    ensures s'.rows[r].superseded == x && s'.rows[r].until.None? <==> r == RowId(t, x)
    ensures !OpenInto(s'.rows[r], x) && !(s'.rows[r].superseded == d && s'.rows[r].until.None?)
    ensures s'.rows[r].until.None? && r != RowId(t, x) ==> OpenRows(s, s'.rows[r].superseded) != {}
  {
    if r in s.rows {
      assert r !in OpenRows(s, x) && r !in OpenRows(s, d);
      if s.rows[r].until.None? { assert r in OpenRows(s, s.rows[r].superseded); }
    } else if r != RowId(t, x) {
      var p :| p in s.rows && OpenInto(s.rows[p], x) && r == RowId(t, s.rows[p].superseded);
      assert Rerouted(s'.rows, p, s.rows[p], x, d, t);
      assert p in OpenRows(s, s.rows[p].superseded);
    }
  }

  // ---- A revert --------------------------------------------------------------------------------------------------

  predicate Compressed(rows: map<RowId, Row>, id: RowId, c: RowId)
    requires c in rows
  {
    rows[c].via == Some(id) && rows[c].until.None?
  }

  /** `p` is the row that `c` replaced when it was opened. */
  predicate Replaced(rows: map<RowId, Row>, x: ItemId, p: RowId, c: RowId)
    requires p in rows && c in rows
  {
    rows[p].superseded == rows[c].superseded && rows[p].survivor == x && rows[p].until == Some(rows[c].from)
  }

  ghost predicate WasReplaced(rows: map<RowId, Row>, id: RowId, x: ItemId, p: RowId)
    requires p in rows
  {
    exists c :: c in rows && Compressed(rows, id, c) && Replaced(rows, x, p, c)
  }

  /** The row and those it compressed close; each row they replaced re-opens, one for each; no
      other row changes. */
  ghost predicate RowsReverted(rows: map<RowId, Row>, rows': map<RowId, Row>, id: RowId, x: ItemId, t: nat) {
    && rows'.Keys == rows.Keys
    && (forall r :: r in rows ==> RowReverted(rows, rows', id, x, t, r))
    && (forall c :: c in rows && Compressed(rows, id, c) ==> ReplacedOne(rows, x, c))
  }

  ghost predicate RowReverted(rows: map<RowId, Row>, rows': map<RowId, Row>, id: RowId, x: ItemId, t: nat, r: RowId)
    requires r in rows
  {
    && r in rows'
    && rows'[r] == if r == id || Compressed(rows, id, r) then rows[r].(until := Some(t))
                   else if WasReplaced(rows, id, x, r) then rows[r].(until := None)
                   else rows[r]
  }

  ghost predicate ReplacedOne(rows: map<RowId, Row>, x: ItemId, c: RowId)
    requires c in rows
  {
    exists p :: p in rows && Replaced(rows, x, p, c) && forall q :: q in rows && Replaced(rows, x, q, c) ==> q == p
  }

  /** A ledgered reference still at the survivor goes back, and every other stays. */
  ghost predicate RefsReverted(s: Tables, s': Tables, id: RowId) {
    && s'.refs.Keys == s.refs.Keys
    && forall r :: r in s.refs ==>
         s'.refs[r] == match EntryOf(s.ledger, id, r) case None => s.refs[r] case Some(m) => if s.refs[r] == m.to then m.from else s.refs[r]
  }

  /** Everything a revert of the row `id` leaves. */
  ghost predicate RevertLeaves(s: Tables, id: RowId, t: nat, s': Tables) {
    var holds :=
      && id in s.rows && s'.kinds == s.kinds && s'.ledger == s.ledger && s'.now == t
      && RowsReverted(s.rows, s'.rows, id, s.rows[id].superseded, t) && RefsReverted(s, s', id);
    holds
  }

  /** A compressed row's predecessor, before and after the merge's rows close. */
  lemma ReplacedIsBelow(s: Tables, h: Stacks, id: RowId, t: nat, c: RowId, p: RowId)
    requires Revertible(s, h, id, t) && c in s.rows && Compressed(s.rows, id, c) && p in s.rows
    ensures var a := s.rows[c].superseded;
            Through(s.rows, h, a, id) && c == Top(h[a]) && (Replaced(s.rows, s.rows[id].superseded, p, c) <==> p == Below(h[a]))
  {
    assert c in CompressedBy(s.rows, id);
    CompressedIsTop(s, h, id, t, c);
    BelowIsPredecessor(s, h, id, t, s.rows[c].superseded);
  }

  lemma ReplacedOnce(s: Tables, h: Stacks, id: RowId, t: nat, c: RowId)
    requires Revertible(s, h, id, t) && c in s.rows && Compressed(s.rows, id, c)
    ensures ReplacedOne(s.rows, s.rows[id].superseded, c)
  {
    var a, x := s.rows[c].superseded, s.rows[id].superseded;
    ReplacedIsBelow(s, h, id, t, c, c);
    BelowIsPredecessor(s, h, id, t, a);
    var p := Below(h[a]);
    forall q | q in s.rows && Replaced(s.rows, x, q, c) ensures q == p { ReplacedIsBelow(s, h, id, t, c, q); }
    ReplacedIsBelow(s, h, id, t, c, p);
  }

  lemma WasReplacedIs(s: Tables, h: Stacks, id: RowId, t: nat, p: RowId)
    requires Revertible(s, h, id, t) && p in s.rows
    ensures var a := s.rows[p].superseded;
            WasReplaced(s.rows, id, s.rows[id].superseded, p) <==> Through(s.rows, h, a, id) && p == Below(h[a])
  {
    var a, x := s.rows[p].superseded, s.rows[id].superseded;
    if WasReplaced(s.rows, id, x, p) {
      var c :| c in s.rows && Compressed(s.rows, id, c) && Replaced(s.rows, x, p, c);
      ReplacedIsBelow(s, h, id, t, c, p);
    } else if Through(s.rows, h, a, id) {
      TopIsCompressed(s, h, id, t, a);
      assert Compressed(s.rows, id, Top(h[a]));
      ReplacedIsBelow(s, h, id, t, Top(h[a]), p);
    }
  }

  lemma CompressedIs(s: Tables, h: Stacks, id: RowId, t: nat, r: RowId)
    requires Revertible(s, h, id, t) && r in s.rows
    ensures var a := s.rows[r].superseded; Compressed(s.rows, id, r) <==> Through(s.rows, h, a, id) && r == Top(h[a])
  {
    var a := s.rows[r].superseded;
    if Compressed(s.rows, id, r) { ReplacedIsBelow(s, h, id, t, r, r); }
    if Through(s.rows, h, a, id) { TopIsCompressed(s, h, id, t, a); }
  }

  lemma RowReverts(s: Tables, h: Stacks, id: RowId, t: nat, r: RowId)
    requires Revertible(s, h, id, t) && r in s.rows
    ensures RowReverted(s.rows, RevertedRows(s, id, t), id, s.rows[id].superseded, t, r)
  {
    RevertedRowIs(s, h, id, t, r);
    CompressedIs(s, h, id, t, r);
    WasReplacedIs(s, h, id, t, r);
  }

  lemma SameKeys(s: Tables, id: RowId, t: nat)
    requires id in s.rows
    ensures RevertedRows(s, id, t).Keys == s.rows.Keys
  {
  }

  lemma RowsRevert(s: Tables, h: Stacks, id: RowId, t: nat, rows': map<RowId, Row>)
    requires Revertible(s, h, id, t) && rows' == RevertedRows(s, id, t)
    ensures RowsReverted(s.rows, rows', id, s.rows[id].superseded, t)
  {
    var x := s.rows[id].superseded;
    SameKeys(s, id, t);
    forall r | r in s.rows ensures RowReverted(s.rows, rows', id, x, t, r) { RowReverts(s, h, id, t, r); }
    forall c | c in s.rows && Compressed(s.rows, id, c) ensures ReplacedOne(s.rows, x, c) { ReplacedOnce(s, h, id, t, c); }
  }

  lemma BackLeaves(s: Tables, id: RowId)
    ensures var s' := MoveBack(s, id); RefsReverted(s, s', id) && s' == s.(refs := s'.refs)
  {
  }

  /** `revert_supersession` leaves that, of every open row that was not compressed. */
  lemma RevertIs(s: Tables, h: Stacks, id: RowId, t: nat)
    requires Revertible(s, h, id, t)
    ensures Revert(s, id, t).Ok? && RevertLeaves(s, id, t, Revert(s, id, t).value)
  {
    var rows' := RevertedRows(s, id, t);
    RevertSucceeds(s, h, id, t);
    RowsRevert(s, h, id, t, rows');
    BackLeaves(s.(rows := rows', now := t), id);
    RevertParts(s, id, t, rows', Revert(s, id, t).value);
  }

  lemma RevertParts(s: Tables, id: RowId, t: nat, rows': map<RowId, Row>, s': Tables)
    requires id in s.rows && RowsReverted(s.rows, rows', id, s.rows[id].superseded, t)
    requires s' == s.(rows := rows', now := t, refs := s'.refs) && RefsReverted(s.(rows := rows', now := t), s', id)
    ensures RevertLeaves(s, id, t, s')
  {
  }

  // ---- Where the references are over every run --------------------------------------------------------------------

  /** Every reference is on an item that is not superseded. */
  ghost predicate RefsCurrent(s: Tables) {
    forall r :: r in s.refs ==> OpenRows(s, s.refs[r]) == {}
  }

  /** What is ledgered under a row moved as the row says. */
  ghost predicate LedgerOk(s: Tables) {
    forall id, r :: EntryOf(s.ledger, id, r).Some? ==>
      id in s.rows && EntryOf(s.ledger, id, r) == Some(Move(s.rows[id].superseded, s.rows[id].survivor))
  }

  ghost predicate Placed(s: Tables) {
    var holds := RefsCurrent(s) && LedgerOk(s);
    holds
  }

  /** No transaction of the run writes a reference onto an item superseded at the time. */
  ghost predicate WritesCurrent(w: World, es: seq<Event>) {
    forall i :: 0 <= i < |es| && es[i].tx.WriteRef? && es[i].tx.item.Some? ==> OpenRows(Run(w, es[..i]).s, es[i].tx.item.value) == {}
  }

  lemma MergeKeepsCurrent(s: Tables, h: Stacks, existing: Option<RowId>, x: ItemId, d: ItemId, cause: Cause, decision: nat, t: nat, s': Tables, id: RowId)
    requires Inv(s, h) && RefsCurrent(s) && CheckPair(s, x, d) == Ok(existing) && MergeLeaves(s, existing, x, d, cause, decision, t, s', id)
    ensures RefsCurrent(s')
  {
    PairIs(s, h, x, d, existing);
    MergedOnto(s, h, existing, x, d, cause, decision, t, s', id);
    forall r | r in s'.refs ensures OpenRows(s', s'.refs[r]) == {} {
      var i := s'.refs[r];
      if i != d && existing.None? {
        forall q | q in OpenRows(s', i) ensures false { OpenAfter(s, x, d, cause, decision, t, s', q); }
      }
    }
  }

  lemma MergeKeepsLedger(s: Tables, h: Stacks, existing: Option<RowId>, x: ItemId, d: ItemId, cause: Cause, decision: nat, t: nat, s': Tables, id: RowId)
    requires Inv(s, h) && LedgerOk(s) && CheckPair(s, x, d) == Ok(existing) && MergeLeaves(s, existing, x, d, cause, decision, t, s', id)
    ensures LedgerOk(s')
  {
    PairIs(s, h, x, d, existing);
    forall i, r | EntryOf(s'.ledger, i, r).Some?
      ensures i in s'.rows && EntryOf(s'.ledger, i, r) == Some(Move(s'.rows[i].superseded, s'.rows[i].survivor))
    {
      if EntryOf(s.ledger, i, r).Some? {
        assert EntryOf(s'.ledger, i, r) == EntryOf(s.ledger, i, r);
        if existing.None? { KeepsMerge(s.rows, s'.rows, x, d, cause, decision, t, i); }
      } else {
        assert i == id;
        if existing.Some? { assert id in OpenRows(s, x); }
      }
    }
  }

  lemma KeepsMerge(rows: map<RowId, Row>, rows': map<RowId, Row>, x: ItemId, d: ItemId, cause: Cause, decision: nat, t: nat, r: RowId)
    requires RowsOpened(rows, rows', x, d, cause, decision, t) && r in rows
    ensures r in rows' && rows'[r].superseded == rows[r].superseded && rows'[r].survivor == rows[r].survivor
  {
    if OpenInto(rows[r], x) { assert Rerouted(rows', r, rows[r], x, d, t); }
  }

  /** A revert opens rows only for items that had one, and none for the item it frees. */
  lemma OpenAfterRevert(s: Tables, h: Stacks, id: RowId, t: nat, s': Tables, r: RowId)
    requires Revertible(s, h, id, t) && RevertLeaves(s, id, t, s') && r in s'.rows && s'.rows[r].until.None?
    ensures OpenRows(s, s'.rows[r].superseded) != {} && s'.rows[r].superseded != s.rows[id].superseded
  {
    var a, x := s.rows[r].superseded, s.rows[id].superseded;
    OpenRowsAre(s, h, x);
    assert id in OpenRows(s, x);
    if s.rows[r].until.None? {
      assert r in OpenRows(s, a);
    } else {
      var c :| c in s.rows && Compressed(s.rows, id, c) && Replaced(s.rows, x, r, c);
      assert c in OpenRows(s, a);
    }
  }

  lemma RevertKeepsCurrent(s: Tables, h: Stacks, id: RowId, t: nat, s': Tables)
    requires Revertible(s, h, id, t) && RevertLeaves(s, id, t, s') && Placed(s)
    ensures RefsCurrent(s')
  {
    forall r | r in s'.refs ensures OpenRows(s', s'.refs[r]) == {} {
      assert s'.refs[r] == s.refs[r] || s'.refs[r] == s.rows[id].superseded;
      forall q | q in s'.rows && s'.rows[q].until.None? ensures s'.rows[q].superseded != s'.refs[r] {
        OpenAfterRevert(s, h, id, t, s', q);
      }
    }
  }

  lemma RevertKeepsLedger(s: Tables, id: RowId, t: nat, s': Tables)
    requires LedgerOk(s) && RevertLeaves(s, id, t, s')
    ensures LedgerOk(s')
  {
  }

  lemma MergePlaced(s: Tables, h: Stacks, x: ItemId, d: ItemId, cause: Cause, decision: nat, t: nat)
    requires Inv(s, h) && Placed(s) && t > s.now && Merge(s, x, d, cause, decision, t).Ok?
    ensures Placed(Merge(s, x, d, cause, decision, t).value.0)
  {
    var existing := CheckPair(s, x, d).value;
    var (s', id) := Merge(s, x, d, cause, decision, t).value;
    MergeIs(s, h, existing, x, d, cause, decision, t);
    MergeKeepsCurrent(s, h, existing, x, d, cause, decision, t, s', id);
    MergeKeepsLedger(s, h, existing, x, d, cause, decision, t, s', id);
  }

  lemma RevertPlaced(s: Tables, h: Stacks, id: RowId, t: nat)
    requires Inv(s, h) && Placed(s) && t > s.now && Revert(s, id, t).Ok?
    ensures Placed(Revert(s, id, t).value)
  {
    RevertIs(s, h, id, t);
    RevertKeepsCurrent(s, h, id, t, Revert(s, id, t).value);
    RevertKeepsLedger(s, id, t, Revert(s, id, t).value);
  }

  lemma ClockPlaced(s: Tables, s': Tables)
    requires Placed(s) && s'.rows == s.rows && s'.ledger == s.ledger
    requires forall r :: r in s'.refs ==> (r in s.refs && s'.refs[r] == s.refs[r]) || OpenRows(s, s'.refs[r]) == {}
    ensures Placed(s')
  {
    forall i ensures OpenRows(s', i) == OpenRows(s, i) { }
  }

  lemma AfterMergePlaced(w: World, h: Stacks, x: ItemId, d: ItemId, cause: Cause, decision: nat, t: nat, w': World)
    requires Good(w, h) && Placed(w.s) && t > w.s.now && w' == AfterMerge(w, x, d, t, Merge(w.s, x, d, cause, decision, t))
    ensures Placed(w'.s)
  {
    if Merge(w.s, x, d, cause, decision, t).Ok? { MergePlaced(w.s, h, x, d, cause, decision, t); } else { ClockPlaced(w.s, w'.s); }
  }

  lemma AfterRevertPlaced(w: World, h: Stacks, id: RowId, t: nat, w': World)
    requires Good(w, h) && Placed(w.s) && t > w.s.now && w' == AfterRevert(w, id, t, Revert(w.s, id, t))
    ensures Placed(w'.s)
  {
    if Revert(w.s, id, t).Ok? { RevertPlaced(w.s, h, id, t); } else { ClockPlaced(w.s, w'.s); }
  }

  lemma OtherPlaced(w: World, e: Event, w': World)
    requires Placed(w.s) && !e.tx.MergeItems? && !e.tx.RevertMerge? && w' == Step(w, e)
    requires e.tx.WriteRef? && e.tx.item.Some? ==> OpenRows(w.s, e.tx.item.value) == {}
    ensures Placed(w'.s)
  {
    ClockPlaced(w.s, w'.s);
  }

  lemma StepPlaced(w: World, h: Stacks, e: Event, w': World)
    requires Good(w, h) && Placed(w.s) && w' == Step(w, e)
    requires e.tx.WriteRef? && e.tx.item.Some? ==> OpenRows(w.s, e.tx.item.value) == {}
    ensures Placed(w'.s)
  {
    var t := w.s.now + 1 + e.gap;
    match e.tx {
      case MergeItems(x, d, cause, decision) => AfterMergePlaced(w, h, x, d, cause, decision, t, w');
      case RevertMerge(id) => AfterRevertPlaced(w, h, id, t, w');
      case _ => OtherPlaced(w, e, w');
    }
  }

  lemma {:induction false} RunPlaced(w: World, es: seq<Event>)
    requires Initial(w) && WritesCurrent(w, es)
    ensures Placed(Run(w, es).s)
  {
    if es == [] {
      assert forall i :: OpenRows(w.s, i) == {};
    } else {
      var init := es[..|es| - 1];
      assert forall i :: 0 <= i < |init| ==> init[i] == es[i] && init[..i] == es[..i];
      RunPlaced(w, init);
      RunKeepsGood(w, init);
      StepPlaced(Run(w, init), RunStacks(w, init), es[|es| - 1], Run(w, es));
    }
  }

  /** Over every run of merges, reverts and writes in which references are only ever written
      onto current items, no reference is on a superseded one. */
  lemma EveryRefIsCurrent(w: World, es: seq<Event>)
    requires Initial(w) && WritesCurrent(w, es)
    ensures RefsCurrent(Run(w, es).s)
  {
    RunPlaced(w, es);
  }

  /** `x` was merged into `d`. */
  ghost predicate MergeMoved(s: Tables, s': Tables, x: ItemId, d: ItemId) {
    RefsMoved(s.refs, s'.refs, x, d) && exists id :: MovedOnto(s', x, d, id)
  }

  lemma MergeMoves(w: World, h: Stacks, x: ItemId, d: ItemId, cause: Cause, decision: nat, t: nat, w': World)
    requires Good(w, h) && t > w.s.now && w' == AfterMerge(w, x, d, t, Merge(w.s, x, d, cause, decision, t)) && CheckPair(w.s, x, d).Ok?
    ensures MergeMoved(w.s, w'.s, x, d)
  {
    var existing := CheckPair(w.s, x, d).value;
    var (s', id) := MergeInto(w.s, existing, x, d, cause, decision, t);
    MergeIs(w.s, h, existing, x, d, cause, decision, t);
    MergedOnto(w.s, h, existing, x, d, cause, decision, t, s', id);
  }

  /** After every merge of a run that the checks let through, whatever was written before it:
      every reference of the superseded item is on the survivor and every other where it was,
      nothing resolves to the superseded item, and it resolves to the survivor. */
  lemma EveryMergeMoves(w: World, es: seq<Event>, e: Event)
    requires Initial(w) && e.tx.MergeItems? && CheckPair(Run(w, es).s, e.tx.x, e.tx.d).Ok?
    ensures MergeMoved(Run(w, es).s, Step(Run(w, es), e).s, e.tx.x, e.tx.d)
  {
    RunKeepsGood(w, es);
    MergeStepMoves(Run(w, es), RunStacks(w, es), e, Step(Run(w, es), e));
  }

  lemma MergeStepMoves(w: World, h: Stacks, e: Event, w': World)
    requires Good(w, h) && e.tx.MergeItems? && CheckPair(w.s, e.tx.x, e.tx.d).Ok? && w' == Step(w, e)
    ensures MergeMoved(w.s, w'.s, e.tx.x, e.tx.d)
  {
    StepIsMerge(w, e, w');
    var t: nat :| StepAt(w, e, t, w');
    MergeMoves(w, h, e.tx.x, e.tx.d, e.tx.cause, e.tx.decision, t, w');
  }

  ghost predicate StepAt(w: World, e: Event, t: nat, w': World) {
    e.tx.MergeItems? && t > w.s.now && w' == AfterMerge(w, e.tx.x, e.tx.d, t, Merge(w.s, e.tx.x, e.tx.d, e.tx.cause, e.tx.decision, t))
  }

  lemma StepIsMerge(w: World, e: Event, w': World)
    requires e.tx.MergeItems? && w' == Step(w, e)
    ensures exists t :: StepAt(w, e, t, w')
  {
    var t := w.s.now + 1 + e.gap;
    match e.tx {
      case MergeItems(x, d, cause, decision) => assert StepAt(w, e, t, w');
    }
  }
}
