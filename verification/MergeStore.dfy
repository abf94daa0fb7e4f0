/** The tables updated in place, statement by statement (api/catalog_merge.py). */
module MergeStore {
  import opened Seqs
  import opened CatalogMerge
  import opened MergeForest
  import opened MergeRevert
  import opened MergeRuns
  import opened MergeMeaning

  class Store {
    var kinds: map<ItemId, Kind>
    var rows: map<RowId, Row>
    var refs: map<Ref, ItemId>
    var ledger: map<RowId, map<Ref, Move>>
    var clock: nat

    ghost function View(): Tables
      reads this
    {
      Tables(kinds, rows, refs, ledger, clock)
    }

    ghost predicate Valid()
      reads this
    {
      Stacked(View())
    }

    constructor ()
      ensures Valid() && rows == map[] && refs == map[] && ledger == map[] && kinds == map[]
    {
      kinds, rows, refs, ledger, clock := map[], map[], map[], map[], 0;
      new;
      assert Inv(View(), map[]);
    }

    /** Both rows are read, in id order, before the kinds are compared. */
    method LockPair(x: ItemId, d: ItemId) returns (r: Result<Kind>)
      ensures r == LockItems(View(), x, d)
    {
      if x == d { return Err(SelfMerge); }
      var order := if x < d then [x, d] else [d, x];
      for i := 0 to 2
        invariant forall j :: 0 <= j < i ==> order[j] in kinds
      {
        if order[i] !in kinds { return Err(NoItem); }
      }
      assert order[0] in kinds && order[1] in kinds;
      r := if kinds[x] != kinds[d] then Err(KindsDiffer) else Ok(kinds[x]);
    }

    method OpenRowOf(x: ItemId, d: ItemId) returns (r: Result<Option<RowId>>)
      requires Valid()
      ensures r == CurrentSupersession(View(), x, d)
    {
      ghost var h :| Inv(View(), h);
      OpenRowsAre(View(), h, x);
      OpenRowsAre(View(), h, d);
      var ofSurvivor := set r | r in rows && rows[r].superseded == d && rows[r].until.None?;
      var ofSuperseded := set r | r in rows && rows[r].superseded == x && rows[r].until.None?;
      assert ofSurvivor == OpenRows(View(), d) && ofSuperseded == OpenRows(View(), x);
      if ofSurvivor != {} { return Err(SurvivorSuperseded); }
      if ofSuperseded == {} { return Ok(None); }
      var id :| id in ofSuperseded;
      r := if rows[id].survivor != d then Err(AlreadySuperseded) else Ok(Some(id));
    }

    /** Insert the row, close what `x` survives, and open a row to `d` for each closed one. */
    method OpenAndCompress(x: ItemId, d: ItemId, cause: Cause, decision: nat, t: nat)
      requires Valid()
      modifies this`rows
      ensures rows == OpenedRows(old(View()), x, d, cause, decision, t)
    {
      ghost var s := View();
      var id := RowId(t, x);
      var survived := Survived(rows, x);
      rows := rows[id := Row(x, d, cause, decision, t, None, None)];
      rows := CloseSurvived(rows, x, t);
      ghost var spec := OpenCompressed(s, x, d, RowId(t, x), t);
      SurvivedCompress(s, x, d, t);
      var compressed := Compress(survived, d, t, id, spec);
      rows := rows + compressed;
    }

    /** Re-point the references of one table to `x`, ledgering each once under `id`. */
    method RepointTable(table: Table, x: ItemId, d: ItemId, id: RowId)
      modifies this`refs, this`ledger
      ensures refs == RepointedIn(old(refs), table, x, d)
      ensures ledger == old(ledger)[id := MovedIn(old(refs), table, x, d) + if id in old(ledger) then old(ledger)[id] else map[]]
    {
      var moved := map r | r in refs && r.table == table && refs[r] == x :: Move(x, d);
      refs := RepointedIn(refs, table, x, d);
      ledger := ledger[id := moved + if id in ledger then ledger[id] else map[]];
    }

    /** Every reference to `x` goes to `d`, ledgered once under `id`; no other moves. */
    method RepointAll(x: ItemId, d: ItemId, id: RowId)
      modifies this`refs, this`ledger
      ensures refs == RepointedRefs(old(refs), x, d)
      ensures ledger == Ledgered(old(ledger), old(refs), x, d, id)
      ensures RefsMoved(old(refs), refs, x, d) && MovesLedgered(old(View()), View(), x, d, id)
    {
      LedgeredBoth(ledger, refs, x, d, id);
      RepointLeaves(View(), x, d, id);
      RepointTable(Artifacts, x, d, id);
      RepointTable(OwnedCopies, x, d, id);
    }

    method AddToRow(id: RowId, x: ItemId, d: ItemId, cause: Cause, decision: nat)
      requires Valid() && CheckPair(View(), x, d) == Ok(Some(id))
      modifies this`refs, this`ledger, this`clock
      ensures Valid() && MergeDone(old(View()), Some(id), x, d, cause, decision, old(clock) + 1, View(), id)
    {
      RepointAll(x, d, id);
      clock := clock + 1;
      ReportAdded(old(View()), x, d, cause, decision, old(clock) + 1, View(), id);
    }

    method OpenAndMove(x: ItemId, d: ItemId, cause: Cause, decision: nat) returns (id: RowId)
      requires Valid()
      modifies this`rows, this`refs, this`ledger, this`clock
      ensures rows == OpenedRows(old(View()), x, d, cause, decision, old(clock) + 1) && clock == old(clock) + 1 && id == RowId(clock, x)
      ensures refs == RepointedRefs(old(refs), x, d) && ledger == Ledgered(old(ledger), old(refs), x, d, id)
    {
      OpenAndCompress(x, d, cause, decision, clock + 1);
      clock := clock + 1;
      id := RowId(clock, x);
      RepointAll(x, d, id);
    }

    /** `merge_items`, after the checks. */
    method MergeItems(existing: Option<RowId>, x: ItemId, d: ItemId, cause: Cause, decision: nat) returns (id: RowId)
      requires Valid() && CheckPair(View(), x, d) == Ok(existing)
      modifies this`rows, this`refs, this`ledger, this`clock
      ensures Valid() && MergeDone(old(View()), existing, x, d, cause, decision, old(clock) + 1, View(), id)
      ensures MergeLeaves(old(View()), existing, x, d, cause, decision, old(clock) + 1, View(), id) && MovedOnto(View(), x, d, id)
    {
      match existing {
        case Some(row) =>
          id := row;
          AddToRow(id, x, d, cause, decision);
        case None =>
          id := OpenAndMove(x, d, cause, decision);
          ReportOpened(old(View()), rows, x, d, cause, decision, old(clock) + 1, View(), id);
      }
      ReportMerged(old(View()), existing, x, d, cause, decision, old(clock) + 1, View(), id);
    }

    method MayRevert(id: RowId) returns (r: Result<Row>)
      ensures r == CheckRevert(View(), id)
    {
      if id !in rows { return Err(NoRow); }
      var row := rows[id];
      var locked := LockPair(row.superseded, row.survivor);
      if locked.Err? { return Err(locked.conflict); }
      if row.until.Some? { return Err(NotCurrent); }
      if row.via.Some? { return Err(CompressedRow); }
      r := Ok(row);
    }

    /** Close the merge's rows and re-open their predecessors; false if the counts differ. */
    method ReopenChains(id: RowId, x: ItemId, t: nat) returns (matched: bool)
      modifies this`rows
      ensures var closed, compressed := CloseMerge(old(rows), id, t), CompressedBy(old(rows), id);
              var ps := Predecessors(closed, compressed, x);
              matched == (|ps| == |compressed|) && rows == Reopen(closed, ps)
    {
      var compressed := CompressedBy(rows, id);
      rows := CloseMerge(rows, id, t);
      var predecessors := Predecessors(rows, compressed, x);
      rows := Reopen(rows, predecessors);
      matched := |predecessors| == |compressed|;
    }

    method MoveRefsBack(id: RowId)
      modifies this`refs
      ensures refs == MoveBack(old(View()), id).refs
    {
      var moves := if id in ledger then ledger[id] else map[];
      refs := map r | r in refs :: if r in moves && refs[r] == moves[r].to then moves[r].from else refs[r];
    }

    /** `revert_supersession` after its checks. */
    method Unmerge(id: RowId, x: ItemId) returns (matched: bool)
      modifies this`rows, this`refs, this`clock
      ensures Unmerged(old(View()), id, x, old(clock) + 1, matched, View())
    {
      matched := ReopenChains(id, x, clock + 1);
      clock := clock + 1;
      MoveRefsBack(id);
    }

    /** `revert_supersession` in one transaction. A conflict rolls it back; the predecessor
        mismatch is never one. */
    method RevertSupersession(id: RowId) returns (r: Result<Row>)
      requires Valid()
      modifies this`rows, this`refs, this`clock
      ensures Valid() && RevertDone(old(View()), id, old(clock) + 1, r, View())
      ensures RevertMeans(old(View()), id, old(clock) + 1, r, View())
    {
      r := MayRevert(id);
      if r.Err? {
        clock := clock + 1;
        ReportRefused(old(View()), id, old(clock) + 1, r, View());
        return;
      }
      var matched := Unmerge(id, r.value.superseded);
      ReportRevert(old(View()), id, old(clock) + 1, r, matched, View());
    }
  }

  ghost predicate MergeDone(s: Tables, existing: Option<RowId>, x: ItemId, d: ItemId, cause: Cause, decision: nat, t: nat, s': Tables, id: RowId) {
    (s', id) == MergeInto(s, existing, x, d, cause, decision, t)
  }

  ghost predicate RevertDone(s: Tables, id: RowId, t: nat, r: Result<Row>, s': Tables) {
    match Revert(s, id, t)
    case Err(c) => r == Err(c) && c != Mismatch && s' == s.(now := t)
    case Ok(after) => r.Ok? && s' == after
  }

  /** An open row that was not compressed is reverted; of any other nothing changes. */
  ghost predicate RevertMeans(s: Tables, id: RowId, t: nat, r: Result<Row>, s': Tables) {
    var holds :=
      && (r.Ok? <==> id in s.rows && s.rows[id].until.None? && s.rows[id].via.None?)
      && (r.Ok? ==> r.value == s.rows[id] && RevertLeaves(s, id, t, s'))
      && (r.Err? ==> s' == s.(now := t));
    holds
  }

  // ---- Statements ---------------------------------------------------------------------------------------------

  function RepointedIn(refs: map<Ref, ItemId>, table: Table, x: ItemId, d: ItemId): map<Ref, ItemId> {
    map r | r in refs :: if r.table == table && refs[r] == x then d else refs[r]
  }

  function MovedIn(refs: map<Ref, ItemId>, table: Table, x: ItemId, d: ItemId): map<Ref, Move> {
    map r | r in refs && r.table == table && refs[r] == x :: Move(x, d)
  }

  /** One table after the other re-points every reference and ledgers every move. */
  lemma RepointedBoth(refs: map<Ref, ItemId>, x: ItemId, d: ItemId, kept: map<Ref, Move>)
    ensures var first := RepointedIn(refs, Artifacts, x, d);
            && RepointedIn(first, OwnedCopies, x, d) == RepointedRefs(refs, x, d)
            && MovedIn(first, OwnedCopies, x, d) + (MovedIn(refs, Artifacts, x, d) + kept) == MovedRefs(refs, x, d) + kept
  {
  }

  lemma LedgeredBoth(ledger: map<RowId, map<Ref, Move>>, refs: map<Ref, ItemId>, x: ItemId, d: ItemId, id: RowId)
    ensures var kept := if id in ledger then ledger[id] else map[];
            var first := RepointedIn(refs, Artifacts, x, d);
            var half := ledger[id := MovedIn(refs, Artifacts, x, d) + kept];
            && RepointedIn(first, OwnedCopies, x, d) == RepointedRefs(refs, x, d)
            && half[id := MovedIn(first, OwnedCopies, x, d) + half[id]] == Ledgered(ledger, refs, x, d, id)
  {
    RepointedBoth(refs, x, d, if id in ledger then ledger[id] else map[]);
  }

  ghost predicate Written(s: Tables, s': Tables, rows: map<RowId, Row>, x: ItemId, d: ItemId, t: nat, id: RowId) {
    s' == Tables(s.kinds, rows, RepointedRefs(s.refs, x, d), Ledgered(s.ledger, s.refs, x, d, id), t)
  }

  lemma ReportAdded(s: Tables, x: ItemId, d: ItemId, cause: Cause, decision: nat, t: nat, s': Tables, id: RowId)
    requires Stacked(s) && t == s.now + 1 && CheckPair(s, x, d) == Ok(Some(id))
    requires Written(s, s', s.rows, x, d, t, id)
    ensures Stacked(s') && MergeDone(s, Some(id), x, d, cause, decision, t, s', id)
  {
    MergedStacked(s, x, d, cause, decision, t);
  }

  lemma ReportOpened(s: Tables, rows: map<RowId, Row>, x: ItemId, d: ItemId, cause: Cause, decision: nat, t: nat, s': Tables, id: RowId)
    requires Stacked(s) && t == s.now + 1 && CheckPair(s, x, d) == Ok(None) && id == RowId(t, x)
    requires rows == OpenedRows(s, x, d, cause, decision, t) && Written(s, s', rows, x, d, t, id)
    ensures Stacked(s') && MergeDone(s, None, x, d, cause, decision, t, s', id)
  {
    MergedStacked(s, x, d, cause, decision, t);
  }

  lemma ReportMerged(s: Tables, existing: Option<RowId>, x: ItemId, d: ItemId, cause: Cause, decision: nat, t: nat, s': Tables, id: RowId)
    requires Stacked(s) && t == s.now + 1 && CheckPair(s, x, d) == Ok(existing) && MergeDone(s, existing, x, d, cause, decision, t, s', id)
    ensures MergeLeaves(s, existing, x, d, cause, decision, t, s', id) && MovedOnto(s', x, d, id)
  {
    var h :| Inv(s, h);
    MergeIs(s, h, existing, x, d, cause, decision, t);
    MergedOnto(s, h, existing, x, d, cause, decision, t, s', id);
  }

  lemma ReportOpen(s: Tables, id: RowId, r: Result<Row>)
    requires Stacked(s) && r == CheckRevert(s, id)
    ensures r.Ok? <==> id in s.rows && s.rows[id].until.None? && s.rows[id].via.None?
    ensures r.Ok? ==> r.value == s.rows[id]
  {
    var h :| Inv(s, h);
    if id in s.rows { assert RowOk(s, id); }
  }

  lemma ReportRefused(s: Tables, id: RowId, t: nat, r: Result<Row>, s': Tables)
    requires Stacked(s) && t == s.now + 1 && r == CheckRevert(s, id) && r.Err? && s' == s.(now := t)
    ensures Stacked(s') && RevertDone(s, id, t, r, s') && RevertMeans(s, id, t, r, s')
  {
    var h :| Inv(s, h);
    ReportOpen(s, id, r);
    ElseKeepsInv(s, s.(now := t), h);
  }

  /** What the checks let through reverts, and leaves tables that stacks explain. */
  lemma ReportRevert(s: Tables, id: RowId, t: nat, r: Result<Row>, matched: bool, s': Tables)
    requires Stacked(s) && t == s.now + 1 && r == CheckRevert(s, id) && r.Ok?
    requires Unmerged(s, id, r.value.superseded, t, matched, s')
    ensures Stacked(s') && RevertDone(s, id, t, r, s') && RevertMeans(s, id, t, r, s')
  {
    var h :| Inv(s, h);
    ReportOpen(s, id, r);
    RevertKeepsInv(s, h, id, t);
    RevertIs(s, h, id, t);
  }

  ghost predicate Unmerged(s: Tables, id: RowId, x: ItemId, t: nat, matched: bool, s': Tables) {
    var closed, compressed := CloseMerge(s.rows, id, t), CompressedBy(s.rows, id);
    var ps := Predecessors(closed, compressed, x);
    matched == (|ps| == |compressed|) && s' == MoveBack(s.(rows := Reopen(closed, ps), now := t), id)
  }

  function Survived(rows: map<RowId, Row>, x: ItemId): set<Row> {
    set r | r in rows && rows[r].survivor == x && rows[r].until.None? :: rows[r]
  }

  function CompressedRow(row: Row, d: ItemId, t: nat, id: RowId): Row {
    Row(row.superseded, d, row.cause, row.decision, t, None, Some(id))
  }

  /** `spec` holds exactly one compressed row per survived row. */
  ghost predicate CompressesAll(spec: map<RowId, Row>, survived: set<Row>, d: ItemId, t: nat, id: RowId) {
    && (forall row :: row in survived ==> RowId(t, row.superseded) in spec && spec[RowId(t, row.superseded)] == CompressedRow(row, d, t, id))
    && (forall k :: k in spec ==> exists row :: row in survived && RowId(t, row.superseded) == k)
  }

  method Compress(survived: set<Row>, d: ItemId, t: nat, id: RowId, ghost spec: map<RowId, Row>) returns (compressed: map<RowId, Row>)
    requires CompressesAll(spec, survived, d, t, id)
    ensures compressed == spec
  {
    var pending := survived;
    compressed := map[];
    while pending != {}
      invariant pending <= survived
      invariant forall k :: k in compressed ==> k in spec && compressed[k] == spec[k]
      invariant forall row :: row in survived && row !in pending ==> RowId(t, row.superseded) in compressed
      decreases pending
    {
      var row :| row in pending;
      compressed := compressed[RowId(t, row.superseded) := CompressedRow(row, d, t, id)];
      pending := pending - {row};
    }
    assert compressed.Keys == spec.Keys;
  }

  /** The one open row of a survived item says what its compressed row says. */
  lemma CompressedRowIs(s: Tables, x: ItemId, d: ItemId, t: nat, row: Row)
    requires Stacked(s) && row in Survived(s.rows, x)
    ensures CompressedAs(OpenCompressed(s, x, d, RowId(t, x), t), row, d, t, RowId(t, x))
  {
    var h :| Inv(s, h);
    var r := SurvivedRow(s.rows, x, row);
    CompressedKeeps(s, h, x, d, RowId(t, x), t, r);
  }

  lemma SurvivedRow(rows: map<RowId, Row>, x: ItemId, row: Row) returns (r: RowId)
    requires row in Survived(rows, x)
    ensures r in rows && rows[r] == row && OpenInto(row, x)
  {
    r :| r in rows && rows[r] == row && OpenInto(row, x);
  }

  lemma SurvivedCovers(s: Tables, x: ItemId, d: ItemId, t: nat, k: RowId)
    requires k in OpenCompressed(s, x, d, RowId(t, x), t)
    ensures exists row :: row in Survived(s.rows, x) && RowId(t, row.superseded) == k
  {
  }

  lemma SurvivedCompress(s: Tables, x: ItemId, d: ItemId, t: nat)
    requires Stacked(s)
    ensures CompressesAll(OpenCompressed(s, x, d, RowId(t, x), t), Survived(s.rows, x), d, t, RowId(t, x))
  {
    var spec, survived, id := OpenCompressed(s, x, d, RowId(t, x), t), Survived(s.rows, x), RowId(t, x);
    forall row | row in survived
      ensures RowId(t, row.superseded) in spec && spec[RowId(t, row.superseded)] == CompressedRow(row, d, t, id)
    {
      CompressedRowIs(s, x, d, t, row);
    }
    forall k | k in spec ensures exists row :: row in survived && RowId(t, row.superseded) == k { SurvivedCovers(s, x, d, t, k); }
  }
}
