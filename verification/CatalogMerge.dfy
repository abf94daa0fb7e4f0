/** The native-id merge of catalog items over temporal supersession rows
    (api/catalog_merge.py). Each transaction commits or rolls back whole. */
module CatalogMerge {
  import opened Seqs

  type ItemId = nat
  type Kind = string

  datatype Cause = EditionPromotion | CatalogReattachment

  /** A supersession row's id. One transaction opens at most one row per superseded item,
      so the two name it. */
  datatype RowId = RowId(at: nat, item: ItemId)

  datatype Row = Row(
    superseded: ItemId, survivor: ItemId, cause: Cause, decision: nat,
    from: nat, until: Option<nat>, via: Option<RowId>)

  /** The asserted references a merge re-points. */
  datatype Table = Artifacts | OwnedCopies
  datatype Ref = Ref(table: Table, id: nat)
  datatype Move = Move(from: ItemId, to: ItemId)

  datatype Tables = Tables(
    kinds: map<ItemId, Kind>,
    rows: map<RowId, Row>,
    refs: map<Ref, ItemId>,
    ledger: map<RowId, map<Ref, Move>>,
    now: nat)

  datatype Conflict =
    | SelfMerge | NoItem | KindsDiffer | SurvivorSuperseded | AlreadySuperseded
    | NoRow | NotCurrent | CompressedRow | Mismatch

  datatype Result<T> = Ok(value: T) | Err(conflict: Conflict)

  // ---- The statements --------------------------------------------------------------------------------

  /** `lock_items`. */
  function LockItems(s: Tables, x: ItemId, d: ItemId): Result<Kind> {
    if x == d then Err(SelfMerge)
    else if x !in s.kinds || d !in s.kinds then Err(NoItem)
    else if s.kinds[x] != s.kinds[d] then Err(KindsDiffer)
    else Ok(s.kinds[x])
  }

  function OpenRows(s: Tables, i: ItemId): set<RowId> {
    set r | r in s.rows && s.rows[r].superseded == i && s.rows[r].until.None?
  }

  /** `current_supersession`: an already open row for the pair, if any. */
  ghost function CurrentSupersession(s: Tables, x: ItemId, d: ItemId): Result<Option<RowId>> {
    if OpenRows(s, d) != {} then Err(SurvivorSuperseded)
    else if OpenRows(s, x) == {} then Ok(None)
    else
      var r :| r in OpenRows(s, x);
      if s.rows[r].survivor != d then Err(AlreadySuperseded) else Ok(Some(r))
  }

  /** The items whose open row names `x` as survivor. */
  function SurvivedItems(s: Tables, x: ItemId): set<ItemId> {
    set r | r in s.rows && s.rows[r].survivor == x && s.rows[r].until.None? :: s.rows[r].superseded
  }

  /** `_CLOSE_SURVIVED`. */
  function CloseSurvived(rows: map<RowId, Row>, x: ItemId, t: nat): map<RowId, Row> {
    map r | r in rows :: if rows[r].survivor == x && rows[r].until.None? then rows[r].(until := Some(t)) else rows[r]
  }

  /** `_OPEN_COMPRESSED`: each closed row's item now resolves to `d` through the row `id`. */
  ghost function OpenCompressed(s: Tables, x: ItemId, d: ItemId, id: RowId, t: nat): map<RowId, Row> {
    map k | k in (set a | a in SurvivedItems(s, x) :: RowId(t, a)) ::
      var a := k.item;
      var r :| r in s.rows && s.rows[r].survivor == x && s.rows[r].until.None? && s.rows[r].superseded == a;
      Row(a, d, s.rows[r].cause, s.rows[r].decision, t, None, Some(id))
  }

  ghost function OpenedRows(s: Tables, x: ItemId, d: ItemId, cause: Cause, decision: nat, t: nat): map<RowId, Row> {
    CloseSurvived(s.rows[RowId(t, x) := Row(x, d, cause, decision, t, None, None)], x, t)
    + OpenCompressed(s, x, d, RowId(t, x), t)
  }

  /** Step 5: open the row and compress the chains that end at the superseded item. */
  ghost function OpenRow(s: Tables, x: ItemId, d: ItemId, cause: Cause, decision: nat, t: nat): Tables {
    s.(rows := OpenedRows(s, x, d, cause, decision, t), now := t)
  }

  /** What the ledger holds under a row. */
  function Moves(s: Tables, id: RowId): map<Ref, Move> {
    if id in s.ledger then s.ledger[id] else map[]
  }

  function RepointedRefs(refs: map<Ref, ItemId>, x: ItemId, d: ItemId): map<Ref, ItemId> {
    map r | r in refs :: if refs[r] == x then d else refs[r]
  }

  function MovedRefs(refs: map<Ref, ItemId>, x: ItemId, d: ItemId): map<Ref, Move> {
    map r | r in refs && refs[r] == x :: Move(x, d)
  }

  /** A row's first entry for a reference stays. */
  function Ledgered(ledger: map<RowId, map<Ref, Move>>, refs: map<Ref, ItemId>, x: ItemId, d: ItemId, id: RowId): map<RowId, map<Ref, Move>> {
    ledger[id := MovedRefs(refs, x, d) + if id in ledger then ledger[id] else map[]]
  }

  /** `_REPOINT`: re-point every reference to `x` and ledger each move once per row. */
  function Repoint(s: Tables, x: ItemId, d: ItemId, id: RowId): Tables {
    s.(refs := RepointedRefs(s.refs, x, d), ledger := Ledgered(s.ledger, s.refs, x, d, id))
  }

  /** The checks of step 4: a conflict, or the row that is already open for the pair. */
  ghost function CheckPair(s: Tables, x: ItemId, d: ItemId): Result<Option<RowId>> {
    match LockItems(s, x, d)
    case Err(c) => Err(c)
    case Ok(_) => CurrentSupersession(s, x, d)
  }

  /** `merge_items`: steps 5 and 6. */
  ghost function MergeInto(s: Tables, existing: Option<RowId>, x: ItemId, d: ItemId, cause: Cause, decision: nat, t: nat): (Tables, RowId) {
    match existing
    case Some(id) => (Repoint(s, x, d, id).(now := t), id)
    case None => (Repoint(OpenRow(s, x, d, cause, decision, t), x, d, RowId(t, x)), RowId(t, x))
  }

  /** The checks and the merge in one transaction at time `t`. */
  ghost function Merge(s: Tables, x: ItemId, d: ItemId, cause: Cause, decision: nat, t: nat): Result<(Tables, RowId)> {
    match CheckPair(s, x, d)
    case Err(c) => Err(c)
    case Ok(existing) => Ok(MergeInto(s, existing, x, d, cause, decision, t))
  }

  /** The open rows a merge compressed. */
  function CompressedBy(rows: map<RowId, Row>, id: RowId): set<RowId> {
    set r | r in rows && rows[r].via == Some(id) && rows[r].until.None?
  }

  /** `_CLOSE` and `_CLOSE_COMPRESSED`. */
  function CloseMerge(rows: map<RowId, Row>, id: RowId, t: nat): map<RowId, Row> {
    map r | r in rows ::
      if r == id || (rows[r].via == Some(id) && rows[r].until.None?) then rows[r].(until := Some(t)) else rows[r]
  }

  /** `_REOPEN_PREDECESSORS` selects: a row of a compressed row's item, into the reverted
      item, closed the instant that compressed row opened. */
  predicate Precedes(rows: map<RowId, Row>, x: ItemId, p: RowId, c: RowId)
    requires p in rows && c in rows
  {
    rows[p].superseded == rows[c].superseded && rows[p].survivor == x && rows[p].until == Some(rows[c].from)
  }

  function Predecessors(rows: map<RowId, Row>, compressed: set<RowId>, x: ItemId): set<RowId> {
    set p | p in rows && exists c :: c in compressed && c in rows && Precedes(rows, x, p, c)
  }

  function Reopen(rows: map<RowId, Row>, ps: set<RowId>): map<RowId, Row> {
    map r | r in rows :: if r in ps then rows[r].(until := None) else rows[r]
  }

  /** `_MOVE_BACK`: only ledgered references that still point at the survivor. */
  function MoveBack(s: Tables, id: RowId): Tables {
    s.(refs := map r | r in s.refs ::
         if r in Moves(s, id) && s.refs[r] == Moves(s, id)[r].to then Moves(s, id)[r].from else s.refs[r])
  }

  /** Only an open row that was not compressed can be reverted. */
  function CheckRevert(s: Tables, id: RowId): Result<Row> {
    if id !in s.rows then Err(NoRow)
    else
      match LockItems(s, s.rows[id].superseded, s.rows[id].survivor)
      case Err(c) => Err(c)
      case Ok(_) =>
        if s.rows[id].until.Some? then Err(NotCurrent)
        else if s.rows[id].via.Some? then Err(CompressedRow)
        else Ok(s.rows[id])
  }

  /** `revert_supersession` in one transaction at time `t`. */
  function Revert(s: Tables, id: RowId, t: nat): Result<Tables> {
    match CheckRevert(s, id)
    case Err(c) => Err(c)
    case Ok(row) =>
      var compressed := CompressedBy(s.rows, id);
      var closed := CloseMerge(s.rows, id, t);
      var ps := Predecessors(closed, compressed, row.superseded);
      if |ps| != |compressed| then Err(Mismatch)
      else Ok(MoveBack(s.(rows := Reopen(closed, ps), now := t), id))
  }

  // ---- The invariant -----------------------------------------------------------------------------------

  /** The live rows of each currently superseded item, oldest first: its direct merge, then
      one compressed row for each later merge further along its chain. */
  type Stacks = map<ItemId, seq<RowId>>

  function Top(stack: seq<RowId>): RowId
    requires stack != []
  {
    stack[|stack| - 1]
  }

  /** A stack holds rows of its item, each closed the instant the next opened, the last open. */
  ghost predicate Chained(rows: map<RowId, Row>, a: ItemId, stack: seq<RowId>) {
    && stack != []
    && (forall i :: 0 <= i < |stack| ==> stack[i] in rows && rows[stack[i]].superseded == a)
    && (forall i :: 0 <= i < |stack| - 1 ==> rows[stack[i]].until == Some(rows[stack[i + 1]].from))
    && (forall i :: 0 <= i < |stack| - 1 ==> rows[stack[i]].from < rows[stack[i + 1]].from)
    && rows[Top(stack)].until.None?
    && rows[stack[0]].via.None?
  }

  /** The `i`th row of a stack compresses the one before it: that row's survivor was itself
      merged, directly, into this row's survivor, in the transaction that opened this row. */
  ghost predicate Compresses(rows: map<RowId, Row>, h: Stacks, stack: seq<RowId>, i: nat)
    requires 0 < i < |stack| && forall j :: 0 <= j < |stack| ==> stack[j] in rows
  {
    var b := rows[stack[i - 1]].survivor;
    && b in h && h[b] != [] && h[b][0] in rows
    && rows[stack[i]].via == Some(h[b][0])
    && rows[h[b][0]].survivor == rows[stack[i]].survivor
    && rows[h[b][0]].from == rows[stack[i]].from
  }

  ghost predicate StackOk(rows: map<RowId, Row>, h: Stacks, a: ItemId, stack: seq<RowId>) {
    && Chained(rows, a, stack)
    && (forall i :: 0 < i < |stack| ==> Compresses(rows, h, stack, i))
    && rows[Top(stack)].survivor !in h
  }

  /** A row is well formed: two items of one kind, and times in the past. */
  ghost predicate RowOk(s: Tables, r: RowId)
    requires r in s.rows
  {
    var row := s.rows[r];
    && row.superseded != row.survivor && r == RowId(row.from, row.superseded)
    && row.superseded in s.kinds && row.survivor in s.kinds && s.kinds[row.superseded] == s.kinds[row.survivor]
    && row.from <= s.now && (row.until.Some? ==> row.until.value <= s.now)
  }

  /** No two rows of one item closed at the same instant. */
  ghost predicate ClosedApart(rows: map<RowId, Row>) {
    forall p, q ::
      (p in rows && q in rows && rows[p].superseded == rows[q].superseded
       && rows[p].until.Some? && rows[p].until == rows[q].until) ==> p == q
  }

  ghost predicate Inv(s: Tables, h: Stacks) {
    var holds :=
      && (forall r :: r in s.rows ==> RowOk(s, r))
      && (forall a :: a in h ==> StackOk(s.rows, h, a, h[a]))
      && (forall r :: r in s.rows && s.rows[r].until.None? ==> s.rows[r].superseded in h && r == Top(h[s.rows[r].superseded]))
      && ClosedApart(s.rows)
      && (forall id :: id in s.ledger ==> id.at <= s.now);
    holds
  }
}
