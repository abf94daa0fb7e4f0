/** A fresh merge and its revert, alone or well nested, restore every reference and the open
    relation, and leave alone what was written in between (api/catalog_merge.py). */
module MergeNested {
  import opened Seqs
  import opened CatalogMerge
  import opened MergeForest
  import opened MergeRevert
  import opened MergeRuns

  /** A call to merge `x` into `d`. */
  datatype Call = Call(x: ItemId, d: ItemId, cause: Cause, decision: nat)

  /** Well-nested merges and reverts, with references created and moved in between. */
  datatype Program =
    | Skip
    | Then(first: Program, second: Program)
    | Create(r: Ref, item: ItemId)
    | Move(r: Ref, item: ItemId)
    | Bracket(call: Call, body: Program)

  /** How a program ended, with the last value each reference was given by a create or a move. */
  datatype Outcome = Done(s: Tables, writes: map<Ref, ItemId>) | RevertRefused(conflict: Conflict)

  /** How a bracket begins and ends. */
  datatype Merger = Merger(enter: (Tables, Call) -> Option<(Tables, RowId)>, revert: (Tables, RowId) -> Result<Tables>)

  /** The native merge and revert. */
  ghost function Native(): Merger {
    Merger((s: Tables, c: Call) => Enter(s, c), (s: Tables, id: RowId) => Revert(s, id, s.now + 1))
  }

  /** The fresh merge that begins a bracket. A conflict rolls back, and a bracket whose merge
      would add to an open row is not entered. */
  ghost function Enter(s: Tables, c: Call): Option<(Tables, RowId)> {
    var m := Merge(s, c.x, c.d, c.cause, c.decision, s.now + 1);
    if m.Err? || OpenRows(s, c.x) != {} then None else Some(m.value)
  }

  /** Each statement is one transaction. A write that meets a missing item, or a reference
      that exists (to create) or does not (to move), rolls back. */
  ghost function Exec(m: Merger, p: Program, s: Tables): Outcome {
    match p
    case Skip => Done(s, map[])
    case Then(p1, p2) =>
      (match Exec(m, p1, s)
       case RevertRefused(c) => RevertRefused(c)
       case Done(s1, w1) =>
         match Exec(m, p2, s1)
         case RevertRefused(c) => RevertRefused(c)
         case Done(s2, w2) => Done(s2, w1 + w2))
    case Create(r, item) => if r in s.refs || item !in s.kinds then Done(s, map[]) else Write(s, r, item)
    case Move(r, item) => if r !in s.refs || item !in s.kinds then Done(s, map[]) else Write(s, r, item)
    case Bracket(call, body) =>
      match m.enter(s, call)
      case None => Done(s, map[])
      case Some((s1, id)) => End(m, Exec(m, body, s1), id)
  }

  function Write(s: Tables, r: Ref, item: ItemId): Outcome {
    Done(s.(refs := s.refs[r := item], now := s.now + 1), map[r := item])
  }

  /** The revert that ends a bracket. */
  ghost function End(m: Merger, inner: Outcome, id: RowId): Outcome {
    match inner
    case RevertRefused(c) => RevertRefused(c)
    case Done(s, writes) =>
      match m.revert(s, id)
      case Err(c) => RevertRefused(c)
      case Ok(s') => Done(s', writes)
  }

  /** The references that were on `x` and whose last write in between put them on `d`: the
      ledger cannot tell them from ones that never left. */
  function BackOnto(refs: map<Ref, ItemId>, x: ItemId, d: ItemId, writes: map<Ref, ItemId>): set<Ref> {
    set r | r in writes && r in refs && refs[r] == x && writes[r] == d
  }

  /** The references whose last create or move a revert took back and nothing wrote again. */
  ghost function Lost(m: Merger, p: Program, s: Tables): set<Ref> {
    match p
    case Skip => {}
    case Create(_, _) => {}
    case Move(_, _) => {}
    case Then(p1, p2) =>
      (match Exec(m, p1, s)
       case RevertRefused(_) => {}
       case Done(s1, _) => Lasting(Lost(m, p1, s), Exec(m, p2, s1)) + Lost(m, p2, s1))
    case Bracket(call, body) =>
      match m.enter(s, call)
      case None => {}
      case Some((s1, _)) => Lost(m, body, s1) + Taken(s.refs, call, Exec(m, body, s1))
  }

  /** Those a later program did not write again. */
  function Lasting(lost: set<Ref>, later: Outcome): set<Ref> {
    if later.Done? then lost - later.writes.Keys else {}
  }

  function Taken(refs: map<Ref, ItemId>, call: Call, inner: Outcome): set<Ref> {
    if inner.Done? then BackOnto(refs, call.x, call.d, inner.writes) else {}
  }

  // ---- What a program leaves ----------------------------------------------------------------------------------

  /** The rows of every stack are as they were. */
  ghost predicate SameStacks(rows: map<RowId, Row>, rows': map<RowId, Row>, h: Stacks) {
    forall a :: a in h ==> SameStack(rows, rows', h[a])
  }

  ghost predicate SameStack(rows: map<RowId, Row>, rows': map<RowId, Row>, stack: seq<RowId>) {
    forall i :: 0 <= i < |stack| ==> stack[i] in rows && stack[i] in rows' && rows'[stack[i]] == rows[stack[i]]
  }

  /** No entry of a past merge's ledger changed. */
  ghost predicate SameLedger(s: Tables, s': Tables) {
    s.now <= s'.now && forall id: RowId :: id.at <= s.now ==> Moves(s', id) == Moves(s, id)
  }

  ghost predicate Restored(s: Tables, h: Stacks, s': Tables, writes: map<Ref, ItemId>, lost: set<Ref>) {
    var holds :=
      && Inv(s', h) && SameStacks(s.rows, s'.rows, h) && SameLedger(s, s')
      && RefsLeft(s.refs, s'.refs, writes, lost, h.Keys);
    holds
  }

  /** References hold their last write, or what they held before, but for exactly the lost
      ones, which were last put on an item that is not superseded. */
  ghost predicate RefsLeft(refs: map<Ref, ItemId>, refs': map<Ref, ItemId>, writes: map<Ref, ItemId>, lost: set<Ref>, superseded: set<ItemId>) {
    && refs'.Keys == refs.Keys + writes.Keys
    && (forall r :: r in refs' && r !in lost ==> refs'[r] == (refs + writes)[r])
    && (forall r :: r in lost ==> r in writes && refs'[r] != writes[r] && writes[r] !in superseded)
  }

  /** So every last write stands exactly when none is lost. */
  lemma NoneLostIff(refs: map<Ref, ItemId>, refs': map<Ref, ItemId>, writes: map<Ref, ItemId>, lost: set<Ref>, superseded: set<ItemId>)
    requires RefsLeft(refs, refs', writes, lost, superseded)
    ensures refs' == refs + writes <==> lost == {}
  {
    if r :| r in lost { assert refs'[r] != (refs + writes)[r]; }
  }

  lemma RefsCompose(refs: map<Ref, ItemId>, refs1: map<Ref, ItemId>, refs2: map<Ref, ItemId>, w1: map<Ref, ItemId>, w2: map<Ref, ItemId>,
                    lost1: set<Ref>, lost2: set<Ref>, superseded: set<ItemId>)
    requires RefsLeft(refs, refs1, w1, lost1, superseded) && RefsLeft(refs1, refs2, w2, lost2, superseded)
    ensures RefsLeft(refs, refs2, w1 + w2, (lost1 - w2.Keys) + lost2, superseded)
  {
  }

  lemma StacksCompose(r0: map<RowId, Row>, r1: map<RowId, Row>, r2: map<RowId, Row>, h: Stacks)
    requires SameStacks(r0, r1, h) && SameStacks(r1, r2, h)
    ensures SameStacks(r0, r2, h)
  {
    forall a | a in h ensures SameStack(r0, r2, h[a]) {
      assert SameStack(r0, r1, h[a]) && SameStack(r1, r2, h[a]);
    }
  }

  lemma InvStacks(s: Tables, h: Stacks)
    requires Inv(s, h)
    ensures SameStacks(s.rows, s.rows, h)
  {
    forall a | a in h ensures SameStack(s.rows, s.rows, h[a]) {
      assert StackOk(s.rows, h, a, h[a]);
    }
  }

  // ---- A bracket undoes its merge -------------------------------------------------------------------------------

  /** A fresh merge has just left the rows `rows1` and the stacks `h1`. */
  ghost predicate Entered(s: Tables, h: Stacks, rows1: map<RowId, Row>, h1: Stacks, x: ItemId, d: ItemId, t: nat) {
    var holds := Fresh(s, h, x, d, t) && RowsMerged(s.rows, h, rows1, x, d, t) && h1 == MergedStacks(s.rows, h, x, t);
    holds
  }

  /** Reverting the merge takes back exactly the rows it stacked. */
  lemma StackReturns(s: Tables, h: Stacks, rows1: map<RowId, Row>, h1: Stacks, rows2: map<RowId, Row>, x: ItemId, d: ItemId, t: nat, a: ItemId)
    requires Entered(s, h, rows1, h1, x, d, t)
    requires SameStacks(rows1, rows2, h1) && a in h
    ensures a in h1 && Through(rows2, h1, a, RowId(t, x)) == EndsAt(s.rows, h, a, x)
  {
    assert StackOk(s.rows, h, a, h[a]);
    assert SameStack(rows1, rows2, h1[a]);
    NotYet(s, h, RowId(t, x), t);
    if EndsAt(s.rows, h, a, x) {
      assert Top(h1[a]) == RowId(t, a);
      assert NewRow(s.rows, h, rows1[RowId(t, a)], RowId(t, a), x, d, t);
    } else {
      assert h1[a] == h[a] && rows1[Top(h[a])].via == s.rows[Top(h[a])].via;
      if |h[a]| > 1 { assert Compresses(s.rows, h, h[a], |h[a]| - 1); }
    }
  }

  lemma CutReturns(rows: map<RowId, Row>, h: Stacks, rows2: map<RowId, Row>, h1: Stacks, x: ItemId, t: nat)
    requires x !in h && h1 == MergedStacks(rows, h, x, t)
    requires forall a :: a in h ==> Through(rows2, h1, a, RowId(t, x)) == EndsAt(rows, h, a, x)
    ensures RevertedStacks(rows2, h1, RowId(t, x), x) == h
  {
    var h2 := RevertedStacks(rows2, h1, RowId(t, x), x);
    forall a | a in h ensures a in h2 && h2[a] == h[a] {
      if EndsAt(rows, h, a, x) {
        assert (h[a] + [RowId(t, a)])[..|h[a]|] == h[a];
      } else {
        assert h1[a] == h[a];
      }
    }
  }

  lemma StacksReturn(s: Tables, h: Stacks, rows1: map<RowId, Row>, h1: Stacks, rows2: map<RowId, Row>, x: ItemId, d: ItemId, t: nat)
    requires Entered(s, h, rows1, h1, x, d, t)
    requires SameStacks(rows1, rows2, h1)
    ensures RevertedStacks(rows2, h1, RowId(t, x), x) == h
  {
    forall a | a in h ensures Through(rows2, h1, a, RowId(t, x)) == EndsAt(s.rows, h, a, x) {
      StackReturns(s, h, rows1, h1, rows2, x, d, t, a);
    }
    CutReturns(s.rows, h, rows2, h1, x, t);
  }

  /** A merge then a revert leaves each row under the merged stacks as it was. */
  lemma RowsReturn(s: Tables, h: Stacks, s2: Tables, h1: Stacks, rows1: map<RowId, Row>, x: ItemId, d: ItemId, t: nat, t2: nat, a: ItemId)
    requires Entered(s, h, rows1, h1, x, d, t)
    requires Revertible(s2, h1, RowId(t, x), t2) && s2.rows[RowId(t, x)].superseded == x
    requires SameStacks(rows1, s2.rows, h1) && RevertedStacks(s2.rows, h1, RowId(t, x), x) == h && a in h
    ensures SameStack(s.rows, RevertedRows(s2, RowId(t, x), t2), h[a])
  {
    var id := RowId(t, x);
    assert StackOk(s.rows, h, a, h[a]);
    assert SameStack(rows1, s2.rows, h1[a]);
    StackUnder(s.rows, h, rows1, x, d, t, a);
    forall i | 0 <= i < |h[a]|
      ensures h[a][i] in s.rows && h[a][i] in RevertedRows(s2, id, t2) && RevertedRows(s2, id, t2)[h[a][i]] == s.rows[h[a][i]]
    {
      assert h1[a][i] == h[a][i];
      StackAfter(s2, h1, id, t2, a, i);
    }
  }

  /** What the ledger moves back, reference by reference. */
  lemma MovesBackOne(s: Tables, s2: Tables, x: ItemId, d: ItemId, id: RowId, r: Ref)
    requires Moves(s, id) == map[] && Moves(s2, id) == Moves(Repoint(s, x, d, id), id) && r in s2.refs
    ensures r in MoveBack(s2, id).refs
    ensures MoveBack(s2, id).refs[r] == if r in s.refs && s.refs[r] == x && s2.refs[r] == d then x else s2.refs[r]
  {
    assert Moves(s2, id) == MovedRefs(s.refs, x, d) + Moves(s, id);
  }

  /** A bracket whose body's writes all stand: they stand after the revert exactly when none put
      a reference of `x` back onto `d`. */
  lemma BracketRefsIff(s: Tables, s1: Tables, s2: Tables, x: ItemId, d: ItemId, id: RowId, writes: map<Ref, ItemId>)
    requires Moves(s, id) == map[] && x != d
    requires s1.refs == Repoint(s, x, d, id).refs && Moves(s2, id) == Moves(Repoint(s, x, d, id), id) && s2.refs == s1.refs + writes
    ensures MoveBack(s2, id).refs == s.refs + writes <==> forall r :: r in s.refs && s.refs[r] == x && r in writes ==> writes[r] != d
  {
    var back := MoveBack(s2, id).refs;
    forall r | r in s2.refs ensures r in back && back[r] == if r in s.refs && s.refs[r] == x && s2.refs[r] == d then x else s2.refs[r] {
      MovesBackOne(s, s2, x, d, id, r);
    }
    if forall r :: r in s.refs && s.refs[r] == x && r in writes ==> writes[r] != d {
      assert back == s.refs + writes;
    }
  }

  /** A reference that was on `x` comes back unless it moved; any other stays; and what is lost
      inside stays lost. */
  lemma RefsReturn(s: Tables, s1: Tables, s2: Tables, x: ItemId, d: ItemId, id: RowId, writes: map<Ref, ItemId>, lost: set<Ref>, h: set<ItemId>, h1: set<ItemId>)
    requires Moves(s, id) == map[] && x != d && d !in h && h1 == h + {x}
    requires s1.refs == Repoint(s, x, d, id).refs && Moves(s2, id) == Moves(Repoint(s, x, d, id), id)
    requires RefsLeft(s1.refs, s2.refs, writes, lost, h1)
    ensures RefsLeft(s.refs, MoveBack(s2, id).refs, writes, lost + BackOnto(s.refs, x, d, writes), h)
  {
    var back := MoveBack(s2, id).refs;
    forall r | r in s2.refs ensures r in back && back[r] == if r in s.refs && s.refs[r] == x && s2.refs[r] == d then x else s2.refs[r] {
      MovesBackOne(s, s2, x, d, id, r);
    }
  }

  lemma LedgerReturns(s: Tables, s1: Tables, s2: Tables, s3: Tables, x: ItemId, d: ItemId, id: RowId)
    requires s.now < s1.now && id.at == s1.now && s1.ledger == Repoint(s, x, d, id).ledger
    requires SameLedger(s1, s2) && s3.ledger == s2.ledger && s2.now <= s3.now
    ensures SameLedger(s, s3)
  {
    forall i: RowId | i.at <= s.now ensures Moves(s3, i) == Moves(s, i) {
      assert Moves(s1, i) == Moves(s, i);
      assert Moves(s2, i) == Moves(s1, i);
    }
  }

  /** The row a bracket's merge opened is still revertible when its body ends. */
  lemma StillRevertible(s: Tables, h: Stacks, rows1: map<RowId, Row>, s2: Tables, h1: Stacks, x: ItemId, d: ItemId, t: nat)
    requires Entered(s, h, rows1, h1, x, d, t)
    requires Inv(s2, h1) && SameStacks(rows1, s2.rows, h1)
    ensures Revertible(s2, h1, RowId(t, x), s2.now + 1) && s2.rows[RowId(t, x)].superseded == x
  {
    assert SameStack(rows1, s2.rows, h1[x]);
    assert h1[x][0] == RowId(t, x);
    assert NewRow(s.rows, h, rows1[RowId(t, x)], RowId(t, x), x, d, t);
  }

  lemma BracketReverts(s: Tables, h: Stacks, rows1: map<RowId, Row>, s2: Tables, h1: Stacks, x: ItemId, d: ItemId, t: nat, id: RowId, t2: nat)
    requires Entered(s, h, rows1, h1, x, d, t) && id == RowId(t, x) && t2 == s2.now + 1
    requires Inv(s2, h1) && SameStacks(rows1, s2.rows, h1)
    ensures id in s2.rows && Revert(s2, id, t2) == Ok(MoveBack(RevertedTables(s2, id, t2), id))
    ensures Inv(MoveBack(RevertedTables(s2, id, t2), id), h)
  {
    StillRevertible(s, h, rows1, s2, h1, x, d, t);
    StacksReturn(s, h, rows1, h1, s2.rows, x, d, t);
    RevertSucceeds(s2, h1, id, t2);
    RowsRevertInv(s2, h1, id, t2);
    MoveBackKeepsInv(RevertedTables(s2, id, t2), h, id);
  }

  lemma BracketRows(s: Tables, h: Stacks, rows1: map<RowId, Row>, s2: Tables, h1: Stacks, x: ItemId, d: ItemId, t: nat, id: RowId, t2: nat, rows3: map<RowId, Row>)
    requires Entered(s, h, rows1, h1, x, d, t) && id == RowId(t, x) && t2 == s2.now + 1
    requires Inv(s2, h1) && SameStacks(rows1, s2.rows, h1) && id in s2.rows && rows3 == RevertedRows(s2, id, t2)
    ensures SameStacks(s.rows, rows3, h)
  {
    StillRevertible(s, h, rows1, s2, h1, x, d, t);
    StacksReturn(s, h, rows1, h1, s2.rows, x, d, t);
    forall a | a in h ensures SameStack(s.rows, rows3, h[a]) {
      RowsReturn(s, h, s2, h1, rows1, x, d, t, t2, a);
    }
  }

  lemma BracketLedger(s: Tables, h: Stacks, s1: Tables, h1: Stacks, s2: Tables, s3: Tables, x: ItemId, d: ItemId, id: RowId, writes: map<Ref, ItemId>, lost: set<Ref>)
    requires Inv(s, h) && x != d && d !in h && h1.Keys == h.Keys + {x}
    requires s.now < s1.now == id.at && s1.refs == Repoint(s, x, d, id).refs && s1.ledger == Repoint(s, x, d, id).ledger
    requires SameLedger(s1, s2) && RefsLeft(s1.refs, s2.refs, writes, lost, h1.Keys)
    requires s3.refs == MoveBack(s2, id).refs && s3.ledger == s2.ledger && s2.now <= s3.now
    ensures SameLedger(s, s3) && RefsLeft(s.refs, s3.refs, writes, lost + BackOnto(s.refs, x, d, writes), h.Keys)
  {
    LedgerReturns(s, s1, s2, s3, x, d, id);
    assert id !in s.ledger;
    assert Moves(s2, id) == Moves(s1, id);
    RefsReturn(s, s1, s2, x, d, id, writes, lost, h.Keys, h1.Keys);
  }

  lemma MovedBack(s2: Tables, s3: Tables, id: RowId, t2: nat)
    requires id in s2.rows && s3 == MoveBack(RevertedTables(s2, id, t2), id)
    ensures s3.refs == MoveBack(s2, id).refs && s3.ledger == s2.ledger && s3.now == t2
  {
    assert Moves(RevertedTables(s2, id, t2), id) == Moves(s2, id);
  }

  lemma EnteredKeys(s: Tables, h: Stacks, rows1: map<RowId, Row>, h1: Stacks, x: ItemId, d: ItemId, t: nat)
    requires Entered(s, h, rows1, h1, x, d, t)
    ensures Inv(s, h) && x != d && d !in h && h1.Keys == h.Keys + {x} && s.now < t
  {
  }

  /** A bracket restores what its body did. */
  lemma BracketRestores(s: Tables, h: Stacks, x: ItemId, d: ItemId, s1: Tables, h1: Stacks, s2: Tables, t: nat, id: RowId, t2: nat, s3: Tables, writes: map<Ref, ItemId>, lost: set<Ref>)
    requires Entered(s, h, s1.rows, h1, x, d, t) && id == RowId(t, x) && t2 == s2.now + 1
    requires s1.refs == Repoint(s, x, d, id).refs && s1.ledger == Repoint(s, x, d, id).ledger && s1.now == t
    requires Restored(s1, h1, s2, writes, lost)
    requires id in s2.rows ==> s3 == MoveBack(RevertedTables(s2, id, t2), id)
    ensures Revert(s2, id, t2) == Ok(s3)
    ensures Restored(s, h, s3, writes, lost + BackOnto(s.refs, x, d, writes))
  {
    EnteredKeys(s, h, s1.rows, h1, x, d, t);
    BracketReverts(s, h, s1.rows, s2, h1, x, d, t, id, t2);
    BracketRows(s, h, s1.rows, s2, h1, x, d, t, id, t2, s3.rows);
    MovedBack(s2, s3, id, t2);
    BracketLedger(s, h, s1, h1, s2, s3, x, d, id, writes, lost);
  }

  // ---- Every program ------------------------------------------------------------------------------------------------

  lemma WriteRestores(s: Tables, h: Stacks, r: Ref, item: ItemId)
    requires Inv(s, h)
    ensures Restored(s, h, Write(s, r, item).s, Write(s, r, item).writes, {})
  {
    ElseKeepsInv(s, Write(s, r, item).s, h);
    InvStacks(s, h);
  }

  lemma NothingRestores(s: Tables, h: Stacks)
    requires Inv(s, h)
    ensures Restored(s, h, s, map[], {})
  {
    InvStacks(s, h);
    assert s.refs + map[] == s.refs;
  }

  lemma ThenRestores(s: Tables, h: Stacks, s1: Tables, s2: Tables, w1: map<Ref, ItemId>, w2: map<Ref, ItemId>, lost1: set<Ref>, lost2: set<Ref>)
    requires Restored(s, h, s1, w1, lost1) && Restored(s1, h, s2, w2, lost2)
    ensures Restored(s, h, s2, w1 + w2, (lost1 - w2.Keys) + lost2)
  {
    RefsCompose(s.refs, s1.refs, s2.refs, w1, w2, lost1, lost2, h.Keys);
    StacksCompose(s.rows, s1.rows, s2.rows, h);
  }

  lemma EnterIs(s: Tables, c: Call, t: nat, s1: Tables, id: RowId)
    requires t == s.now + 1 && Enter(s, c) == Some((s1, id))
    ensures OpenRows(s, c.x) == {} && OpenRows(s, c.d) == {} && LockItems(s, c.x, c.d).Ok?
    ensures id == RowId(t, c.x) && s1 == Repoint(OpenRow(s, c.x, c.d, c.cause, c.decision, t), c.x, c.d, id)
  {
    MergeOpens(s, c.x, c.d, c.cause, c.decision, t);
  }

  /** A bracket that is entered starts with a fresh merge. */
  lemma EntersFresh(s: Tables, h: Stacks, c: Call, t: nat, s1: Tables, id: RowId)
    requires Inv(s, h) && t == s.now + 1 && Enter(s, c) == Some((s1, id))
    ensures Fresh(s, h, c.x, c.d, t) && id == RowId(t, c.x) && s1 == Repoint(OpenRow(s, c.x, c.d, c.cause, c.decision, t), c.x, c.d, id)
  {
    EnterIs(s, c, t, s1, id);
    OpenRowsAre(s, h, c.x);
    OpenRowsAre(s, h, c.d);
  }

  lemma FreshEnters(s: Tables, h: Stacks, x: ItemId, d: ItemId, cause: Cause, decision: nat, t: nat, s1: Tables, h1: Stacks, id: RowId)
    requires Fresh(s, h, x, d, t) && id == RowId(t, x) && s1 == Repoint(OpenRow(s, x, d, cause, decision, t), x, d, id)
    requires h1 == MergedStacks(s.rows, h, x, t)
    ensures Inv(s1, h1) && Entered(s, h, s1.rows, h1, x, d, t)
    ensures s1.refs == Repoint(s, x, d, id).refs && s1.ledger == Repoint(s, x, d, id).ledger && s1.now == t
  {
    MergeKeepsInv(s, h, x, d, cause, decision, t);
    RepointKeepsInv(OpenRow(s, x, d, cause, decision, t), h1, x, d, id);
    OpenRowMerges(s, h, x, d, cause, decision, t);
  }

  /** Reverting the bracket's row takes whatever its body restored of the merged state back to
      a restored state. */
  ghost predicate Undoes(m: Merger, s: Tables, h: Stacks, c: Call, s1: Tables, h1: Stacks, id: RowId) {
    forall s2, writes, lost :: Restored(s1, h1, s2, writes, lost) ==>
      m.revert(s2, id).Ok? && Restored(s, h, m.revert(s2, id).value, writes, lost + BackOnto(s.refs, c.x, c.d, writes))
  }

  ghost predicate BracketUndone(m: Merger, s: Tables, h: Stacks, c: Call) {
    match m.enter(s, c)
    case None => true
    case Some((s1, id)) => exists h1 :: Inv(s1, h1) && Undoes(m, s, h, c, s1, h1, id)
  }

  /** Every bracket's revert undoes its merge. */
  ghost predicate Reversible(m: Merger) {
    forall s, h, c :: Inv(s, h) ==> BracketUndone(m, s, h, c)
  }

  lemma BodyReverts(s: Tables, h: Stacks, x: ItemId, d: ItemId, s1: Tables, h1: Stacks, s2: Tables, t: nat, id: RowId, writes: map<Ref, ItemId>, lost: set<Ref>)
    requires Entered(s, h, s1.rows, h1, x, d, t) && id == RowId(t, x)
    requires s1.refs == Repoint(s, x, d, id).refs && s1.ledger == Repoint(s, x, d, id).ledger && s1.now == t
    requires Restored(s1, h1, s2, writes, lost)
    ensures Revert(s2, id, s2.now + 1).Ok? && Restored(s, h, Revert(s2, id, s2.now + 1).value, writes, lost + BackOnto(s.refs, x, d, writes))
  {
    var t2 := s2.now + 1;
    StillRevertible(s, h, s1.rows, s2, h1, x, d, t);
    BracketRestores(s, h, x, d, s1, h1, s2, t, id, t2, MoveBack(RevertedTables(s2, id, t2), id), writes, lost);
  }

  lemma NativeUndoes(s: Tables, h: Stacks, c: Call, s1: Tables, id: RowId)
    requires Inv(s, h) && Native().enter(s, c) == Some((s1, id))
    ensures exists h1 :: Inv(s1, h1) && Undoes(Native(), s, h, c, s1, h1, id)
  {
    var t := s.now + 1;
    var h1 := MergedStacks(s.rows, h, c.x, t);
    EntersFresh(s, h, c, t, s1, id);
    FreshEnters(s, h, c.x, c.d, c.cause, c.decision, t, s1, h1, id);
    forall s2, writes, lost | Restored(s1, h1, s2, writes, lost)
      ensures Native().revert(s2, id).Ok? && Restored(s, h, Native().revert(s2, id).value, writes, lost + BackOnto(s.refs, c.x, c.d, writes))
    {
      BodyReverts(s, h, c.x, c.d, s1, h1, s2, t, id, writes, lost);
    }
    assert Undoes(Native(), s, h, c, s1, h1, id);
  }

  lemma NativeIsReversible()
    ensures Reversible(Native())
  {
    forall s, h, c | Inv(s, h) ensures BracketUndone(Native(), s, h, c) {
      match Native().enter(s, c) {
        case None =>
        case Some((s1, id)) => NativeUndoes(s, h, c, s1, id);
      }
    }
  }

  /** `p` ends, its reverts never refused, with the stacks as they were. */
  ghost predicate Restores(m: Merger, p: Program, s: Tables, h: Stacks) {
    match Exec(m, p, s)
    case RevertRefused(_) => false
    case Done(s', writes) => Restored(s, h, s', writes, Lost(m, p, s))
  }

  lemma ThenCase(m: Merger, p1: Program, p2: Program, s: Tables, h: Stacks)
    requires Restores(m, p1, s, h) && Restores(m, p2, Exec(m, p1, s).s, h)
    ensures Restores(m, Then(p1, p2), s, h)
  {
    var one := Exec(m, p1, s);
    var two := Exec(m, p2, one.s);
    ThenRestores(s, h, one.s, two.s, one.writes, two.writes, Lost(m, p1, s), Lost(m, p2, one.s));
    assert Lost(m, Then(p1, p2), s) == (Lost(m, p1, s) - two.writes.Keys) + Lost(m, p2, one.s);
  }

  lemma WriteCase(m: Merger, p: Program, s: Tables, h: Stacks)
    requires Inv(s, h) && (p.Create? || p.Move?)
    ensures Restores(m, p, s, h)
  {
    if (p.r in s.refs) == p.Create? || p.item !in s.kinds {
      assert Exec(m, p, s) == Done(s, map[]);
      NothingRestores(s, h);
    } else {
      assert Exec(m, p, s) == Write(s, p.r, p.item);
      WriteRestores(s, h, p.r, p.item);
    }
  }

  lemma BracketCase(m: Merger, c: Call, body: Program, s: Tables, h: Stacks, s1: Tables, h1: Stacks, id: RowId)
    requires m.enter(s, c) == Some((s1, id)) && Undoes(m, s, h, c, s1, h1, id) && Restores(m, body, s1, h1)
    ensures Restores(m, Bracket(c, body), s, h)
  {
    var inner := Exec(m, body, s1);
    assert Restored(s1, h1, inner.s, inner.writes, Lost(m, body, s1));
    assert Exec(m, Bracket(c, body), s) == End(m, inner, id);
    assert Lost(m, Bracket(c, body), s) == Lost(m, body, s1) + BackOnto(s.refs, c.x, c.d, inner.writes);
  }

  lemma {:induction false} ProgramRestores(m: Merger, p: Program, s: Tables, h: Stacks)
    requires Reversible(m) && Inv(s, h)
    ensures Restores(m, p, s, h)
  {
    match p {
      case Skip => NothingRestores(s, h);
      case Then(p1, p2) =>
        ProgramRestores(m, p1, s, h);
        ProgramRestores(m, p2, Exec(m, p1, s).s, h);
        ThenCase(m, p1, p2, s, h);
      case Bracket(c, body) =>
        assert BracketUndone(m, s, h, c);
        match m.enter(s, c) {
          case None => NothingRestores(s, h);
          case Some((s1, id)) =>
            var h1 :| Inv(s1, h1) && Undoes(m, s, h, c, s1, h1, id);
            ProgramRestores(m, body, s1, h1);
            BracketCase(m, c, body, s, h, s1, h1, id);
        }
      case _ => WriteCase(m, p, s, h);
    }
  }

  // ---- The main result -----------------------------------------------------------------------------------------------

  lemma SameOpen(s: Tables, h: Stacks, s': Tables, a: ItemId)
    requires Inv(s, h) && Inv(s', h) && SameStacks(s.rows, s'.rows, h)
    ensures OpenRows(s', a) == OpenRows(s, a) && forall r :: r in OpenRows(s, a) ==> s'.rows[r] == s.rows[r]
  {
    OpenRowsAre(s, h, a);
    OpenRowsAre(s', h, a);
    if a in h { assert SameStack(s.rows, s'.rows, h[a]); }
  }

  /** From every reachable state, no well-nested program of merges and reverts has a revert
      refused; it leaves every item's open row exactly as it was, and each reference where its
      last create or move in between put it, or else where it began, but for exactly those lost
      by being put back onto a survivor. */
  lemma NestedMergesUndone(w: World, es: seq<Event>, p: Program)
    requires Initial(w)
    ensures var s, o := Run(w, es).s, Exec(Native(), p, Run(w, es).s);
            && o.Done?
            && (forall a :: OpenRows(o.s, a) == OpenRows(s, a) && forall r :: r in OpenRows(s, a) ==> o.s.rows[r] == s.rows[r])
            && o.s.refs.Keys == (s.refs + o.writes).Keys
            && (forall r :: r in o.s.refs ==> (o.s.refs[r] == (s.refs + o.writes)[r] <==> r !in Lost(Native(), p, s)))
            && (o.s.refs == s.refs + o.writes <==> Lost(Native(), p, s) == {})
  {
    var s, h := Run(w, es).s, RunStacks(w, es);
    RunKeepsGood(w, es);
    NativeIsReversible();
    ProgramRestores(Native(), p, s, h);
    var o := Exec(Native(), p, s);
    RestoredOpen(s, h, o.s, o.writes, Lost(Native(), p, s));
  }

  lemma RestoredOpen(s: Tables, h: Stacks, s': Tables, writes: map<Ref, ItemId>, lost: set<Ref>)
    requires Inv(s, h) && Restored(s, h, s', writes, lost)
    ensures forall a :: OpenRows(s', a) == OpenRows(s, a) && forall r :: r in OpenRows(s, a) ==> s'.rows[r] == s.rows[r]
    ensures s'.refs.Keys == (s.refs + writes).Keys
    ensures forall r :: r in s'.refs ==> (s'.refs[r] == (s.refs + writes)[r] <==> r !in lost)
    ensures s'.refs == s.refs + writes <==> lost == {}
  {
    forall a ensures OpenRows(s', a) == OpenRows(s, a) && forall r :: r in OpenRows(s, a) ==> s'.rows[r] == s.rows[r] {
      SameOpen(s, h, s', a);
    }
    NoneLostIff(s.refs, s'.refs, writes, lost, h.Keys);
  }

  lemma MoveInBracket(m: Merger, s: Tables, c: Call, r: Ref, s1: Tables, id: RowId, s3: Tables)
    requires m.enter(s, c) == Some((s1, id)) && r in s1.refs && c.d in s1.kinds && m.revert(Write(s1, r, c.d).s, id) == Ok(s3)
    ensures Exec(m, Bracket(c, Program.Move(r, c.d)), s) == Done(s3, map[r := c.d])
    ensures r in s.refs && s.refs[r] == c.x ==> Lost(m, Bracket(c, Program.Move(r, c.d)), s) == {r}
  {
    assert Exec(m, Program.Move(r, c.d), s1) == Write(s1, r, c.d);
  }

  lemma LedgeredComesBack(s: Tables, x: ItemId, d: ItemId, id: RowId, r: Ref, s2: Tables)
    requires Moves(s, id) == map[] && r in s.refs && s.refs[r] == x
    requires s2.ledger == Repoint(s, x, d, id).ledger && r in s2.refs && s2.refs[r] == d
    ensures r in MoveBack(s2, id).refs && MoveBack(s2, id).refs[r] == x
  {
    assert Moves(s2, id)[r] == CatalogMerge.Move(x, d);
  }

  lemma OntoSurvivorReverts(s: Tables, h: Stacks, x: ItemId, d: ItemId, r: Ref, s1: Tables, h1: Stacks, t: nat, id: RowId, s2: Tables, t2: nat) returns (s3: Tables)
    requires Entered(s, h, s1.rows, h1, x, d, t) && id == RowId(t, x) && Inv(s1, h1) && r in s.refs && s.refs[r] == x
    requires s1.ledger == Repoint(s, x, d, id).ledger && s1.now == t && s2 == Write(s1, r, d).s && t2 == s2.now + 1
    ensures Revert(s2, id, t2) == Ok(s3) && r in s3.refs && s3.refs[r] == x
  {
    InvStacks(s1, h1);
    ElseKeepsInv(s1, s2, h1);
    BracketReverts(s, h, s1.rows, s2, h1, x, d, t, id, t2);
    s3 := MoveBack(RevertedTables(s2, id, t2), id);
    assert id !in s.ledger;
    MovedBack(s2, s3, id, t2);
    LedgeredComesBack(s, x, d, id, r, s2);
  }

  /** A reference is lost: one of `x` moved back onto the survivor inside the bracket is taken
      for one that never left, and goes back to `x`. */
  lemma MoveOntoSurvivorIsUndone(s: Tables, h: Stacks, c: Call, r: Ref, s1: Tables, id: RowId)
    requires Inv(s, h) && Enter(s, c) == Some((s1, id)) && r in s.refs && s.refs[r] == c.x
    ensures var o := Exec(Native(), Bracket(c, Program.Move(r, c.d)), s);
            o.Done? && o.writes == map[r := c.d] && r in o.s.refs && o.s.refs[r] == c.x
    ensures Lost(Native(), Bracket(c, Program.Move(r, c.d)), s) == {r}
  {
    var t := s.now + 1;
    var h1 := MergedStacks(s.rows, h, c.x, t);
    EntersFresh(s, h, c, t, s1, id);
    FreshEnters(s, h, c.x, c.d, c.cause, c.decision, t, s1, h1, id);
    var s2 := Write(s1, r, c.d).s;
    var s3 := OntoSurvivorReverts(s, h, c.x, c.d, r, s1, h1, t, id, s2, s2.now + 1);
    MoveInBracket(Native(), s, c, r, s1, id, s3);
  }
}
