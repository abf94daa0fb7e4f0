/** Whole runs of merges, reverts and reference writes (api/catalog_merge.py). */
module MergeRuns {
  import opened Seqs
  import opened CatalogMerge
  import opened MergeForest
  import opened MergeRevert

  // ---- The forest of direct merges ------------------------------------------------------------------------

  type Forest = map<ItemId, ItemId>

  /** Following direct merges from the first item of `p` to one that was never merged. */
  ghost predicate Path(f: Forest, p: seq<ItemId>) {
    && p != [] && p[|p| - 1] !in f
    && forall i :: 0 <= i < |p| - 1 ==> p[i] in f && f[p[i]] == p[i + 1]
  }

  ghost predicate LeadsTo(f: Forest, a: ItemId, r: ItemId) {
    exists p :: Path(f, p) && p[0] == a && p[|p| - 1] == r
  }

  lemma {:induction false} PathsAgree(f: Forest, p: seq<ItemId>, q: seq<ItemId>, i: nat)
    requires Path(f, p) && Path(f, q) && p[0] == q[0] && i < |p|
    ensures i < |q| && p[i] == q[i]
  {
    if i > 0 {
      PathsAgree(f, p, q, i - 1);
      assert p[i - 1] in f && f[p[i - 1]] == p[i];
      assert i - 1 < |q| - 1;
      assert f[q[i - 1]] == q[i];
    }
  }

  /** An item leads to one root. */
  lemma OneRoot(f: Forest, a: ItemId, r: ItemId, r': ItemId)
    requires LeadsTo(f, a, r) && LeadsTo(f, a, r')
    ensures r == r'
  {
    var p :| Path(f, p) && p[0] == a && p[|p| - 1] == r;
    var q :| Path(f, q) && q[0] == a && q[|q| - 1] == r';
    PathsAgree(f, p, q, |p| - 1);
    PathsAgree(f, q, p, |q| - 1);
  }

  ghost predicate OpenTo(s: Tables, a: ItemId, r: ItemId) {
    exists id :: id in s.rows && s.rows[id].until.None? && s.rows[id].superseded == a && s.rows[id].survivor == r
  }

  /** The open rows are the path-compressed form of the forest: one per merged item, straight
      to the root its direct merges lead to. */
  ghost predicate CompressedForm(s: Tables, f: Forest) {
    && (forall a, r :: OpenTo(s, a, r) <==> a in f && LeadsTo(f, a, r))
    && (forall a, r :: OpenTo(s, a, r) ==> OpenRows(s, r) == {})
    && (forall a :: |OpenRows(s, a)| <= 1)
  }

  ghost predicate Direct(rows: map<RowId, Row>, h: Stacks, f: Forest) {
    f.Keys == h.Keys && forall a :: a in h ==> h[a] != [] && h[a][0] in rows && rows[h[a][0]].survivor == f[a]
  }

  ghost function Survivors(rows: map<RowId, Row>, a: ItemId, stack: seq<RowId>): seq<ItemId>
    requires forall i :: 0 <= i < |stack| ==> stack[i] in rows
  {
    seq(|stack| + 1, i requires 0 <= i <= |stack| => if i == 0 then a else rows[stack[i - 1]].survivor)
  }

  /** A stack's survivors are the path of direct merges its item follows. */
  lemma StackIsPath(s: Tables, h: Stacks, f: Forest, a: ItemId)
    requires Inv(s, h) && Direct(s.rows, h, f) && a in h
    ensures forall i :: 0 <= i < |h[a]| ==> h[a][i] in s.rows
    ensures var p := Survivors(s.rows, a, h[a]); Path(f, p) && p[0] == a && p[|p| - 1] == s.rows[Top(h[a])].survivor
    ensures LeadsTo(f, a, s.rows[Top(h[a])].survivor)
  {
    assert StackOk(s.rows, h, a, h[a]);
    var p := Survivors(s.rows, a, h[a]);
    forall i | 0 <= i < |p| - 1 ensures p[i] in f && f[p[i]] == p[i + 1] {
      if i > 0 { assert Compresses(s.rows, h, h[a], i); }
    }
    assert Path(f, p) && p[0] == a && p[|p| - 1] == s.rows[Top(h[a])].survivor;
  }

  lemma OpenToIsRoot(s: Tables, h: Stacks, f: Forest, a: ItemId, r: ItemId)
    requires Inv(s, h) && Direct(s.rows, h, f)
    ensures OpenTo(s, a, r) <==> a in f && LeadsTo(f, a, r)
    ensures OpenTo(s, a, r) ==> r !in h
  {
    OpenRowsAre(s, h, a);
    if a in h {
      StackIsPath(s, h, f, a);
      assert StackOk(s.rows, h, a, h[a]);
      if LeadsTo(f, a, r) { OneRoot(f, a, r, s.rows[Top(h[a])].survivor); }
      if OpenTo(s, a, r) {
        var id :| id in s.rows && s.rows[id].until.None? && s.rows[id].superseded == a && s.rows[id].survivor == r;
        assert id in OpenRows(s, a);
      }
    }
  }

  lemma InvIsCompressed(s: Tables, h: Stacks, f: Forest)
    requires Inv(s, h) && Direct(s.rows, h, f)
    ensures CompressedForm(s, f)
  {
    forall a, r ensures OpenTo(s, a, r) <==> a in f && LeadsTo(f, a, r) { OpenToIsRoot(s, h, f, a, r); }
    forall a, r | OpenTo(s, a, r) ensures OpenRows(s, r) == {} {
      OpenToIsRoot(s, h, f, a, r);
      OpenRowsAre(s, h, r);
    }
    forall a ensures |OpenRows(s, a)| <= 1 { OpenRowsAre(s, h, a); }
  }

  // ---- Runs ---------------------------------------------------------------------------------------------------

  datatype Tx =
    | MergeItems(x: ItemId, d: ItemId, cause: Cause, decision: nat)
    | RevertMerge(id: RowId)
    | WriteRef(r: Ref, item: Option<ItemId>)
    | AddItem(i: ItemId, kind: Kind)

  /** A transaction, some time after the one before it. */
  datatype Event = Event(gap: nat, tx: Tx)

  /** The tables, beside the forest of direct merges that were made and not reverted. */
  datatype World = World(s: Tables, f: Forest)

  /** What a merge's outcome makes of the world. A conflict rolls back whole. */
  ghost function AfterMerge(w: World, x: ItemId, d: ItemId, t: nat, m: Result<(Tables, RowId)>): World {
    match m
    case Err(_) => w.(s := w.s.(now := t))
    case Ok((s', _)) => World(s', if OpenRows(w.s, x) == {} then w.f[x := d] else w.f)
  }

  function AfterRevert(w: World, id: RowId, t: nat, m: Result<Tables>): World {
    match m
    case Err(_) => w.(s := w.s.(now := t))
    case Ok(s') => World(s', if id in w.s.rows then w.f - {w.s.rows[id].superseded} else w.f)
  }

  /** One transaction. */
  ghost function Step(w: World, e: Event): World {
    var s, t := w.s, w.s.now + 1 + e.gap;
    match e.tx
    case MergeItems(x, d, cause, decision) => AfterMerge(w, x, d, t, Merge(s, x, d, cause, decision, t))
    case RevertMerge(id) => AfterRevert(w, id, t, Revert(s, id, t))
    case WriteRef(r, item) =>
      w.(s := s.(refs := if item.Some? then s.refs[r := item.value] else s.refs - {r}, now := t))
    case AddItem(i, kind) =>
      w.(s := s.(kinds := if i in s.kinds then s.kinds else s.kinds[i := kind], now := t))
  }

  ghost function Run(w: World, es: seq<Event>): World {
    if es == [] then w else Step(Run(w, es[..|es| - 1]), es[|es| - 1])
  }

  /** No supersession yet; any items and references. */
  predicate Initial(w: World) {
    w.s.rows == map[] && w.s.ledger == map[] && w.f == map[]
  }

  ghost predicate Good(w: World, h: Stacks) {
    Inv(w.s, h) && Direct(w.s.rows, h, w.f)
  }

  ghost function StacksAfterMerge(s: Tables, h: Stacks, x: ItemId, t: nat, m: Result<(Tables, RowId)>): Stacks {
    if m.Ok? && OpenRows(s, x) == {} then MergedStacks(s.rows, h, x, t) else h
  }

  ghost function StacksAfterRevert(s: Tables, h: Stacks, id: RowId, m: Result<Tables>): Stacks {
    if m.Ok? && id in s.rows then RevertedStacks(s.rows, h, id, s.rows[id].superseded) else h
  }

  /** The stacks after a transaction. */
  ghost function StacksAfter(w: World, h: Stacks, e: Event): Stacks {
    var s, t := w.s, w.s.now + 1 + e.gap;
    match e.tx
    case MergeItems(x, d, cause, decision) => StacksAfterMerge(s, h, x, t, Merge(s, x, d, cause, decision, t))
    case RevertMerge(id) => StacksAfterRevert(s, h, id, Revert(s, id, t))
    case _ => h
  }

  ghost function RunStacks(w: World, es: seq<Event>): Stacks {
    if es == [] then map[]
    else StacksAfter(Run(w, es[..|es| - 1]), RunStacks(w, es[..|es| - 1]), es[|es| - 1])
  }

  /** Time passing, references changing and items appearing touch no row. */
  lemma ElseKeepsInv(s: Tables, s': Tables, h: Stacks)
    requires Inv(s, h) && s'.rows == s.rows && s'.ledger == s.ledger && s'.now >= s.now
    requires forall i :: i in s.kinds ==> i in s'.kinds && s'.kinds[i] == s.kinds[i]
    ensures Inv(s', h)
  {
  }

  lemma MergeDirect(rows: map<RowId, Row>, h: Stacks, rows': map<RowId, Row>, f: Forest, x: ItemId, d: ItemId, t: nat)
    requires RowsMerged(rows, h, rows', x, d, t) && Direct(rows, h, f) && x !in h
    ensures Direct(rows', MergedStacks(rows, h, x, t), f[x := d])
  {
  }

  lemma RevertDirect(s: Tables, h: Stacks, f: Forest, id: RowId, t: nat)
    requires id in s.rows && Direct(s.rows, h, f)
    ensures var x := s.rows[id].superseded; Direct(RevertedRows(s, id, t), RevertedStacks(s.rows, h, id, x), f - {x})
  {
  }

  lemma FreshMergeGood(s: Tables, h: Stacks, f: Forest, x: ItemId, d: ItemId, cause: Cause, decision: nat, t: nat)
    requires Fresh(s, h, x, d, t) && Direct(s.rows, h, f)
    ensures Good(World(Repoint(OpenRow(s, x, d, cause, decision, t), x, d, RowId(t, x)), f[x := d]), MergedStacks(s.rows, h, x, t))
  {
    var s1, h' := OpenRow(s, x, d, cause, decision, t), MergedStacks(s.rows, h, x, t);
    MergeKeepsInv(s, h, x, d, cause, decision, t);
    RepointKeepsInv(s1, h', x, d, RowId(t, x));
    OpenRowMerges(s, h, x, d, cause, decision, t);
    MergeDirect(s.rows, h, s1.rows, f, x, d, t);
  }

  lemma AgainMergeGood(s: Tables, h: Stacks, f: Forest, x: ItemId, d: ItemId, id: RowId, t: nat)
    requires Inv(s, h) && Direct(s.rows, h, f) && t > s.now && id in s.rows
    ensures Good(World(Repoint(s, x, d, id).(now := t), f), h)
  {
  }

  lemma RevertGood(s: Tables, h: Stacks, f: Forest, id: RowId, t: nat)
    requires Revertible(s, h, id, t) && Direct(s.rows, h, f)
    ensures Revert(s, id, t).Ok?
    ensures Good(World(Revert(s, id, t).value, f - {s.rows[id].superseded}), RevertedStacks(s.rows, h, id, s.rows[id].superseded))
  {
    RevertSucceeds(s, h, id, t);
    RevertKeepsInv(s, h, id, t);
    RevertDirect(s, h, f, id, t);
  }

  lemma ElseGood(w: World, h: Stacks, s': Tables)
    requires Good(w, h)
    requires s'.rows == w.s.rows && s'.ledger == w.s.ledger && s'.now >= w.s.now
    requires forall i :: i in w.s.kinds ==> i in s'.kinds && s'.kinds[i] == w.s.kinds[i]
    ensures Good(w.(s := s'), h)
  {
  }

  /** A merge that finds `x` current opens a row. */
  lemma MergeOpens(s: Tables, x: ItemId, d: ItemId, cause: Cause, decision: nat, t: nat)
    requires OpenRows(s, x) == {} && Merge(s, x, d, cause, decision, t).Ok?
    ensures OpenRows(s, d) == {} && LockItems(s, x, d).Ok?
    ensures Merge(s, x, d, cause, decision, t).value == (Repoint(OpenRow(s, x, d, cause, decision, t), x, d, RowId(t, x)), RowId(t, x))
  {
  }

  /** A merge that finds `x` superseded adds to the open row. */
  lemma MergeAdds(s: Tables, x: ItemId, d: ItemId, cause: Cause, decision: nat, t: nat)
    requires OpenRows(s, x) != {} && Merge(s, x, d, cause, decision, t).Ok?
    ensures var (s', id) := Merge(s, x, d, cause, decision, t).value;
            id in s.rows && s' == Repoint(s, x, d, id).(now := t)
  {
  }

  lemma MergeGood(w: World, h: Stacks, x: ItemId, d: ItemId, cause: Cause, decision: nat, t: nat)
    requires Good(w, h) && t > w.s.now && Merge(w.s, x, d, cause, decision, t).Ok?
    ensures OpenRows(w.s, x) == {} ==>
              Good(World(Merge(w.s, x, d, cause, decision, t).value.0, w.f[x := d]), MergedStacks(w.s.rows, h, x, t))
    ensures OpenRows(w.s, x) != {} ==> Good(World(Merge(w.s, x, d, cause, decision, t).value.0, w.f), h)
  {
    var s := w.s;
    if OpenRows(s, x) == {} {
      MergeOpens(s, x, d, cause, decision, t);
      OpenRowsAre(s, h, x);
      OpenRowsAre(s, h, d);
      FreshMergeGood(s, h, w.f, x, d, cause, decision, t);
    } else {
      MergeAdds(s, x, d, cause, decision, t);
      AgainMergeGood(s, h, w.f, x, d, Merge(s, x, d, cause, decision, t).value.1, t);
    }
  }

  lemma RefusedGood(w: World, h: Stacks, t: nat)
    requires Good(w, h) && t > w.s.now
    ensures Good(w.(s := w.s.(now := t)), h)
  {
  }

  lemma AfterMergeGood(w: World, h: Stacks, x: ItemId, d: ItemId, cause: Cause, decision: nat, t: nat, w': World, h': Stacks)
    requires Good(w, h) && t > w.s.now
    requires var m := Merge(w.s, x, d, cause, decision, t); w' == AfterMerge(w, x, d, t, m) && h' == StacksAfterMerge(w.s, h, x, t, m)
    ensures Good(w', h')
  {
    if Merge(w.s, x, d, cause, decision, t).Ok? {
      MergeGood(w, h, x, d, cause, decision, t);
    } else {
      RefusedGood(w, h, t);
    }
  }

  lemma AfterRevertGood(w: World, h: Stacks, id: RowId, t: nat, w': World, h': Stacks)
    requires Good(w, h) && t > w.s.now
    requires var m := Revert(w.s, id, t); w' == AfterRevert(w, id, t, m) && h' == StacksAfterRevert(w.s, h, id, m)
    ensures Good(w', h')
  {
    if Revert(w.s, id, t).Ok? {
      RevertGood(w.s, h, w.f, id, t);
    } else {
      RefusedGood(w, h, t);
    }
  }

  lemma OtherStepGood(w: World, h: Stacks, e: Event, w': World)
    requires Good(w, h) && !e.tx.MergeItems? && !e.tx.RevertMerge? && w' == Step(w, e)
    ensures Good(w', h)
  {
    ElseGood(w, h, w'.s);
  }

  lemma StepKeepsGood(w: World, h: Stacks, e: Event, w': World, h': Stacks)
    requires Good(w, h) && w' == Step(w, e) && h' == StacksAfter(w, h, e)
    ensures Good(w', h')
  {
    var t := w.s.now + 1 + e.gap;
    match e.tx {
      case MergeItems(x, d, cause, decision) => AfterMergeGood(w, h, x, d, cause, decision, t, w', h');
      case RevertMerge(id) => AfterRevertGood(w, h, id, t, w', h');
      case _ => OtherStepGood(w, h, e, w');
    }
  }

  lemma {:induction false} RunKeepsGood(w: World, es: seq<Event>)
    requires Initial(w)
    ensures Good(Run(w, es), RunStacks(w, es))
  {
    if es != [] {
      RunKeepsGood(w, es[..|es| - 1]);
      StepKeepsGood(Run(w, es[..|es| - 1]), RunStacks(w, es[..|es| - 1]), es[|es| - 1], Run(w, es), RunStacks(w, es));
    }
  }

  /** Over every run, the open rows are exactly the path-compressed form of the forest of
      direct merges. */
  lemma EveryRunIsCompressed(w: World, es: seq<Event>)
    requires Initial(w)
    ensures CompressedForm(Run(w, es).s, Run(w, es).f)
  {
    RunKeepsGood(w, es);
    InvIsCompressed(Run(w, es).s, RunStacks(w, es), Run(w, es).f);
  }

  /** In every reachable state, a revert is refused exactly for a missing, closed or
      compressed row; the predecessor mismatch never fires. */
  lemma EveryRevertDecided(w: World, es: seq<Event>, id: RowId, t: nat)
    requires Initial(w) && t > Run(w, es).s.now
    ensures var s := Run(w, es).s;
            Revert(s, id, t).Ok? <==> id in s.rows && s.rows[id].until.None? && s.rows[id].via.None?
    ensures Revert(Run(w, es).s, id, t) != Err(Mismatch)
  {
    RunKeepsGood(w, es);
    var s := Run(w, es).s;
    if id in s.rows && s.rows[id].until.None? && s.rows[id].via.None? {
      RevertSucceeds(s, RunStacks(w, es), id, t);
    }
  }
}
