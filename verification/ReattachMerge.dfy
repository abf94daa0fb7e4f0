/** The merge inside a re-attachment, and where every re-attached split resolves after a run
    (api/reattach.py, api/catalog_merge.py). */
module ReattachMerge {
  import opened Seqs
  import opened CatalogMerge
  import opened MergeForest
  import opened MergeRuns
  import opened MergeMeaning
  import opened AliasTable
  import opened Reattach
  import opened ReattachRun

  // ---- One transaction -------------------------------------------------------------------------------------------

  /** The row is the run's own: its cause and its decision. */
  ghost predicate RunsOwn(s: Tables, id: RowId, decision: nat) {
    id in s.rows && s.rows[id].cause == CatalogReattachment && s.rows[id].decision == decision
  }

  /** `x` was merged into `d`: one open row, into `d`, by this run if none was open before;
      nothing resolves to `x`; its references, and no others, went to `d`. */
  ghost predicate SplitMerged(s: Tables, s': Tables, x: Native, d: Native, decision: nat) {
    && Stacked(s') && RefsMoved(s.refs, s'.refs, x, d)
    && exists id :: MovedOnto(s', x, d, id) && (OpenRows(s, x) == {} ==> RunsOwn(s', id, decision))
  }

  /** The tables after the merge in a committed transaction. */
  lemma CommitsMerge(db: Db, k: MbKey, decision: nat)
    ensures var (db', o) := ReattachItem(db, k, decision);
            o.Reattached? ==>
              && CheckPair(db.s, o.split, o.discogs) == Ok(Existing(db.s, o.split, o.discogs))
              && db'.s == Merged(db.s, Existing(db.s, o.split, o.discogs), o.split, o.discogs, decision)
  {
    VerdictIs(db, k);
  }

  lemma MergedIs(s: Tables, existing: Option<RowId>, x: Native, d: Native, decision: nat, t: nat, s': Tables)
    requires Stacked(s) && CheckPair(s, x, d) == Ok(existing) && t > s.now && s' == MergeInto(s, existing, x, d, CatalogReattachment, decision, t).0
    ensures SplitMerged(s, s', x, d, decision)
  {
    var h :| Inv(s, h);
    var id := MergeInto(s, existing, x, d, CatalogReattachment, decision, t).1;
    MergedStacked(s, x, d, CatalogReattachment, decision, t);
    MergeIs(s, h, existing, x, d, CatalogReattachment, decision, t);
    MergedOnto(s, h, existing, x, d, CatalogReattachment, decision, t, s', id);
    PairIs(s, h, x, d, existing);
    assert OpenRows(s, x) == {} ==> RunsOwn(s', id, decision);
  }

  /** Every committed re-attachment merges its split into the Discogs item. */
  lemma ReattachMerges(db: Db, k: MbKey, decision: nat)
    requires Stacked(db.s)
    ensures var (db', o) := ReattachItem(db, k, decision);
            Stacked(db'.s) && (o.Reattached? ==> SplitMerged(db.s, db'.s, o.split, o.discogs, decision))
  {
    var (db', o) := ReattachItem(db, k, decision);
    CommitsMerge(db, k, decision);
    ItemOutcome(db, k, decision);
    if o.Reattached? {
      MergedAt(db.s, Existing(db.s, o.split, o.discogs), o.split, o.discogs, decision, db'.s);
    }
  }

  lemma MergedAt(s: Tables, existing: Option<RowId>, x: Native, d: Native, decision: nat, s': Tables)
    requires Stacked(s) && CheckPair(s, x, d) == Ok(existing) && s' == Merged(s, existing, x, d, decision)
    ensures SplitMerged(s, s', x, d, decision)
  {
    MergedIs(s, existing, x, d, decision, Later(s), s');
  }

  /** An unguarded split whose items can merge: its aliases, its cache and its merge all land on
      the Discogs item. */
  lemma SplitIsReattached(db: Db, k: MbKey, x: Native, d: Native, l: Link, decision: nat)
    requires Sound(db.aliases, db.s.now) && Stacked(db.s) && LinkOf(db, k) == Some(l) && SplitOf(l) == Some(x) && l.discogs == d
    requires LockItems(db.s, x, d).Ok? && !IsGuarded(db.aliases, x, k) && CurrentSupersession(db.s, x, d).Ok?
    ensures var (db', o) := ReattachItem(db, k, decision);
            && o == Reattached(x, d, |HeldBy(db.aliases, x)|, 0)
            && LinkOf(db', k) == Some(Link(d, d, Some(d))) && SplitMerged(db.s, db'.s, x, d, decision)
  {
    UnguardedIsRepaired(db, k, x, d, l, decision);
    ReattachMerges(db, k, decision);
    ItemOutcome(db, k, decision);
    OwnLink(db, ReattachItem(db, k, decision).0, k, x, d);
  }

  // ---- Resolution ---------------------------------------------------------------------------------------------------

  /** Where an item resolves: itself, or the survivor of its open row. */
  ghost predicate ResolvesTo(s: Tables, i: Native, r: Native) {
    if OpenRows(s, i) == {} then r == i else OpenTo(s, i, r)
  }

  /** Both resolve to one item. */
  ghost predicate Together(s: Tables, a: Native, b: Native) {
    exists r :: ResolvesTo(s, a, r) && ResolvesTo(s, b, r)
  }

  /** A merge sends what resolved to `x` to `d`, and nothing else anywhere. */
  lemma ResolvesAfter(s: Tables, h: Stacks, existing: Option<RowId>, x: Native, d: Native, cause: Cause, decision: nat, t: nat, s': Tables, id: RowId, i: Native, r: Native)
    requires Inv(s, h) && CheckPair(s, x, d) == Ok(existing) && MergeLeaves(s, existing, x, d, cause, decision, t, s', id) && ResolvesTo(s, i, r)
    ensures ResolvesTo(s', i, if r == x && existing.None? then d else r)
  {
    PairIs(s, h, x, d, existing);
    if existing.None? { ResolvesFresh(s, x, d, cause, decision, t, s', i, r); }
    else { assert OpenRows(s', i) == OpenRows(s, i); }
  }

  lemma StaysCurrent(s: Tables, x: Native, d: Native, cause: Cause, decision: nat, t: nat, s': Tables, i: Native)
    requires RowsOpened(s.rows, s'.rows, x, d, cause, decision, t) && OpenRows(s, x) == {} && OpenRows(s, d) == {} && x != d && i != x
    requires OpenRows(s, i) == {}
    ensures OpenRows(s', i) == {}
  {
    forall q | q in s'.rows && s'.rows[q].until.None? ensures s'.rows[q].superseded != i { OpenAfter(s, x, d, cause, decision, t, s', q); }
  }

  lemma StaysOpen(s: Tables, x: Native, d: Native, cause: Cause, decision: nat, t: nat, s': Tables, i: Native, r: Native)
    requires RowsOpened(s.rows, s'.rows, x, d, cause, decision, t) && OpenTo(s, i, r)
    ensures OpenTo(s', i, if r == x then d else r) && OpenRows(s', i) != {}
  {
    var p :| p in s.rows && s.rows[p].until.None? && s.rows[p].superseded == i && s.rows[p].survivor == r;
    if r == x {
      assert Rerouted(s'.rows, p, s.rows[p], x, d, t);
      assert RowId(t, i) in OpenRows(s', i);
    } else {
      assert p in OpenRows(s', i);
    }
  }

  lemma ResolvesFresh(s: Tables, x: Native, d: Native, cause: Cause, decision: nat, t: nat, s': Tables, i: Native, r: Native)
    requires RowsOpened(s.rows, s'.rows, x, d, cause, decision, t) && OpenRows(s, x) == {} && OpenRows(s, d) == {} && x != d && ResolvesTo(s, i, r)
    ensures ResolvesTo(s', i, if r == x then d else r)
  {
    if OpenRows(s, i) != {} {
      StaysOpen(s, x, d, cause, decision, t, s', i, r);
    } else if i == x {
      assert RowId(t, x) in OpenRows(s', x);
    } else {
      StaysCurrent(s, x, d, cause, decision, t, s', i);
    }
  }

  lemma TogetherStays(s: Tables, h: Stacks, existing: Option<RowId>, x: Native, d: Native, cause: Cause, decision: nat, t: nat, s': Tables, id: RowId, a: Native, b: Native)
    requires Inv(s, h) && CheckPair(s, x, d) == Ok(existing) && MergeLeaves(s, existing, x, d, cause, decision, t, s', id) && Together(s, a, b)
    ensures Together(s', a, b)
  {
    var r :| ResolvesTo(s, a, r) && ResolvesTo(s, b, r);
    ResolvesAfter(s, h, existing, x, d, cause, decision, t, s', id, a, r);
    ResolvesAfter(s, h, existing, x, d, cause, decision, t, s', id, b, r);
  }

  /** `a` is superseded, has no references, and resolves where `b` does. */
  ghost predicate Absorbed(s: Tables, a: Native, b: Native) {
    var holds := OpenRows(s, a) != {} && Together(s, a, b) && forall r :: r in s.refs ==> s.refs[r] != a;
    holds
  }

  lemma StaysSuperseded(s: Tables, h: Stacks, existing: Option<RowId>, x: Native, d: Native, cause: Cause, decision: nat, t: nat, s': Tables, id: RowId, a: Native)
    requires Inv(s, h) && CheckPair(s, x, d) == Ok(existing) && MergeLeaves(s, existing, x, d, cause, decision, t, s', id) && OpenRows(s, a) != {}
    ensures OpenRows(s', a) != {}
  {
    var p :| p in OpenRows(s, a);
    if existing.None? { StaysOpen(s, x, d, cause, decision, t, s', a, s.rows[p].survivor); } else { assert p in OpenRows(s', a); }
  }

  lemma StaysAbsorbed(s: Tables, h: Stacks, existing: Option<RowId>, x: Native, d: Native, cause: Cause, decision: nat, t: nat, s': Tables, id: RowId, a: Native, b: Native)
    requires Inv(s, h) && CheckPair(s, x, d) == Ok(existing) && MergeLeaves(s, existing, x, d, cause, decision, t, s', id) && Absorbed(s, a, b)
    ensures Absorbed(s', a, b)
  {
    PairIs(s, h, x, d, existing);
    TogetherStays(s, h, existing, x, d, cause, decision, t, s', id, a, b);
    StaysSuperseded(s, h, existing, x, d, cause, decision, t, s', id, a);
  }

  lemma StepAbsorbed(db: Db, k: MbKey, decision: nat, a: Native, b: Native)
    requires Stacked(db.s) && Absorbed(db.s, a, b)
    ensures Absorbed(ReattachItem(db, k, decision).0.s, a, b)
  {
    var (db', o) := ReattachItem(db, k, decision);
    CommitsMerge(db, k, decision);
    ItemOutcome(db, k, decision);
    if o.Reattached? {
      MergedAbsorbs(db.s, Existing(db.s, o.split, o.discogs), o.split, o.discogs, decision, db'.s, a, b);
    }
  }

  lemma MergedAbsorbs(s: Tables, existing: Option<RowId>, x: Native, d: Native, decision: nat, s': Tables, a: Native, b: Native)
    requires Stacked(s) && CheckPair(s, x, d) == Ok(existing) && s' == Merged(s, existing, x, d, decision) && Absorbed(s, a, b)
    ensures Absorbed(s', a, b)
  {
    AbsorbsAt(s, existing, x, d, decision, Later(s), s', a, b);
  }

  lemma AbsorbsAt(s: Tables, existing: Option<RowId>, x: Native, d: Native, decision: nat, t: nat, s': Tables, a: Native, b: Native)
    requires Stacked(s) && CheckPair(s, x, d) == Ok(existing) && t > s.now && Absorbed(s, a, b)
    requires s' == MergeInto(s, existing, x, d, CatalogReattachment, decision, t).0
    ensures Absorbed(s', a, b)
  {
    var h :| Inv(s, h);
    MergeIs(s, h, existing, x, d, CatalogReattachment, decision, t);
    StaysAbsorbed(s, h, existing, x, d, CatalogReattachment, decision, t, s', MergeInto(s, existing, x, d, CatalogReattachment, decision, t).1, a, b);
  }

  // ---- A run ------------------------------------------------------------------------------------------------------------

  lemma {:induction false} RunStacked(db: Db, ks: seq<MbKey>, decision: nat)
    requires Stacked(db.s)
    ensures Stacked(After(db, ks, decision).s)
  {
    if ks != [] {
      RunStacked(db, ks[..|ks| - 1], decision);
      ReattachMerges(After(db, ks[..|ks| - 1], decision), ks[|ks| - 1], decision);
    }
  }

  lemma {:induction false} StepsAbsorbed(db: Db, ks: seq<MbKey>, decision: nat, a: Native, b: Native)
    requires Stacked(db.s) && Absorbed(db.s, a, b)
    ensures Absorbed(After(db, ks, decision).s, a, b)
  {
    if ks != [] {
      StepsAbsorbed(db, ks[..|ks| - 1], decision, a, b);
      RunStacked(db, ks[..|ks| - 1], decision);
      StepAbsorbed(After(db, ks[..|ks| - 1], decision), ks[|ks| - 1], decision, a, b);
    }
  }

  lemma MergedIsAbsorbed(s: Tables, s': Tables, x: Native, d: Native, decision: nat)
    requires SplitMerged(s, s', x, d, decision)
    ensures Absorbed(s', x, d)
  {
    var id :| MovedOnto(s', x, d, id) && (OpenRows(s, x) == {} ==> RunsOwn(s', id, decision));
    assert OpenTo(s', x, d) && ResolvesTo(s', d, d);
  }

  /** After a run, the split of every row it re-attached has no reference and resolves where the
      row's Discogs item does, whatever the later rows of the run merged. */
  lemma RunAbsorbs(db: Db, ks: seq<MbKey>, decision: nat, i: nat)
    requires Stacked(db.s) && i < |ks| && OutcomeOf(db, ks, decision, i).Reattached?
    ensures var o := OutcomeOf(db, ks, decision, i); Absorbed(After(db, ks, decision).s, o.split, o.discogs)
  {
    var o, before := OutcomeOf(db, ks, decision, i), After(db, ks[..i], decision);
    RunStacked(db, ks[..i], decision);
    ItemAbsorbs(before, ks[i], decision, o);
    ReattachMerges(before, ks[i], decision);
    StepsAbsorbed(ReattachItem(before, ks[i], decision).0, ks[i + 1..], decision, o.split, o.discogs);
    AfterFrom(db, ks, decision, i);
  }

  lemma ItemAbsorbs(db: Db, k: MbKey, decision: nat, o: Outcome)
    requires Stacked(db.s) && o == ReattachItem(db, k, decision).1 && o.Reattached?
    ensures Absorbed(ReattachItem(db, k, decision).0.s, o.split, o.discogs)
  {
    ReattachMerges(db, k, decision);
    MergedIsAbsorbed(db.s, ReattachItem(db, k, decision).0.s, o.split, o.discogs, decision);
  }

  lemma AfterFrom(db: Db, ks: seq<MbKey>, decision: nat, i: nat)
    requires i < |ks|
    ensures After(db, ks, decision) == After(ReattachItem(After(db, ks[..i], decision), ks[i], decision).0, ks[i + 1..], decision)
  {
    assert ks == ks[..i + 1] + ks[i + 1..] && ks[..i + 1][..i] == ks[..i];
    AfterBoth(db, ks[..i + 1], ks[i + 1..], decision);
  }

  // ---- What a run achieves ------------------------------------------------------------------------------------------------

  /** The row's aliases are held by one item, and its cache does not say otherwise. */
  predicate Agrees(l: Link) {
    l.musicbrainz == l.discogs && (l.gm.Some? ==> l.gm.value == l.discogs)
  }

  lemma CandidateIff(db: Db, k: MbKey)
    ensures Candidate(db, k) <==> LinkOf(db, k).Some? && !Agrees(LinkOf(db, k).value)
  {
  }

  /** After an applying run every linked row agrees, but for those it visited and could not
      re-attach. */
  lemma RunAgrees(db: Db, batch: nat, decision: nat, k: MbKey)
    requires Sound(db.aliases, db.s.now) && batch > 0 && k.mbid > 0 && LinkOf(RunKinds(db, KINDS, batch, decision), k).Some?
    ensures Agrees(LinkOf(RunKinds(db, KINDS, batch, decision), k).value) || WasStopped(db, RunVisits(db, KINDS, batch, decision), decision, k)
  {
    CandidateIff(RunKinds(db, KINDS, batch, decision), k);
    if Candidate(RunKinds(db, KINDS, batch, decision), k) { RunLeaves(db, batch, decision, k); }
  }
}
