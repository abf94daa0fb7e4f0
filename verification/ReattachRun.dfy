/** An applying run of the re-attachment job over every candidate (api/reattach.py,
    `run_reattachment`). */
module ReattachRun {
  import opened Seqs
  import opened CatalogMerge
  import opened AliasTable
  import opened Reattach

  // ---- What a repair does to the candidates ----------------------------------------------------------------------

  /** An unguarded item holds no key of another row, and no Discogs key. */
  lemma HoldsNoOther(aliases: seq<Alias>, x: Native, k: MbKey, key: Key)
    requires !SharedNative(aliases, x, k) && !IsIdentifier(key.provider) && key != MbAlias(k)
    ensures Holder(aliases, key, None) != Some(x)
  {
  }

  lemma SameMbAlias(k: MbKey, k': MbKey)
    requires MbAlias(k) == MbAlias(k')
    ensures k == k'
  {
  }

  /** How another row's link can change: only its cache, and only to its own alias. */
  ghost predicate Kept(l: Option<Link>, l': Option<Link>) {
    && l.Some? == l'.Some?
    && (l.Some? ==> l'.value.musicbrainz == l.value.musicbrainz && l'.value.discogs == l.value.discogs
                    && (l'.value.gm == l.value.gm || l'.value.gm == Some(l.value.musicbrainz)))
  }

  lemma OtherHolders(db: Db, db': Db, k: MbKey, x: Native, d: Native, key: Key)
    requires Repaired(db, db', k, x, d) && Sound(db.aliases, db.s.now) && !IsIdentifier(key.provider) && key != MbAlias(k)
    ensures Holder(db'.aliases, key, None) == Holder(db.aliases, key, None)
  {
    HoldsNoOther(db.aliases, x, k, key);
    CurrentHolders(db.aliases, db.s.now, x, d, db.s.now + 1, key);
  }

  lemma OtherLink(db: Db, db': Db, k: MbKey, x: Native, d: Native, k': MbKey)
    requires Repaired(db, db', k, x, d) && Sound(db.aliases, db.s.now) && k' != k
    ensures Kept(LinkOf(db, k'), LinkOf(db', k'))
    ensures LinkOf(db, k').Some? && LinkOf(db, k').value.gm == Some(x) && EntityKind(k'.kind) == db.s.kinds[x] ==>
              LinkOf(db', k').value.gm == Some(LinkOf(db, k').value.musicbrainz)
  {
    if k' in db.mb {
      if MbAlias(k') == MbAlias(k) { SameMbAlias(k, k'); }
      OtherHolders(db, db', k, x, d, MbAlias(k'));
      if db.mb[k'].discogs.Some? { OtherHolders(db, db', k, x, d, DiscogsAlias(k', db.mb[k'].discogs.value)); }
    }
  }

  /** The repaired row itself agrees with its Discogs item everywhere. */
  lemma OwnLink(db: Db, db': Db, k: MbKey, x: Native, d: Native)
    requires Repaired(db, db', k, x, d) && Sound(db.aliases, db.s.now)
    ensures LinkOf(db', k) == Some(Link(d, d, Some(d)))
  {
    OtherHolders(db, db', k, x, d, DiscogsAlias(k, db.mb[k].discogs.value));
    CurrentHolders(db.aliases, db.s.now, x, d, db.s.now + 1, MbAlias(k));
  }

  /** A transaction makes no row a candidate, and a repaired row is one no longer. */
  lemma NoNewCandidate(db: Db, k: MbKey, decision: nat, k': MbKey)
    requires Sound(db.aliases, db.s.now)
    ensures var (db', o) := ReattachItem(db, k, decision);
            && (Candidate(db', k') ==> Candidate(db, k'))
            && (o.Reattached? ==> !Candidate(db', k))
            && Sound(db'.aliases, db'.s.now) && db'.mb.Keys == db.mb.Keys
  {
    var (db', o) := ReattachItem(db, k, decision);
    ItemOutcome(db, k, decision);
    if o.Reattached? {
      ReheldSound(db.aliases, db.s.now, o.split, o.discogs, db.s.now + 1);
      OwnLink(db, db', k, o.split, o.discogs);
      if k' != k { OtherLink(db, db', k, o.split, o.discogs, k'); }
    }
  }

  // ---- Guards persist --------------------------------------------------------------------------------------------

  /** A stale row's cached item is of the kind its table holds. */
  predicate StaleTypedRow(db: Db, k: MbKey) {
    match LinkOf(db, k)
    case None => true
    case Some(l) => l.musicbrainz == l.discogs && l.gm.Some? && l.gm.value != l.discogs ==>
      l.gm.value in db.s.kinds && db.s.kinds[l.gm.value] == EntityKind(k.kind)
  }

  /** The item that holds a row's Discogs alias is of the kind the alias names. */
  predicate HolderTyped(db: Db, k: MbKey) {
    match LinkOf(db, k)
    case None => true
    case Some(l) => l.discogs in db.s.kinds ==> db.s.kinds[l.discogs] == EntityKind(k.kind)
  }

  ghost predicate HoldersTyped(db: Db) {
    forall k :: k in db.mb ==> HolderTyped(db, k)
  }

  lemma RepairKeepsHolder(db: Db, db': Db, k: MbKey, x: Native, d: Native, k': MbKey)
    requires Repaired(db, db', k, x, d) && Sound(db.aliases, db.s.now) && HolderTyped(db, k')
    ensures HolderTyped(db', k')
  {
    if k' == k { OwnLink(db, db', k, x, d); } else { OtherLink(db, db', k, x, d, k'); }
  }

  /** A stale row whose cache names an item of another kind cannot reach the guards: the items
      cannot be locked together. */
  lemma GuardedIsTyped(db: Db, k: MbKey, decision: nat)
    requires HolderTyped(db, k) && ReattachItem(db, k, decision).1.Guarded?
    ensures StaleTypedRow(db, k)
  {
  }

  lemma RepairKeepsTyped(db: Db, db': Db, k: MbKey, x: Native, d: Native, k': MbKey)
    requires Repaired(db, db', k, x, d) && Sound(db.aliases, db.s.now) && StaleTypedRow(db, k')
    ensures StaleTypedRow(db', k')
  {
    if k' == k { OwnLink(db, db', k, x, d); } else { OtherLink(db, db', k, x, d, k'); }
  }

  /** What still holds an offending alias after the repair. */
  lemma OffenceStays(db: Db, db': Db, k: MbKey, x: Native, d: Native, y: Native, k': MbKey)
    requires Repaired(db, db', k, x, d) && Sound(db.aliases, db.s.now) && y != x && IsGuarded(db.aliases, y, k')
    ensures IsGuarded(db'.aliases, y, k')
  {
    var a :| a in db.aliases && Holds(a, y) && ((!IsIdentifier(a.key.provider) && a.key != MbAlias(k')) || a.source != CATALOG);
    ReheldIs(db.aliases, db.s.now, x, d, db.s.now + 1);
    var i :| 0 <= i < |db.aliases| && db.aliases[i] == a;
    assert db'.aliases[i] == a;
  }

  /** If the repair took the item another row was guarded over, that row was stale on it. */
  lemma TakenWasStale(db: Db, db': Db, k: MbKey, x: Native, d: Native, k': MbKey)
    requires Repaired(db, db', k, x, d) && k' != k && GuardedNow(db, k') && SplitOf(LinkOf(db, k').value) == Some(x)
    ensures var l := LinkOf(db, k').value; l.musicbrainz == l.discogs && l.gm == Some(x)
  {
    if MbAlias(k') == MbAlias(k) { SameMbAlias(k, k'); }
    HoldsNoOther(db.aliases, x, k, MbAlias(k'));
  }

  lemma RepairKeepsGuard(db: Db, db': Db, k: MbKey, x: Native, d: Native, k': MbKey)
    requires Repaired(db, db', k, x, d) && Sound(db.aliases, db.s.now) && GuardedNow(db, k') && k' != k && StaleTypedRow(db, k')
    ensures Candidate(db', k') ==> GuardedNow(db', k')
  {
    var y := SplitOf(LinkOf(db, k').value).value;
    OtherLink(db, db', k, x, d, k');
    if y == x {
      TakenWasStale(db, db', k, x, d, k');
    } else {
      OffenceStays(db, db', k, x, d, y, k');
    }
  }

  // ---- A run -------------------------------------------------------------------------------------------------------

  /** The database after each of the rows in turn. */
  ghost function After(db: Db, ks: seq<MbKey>, decision: nat): Db {
    if ks == [] then db else ReattachItem(After(db, ks[..|ks| - 1], decision), ks[|ks| - 1], decision).0
  }

  /** What became of the `i`th row. */
  ghost function OutcomeOf(db: Db, ks: seq<MbKey>, decision: nat, i: nat): Outcome
    requires i < |ks|
  {
    ReattachItem(After(db, ks[..i], decision), ks[i], decision).1
  }

  /** The keys of the kind's candidates past the cursor. */
  ghost function Ahead(db: Db, kind: SplitKind, cursor: nat): set<nat> {
    set k | k in db.mb && k.kind == kind && k.mbid > cursor && Candidate(db, k) :: k.mbid
  }

  ghost function Least(s: set<nat>): (m: nat)
    requires s != {}
    ensures m in s && forall n :: n in s ==> m <= n
  {
    LeastExists(s);
    var m :| IsLeast(s, m);
    m
  }

  ghost predicate IsLeast(s: set<nat>, m: nat) { m in s && forall n :: n in s ==> m <= n }

  lemma LeastOfTwo(s: set<nat>, n: nat, m: nat)
    requires n in s && IsLeast(s - {n}, m)
    ensures IsLeast(s, if m <= n then m else n)
  {
    assert forall n' :: n' in s ==> n' == n || n' in s - {n};
  }

  lemma {:induction false} LeastExists(s: set<nat>)
    requires s != {}
    ensures exists m :: IsLeast(s, m)
  {
    var n :| n in s;
    if s == {n} {
      assert IsLeast(s, n);
    } else {
      LeastExists(s - {n});
      var m :| IsLeast(s - {n}, m);
      LeastOfTwo(s, n, m);
    }
  }

  /** `_CANDIDATE_PAGE`: at most `n` candidates past the cursor, in key order. */
  ghost function Page(db: Db, kind: SplitKind, cursor: nat, n: nat): seq<MbKey>
    decreases n
  {
    if n == 0 || Ahead(db, kind, cursor) == {} then []
    else var m := Least(Ahead(db, kind, cursor)); [MbKey(kind, m)] + Page(db, kind, m, n - 1)
  }

  /** The kind's rows not yet passed. */
  ghost function Unpassed(db: Db, kind: SplitKind, cursor: nat): set<MbKey> {
    set k | k in db.mb && k.kind == kind && k.mbid > cursor
  }

  /** The rows the paging loop visits for one kind: each page is read from the database the
      rows before it left. */
  ghost function Visits(db: Db, kind: SplitKind, cursor: nat, batch: nat, decision: nat): seq<MbKey>
    decreases |Unpassed(db, kind, cursor)|
  {
    var page := Page(db, kind, cursor, batch);
    if page == [] then []
    else
      PageAdvances(db, kind, cursor, batch, decision);
      page + Visits(After(db, page, decision), kind, page[|page| - 1].mbid, batch, decision)
  }

  lemma {:induction false} AfterKeepsRows(db: Db, ks: seq<MbKey>, decision: nat)
    ensures After(db, ks, decision).mb.Keys == db.mb.Keys
  {
    if ks != [] {
      AfterKeepsRows(db, ks[..|ks| - 1], decision);
      ItemOutcome(After(db, ks[..|ks| - 1], decision), ks[|ks| - 1], decision);
    }
  }

  ghost predicate PageOk(db: Db, kind: SplitKind, cursor: nat, page: seq<MbKey>) {
    && (forall k :: k in page ==> k in db.mb && k.kind == kind && k.mbid > cursor && Candidate(db, k))
    && (page != [] ==> forall k :: k in page ==> k.mbid <= page[|page| - 1].mbid)
    && (page != [] ==> forall m :: m in Ahead(db, kind, cursor) && m <= page[|page| - 1].mbid ==> MbKey(kind, m) in page)
  }

  lemma PageGrows(db: Db, kind: SplitKind, cursor: nat, m: nat, rest: seq<MbKey>)
    requires Ahead(db, kind, cursor) != {} && m == Least(Ahead(db, kind, cursor)) && PageOk(db, kind, m, rest)
    ensures PageOk(db, kind, cursor, [MbKey(kind, m)] + rest)
  {
  }

  /** A page holds candidates past the cursor, in ascending order, and skips none. */
  lemma {:induction false} PageIs(db: Db, kind: SplitKind, cursor: nat, n: nat)
    ensures PageOk(db, kind, cursor, Page(db, kind, cursor, n))
    ensures Page(db, kind, cursor, n) == [] ==> n == 0 || Ahead(db, kind, cursor) == {}
    decreases n
  {
    if Page(db, kind, cursor, n) != [] {
      var m := Least(Ahead(db, kind, cursor));
      PageIs(db, kind, m, n - 1);
      PageGrows(db, kind, cursor, m, Page(db, kind, m, n - 1));
    }
  }

  lemma PageAdvances(db: Db, kind: SplitKind, cursor: nat, batch: nat, decision: nat)
    requires Page(db, kind, cursor, batch) != []
    ensures var page := Page(db, kind, cursor, batch);
            |Unpassed(After(db, page, decision), kind, page[|page| - 1].mbid)| < |Unpassed(db, kind, cursor)|
  {
    var page := Page(db, kind, cursor, batch);
    var last := page[|page| - 1];
    PageIs(db, kind, cursor, batch);
    AfterKeepsRows(db, page, decision);
    assert last in page;
    var rest := Unpassed(After(db, page, decision), kind, last.mbid);
    assert rest <= Unpassed(db, kind, cursor) - {last};
    Subset(rest, Unpassed(db, kind, cursor) - {last});
  }

  // ---- What a run leaves -------------------------------------------------------------------------------------------

  lemma {:induction false} StepsKeep(db: Db, ks: seq<MbKey>, decision: nat, i: nat, k: MbKey)
    requires Sound(db.aliases, db.s.now) && i <= |ks|
    ensures Sound(After(db, ks, decision).aliases, After(db, ks, decision).s.now)
    ensures Candidate(After(db, ks, decision), k) ==> Candidate(After(db, ks[..i], decision), k)
    decreases |ks|
  {
    if i == |ks| { assert ks[..i] == ks; }
    if ks != [] {
      var init := ks[..|ks| - 1];
      StepsKeep(db, init, decision, if i < |ks| then i else 0, k);
      NoNewCandidate(After(db, init, decision), ks[|ks| - 1], decision, k);
      if i < |ks| { assert init[..i] == ks[..i]; }
    }
  }

  lemma {:induction false} AfterBoth(db: Db, a: seq<MbKey>, b: seq<MbKey>, decision: nat)
    ensures After(db, a + b, decision) == After(After(db, a, decision), b, decision)
    decreases |b|
  {
    if b == [] {
      assert a + b == a;
    } else {
      var init := b[..|b| - 1];
      AfterBoth(db, a, init, decision);
      assert (a + b)[..|a + b| - 1] == a + init;
    }
  }

  /** A row that is still a candidate when the run ends was guarded or failed when visited. */
  lemma VisitedIsStopped(db: Db, ks: seq<MbKey>, decision: nat, i: nat)
    requires Sound(db.aliases, db.s.now) && i < |ks| && Candidate(After(db, ks, decision), ks[i])
    ensures OutcomeOf(db, ks, decision, i).Guarded? || OutcomeOf(db, ks, decision, i).Failed?
  {
    StepsKeep(db, ks, decision, i, ks[i]);
    StepsKeep(db, ks, decision, i + 1, ks[i]);
    var before := After(db, ks[..i], decision);
    StepsKeep(db, ks[..i], decision, 0, ks[i]);
    assert ks[..i + 1][..i] == ks[..i];
    ItemOutcome(before, ks[i], decision);
    NoNewCandidate(before, ks[i], decision, ks[i]);
  }

  /** The paging loop passes over no row that is a candidate throughout. */
  lemma {:induction false} VisitsCover(db: Db, kind: SplitKind, cursor: nat, batch: nat, decision: nat, k: MbKey)
    requires Sound(db.aliases, db.s.now) && batch > 0 && k.kind == kind && k.mbid > cursor
    requires Candidate(After(db, Visits(db, kind, cursor, batch, decision), decision), k)
    ensures k in Visits(db, kind, cursor, batch, decision)
    decreases |Unpassed(db, kind, cursor)|
  {
    var page, visits := Page(db, kind, cursor, batch), Visits(db, kind, cursor, batch, decision);
    StepsKeep(db, visits, decision, 0, k);
    assert k in db.mb;
    PageIs(db, kind, cursor, batch);
    assert k.mbid in Ahead(db, kind, cursor);
    var next, last := After(db, page, decision), page[|page| - 1].mbid;
    var rest := Visits(next, kind, last, batch, decision);
    assert visits == page + rest;
    if k.mbid > last {
      PageAdvances(db, kind, cursor, batch, decision);
      AfterBoth(db, page, rest, decision);
      StepsKeep(db, page, decision, 0, k);
      VisitsCover(next, kind, last, batch, decision, k);
    }
  }

  const KINDS: seq<SplitKind> := [Release, ReleaseGroup, Artist, Label]

  /** Every row an applying run visits, kind by kind. */
  ghost function RunVisits(db: Db, kinds: seq<SplitKind>, batch: nat, decision: nat): seq<MbKey>
    decreases |kinds|
  {
    if kinds == [] then []
    else
      var ks := Visits(db, kinds[0], 0, batch, decision);
      ks + RunVisits(After(db, ks, decision), kinds[1..], batch, decision)
  }

  ghost function RunKinds(db: Db, kinds: seq<SplitKind>, batch: nat, decision: nat): Db {
    After(db, RunVisits(db, kinds, batch, decision), decision)
  }

  lemma {:induction false} RunCovers(db: Db, kinds: seq<SplitKind>, batch: nat, decision: nat, k: MbKey)
    requires Sound(db.aliases, db.s.now) && batch > 0 && k.kind in kinds && k.mbid > 0
    requires Candidate(RunKinds(db, kinds, batch, decision), k)
    ensures k in RunVisits(db, kinds, batch, decision)
    decreases |kinds|
  {
    var ks := Visits(db, kinds[0], 0, batch, decision);
    var next := After(db, ks, decision);
    var rest := RunVisits(next, kinds[1..], batch, decision);
    AfterBoth(db, ks, rest, decision);
    StepsKeep(db, ks, decision, 0, k);
    StepsKeep(next, rest, decision, 0, k);
    if k.kind == kinds[0] {
      assert rest[..0] == [];
      VisitsCover(db, kinds[0], 0, batch, decision, k);
    } else {
      RunCovers(next, kinds[1..], batch, decision, k);
    }
  }

  /** The keyset passes over what is not past its cursor, and a batch of none reads nothing. */
  lemma {:induction false} VisitsPast(db: Db, kind: SplitKind, cursor: nat, batch: nat, decision: nat, k: MbKey)
    requires k in Visits(db, kind, cursor, batch, decision)
    ensures k.mbid > cursor && batch > 0
    decreases |Unpassed(db, kind, cursor)|
  {
    var page := Page(db, kind, cursor, batch);
    PageIs(db, kind, cursor, batch);
    if k !in page {
      PageAdvances(db, kind, cursor, batch, decision);
      VisitsPast(After(db, page, decision), kind, page[|page| - 1].mbid, batch, decision, k);
      assert page[|page| - 1] in page;
    }
  }

  lemma {:induction false} RunPast(db: Db, kinds: seq<SplitKind>, batch: nat, decision: nat, k: MbKey)
    requires k in RunVisits(db, kinds, batch, decision)
    ensures k.mbid > 0 && batch > 0
    decreases |kinds|
  {
    var ks := Visits(db, kinds[0], 0, batch, decision);
    if k in ks {
      VisitsPast(db, kinds[0], 0, batch, decision, k);
    } else {
      RunPast(After(db, ks, decision), kinds[1..], batch, decision, k);
    }
  }

  /** A row that is a candidate throughout is visited exactly when it is not under the nil id,
      which the keyset starts after. */
  lemma VisitedIff(db: Db, batch: nat, decision: nat, k: MbKey)
    requires Sound(db.aliases, db.s.now) && Candidate(RunKinds(db, KINDS, batch, decision), k)
    ensures k in RunVisits(db, KINDS, batch, decision) <==> k.mbid > 0 && batch > 0
  {
    if k in RunVisits(db, KINDS, batch, decision) {
      RunPast(db, KINDS, batch, decision, k);
    } else if k.mbid > 0 && batch > 0 {
      assert k.kind in KINDS by {
        assert KINDS[0] == Release && KINDS[1] == ReleaseGroup && KINDS[2] == Artist && KINDS[3] == Label;
      }
      RunCovers(db, KINDS, batch, decision, k);
    }
  }

  /** Row `k` was visited, and its transaction was guarded or failed. */
  ghost predicate WasStopped(db: Db, ks: seq<MbKey>, decision: nat, k: MbKey) {
    exists i :: 0 <= i < |ks| && ks[i] == k && (OutcomeOf(db, ks, decision, i).Guarded? || OutcomeOf(db, ks, decision, i).Failed?)
  }

  /** A run makes no row a candidate, and the rows it leaves as candidates are those whose
      transaction was guarded or failed, and those under the nil id. */
  lemma RunLeaves(db: Db, batch: nat, decision: nat, k: MbKey)
    requires Sound(db.aliases, db.s.now) && Candidate(RunKinds(db, KINDS, batch, decision), k)
    ensures Candidate(db, k)
    ensures WasStopped(db, RunVisits(db, KINDS, batch, decision), decision, k) <==> k.mbid > 0 && batch > 0
  {
    var ks := RunVisits(db, KINDS, batch, decision);
    StepsKeep(db, ks, decision, 0, k);
    VisitedIff(db, batch, decision, k);
    if k in ks {
      var i :| 0 <= i < |ks| && ks[i] == k;
      VisitedIsStopped(db, ks, decision, i);
    }
  }

  // ---- A second run ---------------------------------------------------------------------------------------------------

  lemma StepKeepsGuard(db: Db, k: MbKey, decision: nat, k': MbKey)
    requires Sound(db.aliases, db.s.now) && StaleTypedRow(db, k') && GuardedNow(db, k')
    ensures var db' := ReattachItem(db, k, decision).0; Candidate(db', k') ==> GuardedNow(db', k')
  {
    var (db', o) := ReattachItem(db, k, decision);
    ItemOutcome(db, k, decision);
    if k == k' {
      GuardedStays(db, k, decision);
    } else if o.Reattached? {
      RepairKeepsGuard(db, db', k, o.split, o.discogs, k');
    }
  }

  lemma StepKeepsTyped(db: Db, k: MbKey, decision: nat, k': MbKey)
    requires Sound(db.aliases, db.s.now) && StaleTypedRow(db, k')
    ensures StaleTypedRow(ReattachItem(db, k, decision).0, k')
  {
    var (db', o) := ReattachItem(db, k, decision);
    ItemOutcome(db, k, decision);
    if o.Reattached? { RepairKeepsTyped(db, db', k, o.split, o.discogs, k'); }
  }

  lemma {:induction false} StepsKeepTyped(db: Db, ks: seq<MbKey>, decision: nat, k: MbKey)
    requires Sound(db.aliases, db.s.now) && StaleTypedRow(db, k)
    ensures StaleTypedRow(After(db, ks, decision), k)
  {
    if ks != [] {
      var init := ks[..|ks| - 1];
      StepsKeepTyped(db, init, decision, k);
      StepsKeep(db, init, decision, 0, k);
      StepKeepsTyped(After(db, init, decision), ks[|ks| - 1], decision, k);
    }
  }

  /** The typing of Discogs holders is an invariant of re-attachment. */
  lemma {:induction false} StepsKeepHolder(db: Db, ks: seq<MbKey>, decision: nat, k: MbKey)
    requires Sound(db.aliases, db.s.now) && HolderTyped(db, k)
    ensures HolderTyped(After(db, ks, decision), k)
  {
    if ks != [] {
      var init, last := ks[..|ks| - 1], ks[|ks| - 1];
      StepsKeepHolder(db, init, decision, k);
      StepsKeep(db, init, decision, 0, k);
      var mid := After(db, init, decision);
      ItemOutcome(mid, last, decision);
      var (db', o) := ReattachItem(mid, last, decision);
      if o.Reattached? { RepairKeepsHolder(mid, db', last, o.split, o.discogs, k); }
    }
  }

  /** Once guarded, a row stays guarded for as long as it is a candidate. */
  lemma {:induction false} StepsKeepGuard(db: Db, ks: seq<MbKey>, decision: nat, k: MbKey)
    requires Sound(db.aliases, db.s.now) && StaleTypedRow(db, k) && GuardedNow(db, k) && Candidate(After(db, ks, decision), k)
    ensures GuardedNow(After(db, ks, decision), k)
  {
    if ks != [] {
      var init, last := ks[..|ks| - 1], ks[|ks| - 1];
      StepsKeep(db, init, decision, 0, k);
      NoNewCandidate(After(db, init, decision), last, decision, k);
      StepsKeepGuard(db, init, decision, k);
      StepsKeepTyped(db, init, decision, k);
      StepKeepsGuard(After(db, init, decision), last, decision, k);
    }
  }

  /** A row guarded at its visit and still a candidate at the end is guarded at the end. */
  lemma GuardedAtEnd(db: Db, ks: seq<MbKey>, decision: nat, i: nat)
    requires Sound(db.aliases, db.s.now) && i < |ks| && HolderTyped(db, ks[i])
    requires OutcomeOf(db, ks, decision, i).Guarded? && Candidate(After(db, ks, decision), ks[i])
    ensures GuardedNow(After(db, ks, decision), ks[i])
  {
    var before := After(db, ks[..i], decision);
    ItemOutcome(before, ks[i], decision);
    StepsKeep(db, ks[..i], decision, 0, ks[i]);
    StepsKeepHolder(db, ks[..i], decision, ks[i]);
    GuardedIsTyped(before, ks[i], decision);
    assert ks == ks[..i] + ks[i..];
    AfterBoth(db, ks[..i], ks[i..], decision);
    StepsKeepGuard(before, ks[i..], decision, ks[i]);
  }

  lemma {:induction false} NothingLeft(db: Db, ks: seq<MbKey>, decision: nat)
    requires forall k :: k in ks && Candidate(db, k) ==> GuardedNow(db, k)
    ensures After(db, ks, decision) == db
  {
    if ks != [] {
      NothingLeft(db, ks[..|ks| - 1], decision);
      var k := ks[|ks| - 1];
      ItemOutcome(db, k, decision);
      if Candidate(db, k) { GuardedStays(db, k, decision); }
    }
  }

  ghost predicate NoneFailed(db: Db, ks: seq<MbKey>, decision: nat) {
    forall i :: 0 <= i < |ks| ==> !OutcomeOf(db, ks, decision, i).Failed?
  }

  /** A candidate that a run leaves and did not pass over is guarded, if none failed. */
  lemma LeftIsGuarded(db: Db, batch: nat, decision: nat, ks: seq<MbKey>, k: MbKey)
    requires Sound(db.aliases, db.s.now) && batch > 0 && k.mbid > 0 && HolderTyped(db, k)
    requires ks == RunVisits(db, KINDS, batch, decision) && NoneFailed(db, ks, decision) && Candidate(After(db, ks, decision), k)
    ensures GuardedNow(After(db, ks, decision), k)
  {
    RunLeaves(db, batch, decision, k);
    var i :| 0 <= i < |ks| && ks[i] == k && (OutcomeOf(db, ks, decision, i).Guarded? || OutcomeOf(db, ks, decision, i).Failed?);
    GuardedAtEnd(db, ks, decision, i);
  }

  lemma RunKeepsHolders(db: Db, ks: seq<MbKey>, decision: nat)
    requires Sound(db.aliases, db.s.now) && HoldersTyped(db)
    ensures HoldersTyped(After(db, ks, decision)) && After(db, ks, decision).mb.Keys == db.mb.Keys
  {
    AfterKeepsRows(db, ks, decision);
    forall k | k in db.mb ensures HolderTyped(After(db, ks, decision), k) { StepsKeepHolder(db, ks, decision, k); }
  }

  /** While Discogs aliases are held by items of their own kind, which a run keeps so: if no row
      failed, a second run writes nothing. */
  lemma SecondRunWritesNothing(db: Db, batch: nat, decision: nat, batch': nat, decision': nat)
    requires Sound(db.aliases, db.s.now) && batch > 0 && HoldersTyped(db)
    requires NoneFailed(db, RunVisits(db, KINDS, batch, decision), decision)
    ensures var once := RunKinds(db, KINDS, batch, decision); RunKinds(once, KINDS, batch', decision') == once && HoldersTyped(once)
  {
    var ks := RunVisits(db, KINDS, batch, decision);
    var once := After(db, ks, decision);
    var again := RunVisits(once, KINDS, batch', decision');
    RunKeepsHolders(db, ks, decision);
    forall k | k in again && Candidate(once, k) ensures GuardedNow(once, k) {
      RunPast(once, KINDS, batch', decision', k);
      LinkedIsRow(once, k);
      LeftIsGuarded(db, batch, decision, ks, k);
    }
    NothingLeft(once, again, decision');
  }

  // ---- The alias history over any run of writers ----------------------------------------------------------------------

  /** A loader attaching a key that nothing holds yet, a re-attachment, or time passing while
      other tables change. */
  datatype AliasEvent =
    | Attach(key: Key, native: Native, source: string, confidence: real)
    | ReattachRow(k: MbKey, decision: nat)
    | Elsewhere(s: Tables, mb: map<MbKey, MbRow>)

  ghost function AliasStep(db: Db, e: AliasEvent): Db {
    match e
    case Attach(key, native, source, confidence) =>
      var t := db.s.now + 1;
      db.(aliases := InsertFree(db.aliases, Alias(key, native, source, confidence, t, None)), s := db.s.(now := t))
    case ReattachRow(k, decision) => ReattachItem(db, k, decision).0
    case Elsewhere(s, mb) => Db(s.(now := db.s.now + 1), db.aliases, mb)
  }

  ghost function AliasRun(db: Db, es: seq<AliasEvent>): Db {
    if es == [] then db else AliasStep(AliasRun(db, es[..|es| - 1]), es[|es| - 1])
  }

  /** The past is as it was, and no key held by anyone was dropped. */
  ghost predicate PastKept(db: Db, db': Db) {
    && Sound(db'.aliases, db'.s.now) && db.s.now <= db'.s.now
    && (forall key, u: nat :: u <= db.s.now ==> Holder(db'.aliases, key, Some(u)) == Holder(db.aliases, key, Some(u)))
    && (forall key :: Holder(db.aliases, key, None).Some? ==> Holder(db'.aliases, key, None).Some?)
  }

  lemma LaterSound(aliases: seq<Alias>, now: nat, t: nat)
    requires Sound(aliases, now) && t >= now
    ensures Sound(aliases, t)
  {
  }

  lemma InsertKeeps(aliases: seq<Alias>, now: nat, a: Alias)
    requires Sound(aliases, now) && a.from == now + 1 && a.until.None?
    ensures Sound(InsertFree(aliases, a), now + 1)
    ensures forall key, u: nat :: u <= now ==> Holder(InsertFree(aliases, a), key, Some(u)) == Holder(aliases, key, Some(u))
    ensures forall key :: Holder(aliases, key, None).Some? ==> Holder(InsertFree(aliases, a), key, None).Some?
  {
    LaterSound(aliases, now, now + 1);
    HolderIsValid(aliases, a.key, None);
    if Holder(aliases, a.key, None).None? {
      var after := aliases + [a];
      forall i, j | 0 <= i < j < |after| && after[i].key == after[j].key ensures Apart(after[i], after[j]) {
        if j == |aliases| { assert Dated(aliases[i], now) && !Valid(aliases[i], None); }
      }
      forall key, u: nat | u <= now ensures Holder(after, key, Some(u)) == Holder(aliases, key, Some(u)) {
        HolderOfBoth(aliases, [a], key, Some(u));
      }
      forall key | Holder(aliases, key, None).Some? ensures Holder(after, key, None).Some? { HolderOfBoth(aliases, [a], key, None); }
    }
  }

  lemma StepKeepsPast(db: Db, e: AliasEvent)
    requires Sound(db.aliases, db.s.now)
    ensures PastKept(db, AliasStep(db, e))
  {
    match e {
      case Attach(key, native, source, confidence) =>
        InsertKeeps(db.aliases, db.s.now, Alias(key, native, source, confidence, db.s.now + 1, None));
      case ReattachRow(k, decision) =>
        var (db', o) := ReattachItem(db, k, decision);
        HistoryKept(db, k, decision, db', o);
        ItemOutcome(db, k, decision);
      case Elsewhere(_, _) => LaterSound(db.aliases, db.s.now, db.s.now + 1);
    }
  }

  /** Over every run of loaders and re-attachments the alias history is never rewritten or
      lost: each key has at most one holder at every instant, every instant's holder stays what
      it was, and a held key stays held. */
  lemma {:induction false} EveryRunKeepsPast(db: Db, es: seq<AliasEvent>)
    requires Sound(db.aliases, db.s.now)
    ensures PastKept(db, AliasRun(db, es))
  {
    if es != [] {
      EveryRunKeepsPast(db, es[..|es| - 1]);
      StepKeepsPast(AliasRun(db, es[..|es| - 1]), es[|es| - 1]);
    }
  }
}
