/** Why a second run can write when a Discogs alias is held by an item of another kind
    (api/reattach.py, api/catalog_merge.py). */
module ReattachExample {
  import opened Seqs
  import opened CatalogMerge
  import opened AliasTable
  import opened Reattach
  import opened ReattachRun

  function Row0(provider: Provider, kind: Kind, external: nat, native: Native): Alias {
    Alias(Key(provider, kind, external), native, CATALOG, 1.0, 0, None)
  }

  /** Items 1 and 2 are artists. Release row 5 is attached to item 2 but cached on item 1,
      which artist row 7 still holds. */
  function Mixed(): Db {
    Db(Tables(map[1 := "artist", 2 := "artist"], map[], map[], map[], 0),
       [Row0(MusicBrainz, "artist", 7, 1), Row0(Discogs, "artist", 8, 2), Row0(MusicBrainz, "release", 5, 2), Row0(Discogs, "release", 6, 2)],
       map[MbKey(Release, 5) := MbRow(Some(6), Some(1)), MbKey(Artist, 7) := MbRow(Some(8), None)])
  }

  lemma MixedLinks()
    ensures Sound(Mixed().aliases, 0)
    ensures LinkOf(Mixed(), MbKey(Release, 5)) == Some(Link(2, 2, Some(1)))
    ensures LinkOf(Mixed(), MbKey(Artist, 7)) == Some(Link(1, 2, None))
  {
  }

  lemma MixedAhead(kind: SplitKind, cursor: nat)
    ensures Ahead(Mixed(), kind, cursor) ==
            if kind == Release && cursor < 5 then {5} else if kind == Artist && cursor < 7 then {7} else {}
  {
  }

  lemma MixedShared()
    ensures SharedNative(Mixed().aliases, 1, MbKey(Release, 5)) && !NonCatalog(Mixed().aliases, 1)
  {
  }

  lemma GuardStops(db: Db, k: MbKey, x: Native, decision: nat)
    requires LinkOf(db, k).Some? && SplitOf(LinkOf(db, k).value) == Some(x) && LockItems(db.s, x, LinkOf(db, k).value.discogs).Ok?
    requires SharedNative(db.aliases, x, k) && !NonCatalog(db.aliases, x)
    ensures ReattachItem(db, k, decision) == (db, Guarded(true, false))
  {
  }

  /** The release row is guarded over item 1 and nothing is written. */
  lemma ReleaseGuarded()
    ensures ReattachItem(Mixed(), MbKey(Release, 5), 0) == (Mixed(), Guarded(true, false))
  {
    MixedLinks();
    MixedShared();
    GuardStops(Mixed(), MbKey(Release, 5), 1, 0);
  }

  ghost function Once(): Db { ReattachItem(Mixed(), MbKey(Artist, 7), 0).0 }

  lemma NothingOpen(s: Tables, x: ItemId, d: ItemId)
    requires s.rows == map[]
    ensures CurrentSupersession(s, x, d) == Ok(None) && SurvivedItems(s, x) == {}
  {
  }

  lemma MixedUnguarded()
    ensures !IsGuarded(Mixed().aliases, 1, MbKey(Artist, 7))
  {
  }

  lemma HoldsNothing(aliases: seq<Alias>, x: Native, k: MbKey)
    requires forall a :: a in aliases ==> !Holds(a, x)
    ensures !IsGuarded(aliases, x, k)
  {
  }

  lemma ClosedHoldsNothing(aliases: seq<Alias>, x: Native, t: nat, a: Alias)
    requires a in CloseAll(aliases, x, t)
    ensures !Holds(a, x)
  {
    var i :| 0 <= i < |aliases| && CloseAll(aliases, x, t)[i] == a;
    assert a == ClosedRow(aliases[i], x, t);
  }

  lemma MovedHoldsOther(held: seq<Alias>, d: Native, t: nat, a: Alias)
    requires a in MovedAll(held, d, t)
    ensures a.native == d
  {
  }

  lemma Emptied(aliases: seq<Alias>, now: nat, x: Native, d: Native, t: nat, k: MbKey)
    requires Sound(aliases, now) && x != d
    ensures !IsGuarded(Reheld(aliases, x, d, t), x, k)
  {
    ReheldIs(aliases, now, x, d, t);
    var closed, moved := CloseAll(aliases, x, t), MovedAll(HeldBy(aliases, x), d, t);
    forall a | a in closed + moved ensures !Holds(a, x) {
      if a in closed { ClosedHoldsNothing(aliases, x, t, a); } else { MovedHoldsOther(HeldBy(aliases, x), d, t, a); }
    }
    HoldsNothing(closed + moved, x, k);
  }

  /** A row of another table keeps its cache when an item's caches are recomputed. */
  lemma OtherTable(db: Db, db': Db, k: MbKey, x: Native, d: Native, k': MbKey)
    requires Repaired(db, db', k, x, d) && Sound(db.aliases, db.s.now) && k' != k && EntityKind(k'.kind) != db.s.kinds[x]
    ensures LinkOf(db', k') == LinkOf(db, k')
  {
    if k' in db.mb {
      if MbAlias(k') == MbAlias(k) { SameMbAlias(k, k'); }
      OtherHolders(db, db', k, x, d, MbAlias(k'));
      if db.mb[k'].discogs.Some? { OtherHolders(db, db', k, x, d, DiscogsAlias(k', db.mb[k'].discogs.value)); }
    }
  }

  lemma OpenedAlone(s: Tables, x: ItemId, d: ItemId, decision: nat, t: nat)
    requires s.rows == map[] && x != d
    ensures OpenedRows(s, x, d, CatalogReattachment, decision, t) == map[RowId(t, x) := Row(x, d, CatalogReattachment, decision, t, None, None)]
  {
  }

  lemma OneOpen(s: Tables, x: ItemId, d: ItemId, id: RowId, row: Row)
    requires s.rows == map[id := row] && row.superseded == x && row.survivor == d && row.until.None? && x != d
    ensures CurrentSupersession(s, x, d) == Ok(Some(id))
  {
    assert OpenRows(s, x) == {id} && OpenRows(s, d) == {};
  }

  lemma MergedAlone(s: Tables, x: ItemId, d: ItemId, decision: nat, t: nat, s': Tables)
    requires s.rows == map[] && x != d && s' == MergeInto(s, None, x, d, CatalogReattachment, decision, t).0
    ensures CurrentSupersession(s', x, d) == Ok(Some(RowId(t, x))) && s'.kinds == s.kinds
  {
    OpenedAlone(s, x, d, decision, t);
    OneOpen(s', x, d, RowId(t, x), Row(x, d, CatalogReattachment, decision, t, None, None));
  }

  /** The first repair ever made leaves one open row, and its items can be merged again. */
  lemma FirstRepair(db: Db, k: MbKey, x: Native, d: Native, decision: nat, once: Db)
    requires Sound(db.aliases, db.s.now) && LinkOf(db, k).Some? && SplitOf(LinkOf(db, k).value) == Some(x) && LinkOf(db, k).value.discogs == d
    requires LockItems(db.s, x, d).Ok? && !IsGuarded(db.aliases, x, k) && db.s.rows == map[] && once == ReattachItem(db, k, decision).0
    ensures ReattachItem(db, k, decision).1.Reattached?
    ensures CurrentSupersession(once.s, x, d).Ok? && once.s.kinds == db.s.kinds
  {
    NothingOpen(db.s, x, d);
    UnguardedIsRepaired(db, k, x, d, LinkOf(db, k).value, decision);
    MergedAlone(db.s, x, d, decision, db.s.now + 1, once.s);
  }

  lemma ArtistReattached()
    ensures ReattachItem(Mixed(), MbKey(Artist, 7), 0).1.Reattached? && Repaired(Mixed(), Once(), MbKey(Artist, 7), 1, 2)
    ensures CurrentSupersession(Once().s, 1, 2).Ok? && LockItems(Once().s, 1, 2).Ok?
  {
    MixedLinks();
    MixedUnguarded();
    FirstRepair(Mixed(), MbKey(Artist, 7), 1, 2, 0, Once());
    ItemOutcome(Mixed(), MbKey(Artist, 7), 0);
  }

  /** Item 1 is left without aliases, and the release row is still cached on it. */
  lemma ReleaseLeft()
    ensures LinkOf(Once(), MbKey(Release, 5)) == Some(Link(2, 2, Some(1)))
    ensures !IsGuarded(Once().aliases, 1, MbKey(Release, 5)) && Sound(Once().aliases, Once().s.now)
  {
    MixedLinks();
    ArtistReattached();
    assert "artist"[0] != "release"[0];
    OtherTable(Mixed(), Once(), MbKey(Artist, 7), 1, 2, MbKey(Release, 5));
    Emptied(Mixed().aliases, 0, 1, 2, 1, MbKey(Release, 5));
    ReheldSound(Mixed().aliases, 0, 1, 2, 1);
  }

  /** So the next visit to it writes. */
  lemma ReleaseWrites()
    ensures ReattachItem(Once(), MbKey(Release, 5), 0).1.Reattached?
  {
    ReleaseLeft();
    ArtistReattached();
    UnguardedIsRepaired(Once(), MbKey(Release, 5), 1, 2, Link(2, 2, Some(1)), 0);
  }

  // ---- The two runs --------------------------------------------------------------------------------------------------

  lemma NoVisits(db: Db, kind: SplitKind, cursor: nat, decision: nat)
    requires Ahead(db, kind, cursor) == {}
    ensures Visits(db, kind, cursor, 1, decision) == []
  {
  }

  lemma OneVisit(db: Db, kind: SplitKind, cursor: nat, m: nat, decision: nat)
    requires Ahead(db, kind, cursor) == {m} && Ahead(ReattachItem(db, MbKey(kind, m), decision).0, kind, m) == {}
    ensures Visits(db, kind, cursor, 1, decision) == [MbKey(kind, m)]
  {
    var page, k := Page(db, kind, cursor, 1), MbKey(kind, m);
    assert Page(db, kind, m, 0) == [];
    assert page == [k];
    assert page[..0] == [] && After(db, [], decision) == db;
    NoVisits(After(db, page, decision), kind, m, decision);
  }

  lemma OnlyRelease(db: Db, kind: SplitKind, cursor: nat)
    requires db.mb.Keys == {MbKey(Release, 5), MbKey(Artist, 7)} && Candidate(db, MbKey(Release, 5)) && !Candidate(db, MbKey(Artist, 7))
    ensures Ahead(db, kind, cursor) == if kind == Release && cursor < 5 then {5} else {}
  {
  }

  lemma SameRows(db: Db, db': Db, k: MbKey, x: Native, d: Native)
    requires Repaired(db, db', k, x, d)
    ensures db'.mb.Keys == db.mb.Keys
  {
  }

  lemma OnceCandidates()
    ensures Once().mb.Keys == Mixed().mb.Keys && Candidate(Once(), MbKey(Release, 5)) && !Candidate(Once(), MbKey(Artist, 7))
  {
    MixedLinks();
    ArtistReattached();
    SameRows(Mixed(), Once(), MbKey(Artist, 7), 1, 2);
    ReleaseLeft();
    OwnLink(Mixed(), Once(), MbKey(Artist, 7), 1, 2);
  }

  lemma OnceAhead(kind: SplitKind, cursor: nat)
    ensures Ahead(Once(), kind, cursor) == if kind == Release && cursor < 5 then {5} else {}
  {
    OnceCandidates();
    assert Mixed().mb.Keys == {MbKey(Release, 5), MbKey(Artist, 7)};
    OnlyRelease(Once(), kind, cursor);
  }

  /** A release row that changes nothing, then an artist row. */
  lemma TwoRowRun(db: Db, once: Db, r: MbKey, a: MbKey)
    requires Visits(db, Release, 0, 1, 0) == [r] && After(db, [r], 0) == db && Ahead(db, ReleaseGroup, 0) == {}
    requires Visits(db, Artist, 0, 1, 0) == [a] && After(db, [a], 0) == once && Ahead(once, Label, 0) == {}
    ensures RunVisits(db, KINDS, 1, 0) == [r, a] && RunKinds(db, KINDS, 1, 0) == once
  {
  }

  /** The first run visits the guarded release row, then the artist row. */
  lemma FirstRun()
    ensures RunVisits(Mixed(), KINDS, 1, 0) == [MbKey(Release, 5), MbKey(Artist, 7)]
    ensures RunKinds(Mixed(), KINDS, 1, 0) == Once()
  {
    ReleaseVisits();
    ArtistVisits();
    OnceAhead(Label, 0);
    MixedAhead(ReleaseGroup, 0);
    TwoRowRun(Mixed(), Once(), MbKey(Release, 5), MbKey(Artist, 7));
  }

  lemma ReleaseVisits()
    ensures Visits(Mixed(), Release, 0, 1, 0) == [MbKey(Release, 5)] && After(Mixed(), [MbKey(Release, 5)], 0) == Mixed()
  {
    ReleaseGuarded();
    MixedAhead(Release, 0);
    MixedAhead(Release, 5);
    OneVisit(Mixed(), Release, 0, 5, 0);
    assert [MbKey(Release, 5)][..0] == [];
  }

  lemma ArtistVisits()
    ensures Visits(Mixed(), Artist, 0, 1, 0) == [MbKey(Artist, 7)] && After(Mixed(), [MbKey(Artist, 7)], 0) == Once()
  {
    MixedAhead(Artist, 0);
    OnceAhead(Artist, 7);
    OneVisit(Mixed(), Artist, 0, 7, 0);
    assert [MbKey(Artist, 7)][..0] == [];
  }

  lemma TwoVisits(db: Db, a: MbKey, b: MbKey)
    requires ReattachItem(db, a, 0).0 == db && !ReattachItem(db, a, 0).1.Failed? && !ReattachItem(db, b, 0).1.Failed?
    ensures NoneFailed(db, [a, b], 0)
  {
    var ks := [a, b];
    assert ks[..0] == [] && ks[..1] == [a] && [a][..0] == [];
    assert After(db, [], 0) == db;
    assert After(db, [a], 0) == db;
    assert OutcomeOf(db, ks, 0, 0) == ReattachItem(db, a, 0).1;
    assert OutcomeOf(db, ks, 0, 1) == ReattachItem(db, b, 0).1;
  }

  lemma FirstRunNoneFailed()
    ensures NoneFailed(Mixed(), RunVisits(Mixed(), KINDS, 1, 0), 0)
  {
    FirstRun();
    ReleaseGuarded();
    ArtistReattached();
    TwoVisits(Mixed(), MbKey(Release, 5), MbKey(Artist, 7));
  }

  lemma StartsWithRelease(db: Db)
    requires Ahead(db, Release, 0) == {5}
    ensures var ks := RunVisits(db, KINDS, 1, 0); |ks| > 0 && ks[0] == MbKey(Release, 5) && OutcomeOf(db, ks, 0, 0) == ReattachItem(db, MbKey(Release, 5), 0).1
  {
  }

  lemma NotTyped()
    ensures Sound(Mixed().aliases, Mixed().s.now) && !HoldersTyped(Mixed())
  {
    MixedLinks();
    assert "artist"[0] != "release"[0];
    assert !HolderTyped(Mixed(), MbKey(Release, 5));
  }

  /** No row fails in the first run, yet the second re-attaches one: the typing of Discogs
      holders cannot be dropped. */
  lemma CrossKindSecondRunWrites()
    ensures Sound(Mixed().aliases, Mixed().s.now) && NoneFailed(Mixed(), RunVisits(Mixed(), KINDS, 1, 0), 0) && !HoldersTyped(Mixed())
    ensures var once := RunKinds(Mixed(), KINDS, 1, 0);
            var again := RunVisits(once, KINDS, 1, 0);
            |again| > 0 && OutcomeOf(once, again, 0, 0).Reattached?
  {
    NotTyped();
    FirstRun();
    FirstRunNoneFailed();
    OnceAhead(Release, 0);
    ReleaseWrites();
    StartsWithRelease(Once());
  }

  // ---- A row under the nil id ----------------------------------------------------------------------------------------

  /** Items 1 and 2 are releases. The release row under the nil id is attached to item 1, and
      item 2 holds its Discogs alias. */
  function Nil(): Db {
    Db(Tables(map[1 := "release", 2 := "release"], map[], map[], map[], 0),
       [Row0(MusicBrainz, "release", 0, 1), Row0(Discogs, "release", 6, 2)],
       map[MbKey(Release, 0) := MbRow(Some(6), None)])
  }

  lemma NilLink()
    ensures Sound(Nil().aliases, 0) && LinkOf(Nil(), MbKey(Release, 0)) == Some(Link(1, 2, None))
    ensures HoldersTyped(Nil()) && !IsGuarded(Nil().aliases, 1, MbKey(Release, 0))
  {
  }

  lemma NilVisits(batch: nat, decision: nat)
    ensures RunVisits(Nil(), KINDS, batch, decision) == []
  {
    forall kind ensures Visits(Nil(), kind, 0, batch, decision) == [] {
      assert Ahead(Nil(), kind, 0) == {};
    }
    NoneVisited(Nil(), KINDS, batch, decision);
  }

  lemma {:induction false} NoneVisited(db: Db, kinds: seq<SplitKind>, batch: nat, decision: nat)
    requires forall kind :: Visits(db, kind, 0, batch, decision) == []
    ensures RunVisits(db, kinds, batch, decision) == []
    decreases |kinds|
  {
    if kinds != [] { NoneVisited(db, kinds[1..], batch, decision); }
  }

  /** No run changes those tables, though the row is an unguarded candidate that a visit would
      re-attach. */
  lemma NilIdIsPassedOver(batch: nat, decision: nat)
    ensures RunKinds(Nil(), KINDS, batch, decision) == Nil()
    ensures Candidate(Nil(), MbKey(Release, 0)) && ReattachItem(Nil(), MbKey(Release, 0), decision).1.Reattached?
  {
    NilVisits(batch, decision);
    NilLink();
    NothingOpen(Nil().s, 1, 2);
    UnguardedIsRepaired(Nil(), MbKey(Release, 0), 1, 2, Link(1, 2, None), decision);
  }
}
