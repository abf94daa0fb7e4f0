/** Re-attachment of one MusicBrainz row to the Discogs item it names (api/reattach.py,
    `reattach_item`). */
module Reattach {
  import opened Seqs
  import opened CatalogMerge
  import opened AliasTable

  datatype SplitKind = Release | ReleaseGroup | Artist | Label

  /** A release group aliases as a master. */
  function EntityKind(k: SplitKind): Kind {
    match k
    case Release => "release"
    case ReleaseGroup => "master"
    case Artist => "artist"
    case Label => "label"
  }

  datatype MbKey = MbKey(kind: SplitKind, mbid: nat)

  /** A MusicBrainz row: the Discogs id it carries and its cached native id. */
  datatype MbRow = MbRow(discogs: Option<nat>, gm: Option<Native>)

  datatype Db = Db(s: Tables, aliases: seq<Alias>, mb: map<MbKey, MbRow>)

  datatype Outcome =
    | Unchanged
    | Guarded(shared: bool, nonCatalog: bool)
    | Failed
    | Reattached(split: Native, discogs: Native, moved: int, collisions: nat)

  function MbAlias(k: MbKey): Key { Key(MusicBrainz, EntityKind(k.kind), k.mbid) }

  function DiscogsAlias(k: MbKey, id: nat): Key { Key(Discogs, EntityKind(k.kind), id) }

  /** The native ids a linked row's two aliases resolve to, beside its cache. */
  datatype Link = Link(musicbrainz: Native, discogs: Native, gm: Option<Native>)

  function LinkIn(aliases: seq<Alias>, mb: map<MbKey, MbRow>, k: MbKey): Option<Link> {
    if k !in mb || mb[k].discogs.None? then None
    else
      var m := Holder(aliases, MbAlias(k), None);
      var d := Holder(aliases, DiscogsAlias(k, mb[k].discogs.value), None);
      if m.None? || d.None? then None else Some(Link(m.value, d.value, mb[k].gm))
  }

  function LinkOf(db: Db, k: MbKey): Option<Link> { LinkIn(db.aliases, db.mb, k) }

  /** The item to merge away: a split one, else a stale cached one. */
  function SplitOf(l: Link): Option<Native> {
    if l.musicbrainz != l.discogs then Some(l.musicbrainz)
    else if l.gm.Some? && l.gm.value != l.discogs then l.gm
    else None
  }

  predicate Candidate(db: Db, k: MbKey) {
    LinkOf(db, k).Some? && SplitOf(LinkOf(db, k).value).Some?
  }

  // ---- The guards --------------------------------------------------------------------------------------------

  predicate Holds(a: Alias, x: Native) { a.native == x && a.until.None? }

  /** `x` currently holds an alias that is neither an identifier nor the row's own. */
  predicate SharedNative(aliases: seq<Alias>, x: Native, k: MbKey) {
    exists a :: a in aliases && Holds(a, x) && !IsIdentifier(a.key.provider) && a.key != MbAlias(k)
  }

  predicate NonCatalog(aliases: seq<Alias>, x: Native) {
    exists a :: a in aliases && Holds(a, x) && a.source != CATALOG
  }

  predicate IsGuarded(aliases: seq<Alias>, x: Native, k: MbKey) {
    SharedNative(aliases, x, k) || NonCatalog(aliases, x)
  }

  /** `_GUARDS`: any alias that the catalog did not assert, and any but the row's own that is not
      a barcode, catalog number, ISRC or matrix number. */
  lemma GuardedIff(aliases: seq<Alias>, x: Native, k: MbKey)
    ensures IsGuarded(aliases, x, k) <==> exists a :: a in aliases && Stops(a, x, k)
  {
    forall a ensures Stops(a, x, k) <==> Holds(a, x) && ((!IsIdentifier(a.key.provider) && a.key != MbAlias(k)) || a.source != CATALOG) { }
  }

  /** The alias stops a re-attachment of row `k` away from `x`. */
  predicate Stops(a: Alias, x: Native, k: MbKey) {
    && a.native == x && a.until.None?
    && (a.source != "catalog" || (a.key != MbAlias(k) && match a.key.provider case Barcode | CatalogNumber | Isrc | Matrix => false case _ => true))
  }

  // ---- One transaction ------------------------------------------------------------------------------------------

  /** Step 7: a cached row of the kind on either item takes what its own alias resolves to. */
  function Recompute(mb: map<MbKey, MbRow>, aliases: seq<Alias>, kind: Kind, x: Native, d: Native): map<MbKey, MbRow> {
    map k | k in mb :: Recached(mb[k], k, aliases, kind, x, d)
  }

  function Recached(row: MbRow, k: MbKey, aliases: seq<Alias>, kind: Kind, x: Native, d: Native): MbRow {
    var alias := Holder(aliases, MbAlias(k), None);
    if EntityKind(k.kind) == kind && (row.gm == Some(x) || row.gm == Some(d)) && alias.Some? then row.(gm := alias) else row
  }

  /** A re-inserted key that `d` does not hold is held by a third item. */
  predicate Foreign(aliases: seq<Alias>, missing: seq<Key>, d: Native) {
    exists key :: key in missing && Holder(aliases, key, None) != Some(d)
  }

  /** The time of the next transaction. */
  function Later(s: Tables): nat { s.now + 1 }

  /** The merge's own writes. */
  ghost function Merged(s: Tables, existing: Option<RowId>, x: Native, d: Native, decision: nat): Tables {
    MergeInto(s, existing, x, d, CatalogReattachment, decision, Later(s)).0
  }

  /** The writes: aliases moved, the row's cache set, the items merged, the caches recomputed. */
  ghost function Repair(db: Db, k: MbKey, x: Native, d: Native, merged: Tables): Db
    requires k in db.mb
  {
    var aliases := Reheld(db.aliases, x, d, db.s.now + 1);
    var kind := if x in db.s.kinds then db.s.kinds[x] else "";
    Db(merged, aliases, Recompute(db.mb[k := db.mb[k].(gm := Some(d))], aliases, kind, x, d))
  }

  /** What becomes of the split `x` of a linked row, given what the two merge checks say. */
  function Decide(aliases: seq<Alias>, k: MbKey, x: Native, d: Native, t: nat, locked: Result<Kind>, current: Result<Option<RowId>>): Outcome {
    if locked.Err? then Failed
    else if IsGuarded(aliases, x, k) then Guarded(SharedNative(aliases, x, k), NonCatalog(aliases, x))
    else if current.Err? then Failed
    else
      var missing := Collisions(aliases, x, d, t);
      if Foreign(Reheld(aliases, x, d, t), missing, d) then Failed
      else Reattached(x, d, |HeldBy(aliases, x)| - |missing|, |missing|)
  }

  /** The decision for a MusicBrainz row. */
  ghost function Verdict(db: Db, k: MbKey): Outcome {
    match LinkOf(db, k)
    case None => Unchanged
    case Some(l) =>
      match SplitOf(l)
      case None => Unchanged
      case Some(x) => VerdictOn(db, k, x, l.discogs)
  }

  ghost function VerdictOn(db: Db, k: MbKey, x: Native, d: Native): Outcome {
    Decide(db.aliases, k, x, d, Later(db.s), LockItems(db.s, x, d), CurrentSupersession(db.s, x, d))
  }

  /** The row already open for a pair. */
  ghost function Existing(s: Tables, x: ItemId, d: ItemId): Option<RowId> {
    var current := CurrentSupersession(s, x, d);
    if current.Ok? then current.value else None
  }

  /** `reattach_item` in its own transaction. A conflict rolls it back whole. */
  ghost function ReattachItem(db: Db, k: MbKey, decision: nat): (Db, Outcome) {
    var o := Verdict(db, k);
    if o.Reattached? && k in db.mb then (Repair(db, k, o.split, o.discogs, Merged(db.s, Existing(db.s, o.split, o.discogs), o.split, o.discogs, decision)), o)
    else (db, o)
  }

  // ---- What one transaction does ----------------------------------------------------------------------------------

  /** A committed re-attachment of `k` from `x` to `d`. */
  ghost predicate Repaired(db: Db, db': Db, k: MbKey, x: Native, d: Native) {
    var holds :=
      && LinkOf(db, k).Some? && SplitOf(LinkOf(db, k).value) == Some(x) && LinkOf(db, k).value.discogs == d
      && !IsGuarded(db.aliases, x, k) && x in db.s.kinds
      && db'.aliases == Reheld(db.aliases, x, d, db.s.now + 1)
      && db'.mb == Recompute(db.mb[k := db.mb[k].(gm := Some(d))], db'.aliases, db.s.kinds[x], x, d)
      && db'.s.kinds == db.s.kinds && db'.s.now == db.s.now + 1;
    holds
  }

  lemma MergedKeeps(s: Tables, existing: Option<RowId>, x: ItemId, d: ItemId, decision: nat)
    ensures Merged(s, existing, x, d, decision).kinds == s.kinds && Merged(s, existing, x, d, decision).now == s.now + 1
  {
  }

  lemma VerdictIs(db: Db, k: MbKey)
    ensures var o := Verdict(db, k);
            && (o.Unchanged? <==> !Candidate(db, k))
            && (o.Guarded? ==> GuardedNow(db, k))
            && (o.Reattached? ==>
                  && k in db.mb && Candidate(db, k) && SplitOf(LinkOf(db, k).value) == Some(o.split) && LinkOf(db, k).value.discogs == o.discogs
                  && !IsGuarded(db.aliases, o.split, k) && o.split in db.s.kinds
                  && LockItems(db.s, o.split, o.discogs).Ok? && CurrentSupersession(db.s, o.split, o.discogs).Ok?)
  {
  }

  lemma RepairIs(db: Db, k: MbKey, x: Native, d: Native, merged: Tables)
    requires LinkOf(db, k).Some? && SplitOf(LinkOf(db, k).value) == Some(x) && LinkOf(db, k).value.discogs == d
    requires !IsGuarded(db.aliases, x, k) && x in db.s.kinds && merged.kinds == db.s.kinds && merged.now == db.s.now + 1
    ensures Repaired(db, Repair(db, k, x, d, merged), k, x, d)
  {
  }

  /** A transaction commits a repair or leaves everything as it was; a candidate is never
      found unchanged. */
  lemma ItemOutcome(db: Db, k: MbKey, decision: nat)
    ensures var (db', o) := ReattachItem(db, k, decision);
            && (o.Reattached? ==> Repaired(db, db', k, o.split, o.discogs))
            && (!o.Reattached? ==> db' == db)
            && (o.Unchanged? <==> !Candidate(db, k))
            && (o.Guarded? ==> GuardedNow(db, k))
  {
    var o := Verdict(db, k);
    VerdictIs(db, k);
    if o.Reattached? {
      var existing := Existing(db.s, o.split, o.discogs);
      MergedKeeps(db.s, existing, o.split, o.discogs, decision);
      RepairIs(db, k, o.split, o.discogs, Merged(db.s, existing, o.split, o.discogs, decision));
    }
  }

  /** A candidate the guards would stop. */
  predicate GuardedNow(db: Db, k: MbKey) {
    Candidate(db, k) && IsGuarded(db.aliases, SplitOf(LinkOf(db, k).value).value, k)
  }

  lemma GuardedStays(db: Db, k: MbKey, decision: nat)
    requires GuardedNow(db, k)
    ensures ReattachItem(db, k, decision).0 == db && (ReattachItem(db, k, decision).1.Guarded? || ReattachItem(db, k, decision).1.Failed?)
  {
  }

  lemma NothingForeign(aliases: seq<Alias>, d: Native)
    ensures !Foreign(aliases, [], d)
  {
  }

  lemma LinkedIsRow(db: Db, k: MbKey)
    requires LinkOf(db, k).Some?
    ensures k in db.mb
  {
  }

  lemma VerdictOnSplit(db: Db, k: MbKey, x: Native, l: Link)
    requires LinkOf(db, k) == Some(l) && SplitOf(l) == Some(x)
    ensures Verdict(db, k) == VerdictOn(db, k, x, l.discogs)
  {
  }

  lemma DecidesRepair(aliases: seq<Alias>, now: nat, k: MbKey, x: Native, d: Native, t: nat, locked: Result<Kind>, current: Result<Option<RowId>>)
    requires Sound(aliases, now) && locked.Ok? && current.Ok? && !IsGuarded(aliases, x, k)
    ensures Decide(aliases, k, x, d, t, locked, current) == Reattached(x, d, |HeldBy(aliases, x)|, 0)
  {
    ReheldIs(aliases, now, x, d, t);
    NothingForeign(Reheld(aliases, x, d, t), d);
  }

  lemma VerdictOnRepairs(db: Db, k: MbKey, x: Native, d: Native)
    requires Sound(db.aliases, db.s.now)
    requires LockItems(db.s, x, d).Ok? && !IsGuarded(db.aliases, x, k) && CurrentSupersession(db.s, x, d).Ok?
    ensures VerdictOn(db, k, x, d) == Reattached(x, d, |HeldBy(db.aliases, x)|, 0)
  {
    DecidesRepair(db.aliases, db.s.now, k, x, d, Later(db.s), LockItems(db.s, x, d), CurrentSupersession(db.s, x, d));
  }

  lemma VerdictRepairs(db: Db, k: MbKey, x: Native, d: Native, l: Link)
    requires Sound(db.aliases, db.s.now) && LinkOf(db, k) == Some(l) && SplitOf(l) == Some(x) && l.discogs == d
    requires LockItems(db.s, x, d).Ok? && !IsGuarded(db.aliases, x, k) && CurrentSupersession(db.s, x, d).Ok?
    ensures Verdict(db, k) == Reattached(x, d, |HeldBy(db.aliases, x)|, 0) && k in db.mb
  {
    LinkedIsRow(db, k);
    VerdictOnSplit(db, k, x, l);
    VerdictOnRepairs(db, k, x, d);
  }

  /** With one current row per key no re-insert can collide, so an unguarded split that can
      merge is always repaired. */
  lemma UnguardedIsRepaired(db: Db, k: MbKey, x: Native, d: Native, l: Link, decision: nat)
    requires Sound(db.aliases, db.s.now) && LinkOf(db, k) == Some(l) && SplitOf(l) == Some(x) && l.discogs == d
    requires LockItems(db.s, x, d).Ok? && !IsGuarded(db.aliases, x, k) && CurrentSupersession(db.s, x, d).Ok?
    ensures ReattachItem(db, k, decision).1 == Reattached(x, d, |HeldBy(db.aliases, x)|, 0)
    ensures ReattachItem(db, k, decision).0 == Repair(db, k, x, d, Merged(db.s, Existing(db.s, x, d), x, d, decision))
    ensures Repaired(db, ReattachItem(db, k, decision).0, k, x, d)
  {
    VerdictRepairs(db, k, x, d, l);
    ItemOutcome(db, k, decision);
  }

  lemma DecidesNoCollision(aliases: seq<Alias>, now: nat, k: MbKey, x: Native, d: Native, t: nat, locked: Result<Kind>, current: Result<Option<RowId>>)
    requires Sound(aliases, now)
    ensures var o := Decide(aliases, k, x, d, t, locked, current); o.Reattached? ==> o.collisions == 0
  {
    ReheldIs(aliases, now, x, d, t);
  }

  lemma NoCollisionOn(db: Db, k: MbKey, x: Native, d: Native)
    requires Sound(db.aliases, db.s.now)
    ensures VerdictOn(db, k, x, d).Reattached? ==> VerdictOn(db, k, x, d).collisions == 0
  {
    DecidesNoCollision(db.aliases, db.s.now, k, x, d, Later(db.s), LockItems(db.s, x, d), CurrentSupersession(db.s, x, d));
  }

  lemma NoCollision(db: Db, k: MbKey)
    requires Sound(db.aliases, db.s.now)
    ensures Verdict(db, k).Reattached? ==> Verdict(db, k).collisions == 0
  {
    if Candidate(db, k) {
      var x, l := SplitOf(LinkOf(db, k).value).value, LinkOf(db, k).value;
      VerdictOnSplit(db, k, x, l);
      NoCollisionOn(db, k, x, l.discogs);
    }
  }

  /** Step 7: of the rows of the item's kind cached on either item, those with a current alias
      take what it resolves to; the repaired row takes the Discogs item; no other row changes. */
  lemma CachesAfter(db: Db, db': Db, k: MbKey, x: Native, d: Native, k': MbKey)
    requires Repaired(db, db', k, x, d) && Sound(db.aliases, db.s.now) && k' in db.mb
    ensures k' in db'.mb && db'.mb[k'].discogs == db.mb[k'].discogs
    ensures var alias := Holder(db'.aliases, MbAlias(k'), None);
            k' != k ==>
              db'.mb[k'].gm == if EntityKind(k'.kind) == db.s.kinds[x] && db.mb[k'].gm in {Some(x), Some(d)} && alias.Some? then alias else db.mb[k'].gm
    ensures db'.mb[k].gm == Some(d)
  {
    CurrentHolders(db.aliases, db.s.now, x, d, db.s.now + 1, MbAlias(k));
  }

  // ---- The alias history ------------------------------------------------------------------------------------------

  /** Each alias the re-attachment opened continues one it closed, with its source and
      confidence: the guards let only catalog aliases through. */
  ghost predicate Continues(db: Db, db': Db, x: Native, d: Native, a: Alias) {
    exists b :: b in db.aliases && Holds(b, x) && b.until.None?
                && a == Alias(b.key, d, b.source, b.confidence, db'.s.now, None)
                && b.(until := Some(db'.s.now)) in db'.aliases
  }

  lemma MovedContinues(db: Db, db': Db, k: MbKey, x: Native, d: Native, i: nat, a: Alias)
    requires Repaired(db, db', k, x, d) && Sound(db.aliases, db.s.now)
    requires i < |HeldBy(db.aliases, x)| && a == Moved(HeldBy(db.aliases, x)[i], d, db'.s.now)
    ensures Continues(db, db', x, d, a)
  {
    var held, t := HeldBy(db.aliases, x), db'.s.now;
    var b := held[i];
    assert b in held && b.source == CATALOG;
    ReheldIs(db.aliases, db.s.now, x, d, t);
    var j :| 0 <= j < |db.aliases| && db.aliases[j] == b;
    assert CloseAll(db.aliases, x, t)[j] == b.(until := Some(t));
    assert db'.aliases[j] == b.(until := Some(t));
  }

  /** No past holder changes and the keys held by anyone are the same. */
  ghost predicate KeepsHistory(db: Db, db': Db) {
    && Sound(db'.aliases, db'.s.now)
    && (forall key, u: nat :: u <= db.s.now ==> Holder(db'.aliases, key, Some(u)) == Holder(db.aliases, key, Some(u)))
    && (forall key :: Holder(db'.aliases, key, None).Some? <==> Holder(db.aliases, key, None).Some?)
  }

  /** What `x` held `d` now holds, and every new row continues a closed one. */
  ghost predicate MovesAliases(db: Db, db': Db, x: Native, d: Native) {
    && (forall key :: Holder(db'.aliases, key, None) == if Holder(db.aliases, key, None) == Some(x) then Some(d) else Holder(db.aliases, key, None))
    && (forall a :: a in db'.aliases && a.from > db.s.now ==> Continues(db, db', x, d, a))
  }

  /** A re-attachment rewrites no history: the table stays sound, no past holder changes, the
      keys held by anyone are the same, each now held by `d` instead of `x`, and every row it
      added continues a closed one. */
  lemma HistoryKept(db: Db, k: MbKey, decision: nat, db': Db, o: Outcome)
    requires Sound(db.aliases, db.s.now) && (db', o) == ReattachItem(db, k, decision)
    ensures KeepsHistory(db, db')
    ensures o.Reattached? ==> o.collisions == 0 && MovesAliases(db, db', o.split, o.discogs)
  {
    ItemOutcome(db, k, decision);
    NoCollision(db, k);
    if o.Reattached? { RepairKeepsHistory(db, db', k, o.split, o.discogs); }
  }

  lemma RepairKeepsHistory(db: Db, db': Db, k: MbKey, x: Native, d: Native)
    requires Repaired(db, db', k, x, d) && Sound(db.aliases, db.s.now)
    ensures KeepsHistory(db, db') && MovesAliases(db, db', x, d)
  {
    var t := db.s.now + 1;
    ReheldSound(db.aliases, db.s.now, x, d, t);
    forall key, u: nat | u <= db.s.now ensures Holder(db'.aliases, key, Some(u)) == Holder(db.aliases, key, Some(u)) {
      PastHoldersKept(db.aliases, db.s.now, x, d, t, key, u);
    }
    forall key ensures Holder(db'.aliases, key, None) == if Holder(db.aliases, key, None) == Some(x) then Some(d) else Holder(db.aliases, key, None) {
      CurrentHolders(db.aliases, db.s.now, x, d, t, key);
    }
    forall a | a in db'.aliases && a.from > db.s.now ensures Continues(db, db', x, d, a) { NewContinues(db, db', k, x, d, a); }
  }

  lemma NewContinues(db: Db, db': Db, k: MbKey, x: Native, d: Native, a: Alias)
    requires Repaired(db, db', k, x, d) && Sound(db.aliases, db.s.now) && a in db'.aliases && a.from > db.s.now
    ensures Continues(db, db', x, d, a)
  {
    var t := db'.s.now;
    assert t == db.s.now + 1 && db'.aliases == Reheld(db.aliases, x, d, t);
    var i := NewIsMoved(db.aliases, db.s.now, x, d, t, a);
    MovedContinues(db, db', k, x, d, i, a);
  }
}
