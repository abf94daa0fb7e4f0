/** A user's collection rows and owned copies, page by page (api/syncer.py). */
module CollectionStore {
  import opened Seqs

  type ItemId = nat
  type RowId = nat
  type CopyId = nat

  /** A held instance of a release. */
  datatype Key = Key(release: nat, instance: nat)

  /** One entry of a fetched page. */
  datatype Item = Item(key: Key, folder: int, rating: int, date: Option<int>)

  datatype Row = Row(id: RowId, item: ItemId, copy: Option<CopyId>, folder: int, rating: int, date: Option<int>, stamp: nat)

  datatype Copy = Copy(item: ItemId, acquired: Option<int>)

  /** The tables. `byRow` is the unique index on an owned copy's collection row. */
  datatype Store = Store(rows: map<Key, Row>, copies: map<CopyId, Copy>, byRow: map<RowId, CopyId>, nextRow: nat, nextCopy: nat)

  datatype Event =
    | Added(item: ItemId, copy: Option<CopyId>)
    | Updated(item: ItemId, copy: Option<CopyId>, folder: bool, rating: bool, date: bool)
    | Removed(item: ItemId, copy: Option<CopyId>)

  // ---- The statements ---------------------------------------------------------------------------------------------

  /** A value that a payload omits is kept. */
  function Coalesce<T>(fetched: Option<T>, stored: Option<T>): Option<T> { if fetched.Some? then fetched else stored }

  /** `_UPSERT_COLLECTION`. */
  function Upsert(s: Store, x: Item, native: nat -> ItemId, stamp: nat): Store {
    if x.key in s.rows then
      var row := s.rows[x.key];
      s.(rows := s.rows[x.key := row.(item := native(x.key.release), folder := x.folder, rating := x.rating, date := Coalesce(x.date, row.date), stamp := stamp)])
    else
      s.(rows := s.rows[x.key := Row(s.nextRow, native(x.key.release), None, x.folder, x.rating, x.date, stamp)], nextRow := s.nextRow + 1)
  }

  function UpsertAll(s: Store, page: seq<Item>, native: nat -> ItemId, stamp: nat): Store {
    if page == [] then s else Upsert(UpsertAll(s, page[..|page| - 1], native, stamp), page[|page| - 1], native, stamp)
  }

  /** `_MINT_OWNED_COPIES` for one row. */
  function Mint(s: Store, k: Key): Store {
    if k !in s.rows then s
    else
      var row := s.rows[k];
      if row.id in s.byRow && s.byRow[row.id] in s.copies then
        var c := s.byRow[row.id];
        s.(copies := s.copies[c := Copy(row.item, Coalesce(row.date, s.copies[c].acquired))])
      else
        s.(copies := s.copies[s.nextCopy := Copy(row.item, row.date)], byRow := s.byRow[row.id := s.nextCopy], nextCopy := s.nextCopy + 1)
  }

  function MintAll(s: Store, page: seq<Item>): Store {
    if page == [] then s else Mint(MintAll(s, page[..|page| - 1]), page[|page| - 1].key)
  }

  /** `_LINK_OWNED_COPIES` for one row. */
  function Link(s: Store, k: Key): Store {
    if k in s.rows && s.rows[k].id in s.byRow then s.(rows := s.rows[k := s.rows[k].(copy := Some(s.byRow[s.rows[k].id]))]) else s
  }

  function LinkAll(s: Store, page: seq<Item>): Store {
    if page == [] then s else Link(LinkAll(s, page[..|page| - 1]), page[|page| - 1].key)
  }

  /** `_persist_collection_page`, in one transaction. */
  function Persist(s: Store, page: seq<Item>, native: nat -> ItemId, stamp: nat): Store {
    LinkAll(MintAll(UpsertAll(s, page, native, stamp), page), page)
  }

  /** `_DELETE_STALE_COLLECTION`: the deleted row's copy stays, unlinked. */
  function Reconcile(s: Store, stamp: nat): Store {
    s.(rows := map k | k in s.rows && s.rows[k].stamp >= stamp :: s.rows[k],
       byRow := map id | id in s.byRow && !(exists k :: k in s.rows && s.rows[k].id == id && s.rows[k].stamp < stamp) :: s.byRow[id])
  }

  // ---- What a store looks like between pages ----------------------------------------------------------------------------

  ghost predicate RowOk(s: Store, k: Key)
    requires k in s.rows
  {
    s.rows[k].id < s.nextRow && (s.rows[k].copy.Some? ==> s.rows[k].id in s.byRow && s.rows[k].copy == Some(s.byRow[s.rows[k].id]))
  }

  ghost predicate IndexOk(s: Store, id: RowId)
    requires id in s.byRow
  {
    s.byRow[id] in s.copies && s.byRow[id] < s.nextCopy && id < s.nextRow
  }

  /** Ids are used once, links agree, and every indexed copy belongs to a row. */
  ghost predicate Sound(s: Store) {
    var holds :=
      && (forall k :: k in s.rows ==> RowOk(s, k))
      && (forall k, l :: k in s.rows && l in s.rows && s.rows[k].id == s.rows[l].id ==> k == l)
      && (forall id :: id in s.byRow ==> IndexOk(s, id))
      && (forall i, j :: i in s.byRow && j in s.byRow && s.byRow[i] == s.byRow[j] ==> i == j)
      && (forall id :: id in s.byRow ==> Owned(s, id))
      && (forall c :: c in s.copies ==> c < s.nextCopy);
    holds
  }

  ghost predicate Owned(s: Store, id: RowId) {
    exists k :: k in s.rows && s.rows[k].id == id
  }

  /** One linked copy per row. */
  ghost predicate Linked(s: Store) {
    Sound(s) && forall k :: k in s.rows ==> s.rows[k].copy.Some?
  }

  /** The copies the collection holds. */
  function Live(s: Store): set<CopyId> { s.byRow.Values }

  // ---- Upserting a page ---------------------------------------------------------------------------------------------------

  lemma UpsertSound(s: Store, x: Item, native: nat -> ItemId, stamp: nat)
    requires Sound(s)
    ensures Sound(Upsert(s, x, native, stamp))
  {
    var s' := Upsert(s, x, native, stamp);
    forall k | k in s'.rows ensures RowOk(s', k) { if k in s.rows { assert RowOk(s, k); } }
    forall id | id in s'.byRow ensures IndexOk(s', id) && Owned(s', id) {
      assert IndexOk(s, id) && Owned(s, id);
      var k :| k in s.rows && s.rows[k].id == id;
      assert k in s'.rows && s'.rows[k].id == id;
    }
    forall k, l | k in s'.rows && l in s'.rows && s'.rows[k].id == s'.rows[l].id ensures k == l {
      if k in s.rows { assert RowOk(s, k); }
      if l in s.rows { assert RowOk(s, l); }
    }
  }

  lemma SoundSame(s: Store, s': Store)
    requires Sound(s) && s' == s.(copies := s'.copies) && s'.copies.Keys == s.copies.Keys
    ensures Sound(s')
  {
    forall k | k in s'.rows ensures RowOk(s', k) { assert RowOk(s, k); }
    forall id | id in s'.byRow ensures IndexOk(s', id) && Owned(s', id) { assert IndexOk(s, id) && Owned(s, id); }
  }

  lemma MintFreshSound(s: Store, s': Store, k: Key, copy: Copy)
    requires Sound(s) && k in s.rows && s.rows[k].id !in s.byRow
    requires s' == s.(copies := s.copies[s.nextCopy := copy], byRow := s.byRow[s.rows[k].id := s.nextCopy], nextCopy := s.nextCopy + 1)
    ensures Sound(s')
  {
    forall l | l in s'.rows ensures RowOk(s', l) { assert RowOk(s, l); }
    forall id | id in s'.byRow ensures IndexOk(s', id) && Owned(s', id) {
      if id in s.byRow { assert IndexOk(s, id) && Owned(s, id); } else { assert RowOk(s, k) && s'.rows[k].id == id; }
    }
    forall i, j | i in s'.byRow && j in s'.byRow && s'.byRow[i] == s'.byRow[j] ensures i == j {
      if i in s.byRow { assert IndexOk(s, i); }
      if j in s.byRow { assert IndexOk(s, j); }
    }
  }

  lemma MintSound(s: Store, k: Key)
    requires Sound(s)
    ensures Sound(Mint(s, k))
  {
    if k in s.rows {
      if s.rows[k].id in s.byRow {
        assert IndexOk(s, s.rows[k].id);
        SoundSame(s, Mint(s, k));
      } else {
        MintFreshSound(s, Mint(s, k), k, Copy(s.rows[k].item, s.rows[k].date));
      }
    }
  }

  lemma LinkSound(s: Store, k: Key)
    requires Sound(s)
    ensures Sound(Link(s, k))
  {
    var s' := Link(s, k);
    forall l | l in s'.rows ensures RowOk(s', l) { assert RowOk(s, l); }
    forall id | id in s'.byRow ensures IndexOk(s', id) && Owned(s', id) {
      assert IndexOk(s, id) && Owned(s, id);
      var l :| l in s.rows && s.rows[l].id == id;
      assert l in s'.rows && s'.rows[l].id == id;
    }
  }

  // ---- Persisting a page ----------------------------------------------------------------------------------------------------

  function Keys(page: seq<Item>): set<Key> { set x | x in page :: x.key }

  /** A page names an instance once. */
  ghost predicate Once(page: seq<Item>) {
    forall i, j :: 0 <= i < j < |page| ==> page[i].key != page[j].key
  }

  lemma KeysSnoc(page: seq<Item>)
    requires page != []
    ensures Keys(page) == Keys(page[..|page| - 1]) + {page[|page| - 1].key}
    ensures Once(page) ==> Once(page[..|page| - 1]) && page[|page| - 1].key !in Keys(page[..|page| - 1])
  {
  }

  /** What a row holds after item `x` was written over `was`. */
  ghost predicate WrittenRow(was: Option<Row>, row: Row, x: Item, item: ItemId, stamp: nat) {
    && row.item == item && row.folder == x.folder && row.rating == x.rating && row.stamp == stamp
    && row.date == Coalesce(x.date, if was.Some? then was.value.date else None)
    && (was.Some? ==> row.id == was.value.id)
  }

  function RowAt(s: Store, k: Key): Option<Row> { if k in s.rows then Some(s.rows[k]) else None }

  /** The page's rows are written; every other row is as it was. */
  ghost predicate Wrote(s: Store, s': Store, page: seq<Item>, native: nat -> ItemId, stamp: nat) {
    var holds :=
      && s'.rows.Keys == s.rows.Keys + Keys(page)
      && (forall k :: k in s.rows && k !in Keys(page) ==> s'.rows[k] == s.rows[k])
      && (forall x :: x in page ==> WrittenRow(RowAt(s, x.key), s'.rows[x.key], x, native(x.key.release), stamp))
      && (forall x :: x in page && x.key !in s.rows ==> s'.rows[x.key].id >= s.nextRow)
      && (forall id :: id in s.byRow ==> id in s'.byRow && s'.byRow[id] == s.byRow[id]);
    holds
  }

  lemma {:induction false} UpsertAllWrote(s: Store, page: seq<Item>, native: nat -> ItemId, stamp: nat)
    requires Sound(s) && Once(page)
    ensures var s' := UpsertAll(s, page, native, stamp);
            Sound(s') && Wrote(s, s', page, native, stamp) && s'.byRow == s.byRow && s'.copies == s.copies && s'.nextRow >= s.nextRow
  {
    if page != [] {
      var init, x := page[..|page| - 1], page[|page| - 1];
      KeysSnoc(page);
      UpsertAllWrote(s, init, native, stamp);
      var mid := UpsertAll(s, init, native, stamp);
      UpsertSound(mid, x, native, stamp);
      UpsertNext(s, mid, init, x, native, stamp);
      Snoc(page);
    }
  }

  lemma UpsertNext(s: Store, mid: Store, init: seq<Item>, x: Item, native: nat -> ItemId, stamp: nat)
    requires Wrote(s, mid, init, native, stamp) && x.key !in Keys(init) && mid.byRow == s.byRow && mid.nextRow >= s.nextRow
    ensures Wrote(s, Upsert(mid, x, native, stamp), init + [x], native, stamp)
  {
  }

  /** The copy a row had under its index before. */
  function CopyBefore(s: Store, id: RowId): Option<Copy> {
    if id in s.byRow && s.byRow[id] in s.copies then Some(s.copies[s.byRow[id]]) else None
  }

  /** A copy of the row's item, acquired at the row's date, or when it was before if the row has
      none. */
  predicate CopyFor(row: Row, was: Option<Copy>, c: Copy) {
    && c.item == row.item
    && c.acquired == if row.date.Some? then row.date else if was.Some? then was.value.acquired else None
  }

  /** The page's rows have their copies; every other copy is as it was. */
  ghost predicate Minted(s: Store, s': Store, keys: set<Key>) {
    var holds :=
      && s'.rows == s.rows
      && (forall id :: id in s.byRow ==> id in s'.byRow && s'.byRow[id] == s.byRow[id])
      && (forall id :: id in s'.byRow && id !in s.byRow ==> s'.byRow[id] !in s.copies && IdOf(s, keys, id))
      && (forall k :: k in keys && k in s.rows ==> MintedFor(s, s', s.rows[k]))
      && (forall c :: c in s.copies ==> c in s'.copies && (s'.copies[c] == s.copies[c] || OfKeys(s', keys, c)))
      && (forall c :: c in s'.copies && c !in s.copies ==> OfKeys(s', keys, c));
    holds
  }

  ghost predicate MintedFor(s: Store, s': Store, row: Row) {
    row.id in s'.byRow && s'.byRow[row.id] in s'.copies && CopyFor(row, CopyBefore(s, row.id), s'.copies[s'.byRow[row.id]])
  }

  ghost predicate IdOf(s: Store, keys: set<Key>, id: RowId) {
    exists k :: k in keys && k in s.rows && s.rows[k].id == id
  }

  /** The copy is indexed under the row of one of the keys. */
  ghost predicate OfKeys(s: Store, keys: set<Key>, c: CopyId) {
    exists k :: k in keys && k in s.rows && s.rows[k].id in s.byRow && s.byRow[s.rows[k].id] == c
  }

  lemma {:induction false} MintAllIs(s: Store, page: seq<Item>)
    requires Sound(s)
    ensures Sound(MintAll(s, page)) && Minted(s, MintAll(s, page), Keys(page))
  {
    if page != [] {
      var init, x := page[..|page| - 1], page[|page| - 1];
      var mid := MintAll(s, init);
      MintAllIs(s, init);
      MintSound(mid, x.key);
      MintNext(mid, x.key);
      MintBoth(s, mid, Mint(mid, x.key), Keys(init), x.key);
      MintKeys(page);
    }
  }

  lemma MintKeys(page: seq<Item>)
    requires page != []
    ensures Keys(page) == Keys(page[..|page| - 1]) + {page[|page| - 1].key}
  {
    Snoc(page);
  }

  lemma MintNext(s: Store, k: Key)
    requires Sound(s)
    ensures Minted(s, Mint(s, k), {k})
  {
    if k in s.rows {
      var s', id := Mint(s, k), s.rows[k].id;
      if id in s.byRow { assert IndexOk(s, id); }
      assert OfKeys(s', {k}, s'.byRow[id]) && IdOf(s, {k}, id);
    }
  }

  /** A key's copy stays for it when another key's is minted. */
  lemma MintStays(s: Store, mid: Store, s': Store, keys: set<Key>, k: Key, l: Key)
    requires Sound(mid) && Sound(s') && Minted(s, mid, keys) && Minted(mid, s', {k}) && l in keys && l in s.rows && l != k
    ensures MintedFor(s, s', s.rows[l])
  {
    assert MintedFor(s, mid, s.rows[l]);
    NotOfKeys(s', {k}, l);
  }

  lemma MintBoth(s: Store, mid: Store, s': Store, keys: set<Key>, k: Key)
    requires Sound(s) && Sound(mid) && Sound(s') && Minted(s, mid, keys) && Minted(mid, s', {k})
    ensures Minted(s, s', keys + {k})
  {
    forall l | l in keys + {k} && l in s.rows ensures MintedFor(s, s', s.rows[l]) {
      if l != k { MintStays(s, mid, s', keys, k, l); } else { MintAgain(s, mid, s', keys, k); }
    }
    forall c | OfKeys(mid, keys, c) || OfKeys(s', {k}, c) ensures OfKeys(s', keys + {k}, c) { StillOfKeys(mid, s', keys, k, c); }
    forall id | IdOf(mid, {k}, id) || IdOf(s, keys, id) ensures IdOf(s, keys + {k}, id) { }
  }

  lemma StillOfKeys(mid: Store, s': Store, keys: set<Key>, k: Key, c: CopyId)
    requires Minted(mid, s', {k}) && (OfKeys(mid, keys, c) || OfKeys(s', {k}, c))
    ensures OfKeys(s', keys + {k}, c)
  {
    if OfKeys(mid, keys, c) {
      var l :| l in keys && l in mid.rows && mid.rows[l].id in mid.byRow && mid.byRow[mid.rows[l].id] == c;
      assert s'.byRow[s'.rows[l].id] == c;
    }
  }

  /** Minted twice is minted once. */
  lemma MintAgain(s: Store, mid: Store, s': Store, keys: set<Key>, k: Key)
    requires Sound(s) && Sound(mid) && Minted(s, mid, keys) && Minted(mid, s', {k}) && k in s.rows
    ensures MintedFor(s, s', s.rows[k])
  {
    var row := s.rows[k];
    assert MintedFor(mid, s', row);
    if k in keys {
      assert MintedFor(s, mid, row);
    } else if row.id in mid.byRow {
      var c := mid.byRow[row.id];
      assert IndexOk(mid, row.id);
      NotOfKeys(mid, keys, k);
    }
  }

  lemma NotOfKeys(s: Store, keys: set<Key>, k: Key)
    requires Sound(s) && k in s.rows && k !in keys && s.rows[k].id in s.byRow
    ensures !OfKeys(s, keys, s.byRow[s.rows[k].id])
  {
  }

  /** The page's rows are linked, and nothing else changed. */
  ghost predicate LinkedTo(s: Store, s': Store, page: seq<Item>) {
    var holds :=
      && s'.byRow == s.byRow && s'.copies == s.copies && s'.rows.Keys == s.rows.Keys
      && (forall k :: k in s.rows && k !in Keys(page) ==> s'.rows[k] == s.rows[k])
      && (forall k :: k in s.rows ==> s'.rows[k].(copy := s.rows[k].copy) == s.rows[k])
      && (forall x :: x in page && x.key in s.rows && s.rows[x.key].id in s.byRow ==> s'.rows[x.key].copy == Some(s.byRow[s.rows[x.key].id]));
    holds
  }

  lemma LinkNext(s: Store, mid: Store, init: seq<Item>, x: Item)
    requires LinkedTo(s, mid, init)
    ensures LinkedTo(s, Link(mid, x.key), init + [x])
  {
  }

  lemma {:induction false} LinkAllIs(s: Store, page: seq<Item>)
    requires Sound(s)
    ensures Sound(LinkAll(s, page)) && LinkedTo(s, LinkAll(s, page), page)
  {
    if page != [] {
      var init, x := page[..|page| - 1], page[|page| - 1];
      LinkAllIs(s, init);
      LinkSound(LinkAll(s, init), x.key);
      LinkNext(s, LinkAll(s, init), init, x);
      assert page == init + [x];
    }
  }

  /** The copy a row links to is for it: of its item, acquired at its date or as it was. */
  ghost predicate Copied(s: Store, s': Store, k: Key) {
    && k in s'.rows && s'.rows[k].copy.Some? && s'.rows[k].copy.value in s'.copies
    && var c := s'.rows[k].copy.value; CopyFor(s'.rows[k], if c in s.copies then Some(s.copies[c]) else None, s'.copies[c])
  }

  ghost predicate LinkedFrom(s: Store, keys: set<Key>, c: CopyId) {
    exists k :: k in keys && k in s.rows && s.rows[k].copy == Some(c)
  }

  /** The keys' rows have copies for them; no copy goes, and any other is as it was. */
  ghost predicate CopiesWritten(s: Store, s': Store, keys: set<Key>) {
    var holds :=
      && (forall k :: k in keys ==> Copied(s, s', k))
      && (forall k :: k in keys && k !in s.rows ==> s'.rows[k].copy.value !in s.copies)
      && (forall c :: c in s.copies ==> c in s'.copies && (s'.copies[c] == s.copies[c] || LinkedFrom(s', keys, c)))
      && (forall c :: c in s'.copies && c !in s.copies ==> LinkedFrom(s', keys, c));
    holds
  }

  lemma MintedCopied(s: Store, minted: Store, s': Store, page: seq<Item>, k: Key)
    requires Sound(s) && Minted(s, minted, Keys(page)) && LinkedTo(minted, s', page) && k in Keys(page) && k in s.rows
    ensures Copied(s, s', k) && s'.rows[k].copy == Some(minted.byRow[s.rows[k].id])
    ensures s.rows[k].id !in s.byRow ==> s'.rows[k].copy.value !in s.copies
  {
    assert MintedFor(s, minted, s.rows[k]);
    var x :| x in page && x.key == k;
    if s.rows[k].id in s.byRow { assert IndexOk(s, s.rows[k].id); }
  }

  lemma MintedIsLinked(s: Store, minted: Store, s': Store, page: seq<Item>, c: CopyId)
    requires Sound(s) && Minted(s, minted, Keys(page)) && LinkedTo(minted, s', page) && OfKeys(minted, Keys(page), c)
    ensures LinkedFrom(s', Keys(page), c)
  {
    var k :| k in Keys(page) && k in minted.rows && minted.rows[k].id in minted.byRow && minted.byRow[minted.rows[k].id] == c;
    MintedCopied(s, minted, s', page, k);
  }

  lemma MintedWritten(s: Store, up: Store, minted: Store, s': Store, page: seq<Item>, native: nat -> ItemId, stamp: nat)
    requires Sound(s) && Sound(up) && Wrote(s, up, page, native, stamp) && up.byRow == s.byRow && up.copies == s.copies
    requires Minted(up, minted, Keys(page)) && LinkedTo(minted, s', page)
    ensures CopiesWritten(s, s', Keys(page))
  {
    forall k | k in Keys(page) ensures Copied(s, s', k) && (k !in s.rows ==> s'.rows[k].copy.value !in s.copies) {
      MintedCopied(up, minted, s', page, k);
      assert Copied(up, s', k);
      if k !in s.rows { NewId(s, up, page, native, stamp, k); }
    }
    forall c | OfKeys(minted, Keys(page), c) ensures LinkedFrom(s', Keys(page), c) { MintedIsLinked(up, minted, s', page, c); }
  }

  lemma NewId(s: Store, up: Store, page: seq<Item>, native: nat -> ItemId, stamp: nat, k: Key)
    requires Sound(s) && Wrote(s, up, page, native, stamp) && k in Keys(page) && k !in s.rows
    ensures k in up.rows && up.rows[k].id !in s.byRow
  {
    var x :| x in page && x.key == k;
    assert forall id :: id in s.byRow ==> IndexOk(s, id);
  }

  /** A page leaves exactly its keys added, its rows written, and one linked copy per row, each
      of its row's item and date; no other copy changes. */
  lemma PersistIs(s: Store, page: seq<Item>, native: nat -> ItemId, stamp: nat)
    requires Linked(s) && Once(page)
    ensures var s' := Persist(s, page, native, stamp);
            Linked(s') && Wrote(s, s', page, native, stamp) && CopiesWritten(s, s', Keys(page))
  {
    var up := UpsertAll(s, page, native, stamp);
    UpsertAllWrote(s, page, native, stamp);
    MintAllIs(up, page);
    LinkAllIs(MintAll(up, page), page);
    PersistWrote(s, up, MintAll(up, page), Persist(s, page, native, stamp), page, native, stamp);
    MintedWritten(s, up, MintAll(up, page), Persist(s, page, native, stamp), page, native, stamp);
  }

  /** Linking changes only the rows' copies. */
  lemma LinkingWrote(s: Store, up: Store, minted: Store, s': Store, page: seq<Item>, native: nat -> ItemId, stamp: nat)
    requires Wrote(s, up, page, native, stamp) && up.byRow == s.byRow && minted.rows == up.rows && LinkedTo(minted, s', page)
    requires forall id :: id in up.byRow ==> id in minted.byRow && minted.byRow[id] == up.byRow[id]
    ensures Wrote(s, s', page, native, stamp)
  {
    forall x | x in page ensures WrittenRow(RowAt(s, x.key), s'.rows[x.key], x, native(x.key.release), stamp) {
      assert x.key in Keys(page);
      assert WrittenRow(RowAt(s, x.key), up.rows[x.key], x, native(x.key.release), stamp);
    }
  }

  lemma PersistWrote(s: Store, up: Store, minted: Store, s': Store, page: seq<Item>, native: nat -> ItemId, stamp: nat)
    requires Linked(s) && Wrote(s, up, page, native, stamp) && up.byRow == s.byRow && Minted(up, minted, Keys(page)) && Sound(s')
    requires LinkedTo(minted, s', page)
    ensures Linked(s') && Wrote(s, s', page, native, stamp)
  {
    LinkingWrote(s, up, minted, s', page, native, stamp);
    forall k | k in s'.rows ensures s'.rows[k].copy.Some? {
      if k in Keys(page) {
        var x :| x in page && x.key == k;
        assert MintedFor(up, minted, up.rows[k]);
      }
    }
  }

  // ---- One page after another -----------------------------------------------------------------------------------------------

  lemma OneLink(s: Store, k: Key, l: Key)
    requires Linked(s) && k in s.rows && l in s.rows && s.rows[k].copy == s.rows[l].copy
    ensures k == l
  {
    assert RowOk(s, k) && RowOk(s, l);
  }

  /** A row's link does not change. */
  lemma SameLink(s: Store, s': Store, page: seq<Item>, native: nat -> ItemId, stamp: nat, k: Key)
    requires Linked(s) && Linked(s') && Wrote(s, s', page, native, stamp) && k in s.rows
    ensures k in s'.rows && s'.rows[k].copy == s.rows[k].copy && s'.rows[k].id == s.rows[k].id
  {
    assert RowOk(s, k);
    if k in Keys(page) {
      var x :| x in page && x.key == k;
      assert WrittenRow(RowAt(s, k), s'.rows[k], x, native(k.release), stamp);
    }
    assert RowOk(s', k);
  }

  lemma OnlyOwnLink(s: Store, keys: set<Key>, k: Key)
    requires Linked(s) && k in s.rows && k !in keys
    ensures !LinkedFrom(s, keys, s.rows[k].copy.value)
  {
    forall l | l in s.rows && s.rows[l].copy == s.rows[k].copy ensures l == k { OneLink(s, k, l); }
  }

  /** A key the page does not name keeps its copy. */
  lemma CopiedStays(s: Store, mid: Store, s': Store, keys: set<Key>, page: seq<Item>, native: nat -> ItemId, stamp: nat, k: Key)
    requires Linked(mid) && Linked(s') && CopiesWritten(s, mid, keys) && CopiesWritten(mid, s', Keys(page)) && Wrote(mid, s', page, native, stamp)
    requires k in keys && k !in Keys(page)
    ensures Copied(s, s', k) && s'.rows[k].copy == mid.rows[k].copy
  {
    assert Copied(s, mid, k);
    SameLink(mid, s', page, native, stamp, k);
    OnlyOwnLink(s', Keys(page), k);
  }

  /** A row without a date had none before. */
  lemma StillUndated(s: Store, s': Store, page: seq<Item>, native: nat -> ItemId, stamp: nat, k: Key)
    requires Wrote(s, s', page, native, stamp) && k in s.rows && k in s'.rows && s'.rows[k].date.None?
    ensures s.rows[k].date.None?
  {
    if k in Keys(page) { var x :| x in page && x.key == k; }
  }

  /** One it names again has a copy for it still. */
  lemma CopiedAgain(s: Store, mid: Store, s': Store, keys: set<Key>, page: seq<Item>, native: nat -> ItemId, stamp: nat, k: Key)
    requires Linked(mid) && Linked(s') && CopiesWritten(s, mid, keys) && CopiesWritten(mid, s', Keys(page)) && Wrote(mid, s', page, native, stamp)
    requires k in Keys(page) && k in mid.rows
    ensures Copied(s, s', k) && s'.rows[k].copy == mid.rows[k].copy
  {
    assert Copied(mid, s', k);
    SameLink(mid, s', page, native, stamp, k);
    assert RowOk(mid, k) && IndexOk(mid, mid.rows[k].id);
    if s'.rows[k].date.None? {
      StillUndated(mid, s', page, native, stamp, k);
      if k in keys { assert Copied(s, mid, k); } else { OnlyOwnLink(mid, keys, k); }
    }
  }

  lemma LinkStays(mid: Store, s': Store, keys: set<Key>, page: seq<Item>, native: nat -> ItemId, stamp: nat, c: CopyId)
    requires Linked(mid) && Linked(s') && Wrote(mid, s', page, native, stamp) && (LinkedFrom(mid, keys, c) || LinkedFrom(s', Keys(page), c))
    ensures LinkedFrom(s', keys + Keys(page), c)
  {
    if LinkedFrom(mid, keys, c) {
      var k :| k in keys && k in mid.rows && mid.rows[k].copy == Some(c);
      SameLink(mid, s', page, native, stamp, k);
    }
  }

  /** Every row so far has a copy for it, and the other copies are as they were. */
  lemma CopiesNext(s: Store, mid: Store, s': Store, keys: set<Key>, page: seq<Item>, native: nat -> ItemId, stamp: nat)
    requires Linked(mid) && Linked(s') && CopiesWritten(s, mid, keys) && CopiesWritten(mid, s', Keys(page)) && Wrote(mid, s', page, native, stamp)
    requires mid.rows.Keys == s.rows.Keys + keys
    ensures CopiesWritten(s, s', keys + Keys(page))
  {
    forall k | k in keys + Keys(page) ensures Copied(s, s', k) && (k !in s.rows ==> s'.rows[k].copy.value !in s.copies) {
      if k !in Keys(page) {
        CopiedStays(s, mid, s', keys, page, native, stamp, k);
      } else if k in mid.rows {
        CopiedAgain(s, mid, s', keys, page, native, stamp, k);
      } else {
        assert Copied(mid, s', k);
      }
    }
    forall c | LinkedFrom(mid, keys, c) || LinkedFrom(s', Keys(page), c) ensures LinkedFrom(s', keys + Keys(page), c) {
      LinkStays(mid, s', keys, page, native, stamp, c);
    }
  }
}
