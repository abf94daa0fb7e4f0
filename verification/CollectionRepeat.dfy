/** Repeating a sync with the same pages (api/syncer.py). */
module CollectionRepeat {
  import opened Seqs
  import opened CollectionStore
  import opened CollectionSync

  /** The stored row already says what the entry says. */
  predicate Agrees(row: Row, x: Item) {
    row.folder == x.folder && row.rating == x.rating && (x.date.None? || x.date == row.date)
  }

  predicate SameFields(a: Row, b: Row) { a.folder == b.folder && a.rating == b.rating && a.date == b.date }

  ghost predicate PageAgrees(s: Store, page: seq<Item>) {
    forall x :: x in page ==> x.key in s.rows && Agrees(s.rows[x.key], x)
  }

  /** An entry of a stored key causes an event exactly when it disagrees. */
  lemma QuietEntry(s: Store, s': Store, page: seq<Item>, native: nat -> ItemId, stamp: nat, x: Item)
    requires Wrote(s, s', page, native, stamp) && x in page && x.key in s.rows
    ensures EventFor(s, s', x).None? <==> Agrees(s.rows[x.key], x)
    ensures Agrees(s.rows[x.key], x) ==> SameFields(s.rows[x.key], s'.rows[x.key])
  {
  }

  lemma {:induction false} NoEvents(before: Store, after: Store, page: seq<Item>)
    ensures PageEvents(before, after, page) == [] <==> forall x :: x in page ==> EventFor(before, after, x).None?
  {
    if page != [] {
      NoEvents(before, after, page[..|page| - 1]);
      assert page == page[..|page| - 1] + [page[|page| - 1]];
    }
  }

  lemma QuietPage(s: Store, s': Store, page: seq<Item>, native: nat -> ItemId, stamp: nat)
    requires Wrote(s, s', page, native, stamp) && Keys(page) <= s.rows.Keys
    ensures PageEvents(s, s', page) == [] <==> PageAgrees(s, page)
    ensures PageAgrees(s, page) ==> s'.rows.Keys == s.rows.Keys && forall k :: k in s.rows ==> SameFields(s.rows[k], s'.rows[k])
  {
    NoEvents(s, s', page);
    forall x | x in page ensures x.key in s.rows && (EventFor(s, s', x).None? <==> Agrees(s.rows[x.key], x)) {
      assert x.key in Keys(page);
      QuietEntry(s, s', page, native, stamp, x);
    }
    if PageAgrees(s, page) {
      forall k | k in s.rows ensures SameFields(s.rows[k], s'.rows[k]) {
        if k in Keys(page) {
          var x :| x in page && x.key == k;
          QuietEntry(s, s', page, native, stamp, x);
        }
      }
    }
  }

  ghost predicate AllAgree(s: Store, pages: seq<seq<Item>>) {
    forall i :: 0 <= i < |pages| ==> PageAgrees(s, pages[i])
  }

  ghost predicate SameStored(s: Store, s': Store) {
    s'.rows.Keys == s.rows.Keys && forall k :: k in s.rows ==> SameFields(s.rows[k], s'.rows[k])
  }

  lemma AgreesSame(s: Store, s': Store, page: seq<Item>)
    requires SameStored(s, s')
    ensures PageAgrees(s, page) <==> PageAgrees(s', page)
  {
  }

  /** A run over stored keys causes no event exactly when every entry agrees with what is
      stored when it begins. */
  lemma {:induction false} QuietRun(s: Store, pages: seq<seq<Item>>, native: nat -> ItemId, stamp: nat)
    requires Linked(s) && OncePerPage(pages) && AllKeys(pages) <= s.rows.Keys
    ensures var o := SyncPages(s, pages, native, stamp);
            (o.events == [] <==> AllAgree(s, pages)) && (o.events == [] ==> SameStored(s, o.store))
  {
    if pages != [] {
      var init, page := pages[..|pages| - 1], pages[|pages| - 1];
      QuietRun(s, init, native, stamp);
      PagesSynced(s, init, native, stamp);
      var done := SyncPages(s, init, native, stamp);
      SyncedLinked(s, done, AllKeys(init), stamp);
      PersistIs(done.store, page, native, stamp);
      SyncedKeys(s, done, AllKeys(init), stamp);
      QuietPage(done.store, Persist(done.store, page, native, stamp), page, native, stamp);
      if done.events == [] {
        AgreesSame(s, done.store, page);
        assert AllAgree(s, pages) <==> AllAgree(s, init) && PageAgrees(s, page) by { AllAgreeSnoc(s, pages); }
      } else {
        AllAgreeSnoc(s, pages);
      }
    }
  }

  lemma AllAgreeSnoc(s: Store, pages: seq<seq<Item>>)
    requires pages != []
    ensures AllAgree(s, pages) <==> AllAgree(s, pages[..|pages| - 1]) && PageAgrees(s, pages[|pages| - 1])
  {
  }

  lemma SyncedKeys(s: Store, o: Outcome, keys: set<Key>, stamp: nat)
    requires Synced(s, o, keys, stamp)
    ensures o.store.rows.Keys == s.rows.Keys + keys
  {
  }

  // ---- What one run leaves stored ----------------------------------------------------------------------------------------

  ghost predicate On(pages: seq<seq<Item>>, x: Item) {
    exists i :: 0 <= i < |pages| && x in pages[i]
  }

  lemma OnSnoc(pages: seq<seq<Item>>, x: Item)
    requires pages != []
    ensures On(pages, x) <==> On(pages[..|pages| - 1], x) || x in pages[|pages| - 1]
  {
  }

  lemma {:induction false} KeyIsOn(pages: seq<seq<Item>>, k: Key)
    ensures k in AllKeys(pages) <==> exists x :: On(pages, x) && x.key == k
  {
    if pages != [] {
      var init, page := pages[..|pages| - 1], pages[|pages| - 1];
      KeyIsOn(init, k);
      forall x ensures On(pages, x) <==> On(init, x) || x in page { OnSnoc(pages, x); }
      if k in Keys(page) { var x :| x in page && x.key == k; assert On(pages, x); }
    }
  }

  /** A stored row comes from entries of its key: one gave the folder and rating, and, if any
      entry gave a date, one gave the date. */
  ghost predicate FromEntries(pages: seq<seq<Item>>, k: Key, row: Row) {
    && (exists y :: On(pages, y) && y.key == k && row.folder == y.folder && row.rating == y.rating)
    && (forall x :: On(pages, x) && x.key == k && x.date.Some? ==> exists z :: On(pages, z) && z.key == k && z.date.Some? && z.date == row.date)
  }

  ghost predicate StoredFrom(pages: seq<seq<Item>>, s: Store) {
    forall k :: k in AllKeys(pages) ==> k in s.rows && FromEntries(pages, k, s.rows[k])
  }

  lemma FromPage(pages: seq<seq<Item>>, s: Store, s': Store, native: nat -> ItemId, stamp: nat, x: Item)
    requires pages != [] && Wrote(s, s', pages[|pages| - 1], native, stamp) && x in pages[|pages| - 1]
    requires x.key in AllKeys(pages[..|pages| - 1]) ==> x.key in s.rows && FromEntries(pages[..|pages| - 1], x.key, s.rows[x.key])
    requires Once(pages[|pages| - 1])
    ensures x.key in s'.rows && FromEntries(pages, x.key, s'.rows[x.key])
  {
    var init, page, k := pages[..|pages| - 1], pages[|pages| - 1], x.key;
    assert k in Keys(page);
    assert WrittenRow(RowAt(s, k), s'.rows[k], x, native(k.release), stamp);
    OnSnoc(pages, x);
    forall w | On(pages, w) && w.key == k && w.date.Some? ensures exists z :: On(pages, z) && z.key == k && z.date.Some? && z.date == s'.rows[k].date {
      OnSnoc(pages, w);
      if x.date.None? {
        OnceIsSame(page, w, x);
        KeyIsOn(init, k);
        var z :| On(init, z) && z.key == k && z.date.Some? && z.date == s.rows[k].date;
        OnSnoc(pages, z);
      }
    }
  }

  lemma OnceIsSame(page: seq<Item>, a: Item, b: Item)
    requires Once(page) && b in page && a.key == b.key
    ensures a in page ==> a == b
  {
  }

  lemma FromEarlier(pages: seq<seq<Item>>, k: Key, row: Row)
    requires pages != [] && k !in Keys(pages[|pages| - 1]) && FromEntries(pages[..|pages| - 1], k, row)
    ensures FromEntries(pages, k, row)
  {
  }

  lemma {:induction false} RunStores(s: Store, pages: seq<seq<Item>>, native: nat -> ItemId, stamp: nat)
    requires Linked(s) && OncePerPage(pages)
    ensures StoredFrom(pages, SyncPages(s, pages, native, stamp).store)
  {
    if pages != [] {
      var init, page := pages[..|pages| - 1], pages[|pages| - 1];
      RunStores(s, init, native, stamp);
      PagesSynced(s, init, native, stamp);
      var done := SyncPages(s, init, native, stamp);
      SyncedLinked(s, done, AllKeys(init), stamp);
      PersistIs(done.store, page, native, stamp);
      var after := Persist(done.store, page, native, stamp);
      forall k | k in AllKeys(pages) ensures k in after.rows && FromEntries(pages, k, after.rows[k]) {
        if k in Keys(page) {
          var x :| x in page && x.key == k;
          FromPage(pages, done.store, after, native, stamp, x);
        } else {
          FromEarlier(pages, k, done.store.rows[k]);
        }
      }
    }
  }

  // ---- The second run -------------------------------------------------------------------------------------------------------

  /** Entries of one key, on any pages, agree on what the user records. */
  ghost predicate Consistent(pages: seq<seq<Item>>) {
    forall x, y :: On(pages, x) && On(pages, y) && x.key == y.key ==>
      x.folder == y.folder && x.rating == y.rating && (x.date.Some? && y.date.Some? ==> x.date == y.date)
  }

  lemma AgreeIffConsistent(pages: seq<seq<Item>>, s: Store)
    requires StoredFrom(pages, s)
    ensures AllAgree(s, pages) <==> Consistent(pages)
  {
    if Consistent(pages) {
      forall i, x | 0 <= i < |pages| && x in pages[i] ensures x.key in s.rows && Agrees(s.rows[x.key], x) {
        assert On(pages, x);
        KeyIsOn(pages, x.key);
        assert FromEntries(pages, x.key, s.rows[x.key]);
        var y :| On(pages, y) && y.key == x.key && s.rows[x.key].folder == y.folder && s.rows[x.key].rating == y.rating;
      }
    }
    if AllAgree(s, pages) {
      forall x, y | On(pages, x) && On(pages, y) && x.key == y.key
        ensures x.folder == y.folder && x.rating == y.rating && (x.date.Some? && y.date.Some? ==> x.date == y.date)
      {
        var i :| 0 <= i < |pages| && x in pages[i];
        var j :| 0 <= j < |pages| && y in pages[j];
        assert PageAgrees(s, pages[i]) && PageAgrees(s, pages[j]);
      }
    }
  }

  /** Syncing the same pages again removes nothing, and causes no event exactly when no key
      appears on two pages with different recorded values. */
  lemma RepeatIsQuiet(s: Store, pages: seq<seq<Item>>, native: nat -> ItemId, stamp: nat, again: nat, once: Store)
    requires Linked(s) && OncePerPage(pages) && (forall k :: k in s.rows ==> s.rows[k].stamp < stamp) && stamp < again
    requires once == Reconcile(SyncPages(s, pages, native, stamp).store, stamp)
    ensures var o := SyncPages(once, pages, native, again);
            RemovedEvents(o.store, again) == {} && (o.events == [] <==> Consistent(pages))
  {
    var first := SyncPages(s, pages, native, stamp);
    PagesSynced(s, pages, native, stamp);
    RunStores(s, pages, native, stamp);
    SyncedLinked(s, first, AllKeys(pages), stamp);
    ReconcileLinked(first.store, stamp);
    KeysLeft(s, first, AllKeys(pages), stamp);
    assert StoredFrom(pages, once);
    QuietRun(once, pages, native, again);
    AgreeIffConsistent(pages, once);
    NothingStale(once, pages, native, again);
  }

  lemma NothingStale(s: Store, pages: seq<seq<Item>>, native: nat -> ItemId, stamp: nat)
    requires Linked(s) && OncePerPage(pages) && s.rows.Keys == AllKeys(pages)
    ensures RemovedEvents(SyncPages(s, pages, native, stamp).store, stamp) == {}
  {
    PagesSynced(s, pages, native, stamp);
  }

  /** The condition is needed: an item whose rating differs between two pages, as when it is
      edited while the pages are fetched, makes every repeat emit an event. */
  lemma EditedBetweenPages(k: Key, s: Store, native: nat -> ItemId, stamp: nat, again: nat, once: Store)
    requires Linked(s) && (forall k :: k in s.rows ==> s.rows[k].stamp < stamp) && stamp < again
    requires once == Reconcile(SyncPages(s, [[Item(k, 0, 1, None)], [Item(k, 0, 2, None)]], native, stamp).store, stamp)
    ensures SyncPages(once, [[Item(k, 0, 1, None)], [Item(k, 0, 2, None)]], native, again).events != []
  {
    var pages := [[Item(k, 0, 1, None)], [Item(k, 0, 2, None)]];
    assert Item(k, 0, 1, None) in pages[0] && Item(k, 0, 2, None) in pages[1];
    assert On(pages, Item(k, 0, 1, None)) && On(pages, Item(k, 0, 2, None));
    assert OncePerPage(pages) && !Consistent(pages);
    RepeatIsQuiet(s, pages, native, stamp, again, once);
  }
}
