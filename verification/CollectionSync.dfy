/** A sync run as replacement of the remote collection (api/syncer.py, `sync_collection`). */
module CollectionSync {
  import opened Seqs
  import opened CollectionStore

  // ---- Change events ----------------------------------------------------------------------------------------------

  /** The change one page entry causes, if any. */
  function EventFor(before: Store, after: Store, x: Item): Option<Event> {
    if x.key !in after.rows then None
    else
      var row := after.rows[x.key];
      if x.key !in before.rows then Some(Added(row.item, row.copy))
      else
        var was := before.rows[x.key];
        var folder, rating, date := was.folder != row.folder, was.rating != row.rating, was.date != row.date && row.date.Some?;
        if folder || rating || date then Some(Updated(row.item, row.copy, folder, rating, date)) else None
  }

  function PageEvents(before: Store, after: Store, page: seq<Item>): seq<Event> {
    if page == [] then []
    else
      var e := EventFor(before, after, page[|page| - 1]);
      PageEvents(before, after, page[..|page| - 1]) + if e.Some? then [e.value] else []
  }

  /** `_collection_page_events`: the diff, one key at a time. */
  method CollectPageEvents(before: Store, after: Store, page: seq<Item>) returns (events: seq<Event>)
    ensures events == PageEvents(before, after, page)
  {
    events := [];
    for i := 0 to |page|
      invariant events == PageEvents(before, after, page[..i])
    {
      assert page[..i + 1][..i] == page[..i];
      var e := EventFor(before, after, page[i]);
      if e.Some? { events := events + [e.value]; }
    }
    assert page[..|page|] == page;
  }

  lemma {:induction false} EventsAre(before: Store, after: Store, page: seq<Item>, e: Event)
    ensures e in PageEvents(before, after, page) <==> exists x :: x in page && EventFor(before, after, x) == Some(e)
  {
    if page != [] {
      EventsAre(before, after, page[..|page| - 1], e);
      assert page == page[..|page| - 1] + [page[|page| - 1]];
    }
  }

  /** A key that was not stored before is announced as added, one whose folder, rating or given
      date changed as updated in just those; each names the row's item and copy. */
  lemma EventIs(before: Store, after: Store, x: Item)
    requires x.key in after.rows
    ensures var e, row := EventFor(before, after, x), after.rows[x.key];
            && (x.key !in before.rows ==> e == Some(Added(row.item, row.copy)))
            && (x.key in before.rows ==>
                  var was := before.rows[x.key];
                  && (e.None? <==> was.folder == row.folder && was.rating == row.rating && (was.date == row.date || row.date.None?))
                  && (e.Some? ==> e.value.Updated? && e.value.item == row.item && e.value.copy == row.copy
                                  && (e.value.folder <==> was.folder != row.folder) && (e.value.rating <==> was.rating != row.rating)
                                  && (e.value.date <==> was.date != row.date && row.date.Some?)))
  {
  }

  // ---- A run --------------------------------------------------------------------------------------------------------

  datatype Outcome = Outcome(store: Store, events: seq<Event>)

  /** The pages fetched so far, each persisted in its own transaction. */
  function SyncPages(s: Store, pages: seq<seq<Item>>, native: nat -> ItemId, stamp: nat): Outcome {
    if pages == [] then Outcome(s, [])
    else
      var done, page := SyncPages(s, pages[..|pages| - 1], native, stamp), pages[|pages| - 1];
      var store := Persist(done.store, page, native, stamp);
      Outcome(store, done.events + PageEvents(done.store, store, page))
  }

  /** The rows a finished run sweeps away. */
  function Stale(s: Store, stamp: nat): set<Key> { set k | k in s.rows && s.rows[k].stamp < stamp }

  function RemovedEvents(s: Store, stamp: nat): set<Event> {
    set k | k in s.rows && s.rows[k].stamp < stamp :: Removed(s.rows[k].item, s.rows[k].copy)
  }

  function AllKeys(pages: seq<seq<Item>>): set<Key> {
    if pages == [] then {} else AllKeys(pages[..|pages| - 1]) + Keys(pages[|pages| - 1])
  }

  ghost predicate OncePerPage(pages: seq<seq<Item>>) {
    forall i :: 0 <= i < |pages| ==> Once(pages[i])
  }

  /** Replaying the events over the copies held before. */
  function Replay(held: set<CopyId>, events: seq<Event>): set<CopyId> {
    if events == [] then held
    else
      var was, e := Replay(held, events[..|events| - 1]), events[|events| - 1];
      if e.copy.None? then was
      else if e.Added? then was + {e.copy.value}
      else if e.Removed? then was - {e.copy.value}
      else was
  }

  lemma {:induction false} ReplayBoth(held: set<CopyId>, a: seq<Event>, b: seq<Event>)
    ensures Replay(held, a + b) == Replay(Replay(held, a), b)
    decreases |b|
  {
    if b == [] {
      assert a + b == a;
    } else {
      assert (a + b)[..|a + b| - 1] == a + b[..|b| - 1];
      ReplayBoth(held, a, b[..|b| - 1]);
    }
  }

  ghost predicate IsAdded(events: seq<Event>, c: CopyId) {
    exists e :: e in events && e.Added? && e.copy == Some(c)
  }

  lemma {:induction false} ReplayAdds(held: set<CopyId>, events: seq<Event>, c: CopyId)
    requires forall e :: e in events ==> !e.Removed?
    ensures c in Replay(held, events) <==> c in held || IsAdded(events, c)
  {
    if events != [] {
      var init, last := events[..|events| - 1], events[|events| - 1];
      ReplayAdds(held, init, c);
      assert events == init + [last];
      if IsAdded(init, c) { assert IsAdded(events, c); }
    }
  }

  ghost predicate Names(events: seq<Event>, c: CopyId) {
    exists e :: e in events && e.copy == Some(c)
  }

  lemma NamesSnoc(events: seq<Event>, last: Event, c: CopyId)
    ensures Names(events + [last], c) <==> Names(events, c) || last.copy == Some(c)
  {
  }

  lemma {:induction false} ReplayRemoves(held: set<CopyId>, events: seq<Event>, c: CopyId)
    requires forall e :: e in events ==> e.Removed?
    ensures c in Replay(held, events) <==> c in held && !Names(events, c)
  {
    if events != [] {
      var init, last := events[..|events| - 1], events[|events| - 1];
      ReplayRemoves(held, init, c);
      assert events == init + [last];
      assert last in events && last.Removed?;
      NamesSnoc(init, last, c);
    }
  }

  lemma PageEventsNotRemoved(before: Store, after: Store, page: seq<Item>)
    ensures forall e :: e in PageEvents(before, after, page) ==> !e.Removed?
  {
  }

  lemma AnnouncedIsLive(s: Store, s': Store, page: seq<Item>, c: CopyId)
    requires Linked(s') && IsAdded(PageEvents(s, s', page), c)
    ensures c in Live(s')
  {
    var e :| e in PageEvents(s, s', page) && e.Added? && e.copy == Some(c);
    EventsAre(s, s', page, e);
    var x :| x in page && EventFor(s, s', x) == Some(e);
    assert RowOk(s', x.key);
  }

  lemma HeldStays(s: Store, s': Store, page: seq<Item>, native: nat -> ItemId, stamp: nat, c: CopyId)
    requires Wrote(s, s', page, native, stamp) && c in Live(s)
    ensures c in Live(s')
  {
  }

  /** A copy the page made live was announced, and only such a copy was. */
  lemma PageLive(s: Store, s': Store, page: seq<Item>, native: nat -> ItemId, stamp: nat, c: CopyId)
    requires Linked(s) && Linked(s') && Wrote(s, s', page, native, stamp)
    ensures c in Live(s') <==> c in Live(s) || IsAdded(PageEvents(s, s', page), c)
  {
    if c in Live(s') {
      var id :| id in s'.byRow && s'.byRow[id] == c;
      assert Owned(s', id);
      var k :| k in s'.rows && s'.rows[k].id == id;
      LiveIsAnnounced(s, s', page, native, stamp, k);
    } else {
      if c in Live(s) { HeldStays(s, s', page, native, stamp, c); }
      if IsAdded(PageEvents(s, s', page), c) { AnnouncedIsLive(s, s', page, c); }
    }
  }

  lemma LiveIsAnnounced(s: Store, s': Store, page: seq<Item>, native: nat -> ItemId, stamp: nat, k: Key)
    requires Linked(s) && Linked(s') && Wrote(s, s', page, native, stamp) && k in s'.rows
    ensures s'.rows[k].id in s'.byRow && (s'.byRow[s'.rows[k].id] in Live(s) || IsAdded(PageEvents(s, s', page), s'.byRow[s'.rows[k].id]))
  {
    assert RowOk(s', k);
    if k in s.rows {
      assert RowOk(s, k);
      if k in Keys(page) {
        var x :| x in page && x.key == k;
        assert WrittenRow(RowAt(s, k), s'.rows[k], x, native(k.release), stamp);
      }
    } else {
      var x :| x in page && x.key == k;
      var e := Added(s'.rows[k].item, s'.rows[k].copy);
      assert EventFor(s, s', x) == Some(e);
      EventsAre(s, s', page, e);
    }
  }

  // ---- What the pages leave ------------------------------------------------------------------------------------------

  /** After some pages: the keys are the old ones and those fetched, fetched rows carry the
      run's stamp, and the events so far lead to the copies held now. */
  ghost predicate Synced(s: Store, o: Outcome, keys: set<Key>, stamp: nat) {
    var holds :=
      && Linked(o.store) && o.store.rows.Keys == s.rows.Keys + keys
      && (forall k :: k in keys ==> o.store.rows[k].stamp == stamp)
      && (forall k :: k in s.rows && k !in keys ==> o.store.rows[k] == s.rows[k])
      && (forall e :: e in o.events ==> !e.Removed?)
      && Live(o.store) == Replay(Live(s), o.events)
      && CopiesWritten(s, o.store, keys);
    holds
  }

  lemma PageReplays(s: Store, s': Store, page: seq<Item>, native: nat -> ItemId, stamp: nat)
    requires Linked(s) && Linked(s') && Wrote(s, s', page, native, stamp)
    ensures Live(s') == Replay(Live(s), PageEvents(s, s', page))
  {
    PageEventsNotRemoved(s, s', page);
    forall c ensures c in Live(s') <==> c in Replay(Live(s), PageEvents(s, s', page)) {
      PageLive(s, s', page, native, stamp, c);
      ReplayAdds(Live(s), PageEvents(s, s', page), c);
    }
  }

  lemma SyncNextRows(s: Store, done: Outcome, keys: set<Key>, page: seq<Item>, native: nat -> ItemId, stamp: nat, after: Store)
    requires Synced(s, done, keys, stamp) && Wrote(done.store, after, page, native, stamp)
    ensures after.rows.Keys == s.rows.Keys + (keys + Keys(page))
    ensures forall k :: k in keys + Keys(page) ==> after.rows[k].stamp == stamp
    ensures forall k :: k in s.rows && k !in keys + Keys(page) ==> after.rows[k] == s.rows[k]
  {
  }

  lemma SyncNext(s: Store, done: Outcome, keys: set<Key>, page: seq<Item>, native: nat -> ItemId, stamp: nat, after: Store)
    requires Synced(s, done, keys, stamp) && Linked(after) && Wrote(done.store, after, page, native, stamp) && CopiesWritten(done.store, after, Keys(page))
    ensures Synced(s, Outcome(after, done.events + PageEvents(done.store, after, page)), keys + Keys(page), stamp)
  {
    SyncNextRows(s, done, keys, page, native, stamp, after);
    CopiesNext(s, done.store, after, keys, page, native, stamp);
    PageReplays(done.store, after, page, native, stamp);
    ReplayBoth(Live(s), done.events, PageEvents(done.store, after, page));
    PageEventsNotRemoved(done.store, after, page);
  }

  lemma {:induction false} PagesSynced(s: Store, pages: seq<seq<Item>>, native: nat -> ItemId, stamp: nat)
    requires Linked(s) && OncePerPage(pages)
    ensures Synced(s, SyncPages(s, pages, native, stamp), AllKeys(pages), stamp)
  {
    if pages != [] {
      var init, page := pages[..|pages| - 1], pages[|pages| - 1];
      PagesSynced(s, init, native, stamp);
      var done := SyncPages(s, init, native, stamp);
      PersistIs(done.store, page, native, stamp);
      SyncNext(s, done, AllKeys(init), page, native, stamp, Persist(done.store, page, native, stamp));
    }
  }

  /** A run that fails part way has deleted nothing: every row and every held copy stays. */
  lemma FailedRunDeletesNothing(s: Store, pages: seq<seq<Item>>, native: nat -> ItemId, stamp: nat)
    requires Linked(s) && OncePerPage(pages)
    ensures s.rows.Keys <= SyncPages(s, pages, native, stamp).store.rows.Keys && Live(s) <= Live(SyncPages(s, pages, native, stamp).store)
  {
    PagesSynced(s, pages, native, stamp);
    var o := SyncPages(s, pages, native, stamp);
    forall c | c in Live(s) ensures c in Live(o.store) { ReplayAdds(Live(s), o.events, c); }
  }

  // ---- The sweep and the snapshot ---------------------------------------------------------------------------------------

  lemma ReconcileLinked(s: Store, stamp: nat)
    requires Linked(s)
    ensures Linked(Reconcile(s, stamp))
  {
    var s' := Reconcile(s, stamp);
    forall k | k in s'.rows ensures RowOk(s', k) {
      assert RowOk(s, k);
      KeptIndex(s, stamp, k);
    }
    forall id | id in s'.byRow ensures IndexOk(s', id) && Owned(s', id) {
      assert IndexOk(s, id) && Owned(s, id);
      var k :| k in s.rows && s.rows[k].id == id;
      assert k in s'.rows;
    }
  }

  lemma KeptIndex(s: Store, stamp: nat, k: Key)
    requires Linked(s) && k in s.rows && s.rows[k].stamp >= stamp
    ensures s.rows[k].id in Reconcile(s, stamp).byRow && Reconcile(s, stamp).byRow[s.rows[k].id] == s.byRow[s.rows[k].id]
  {
  }

  /** A stale row's copy is named. */
  lemma StaleIsNamed(s: Store, stamp: nat, removed: seq<Event>, k: Key)
    requires Linked(s) && (forall e :: e in removed <==> e in RemovedEvents(s, stamp)) && k in s.rows && s.rows[k].stamp < stamp
    ensures s.rows[k].id in s.byRow && Names(removed, s.byRow[s.rows[k].id])
  {
    assert RowOk(s, k);
    assert Removed(s.rows[k].item, s.rows[k].copy) in removed;
  }

  /** A named copy is linked no more. */
  lemma NamedIsUnlinked(s: Store, stamp: nat, removed: seq<Event>, c: CopyId)
    requires Linked(s) && (forall e :: e in removed <==> e in RemovedEvents(s, stamp)) && Names(removed, c)
    ensures c !in Live(Reconcile(s, stamp))
  {
  }

  /** What the sweep removes from the held copies is what its events name. */
  lemma SweepReplays(s: Store, stamp: nat, removed: seq<Event>, c: CopyId)
    requires Linked(s) && (forall e :: e in removed <==> e in RemovedEvents(s, stamp))
    ensures c in Live(Reconcile(s, stamp)) <==> c in Live(s) && !Names(removed, c)
  {
    if Names(removed, c) {
      NamedIsUnlinked(s, stamp, removed, c);
    } else if c in Live(s) {
      var id :| id in s.byRow && s.byRow[id] == c;
      forall k | k in s.rows && s.rows[k].id == id ensures s.rows[k].stamp >= stamp {
        if s.rows[k].stamp < stamp { StaleIsNamed(s, stamp, removed, k); }
      }
      assert id in Reconcile(s, stamp).byRow;
    }
  }

  /** The snapshot: the copies a row still links to. */
  function SnapshotCopies(s: Store): set<CopyId> { s.byRow.Values }

  /** A completed run. Its rows are exactly the keys fetched on any page, with one linked copy
      each; the snapshot holds exactly those copies; and replaying its events over the copies
      held before yields the ones held now. */
  lemma CompletedRun(s: Store, pages: seq<seq<Item>>, native: nat -> ItemId, stamp: nat, removed: seq<Event>)
    requires Linked(s) && OncePerPage(pages) && forall k :: k in s.rows ==> s.rows[k].stamp < stamp
    requires var o := SyncPages(s, pages, native, stamp); forall e :: e in removed <==> e in RemovedEvents(o.store, stamp)
    ensures var o := SyncPages(s, pages, native, stamp);
            var end := Reconcile(o.store, stamp);
            && end.rows.Keys == AllKeys(pages) && Linked(end)
            && SnapshotCopies(end) == (set k | k in end.rows && end.rows[k].copy.Some? :: end.rows[k].copy.value)
            && Live(end) == Replay(Live(s), o.events + removed)
            && CopiesWritten(s, end, AllKeys(pages))
  {
    var o := SyncPages(s, pages, native, stamp);
    var end := Reconcile(o.store, stamp);
    PagesSynced(s, pages, native, stamp);
    SyncedLinked(s, o, AllKeys(pages), stamp);
    ReconcileLinked(o.store, stamp);
    KeysLeft(s, o, AllKeys(pages), stamp);
    SweptCopies(s, o.store, AllKeys(pages), stamp);
    SnapshotIs(end);
    ReplayBoth(Live(s), o.events, removed);
    forall c ensures c in Live(end) <==> c in Replay(Live(o.store), removed) {
      SweepReplays(o.store, stamp, removed, c);
      ReplayRemoves(Live(o.store), removed, c);
    }
  }

  lemma SyncedLinked(s: Store, o: Outcome, keys: set<Key>, stamp: nat)
    requires Synced(s, o, keys, stamp)
    ensures Linked(o.store) && Live(o.store) == Replay(Live(s), o.events) && CopiesWritten(s, o.store, keys)
  {
  }

  lemma KeysLeft(s: Store, o: Outcome, keys: set<Key>, stamp: nat)
    requires Synced(s, o, keys, stamp) && forall k :: k in s.rows ==> s.rows[k].stamp < stamp
    ensures Reconcile(o.store, stamp).rows.Keys == keys
  {
  }

  /** The sweep takes rows and links, not copies. */
  lemma SweptCopies(s: Store, after: Store, keys: set<Key>, stamp: nat)
    requires CopiesWritten(s, after, keys) && Reconcile(after, stamp).rows.Keys == keys
    ensures CopiesWritten(s, Reconcile(after, stamp), keys)
  {
    var end := Reconcile(after, stamp);
    forall k | k in keys ensures Copied(s, end, k) { assert Copied(s, after, k); }
    forall c: CopyId | LinkedFrom(after, keys, c) ensures LinkedFrom(end, keys, c) {
      var k :| k in keys && k in after.rows && after.rows[k].copy == Some(c);
      assert k in end.rows;
    }
  }

  lemma SnapshotIs(s: Store)
    requires Linked(s)
    ensures SnapshotCopies(s) == set k | k in s.rows && s.rows[k].copy.Some? :: s.rows[k].copy.value
  {
  }

  // ---- What Discogs replies ---------------------------------------------------------------------------------------------

  /** A reply to the request for one page: an error or rate limit that ended the run, or its
      entries, those without a release id unnamed, and the number of pages it claims. */
  datatype Reply = Refused | Page(entries: seq<Option<Item>>, pages: nat)

  function Named(entries: seq<Option<Item>>): seq<Item> {
    if entries == [] then []
    else Named(entries[..|entries| - 1]) + match entries[|entries| - 1] case None => [] case Some(x) => [x]
  }

  /** The pages that reach the store, and whether the loop ended without an error. */
  datatype Fetch = Fetch(pages: seq<seq<Item>>, completed: bool)

  /** The fetch loop from reply `i` on: an empty page or the last claimed one ends it. */
  function FetchFrom(replies: seq<Reply>, i: nat): Fetch
    decreases |replies| - i
  {
    if i >= |replies| || replies[i].Refused? then Fetch([], false)
    else if replies[i].entries == [] then Fetch([], true)
    else if i + 1 >= replies[i].pages then Fetch([Named(replies[i].entries)], true)
    else
      var rest := FetchFrom(replies, i + 1);
      Fetch([Named(replies[i].entries)] + rest.pages, rest.completed)
  }

  predicate Continues(replies: seq<Reply>, i: nat)
    requires i < |replies|
  {
    replies[i].Page? && replies[i].entries != [] && i + 1 < replies[i].pages
  }

  predicate Ends(replies: seq<Reply>, i: nat)
    requires i < |replies|
  {
    replies[i].Page? && (replies[i].entries == [] || i + 1 >= replies[i].pages)
  }

  lemma {:induction false} NamedAre(entries: seq<Option<Item>>, x: Item)
    ensures multiset(Named(entries))[x] == multiset(entries)[Some(x)]
  {
    if entries != [] {
      var init, last := entries[..|entries| - 1], entries[|entries| - 1];
      NamedAre(init, x);
      Snoc(entries);
      NamedNext(Named(init), init, last, x);
    }
  }

  lemma NamedNext(named: seq<Item>, init: seq<Option<Item>>, last: Option<Item>, x: Item)
    requires multiset(named)[x] == multiset(init)[Some(x)]
    ensures multiset(named + match last case None => [] case Some(y) => [y])[x] == multiset(init + [last])[Some(x)]
  {
  }

  /** The pages that reach the store are the named entries of the replies, in order, up to the
      one that ends the run, which is among them unless it is empty or a refusal. */
  lemma {:induction false} FetchedAre(replies: seq<Reply>, i: nat)
    requires i <= |replies|
    ensures var f := FetchFrom(replies, i);
            && i + |f.pages| <= |replies|
            && (forall j :: i <= j < i + |f.pages| ==> replies[j].Page? && f.pages[j - i] == Named(replies[j].entries))
            && var n := i + |f.pages|;
               (n < |replies| && replies[n].Page? && replies[n].entries != [] ==> n > i && replies[n - 1].Page? && n >= replies[n - 1].pages)
    decreases |replies| - i
  {
    if i < |replies| && replies[i].Page? && replies[i].entries != [] && i + 1 < replies[i].pages {
      FetchedAre(replies, i + 1);
      var f, rest := FetchFrom(replies, i), FetchFrom(replies, i + 1);
      forall j | i <= j < i + |f.pages| ensures replies[j].Page? && f.pages[j - i] == Named(replies[j].entries) {
        if j > i { assert f.pages[j - i] == rest.pages[j - (i + 1)]; }
      }
    }
  }

  /** The run completes exactly when some reply ends it before one refuses. */
  lemma {:induction false} CompletesIff(replies: seq<Reply>, i: nat)
    requires i <= |replies|
    ensures FetchFrom(replies, i).completed <==>
              exists n :: i <= n < |replies| && Ends(replies, n) && forall j :: i <= j < n ==> Continues(replies, j)
    decreases |replies| - i
  {
    if i < |replies| {
      CompletesIff(replies, i + 1);
      if Continues(replies, i) {
        assert !Ends(replies, i);
        if n :| i + 1 <= n < |replies| && Ends(replies, n) && forall j :: i + 1 <= j < n ==> Continues(replies, j) {
          assert forall j :: i <= j < n ==> Continues(replies, j);
        }
      } else if FetchFrom(replies, i).completed {
        assert Ends(replies, i);
      }
    }
  }

  function Before(pages: seq<seq<Item>>, rest: Fetch): Fetch { Fetch(pages + rest.pages, rest.completed) }

  lemma BeforeNone(pages: seq<seq<Item>>, completed: bool)
    ensures Before(pages, Fetch([], completed)) == Fetch(pages, completed)
  {
  }

  lemma BeforeNext(pages: seq<seq<Item>>, page: seq<Item>, rest: Fetch)
    ensures Before(pages, Fetch([page] + rest.pages, rest.completed)) == Before(pages + [page], rest)
  {
    assert pages + ([page] + rest.pages) == pages + [page] + rest.pages;
  }

  /** A page without a named entry is not persisted, which leaves the same store. */
  lemma PageNext(s: Store, pages: seq<seq<Item>>, page: seq<Item>, native: nat -> ItemId, stamp: nat)
    ensures var done, next := SyncPages(s, pages, native, stamp), SyncPages(s, pages + [page], native, stamp);
            && next.store == Persist(done.store, page, native, stamp)
            && next.events == done.events + PageEvents(done.store, next.store, page)
            && (page == [] ==> next == done)
  {
    assert (pages + [page])[..|pages|] == pages;
  }

  // ---- In place ---------------------------------------------------------------------------------------------------------

  /** The user's tables and the snapshots taken of them. */
  class Collection {
    var store: Store
    var snapshots: seq<set<CopyId>>

    constructor ()
      ensures Linked(store) && store.rows == map[] && snapshots == []
    {
      store, snapshots := Store(map[], map[], map[], 0, 0), [];
    }

    /** `_persist_collection_page`: upsert, mint, link, then diff. */
    method PersistPage(page: seq<Item>, native: nat -> ItemId, stamp: nat) returns (events: seq<Event>)
      modifies this`store
      ensures store == Persist(old(store), page, native, stamp) && events == PageEvents(old(store), store, page)
    {
      var before := store;
      for i := 0 to |page|
        invariant store == UpsertAll(before, page[..i], native, stamp)
      {
        assert page[..i + 1][..i] == page[..i];
        store := Upsert(store, page[i], native, stamp);
      }
      assert page[..|page|] == page;
      ghost var upserted := store;
      for i := 0 to |page|
        invariant store == MintAll(upserted, page[..i])
      {
        assert page[..i + 1][..i] == page[..i];
        store := Mint(store, page[i].key);
      }
      ghost var minted := store;
      for i := 0 to |page|
        invariant store == LinkAll(minted, page[..i])
      {
        assert page[..i + 1][..i] == page[..i];
        store := Link(store, page[i].key);
      }
      events := CollectPageEvents(before, store, page);
    }

    /** The sweep, and the events it earned. */
    method SweepStale(stamp: nat) returns (removed: seq<Event>)
      modifies this`store
      ensures store == Reconcile(old(store), stamp) && forall e :: e in removed <==> e in RemovedEvents(old(store), stamp)
    {
      removed := [];
      var pending := Stale(store, stamp);
      while pending != {}
        invariant pending <= Stale(store, stamp) && store == old(store)
        invariant forall e :: e in removed <==> exists k :: k in Stale(store, stamp) && k !in pending && e == Removed(store.rows[k].item, store.rows[k].copy)
        decreases pending
      {
        var k :| k in pending;
        removed := removed + [Removed(store.rows[k].item, store.rows[k].copy)];
        pending := pending - {k};
      }
      store := Reconcile(store, stamp);
    }

    /** The fetch loop, each page persisted as it arrives. */
    method FetchPages(replies: seq<Reply>, native: nat -> ItemId, stamp: nat) returns (completed: bool, events: seq<Event>)
      modifies this`store
      ensures completed == FetchFrom(replies, 0).completed
      ensures Outcome(store, events) == SyncPages(old(store), FetchFrom(replies, 0).pages, native, stamp)
    {
      ghost var pages := [];
      events, completed := [], false;
      var i := 0;
      while !completed && i < |replies| && replies[i].Page?
        invariant i <= |replies| && Outcome(store, events) == SyncPages(old(store), pages, native, stamp)
        invariant FetchFrom(replies, 0) == if completed then Fetch(pages, true) else Before(pages, FetchFrom(replies, i))
        decreases |replies| - i, if completed then 0 else 1
      {
        if replies[i].entries == [] {
          BeforeNone(pages, true);
          completed := true;
        } else {
          var page := Named(replies[i].entries);
          PageNext(old(store), pages, page, native, stamp);
          BeforeNext(pages, page, FetchFrom(replies, i + 1));
          pages := pages + [page];
          if page != [] {
            var more := PersistPage(page, native, stamp);
            events := events + more;
          }
          if i + 1 >= replies[i].pages { completed := true; }
          i := i + 1;
        }
      }
      BeforeNone(pages, false);
    }

    /** `sync_collection`. A completed run leaves exactly the fetched keys, one linked copy
        each, and a snapshot of those copies; a failed one deletes nothing; replaying the
        events gives the copies held now. Every fetched row's copy is of its item and date, and
        no other copy changes. */
    method Sync(replies: seq<Reply>, native: nat -> ItemId, stamp: nat) returns (completed: bool, events: seq<Event>)
      requires Linked(store) && OncePerPage(FetchFrom(replies, 0).pages) && forall k :: k in store.rows ==> store.rows[k].stamp < stamp
      modifies this
      ensures completed == FetchFrom(replies, 0).completed
      ensures Linked(store) && Live(store) == Replay(Live(old(store)), events)
      ensures completed ==> store.rows.Keys == AllKeys(FetchFrom(replies, 0).pages) && snapshots == old(snapshots) + [Live(store)]
      ensures !completed ==> old(store).rows.Keys <= store.rows.Keys && Live(old(store)) <= Live(store) && snapshots == old(snapshots)
      ensures CopiesWritten(old(store), store, AllKeys(FetchFrom(replies, 0).pages))
    {
      ghost var was, pages := store, FetchFrom(replies, 0).pages;
      completed, events := FetchPages(replies, native, stamp);
      PagesSynced(was, pages, native, stamp);
      SyncedLinked(was, Outcome(store, events), AllKeys(pages), stamp);
      if !completed {
        FailedRunDeletesNothing(was, pages, native, stamp);
        return;
      }
      var removed := SweepStale(stamp);
      CompletedRun(was, pages, native, stamp, removed);
      events := events + removed;
      snapshots := snapshots + [SnapshotCopies(store)];
    }
  }
}
