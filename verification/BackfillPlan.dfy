/** The backfill plan: one dated event per linked release (api/ledger_backfill.py, `finalize`). */
module BackfillPlan {
  import opened Seqs
  import opened BackfillBounds

  datatype LinkRow = LinkRow(id: int, linkType: int)
  datatype UrlRow = UrlRow(id: int, discogs: int)
  datatype ReleaseUrl = ReleaseUrl(id: int, link: int, release: int, url: int, updated: int)
  datatype ReleaseRow = ReleaseRow(id: int, gid: int)

  /** The accumulated tables, and which of them were read. */
  datatype Export = Export(
    read: set<string>, linkTypes: set<int>, links: seq<LinkRow>, urls: seq<UrlRow>,
    rows: seq<ReleaseUrl>, releases: seq<ReleaseRow>)

  const TABLES: set<string> := {"link_type", "link", "url", "l_release_url", "release"}

  /** A current Discogs release link. */
  datatype Cand = Cand(id: int, release: int, discogs: int)

  datatype Event = Event(gid: int, discogs: int, at: int)

  datatype Counts = Counts(rows: nat, links: nat, linked: nat, undated: nat, missing: nat, events: nat)

  datatype ExportError = MissingTables(names: set<string>) | NoDiscogsLinkType

  // ---- What the plan means ---------------------------------------------------------------------------------------

  function Stamps(rows: seq<ReleaseUrl>): (r: seq<Stamp>)
    ensures |r| == |rows| && forall i :: 0 <= i < |r| ==> r[i] == Stamp(rows[i].id, rows[i].updated)
  {
    seq(|rows|, i requires 0 <= i < |rows| => Stamp(rows[i].id, rows[i].updated))
  }

  ghost predicate IsDiscogsLink(e: Export, link: int) {
    exists l :: l in e.links && l.id == link && l.linkType in e.linkTypes
  }

  ghost predicate HasUrl(urls: seq<UrlRow>, url: int, discogs: int) {
    exists u :: u in urls && u.id == url && u.discogs == discogs
  }

  /** The rows that are Discogs links of their release. */
  ghost function LinkRows(e: Export): set<ReleaseUrl> {
    set r | r in e.rows && IsDiscogsLink(e, r.link) && HasSomeUrl(e.urls, r.url)
  }

  /** How many of the rows are links. */
  ghost function LinkCount(rows: seq<ReleaseUrl>, links: set<ReleaseUrl>): nat {
    if rows == [] then 0 else LinkCount(rows[..|rows| - 1], links) + if rows[|rows| - 1] in links then 1 else 0
  }

  ghost predicate HasSomeUrl(urls: seq<UrlRow>, url: int) {
    exists u :: u in urls && u.id == url
  }

  /** `release` has a Discogs link. */
  ghost predicate Linked(links: set<ReleaseUrl>, release: int) {
    exists r :: r in links && r.release == release
  }

  /** `at` is the least c(k) over the release's Discogs links. */
  ghost predicate EarliestBound(stamps: seq<Stamp>, links: set<ReleaseUrl>, release: int, at: int) {
    && (exists r :: r in links && r.release == release && at == Bound(stamps, r.id))
    && (forall r :: r in links && r.release == release ==> at <= Bound(stamps, r.id))
  }

  ghost predicate HasRow(e: Export, release: int) {
    exists r :: r in e.releases && r.id == release
  }

  /** The release has a link, a dated bound and a row of its own. */
  ghost predicate Datable(e: Export, release: int) {
    Linked(LinkRows(e), release) && !EarliestBound(Stamps(e.rows), LinkRows(e), release, NO_TIME) && HasRow(e, release)
  }

  // ---- The candidates ----------------------------------------------------------------------------------------------

  /** `c` is a candidate made from a link row. */
  ghost predicate FromRow(links: set<ReleaseUrl>, urls: seq<UrlRow>, c: Cand) {
    exists r :: r in links && c.id == r.id && c.release == r.release && HasUrl(urls, r.url, c.discogs)
  }

  ghost predicate ToCand(cands: seq<Cand>, r: ReleaseUrl) {
    exists c :: c in cands && c.id == r.id && c.release == r.release
  }

  ghost predicate CandsOf(links: set<ReleaseUrl>, urls: seq<UrlRow>, cands: seq<Cand>) {
    && (forall c :: c in cands ==> FromRow(links, urls, c))
    && (forall r :: r in links ==> ToCand(cands, r))
  }

  method DiscogsLinks(e: Export) returns (links: set<int>)
    ensures forall l :: l in links <==> IsDiscogsLink(e, l)
  {
    links := set l | l in e.links && l.linkType in e.linkTypes :: l.id;
  }

  function UrlKey(u: UrlRow): seq<int> { [u.id] }

  lemma SortedIds(urls: seq<UrlRow>)
    requires SortedBy(urls, UrlKey)
    ensures Ascending(seq(|urls|, i requires 0 <= i < |urls| => urls[i].id))
  {
  }

  /** The candidates, in file order: rows of a Discogs link type with a known URL. */
  method Candidates(e: Export) returns (cands: seq<Cand>)
    ensures CandsOf(LinkRows(e), e.urls, cands) && |cands| == LinkCount(e.rows, LinkRows(e))
  {
    var links := DiscogsLinks(e);
    var urls := SortBy(e.urls, UrlKey);
    SortBySorted(e.urls, UrlKey);
    SortedIds(urls);
    SameMembers(e.urls, urls);
    var ids := seq(|urls|, i requires 0 <= i < |urls| => urls[i].id);
    cands := [];
    for n := 0 to |e.rows|
      invariant forall c :: c in cands ==> FromRow(LinkRows(e), e.urls, c)
      invariant forall r :: r in e.rows[..n] && r in LinkRows(e) ==> ToCand(cands, r)
      invariant |cands| == LinkCount(e.rows[..n], LinkRows(e))
    {
      var r := e.rows[n];
      assert e.rows[..n + 1] == e.rows[..n] + [r] && e.rows[..n + 1][..n] == e.rows[..n];
      var at := BisectLeft(ids, r.url);
      UrlFound(e.urls, urls, ids, r.url, at);
      if r.link in links && at < |ids| && ids[at] == r.url {
        var c := Cand(r.id, r.release, urls[at].discogs);
        assert urls[at] in e.urls;
        assert r in LinkRows(e);
        assert FromRow(LinkRows(e), e.urls, c);
        CandAdded(LinkRows(e), cands, c);
        cands := cands + [c];
      }
    }
    assert e.rows[..|e.rows|] == e.rows;
  }

  lemma CandAdded(links: set<ReleaseUrl>, cands: seq<Cand>, c: Cand)
    ensures c in cands + [c] && forall r :: r in links && ToCand(cands, r) ==> ToCand(cands + [c], r)
  {
  }

  /** The bisect finds a URL exactly when the table has it. */
  lemma UrlFound(all: seq<UrlRow>, urls: seq<UrlRow>, ids: seq<int>, url: int, at: nat)
    requires |ids| == |urls| && (forall i :: 0 <= i < |ids| ==> ids[i] == urls[i].id) && (forall u :: u in urls <==> u in all)
    requires at <= |ids| && (forall i :: 0 <= i < at ==> ids[i] < url) && (forall i :: at <= i < |ids| ==> url <= ids[i]) && Ascending(ids)
    ensures HasSomeUrl(all, url) <==> at < |ids| && ids[at] == url
  {
  }

  // ---- The earliest link of each release --------------------------------------------------------------------------------

  /** The lowest-id link of its release: the candidates are in id order. */
  ghost predicate IsFirst(cands: seq<Cand>, i: nat) {
    i < |cands| && forall j :: 0 <= j < i ==> cands[j].release != cands[i].release
  }

  /** Candidate indices by release, then by id. */
  ghost predicate ByRelease(cands: seq<Cand>, order: seq<nat>) {
    && (forall p :: 0 <= p < |order| ==> order[p] < |cands|)
    && (forall i :: 0 <= i < |cands| ==> i in order)
    && (forall p, q :: 0 <= p < q < |order| ==>
          cands[order[p]].release < cands[order[q]].release || (cands[order[p]].release == cands[order[q]].release && order[p] < order[q]))
  }

  lemma LexOne(a: int, b: int)
    ensures LexLe([a], [b]) <==> a <= b
  {
  }

  /** In `first` order, and in `second` order among equals. */
  ghost predicate Ordered<T>(s: seq<T>, first: T -> int, second: T -> int) {
    forall i, j :: 0 <= i < j < |s| ==> Precedes(s[i], s[j], first, second)
  }

  predicate Precedes<T>(x: T, y: T, first: T -> int, second: T -> int) {
    first(x) < first(y) || (first(x) == first(y) && second(x) < second(y))
  }

  /** A stable sort keeps an earlier order among equals. */
  lemma {:induction false} StableInsert<T(!new)>(s: seq<T>, x: T, key: T -> seq<int>, first: T -> int, second: T -> int)
    requires (forall y :: key(y) == [first(y)]) && Ordered(s, first, second) && forall i :: 0 <= i < |s| ==> second(s[i]) < second(x)
    ensures Ordered(Insert(s, x, key), first, second)
  {
    if s != [] {
      var init, last := s[..|s| - 1], s[|s| - 1];
      LexOne(first(last), first(x));
      if LexLe(key(last), key(x)) {
        forall i | 0 <= i < |s| ensures Precedes(s[i], x, first, second) {
          if i < |s| - 1 { assert Precedes(s[i], last, first, second); }
        }
      } else {
        StableInsert(init, x, key, first, second);
        var r := Insert(init, x, key);
        forall i | 0 <= i < |r| ensures Precedes(r[i], last, first, second) {
          assert r[i] in multiset(r);
          if r[i] != x {
            assert r[i] in init;
            var j :| 0 <= j < |init| && init[j] == r[i];
            assert s[j] == r[i];
          }
        }
      }
    }
  }

  lemma {:induction false} StableSort<T(!new)>(s: seq<T>, key: T -> seq<int>, first: T -> int, second: T -> int)
    requires (forall y :: key(y) == [first(y)]) && forall i, j :: 0 <= i < j < |s| ==> second(s[i]) < second(s[j])
    ensures Ordered(SortBy(s, key), first, second)
  {
    if s != [] {
      var init, x := s[..|s| - 1], s[|s| - 1];
      StableSort(init, key, first, second);
      var r := SortBy(init, key);
      forall i | 0 <= i < |r| ensures second(r[i]) < second(x) {
        SameMember(init, r, r[i]);
        var j :| 0 <= j < |init| && init[j] == r[i];
        assert s[j] == r[i];
      }
      StableInsert(r, x, key, first, second);
    }
  }

  /** The candidate indices sorted by release; the sort is stable. */
  method OrderByRelease(cands: seq<Cand>) returns (order: seq<nat>)
    ensures ByRelease(cands, order)
  {
    var all: seq<nat> := seq(|cands|, (i: nat) => i);
    var key := (i: nat) => [if i < |cands| then cands[i].release else 0];
    order := SortBy(all, key);
    SameMembers(all, order);
    StableSort(all, key, (i: nat) => if i < |cands| then cands[i].release else 0, (i: nat) => i);
    forall i: nat | i < |cands| ensures i in order { assert all[i] == i; }
    forall p | 0 <= p < |order| ensures order[p] < |cands| { assert order[p] in all; }
    OrderedIs(cands, order, (i: nat) => if i < |cands| then cands[i].release else 0, (i: nat) => i);
  }

  lemma OrderedIs(cands: seq<Cand>, order: seq<nat>, first: nat -> int, second: nat -> int)
    requires Ordered(order, first, second) && forall p :: 0 <= p < |order| ==> order[p] < |cands| && first(order[p]) == cands[order[p]].release && second(order[p]) == order[p]
    ensures forall p, q :: 0 <= p < q < |order| ==>
          cands[order[p]].release < cands[order[q]].release || (cands[order[p]].release == cands[order[q]].release && order[p] < order[q])
  {
  }

  /** A dated release: its lowest-id link's Discogs id and bound. */
  datatype Dated = Dated(release: int, discogs: int, at: int)

  function ReleasesIn(cands: seq<Cand>, order: seq<nat>): set<int>
    requires forall p :: 0 <= p < |order| ==> order[p] < |cands|
  {
    set p | 0 <= p < |order| :: cands[order[p]].release
  }

  /** `d` is the event of its release's first link. */
  ghost predicate DatedOk(cands: seq<Cand>, bounds: seq<int>, d: Dated) {
    exists i: nat :: i < |bounds| && IsFirst(cands, i) && cands[i].release == d.release && d.discogs == cands[i].discogs && d.at == bounds[i] && bounds[i] != NO_TIME
  }

  ghost predicate Increasing(dated: seq<Dated>) {
    forall m, n :: 0 <= m < n < |dated| ==> dated[m].release < dated[n].release
  }

  /** After the groups before `start`. */
  ghost predicate Grouped(cands: seq<Cand>, bounds: seq<int>, order: seq<nat>, start: nat, dated: seq<Dated>, linked: nat, undated: nat) {
    var holds :=
      && start <= |order| && ByRelease(cands, order) && |bounds| == |cands|
      && (0 < start < |order| ==> cands[order[start - 1]].release < cands[order[start]].release)
      && Increasing(dated) && (forall d :: d in dated ==> DatedOk(cands, bounds, d) && start > 0 && d.release <= cands[order[start - 1]].release)
      && (forall p :: 0 <= p < start && IsFirst(cands, order[p]) && bounds[order[p]] != NO_TIME ==> exists d :: d in dated && d.release == cands[order[p]].release)
      && linked == |ReleasesIn(cands, order[..start])| && undated + |dated| == linked;
    holds
  }

  /** The first of a group is its release's lowest-id link. */
  lemma GroupHead(cands: seq<Cand>, bounds: seq<int>, order: seq<nat>, start: nat, dated: seq<Dated>, linked: nat, undated: nat)
    requires Grouped(cands, bounds, order, start, dated, linked, undated) && start < |order|
    ensures IsFirst(cands, order[start])
    ensures forall p :: 0 <= p < start ==> cands[order[p]].release < cands[order[start]].release
  {
    forall p | 0 <= p < start ensures cands[order[p]].release < cands[order[start]].release {
      if p < start - 1 { assert cands[order[p]].release <= cands[order[start - 1]].release; }
    }
    forall j: nat | j < order[start] ensures cands[j].release != cands[order[start]].release {
      assert j in order;
      var p :| 0 <= p < |order| && order[p] == j;
    }
  }

  ghost predicate IsGroup(cands: seq<Cand>, order: seq<nat>, start: nat, end: nat) {
    && start < end <= |order| && (forall p :: 0 <= p < |order| ==> order[p] < |cands|)
    && (forall p :: start <= p < end ==> cands[order[p]].release == cands[order[start]].release)
    && (end < |order| ==> cands[order[end]].release != cands[order[start]].release)
  }

  lemma GroupAdds(cands: seq<Cand>, order: seq<nat>, start: nat, end: nat)
    requires IsGroup(cands, order, start, end) && forall p :: 0 <= p < start ==> cands[order[p]].release < cands[order[start]].release
    ensures |ReleasesIn(cands, order[..end])| == |ReleasesIn(cands, order[..start])| + 1
  {
    var release := cands[order[start]].release;
    var before, after := ReleasesIn(cands, order[..start]), ReleasesIn(cands, order[..end]);
    forall r ensures r in after <==> r in before || r == release {
      if r in before {
        var p :| 0 <= p < start && cands[order[..start][p]].release == r;
        assert order[..end][p] == order[p];
      }
      assert order[..end][start] == order[start];
      if r in after {
        var p :| 0 <= p < end && cands[order[..end][p]].release == r;
        if p < start { assert order[..start][p] == order[p]; }
      }
    }
    assert after == before + {release};
    assert release !in before;
  }

  /** One group: dated by its first link, or counted undated. */
  lemma GroupStep(cands: seq<Cand>, bounds: seq<int>, order: seq<nat>, start: nat, end: nat, dated: seq<Dated>, linked: nat, undated: nat)
    requires Grouped(cands, bounds, order, start, dated, linked, undated) && IsGroup(cands, order, start, end)
    ensures var best := order[start];
            if bounds[best] == NO_TIME then Grouped(cands, bounds, order, end, dated, linked + 1, undated + 1)
            else Grouped(cands, bounds, order, end, dated + [Dated(cands[best].release, cands[best].discogs, bounds[best])], linked + 1, undated)
  {
    GroupHead(cands, bounds, order, start, dated, linked, undated);
    GroupAdds(cands, order, start, end);
    var best := order[start];
    var d := Dated(cands[best].release, cands[best].discogs, bounds[best]);
    var dated' := if bounds[best] == NO_TIME then dated else dated + [d];
    assert cands[order[end - 1]].release == cands[best].release;
    assert end < |order| ==> cands[order[start]].release <= cands[order[end]].release;
    assert bounds[best] != NO_TIME ==> DatedOk(cands, bounds, d);
    GroupKeeps(cands, bounds, order, start, end, dated, linked, undated, d, dated');
  }

  lemma GroupKeeps(cands: seq<Cand>, bounds: seq<int>, order: seq<nat>, start: nat, end: nat, dated: seq<Dated>, linked: nat, undated: nat, d: Dated, dated': seq<Dated>)
    requires Grouped(cands, bounds, order, start, dated, linked, undated) && IsGroup(cands, order, start, end)
    requires d.release == cands[order[start]].release && dated' == if bounds[order[start]] == NO_TIME then dated else dated + [d]
    requires IsFirst(cands, order[start]) && forall p :: 0 <= p < start ==> cands[order[p]].release < cands[order[start]].release
    ensures Increasing(dated')
    ensures forall p :: 0 <= p < end && IsFirst(cands, order[p]) && bounds[order[p]] != NO_TIME ==> exists d :: d in dated' && d.release == cands[order[p]].release
    ensures forall x :: x in dated ==> x.release < d.release
  {
  }

  /** The three arrays list the same releases in the same order. */
  ghost predicate Aligned(dated: seq<Dated>, releases: seq<int>, discogs: seq<int>, ats: seq<int>) {
    var holds :=
      && |releases| == |discogs| == |ats| == |dated|
      && forall m :: 0 <= m < |dated| ==> dated[m] == Dated(releases[m], discogs[m], ats[m]);
    holds
  }

  /** The three arrays read side by side. */
  function Zip(releases: seq<int>, discogs: seq<int>, ats: seq<int>): (r: seq<Dated>)
    requires |releases| == |discogs| == |ats|
    ensures |r| == |releases| && forall m :: 0 <= m < |r| ==> r[m] == Dated(releases[m], discogs[m], ats[m])
  {
    seq(|releases|, m requires 0 <= m < |releases| => Dated(releases[m], discogs[m], ats[m]))
  }

  /** The grouping loop over the candidates by release. */
  method DateReleases(cands: seq<Cand>, bounds: array<int>, order: seq<nat>)
    returns (releases: seq<int>, discogs: seq<int>, ats: seq<int>, linked: nat, undated: nat)
    requires ByRelease(cands, order) && bounds.Length == |cands|
    ensures |releases| == |discogs| == |ats|
    ensures Grouped(cands, bounds[..], order, |order|, Zip(releases, discogs, ats), linked, undated)
  {
    releases, discogs, ats, linked, undated := [], [], [], 0, 0;
    ghost var dated: seq<Dated> := [];
    var start := 0;
    while start < |order|
      invariant Grouped(cands, bounds[..], order, start, dated, linked, undated) && Aligned(dated, releases, discogs, ats)
    {
      var best := order[start];
      var release := cands[best].release;
      var end := start + 1;
      while end < |order| && cands[order[end]].release == release
        invariant start < end <= |order|
        invariant forall p :: start <= p < end ==> cands[order[p]].release == release
      {
        end := end + 1;
      }
      GroupStep(cands, bounds[..], order, start, end, dated, linked, undated);
      linked := linked + 1;
      if bounds[best] == NO_TIME {
        undated := undated + 1;
      } else {
        releases := releases + [release];
        discogs := discogs + [cands[best].discogs];
        ats := ats + [bounds[best]];
        dated := dated + [Dated(release, cands[best].discogs, bounds[best])];
      }
      start := end;
    }
    assert dated == Zip(releases, discogs, ats);
  }

  // ---- Each dated release's own row ---------------------------------------------------------------------------------------

  /** The gid of the last row with the id, as later rows overwrite. */
  function LastGid(rows: seq<ReleaseRow>, id: int): Option<int> {
    if rows == [] then None
    else if rows[|rows| - 1].id == id then Some(rows[|rows| - 1].gid)
    else LastGid(rows[..|rows| - 1], id)
  }

  lemma {:induction false} GidIffRow(rows: seq<ReleaseRow>, id: int)
    ensures LastGid(rows, id).Some? <==> exists r :: r in rows && r.id == id
  {
    if rows != [] {
      GidIffRow(rows[..|rows| - 1], id);
      assert rows == rows[..|rows| - 1] + [rows[|rows| - 1]];
    }
  }

  ghost predicate Strict(s: seq<int>) {
    forall i, j :: 0 <= i < j < |s| ==> s[i] < s[j]
  }

  ghost predicate Matched(releases: seq<int>, rows: seq<ReleaseRow>, gids: seq<int>, found: seq<bool>) {
    && |gids| == |found| == |releases|
    && forall m :: 0 <= m < |releases| ==>
         LastGid(rows, releases[m]) == if found[m] then Some(gids[m]) else None
  }

  lemma MatchRow(releases: seq<int>, rows: seq<ReleaseRow>, gids: seq<int>, found: seq<bool>, r: ReleaseRow, at: nat)
    requires Strict(releases) && Matched(releases, rows, gids, found) && at <= |releases|
    requires (forall i :: 0 <= i < at ==> releases[i] < r.id) && (forall i :: at <= i < |releases| ==> r.id <= releases[i])
    ensures if at < |releases| && releases[at] == r.id then Matched(releases, rows + [r], gids[at := r.gid], found[at := true])
            else Matched(releases, rows + [r], gids, found)
  {
  }

  /** Scan the release table for the dated releases. */
  method FindReleases(releases: seq<int>, rows: seq<ReleaseRow>) returns (gids: array<int>, found: array<bool>)
    requires Strict(releases)
    ensures Matched(releases, rows, gids[..], found[..])
  {
    gids := new int[|releases|](_ => 0);
    found := new bool[|releases|](_ => false);
    for n := 0 to |rows|
      invariant fresh(gids) && fresh(found) && gids.Length == found.Length == |releases|
      invariant Matched(releases, rows[..n], gids[..], found[..])
    {
      var at := BisectLeft(releases, rows[n].id);
      MatchRow(releases, rows[..n], gids[..], found[..], rows[n], at);
      assert rows[..n + 1] == rows[..n] + [rows[n]];
      if at < |releases| && releases[at] == rows[n].id {
        ghost var g, f := gids[..], found[..];
        gids[at], found[at] := rows[n].gid, true;
        assert gids[..] == g[at := rows[n].gid] && found[..] == f[at := true];
      }
    }
    assert rows[..|rows|] == rows;
  }

  // ---- The plan --------------------------------------------------------------------------------------------------------------

  datatype Plan = Plan(gids: seq<int>, discogs: seq<int>, ats: seq<int>, counts: Counts)

  datatype Outcome = Planned(plan: Plan) | Refused(error: ExportError)

  /** The indices that were found. */
  function Kept(found: seq<bool>): (kept: seq<nat>)
    ensures forall i :: 0 <= i < |kept| ==> kept[i] < |found| && found[kept[i]]
    ensures forall i, j :: 0 <= i < j < |kept| ==> kept[i] < kept[j]
    ensures forall m: nat :: m < |found| && found[m] ==> m in kept
    ensures |kept| <= |found|
  {
    if found == [] then []
    else
      var init := found[..|found| - 1];
      var rest := Kept(init);
      assert forall m: nat :: m < |init| && init[m] ==> m in rest;
      if found[|found| - 1] then rest + [|found| - 1] else rest
  }

  function Pick<T>(s: seq<T>, kept: seq<nat>): (r: seq<T>)
    requires forall i :: 0 <= i < |kept| ==> kept[i] < |s|
    ensures |r| == |kept| && forall i :: 0 <= i < |r| ==> r[i] == s[kept[i]]
  {
    seq(|kept|, i requires 0 <= i < |kept| => s[kept[i]])
  }

  lemma {:induction false} KeptAll(found: seq<bool>)
    ensures |Kept(found)| == |found| ==> forall m :: 0 <= m < |found| ==> found[m] && Kept(found)[m] == m
  {
    if found != [] {
      var init := found[..|found| - 1];
      KeptAll(init);
      forall m | |Kept(found)| == |found| && 0 <= m < |found| ensures found[m] && Kept(found)[m] == m {
        if m < |init| { assert init[m] == found[m]; }
      }
    }
  }

  lemma PickAll<T>(s: seq<T>, found: seq<bool>)
    requires |s| == |found| == |Kept(found)|
    ensures Pick(s, Kept(found)) == s
  {
    KeptAll(found);
  }

  /** A lowest-id Discogs link of the release names this Discogs id. */
  ghost predicate LowestLink(links: set<ReleaseUrl>, urls: seq<UrlRow>, release: int, discogs: int) {
    exists r :: r in links && r.release == release && HasUrl(urls, r.url, discogs) && NoneLower(links, r)
  }

  ghost predicate NoneLower(links: set<ReleaseUrl>, r: ReleaseUrl) {
    forall other :: other in links && other.release == r.release ==> r.id <= other.id
  }

  ghost function LinkedReleases(e: Export): set<int> {
    set r | r in LinkRows(e) :: r.release
  }

  /** One event per datable release, in release order, dated at its earliest bound; the three
      arrays are aligned and the counts reconcile. */
  ghost predicate PlanOk(e: Export, plan: Plan, releases: seq<int>) {
    EventsOk(e, plan, releases) && CountsOk(e, plan)
  }

  ghost predicate EventsOk(e: Export, plan: Plan, releases: seq<int>) {
    var holds :=
      && |plan.gids| == |plan.discogs| == |plan.ats| == |releases| && Strict(releases)
      && (forall m :: 0 <= m < |releases| ==> EventOk(e, releases[m], plan.gids[m], plan.discogs[m], plan.ats[m]))
      && (forall r :: Datable(e, r) ==> r in releases);
    holds
  }

  /** The release is linked but has no bound. */
  ghost predicate IsUndated(e: Export, release: int) {
    var holds := Linked(LinkRows(e), release) && EarliestBound(Stamps(e.rows), LinkRows(e), release, NO_TIME);
    holds
  }

  /** The release is dated but has no row of its own. */
  ghost predicate IsMissing(e: Export, release: int) {
    var holds := Linked(LinkRows(e), release) && !EarliestBound(Stamps(e.rows), LinkRows(e), release, NO_TIME) && !HasRow(e, release);
    holds
  }

  ghost function Undated(e: Export): set<int> { set r | r in LinkedReleases(e) && IsUndated(e, r) }

  ghost function Missing(e: Export): set<int> { set r | r in LinkedReleases(e) && IsMissing(e, r) }

  ghost predicate CountsOk(e: Export, plan: Plan) {
    && plan.counts.rows == |e.rows| && plan.counts.events == |plan.ats| && plan.counts.linked == |LinkedReleases(e)|
    && plan.counts.links == LinkCount(e.rows, LinkRows(e)) && plan.counts.undated == |Undated(e)| && plan.counts.missing == |Missing(e)|
    && plan.counts.linked == plan.counts.undated + plan.counts.missing + plan.counts.events
  }

  ghost predicate EventOk(e: Export, release: int, gid: int, discogs: int, at: int) {
    var holds :=
      && Datable(e, release) && EarliestBound(Stamps(e.rows), LinkRows(e), release, at)
      && LowestLink(LinkRows(e), e.urls, release, discogs) && LastGid(e.releases, release) == Some(gid);
    holds
  }

  /** The candidates in id order, with their bounds. */
  ghost predicate Bounded(stamps: seq<Stamp>, links: set<ReleaseUrl>, urls: seq<UrlRow>, cands: seq<Cand>, bounds: seq<int>) {
    var holds :=
      && CandsOf(links, urls, cands) && |bounds| == |cands|
      && (forall i, j :: 0 <= i < j < |cands| ==> cands[i].id <= cands[j].id)
      && (forall i :: 0 <= i < |cands| ==> bounds[i] == Bound(stamps, cands[i].id));
    holds
  }

  /** No link of the release is lower, or bounded earlier, than its first candidate. */
  lemma FirstIsLowest(stamps: seq<Stamp>, links: set<ReleaseUrl>, urls: seq<UrlRow>, cands: seq<Cand>, bounds: seq<int>, i: nat, other: ReleaseUrl)
    requires Bounded(stamps, links, urls, cands, bounds) && IsFirst(cands, i) && other in links && other.release == cands[i].release
    ensures cands[i].id <= other.id && bounds[i] <= Bound(stamps, other.id)
  {
    assert ToCand(cands, other);
    BoundMonotone(stamps, cands[i].id, other.id);
  }

  /** A release's lowest-id link has its earliest bound. */
  lemma FirstIsEarliest(stamps: seq<Stamp>, links: set<ReleaseUrl>, urls: seq<UrlRow>, cands: seq<Cand>, bounds: seq<int>, i: nat)
    requires Bounded(stamps, links, urls, cands, bounds) && IsFirst(cands, i)
    ensures EarliestBound(stamps, links, cands[i].release, bounds[i]) && LowestLink(links, urls, cands[i].release, cands[i].discogs)
  {
    var c := cands[i];
    assert c in cands && FromRow(links, urls, c);
    var r :| r in links && c.id == r.id && c.release == r.release && HasUrl(urls, r.url, c.discogs);
    forall other | other in links && other.release == c.release ensures c.id <= other.id && bounds[i] <= Bound(stamps, other.id) {
      FirstIsLowest(stamps, links, urls, cands, bounds, i, other);
    }
    assert NoneLower(links, r);
  }

  lemma OneEarliest(stamps: seq<Stamp>, links: set<ReleaseUrl>, release: int, a: int, b: int)
    requires EarliestBound(stamps, links, release, a) && EarliestBound(stamps, links, release, b)
    ensures a == b
  {
  }

  lemma {:induction false} FirstOf(cands: seq<Cand>, j: nat) returns (i: nat)
    requires j < |cands|
    ensures IsFirst(cands, i) && cands[i].release == cands[j].release
    decreases j
  {
    if k :| 0 <= k < j && cands[k].release == cands[j].release {
      i := FirstOf(cands, k);
    } else {
      i := j;
    }
  }

  ghost predicate IsDated(dated: seq<Dated>, release: int) {
    exists d :: d in dated && d.release == release
  }

  lemma FirstIsDated(cands: seq<Cand>, bounds: seq<int>, order: seq<nat>, dated: seq<Dated>, linked: nat, undated: nat, i: nat)
    requires Grouped(cands, bounds, order, |order|, dated, linked, undated) && IsFirst(cands, i) && bounds[i] != NO_TIME
    ensures IsDated(dated, cands[i].release)
  {
    assert i in order;
    var p :| 0 <= p < |order| && order[p] == i;
    assert IsFirst(cands, order[p]) && bounds[order[p]] != NO_TIME;
  }

  /** The dated releases are the linked ones with a bound. */
  lemma DatedIs(stamps: seq<Stamp>, links: set<ReleaseUrl>, urls: seq<UrlRow>, cands: seq<Cand>, bounds: seq<int>, order: seq<nat>, dated: seq<Dated>, linked: nat, undated: nat, release: int)
    requires Bounded(stamps, links, urls, cands, bounds) && Grouped(cands, bounds, order, |order|, dated, linked, undated)
    requires Linked(links, release) && !EarliestBound(stamps, links, release, NO_TIME)
    ensures IsDated(dated, release)
  {
    var r :| r in links && r.release == release;
    assert ToCand(cands, r);
    var c :| c in cands && c.id == r.id && c.release == r.release;
    var j :| 0 <= j < |cands| && cands[j] == c;
    var i := FirstOf(cands, j);
    FirstIsEarliest(stamps, links, urls, cands, bounds, i);
    FirstIsDated(cands, bounds, order, dated, linked, undated, i);
  }

  lemma DatedMeans(stamps: seq<Stamp>, links: set<ReleaseUrl>, urls: seq<UrlRow>, cands: seq<Cand>, bounds: seq<int>, d: Dated)
    requires Bounded(stamps, links, urls, cands, bounds) && DatedOk(cands, bounds, d)
    ensures Linked(links, d.release) && !EarliestBound(stamps, links, d.release, NO_TIME)
    ensures EarliestBound(stamps, links, d.release, d.at) && LowestLink(links, urls, d.release, d.discogs)
  {
    var i: nat :| i < |bounds| && IsFirst(cands, i) && cands[i].release == d.release && d.discogs == cands[i].discogs && d.at == bounds[i] && bounds[i] != NO_TIME;
    FirstIsEarliest(stamps, links, urls, cands, bounds, i);
    if EarliestBound(stamps, links, d.release, NO_TIME) { OneEarliest(stamps, links, d.release, NO_TIME, d.at); }
  }

  lemma LinkedCount(links: set<ReleaseUrl>, urls: seq<UrlRow>, cands: seq<Cand>, order: seq<nat>)
    requires CandsOf(links, urls, cands) && ByRelease(cands, order)
    ensures ReleasesIn(cands, order) == set r | r in links :: r.release
  {
    forall r | r in links ensures r.release in ReleasesIn(cands, order) {
      assert ToCand(cands, r);
      var c :| c in cands && c.id == r.id && c.release == r.release;
      var i :| 0 <= i < |cands| && cands[i] == c;
      assert i in order;
      var p :| 0 <= p < |order| && order[p] == i;
    }
    forall p | 0 <= p < |order| ensures exists r :: r in links && r.release == cands[order[p]].release {
      assert FromRow(links, urls, cands[order[p]]);
    }
  }

  /** Sort the candidates by id and bound them. */
  method BoundCandidates(e: Export) returns (cands: seq<Cand>, bounds: array<int>)
    ensures Bounded(Stamps(e.rows), LinkRows(e), e.urls, cands, bounds[..]) && |cands| == LinkCount(e.rows, LinkRows(e))
  {
    var found := Candidates(e);
    cands := SortBy(found, (c: Cand) => [c.id]);
    SortBySorted(found, (c: Cand) => [c.id]);
    SameMembers(found, cands);
    forall i, j | 0 <= i < j < |cands| ensures cands[i].id <= cands[j].id { LexOne(cands[i].id, cands[j].id); }
    var ids := seq(|cands|, i requires 0 <= i < |cands| => cands[i].id);
    bounds := CreationBounds(ids, Stamps(e.rows));
  }

  /** Everything known when the release table has been scanned. */
  ghost predicate Scanned(e: Export, cands: seq<Cand>, bounds: seq<int>, order: seq<nat>, dated: seq<Dated>, linked: nat, undated: nat,
                          all: seq<int>, discogs: seq<int>, ats: seq<int>, gids: seq<int>, found: seq<bool>) {
    var holds :=
      && Bounded(Stamps(e.rows), LinkRows(e), e.urls, cands, bounds)
      && Grouped(cands, bounds, order, |order|, dated, linked, undated) && Aligned(dated, all, discogs, ats)
      && Matched(all, e.releases, gids, found) && Strict(all);
    holds
  }

  /** A release that was found has its event. */
  lemma KeptIsOk(e: Export, cands: seq<Cand>, bounds: seq<int>, order: seq<nat>, dated: seq<Dated>, linked: nat, undated: nat,
                 all: seq<int>, discogs: seq<int>, ats: seq<int>, gids: seq<int>, found: seq<bool>, m: nat)
    requires Scanned(e, cands, bounds, order, dated, linked, undated, all, discogs, ats, gids, found)
    requires |all| == |discogs| == |ats| == |gids| == |found| && m < |found| && found[m]
    ensures EventOk(e, all[m], gids[m], discogs[m], ats[m])
  {
    assert dated[m] in dated;
    DatedMeans(Stamps(e.rows), LinkRows(e), e.urls, cands, bounds, dated[m]);
    GidIffRow(e.releases, all[m]);
  }

  /** Every datable release was found. */
  lemma DatableIsKept(e: Export, cands: seq<Cand>, bounds: seq<int>, order: seq<nat>, dated: seq<Dated>, linked: nat, undated: nat,
                      all: seq<int>, discogs: seq<int>, ats: seq<int>, gids: seq<int>, found: seq<bool>, release: int)
    requires Scanned(e, cands, bounds, order, dated, linked, undated, all, discogs, ats, gids, found)
    requires |all| == |found| && Datable(e, release)
    ensures release in Pick(all, Kept(found))
  {
    DatedIs(Stamps(e.rows), LinkRows(e), e.urls, cands, bounds, order, dated, linked, undated, release);
    var d :| d in dated && d.release == release;
    var m :| 0 <= m < |dated| && dated[m] == d;
    GidIffRow(e.releases, release);
    InPick(all, found, m);
  }

  lemma InPick(all: seq<int>, found: seq<bool>, m: nat)
    requires |all| == |found| && m < |found| && found[m]
    ensures all[m] in Pick(all, Kept(found))
  {
  }

  lemma Lengths(e: Export, cands: seq<Cand>, bounds: seq<int>, order: seq<nat>, dated: seq<Dated>, linked: nat, undated: nat,
                all: seq<int>, discogs: seq<int>, ats: seq<int>, gids: seq<int>, found: seq<bool>)
    requires Scanned(e, cands, bounds, order, dated, linked, undated, all, discogs, ats, gids, found)
    ensures |all| == |discogs| == |ats| == |gids| == |found| == |dated|
    ensures Strict(Pick(all, Kept(found)))
  {
  }

  lemma EventsAreOk(e: Export, cands: seq<Cand>, bounds: seq<int>, order: seq<nat>, dated: seq<Dated>, linked: nat, undated: nat,
                    all: seq<int>, discogs: seq<int>, ats: seq<int>, gids: seq<int>, found: seq<bool>, kept: seq<nat>, plan: Plan, releases: seq<int>)
    requires Scanned(e, cands, bounds, order, dated, linked, undated, all, discogs, ats, gids, found)
    requires |all| == |discogs| == |ats| == |gids| == |found| && kept == Kept(found) && releases == Pick(all, kept)
    requires plan.gids == Pick(gids, kept) && plan.discogs == Pick(discogs, kept) && plan.ats == Pick(ats, kept)
    ensures EventsOk(e, plan, releases)
  {
    Lengths(e, cands, bounds, order, dated, linked, undated, all, discogs, ats, gids, found);
    forall m | 0 <= m < |releases| ensures EventOk(e, releases[m], plan.gids[m], plan.discogs[m], plan.ats[m]) {
      KeptIsOk(e, cands, bounds, order, dated, linked, undated, all, discogs, ats, gids, found, kept[m]);
    }
    forall r | Datable(e, r) ensures r in releases {
      DatableIsKept(e, cands, bounds, order, dated, linked, undated, all, discogs, ats, gids, found, r);
    }
  }

  lemma {:induction false} StrictCount(s: seq<int>)
    requires Strict(s)
    ensures |(set r | r in s)| == |s|
  {
    if s != [] {
      var init, last := s[..|s| - 1], s[|s| - 1];
      StrictCount(init);
      assert (set r | r in s) == (set r | r in init) + {last};
    }
  }

  lemma IsLinked(e: Export, release: int)
    ensures release in LinkedReleases(e) <==> Linked(LinkRows(e), release)
  {
  }

  lemma DatedIsNot(e: Export, cands: seq<Cand>, bounds: seq<int>, d: Dated)
    requires Bounded(Stamps(e.rows), LinkRows(e), e.urls, cands, bounds) && DatedOk(cands, bounds, d)
    ensures d.release in LinkedReleases(e) && !IsUndated(e, d.release)
  {
    DatedMeans(Stamps(e.rows), LinkRows(e), e.urls, cands, bounds, d);
    IsLinked(e, d.release);
  }

  lemma NotIsDated(e: Export, cands: seq<Cand>, bounds: seq<int>, order: seq<nat>, dated: seq<Dated>, linked: nat, undated: nat, release: int)
    requires Bounded(Stamps(e.rows), LinkRows(e), e.urls, cands, bounds) && Grouped(cands, bounds, order, |order|, dated, linked, undated)
    requires release in LinkedReleases(e) && !IsUndated(e, release)
    ensures IsDated(dated, release)
  {
    IsLinked(e, release);
    DatedIs(Stamps(e.rows), LinkRows(e), e.urls, cands, bounds, order, dated, linked, undated, release);
  }

  lemma AllAreOk(cands: seq<Cand>, bounds: seq<int>, order: seq<nat>, dated: seq<Dated>, linked: nat, undated: nat, d: Dated)
    requires Grouped(cands, bounds, order, |order|, dated, linked, undated) && d in dated
    ensures DatedOk(cands, bounds, d)
  {
  }

  /** The dated releases are the linked ones that are not undated. */
  lemma DatedSet(e: Export, cands: seq<Cand>, bounds: seq<int>, order: seq<nat>, dated: seq<Dated>, linked: nat, undated: nat, release: int)
    requires Bounded(Stamps(e.rows), LinkRows(e), e.urls, cands, bounds) && Grouped(cands, bounds, order, |order|, dated, linked, undated)
    ensures IsDated(dated, release) <==> release in LinkedReleases(e) && !IsUndated(e, release)
  {
    if IsDated(dated, release) {
      var d :| d in dated && d.release == release;
      AllAreOk(cands, bounds, order, dated, linked, undated, d);
      DatedIsNot(e, cands, bounds, d);
    } else if release in LinkedReleases(e) && !IsUndated(e, release) {
      NotIsDated(e, cands, bounds, order, dated, linked, undated, release);
    }
  }

  lemma DatableSet(e: Export, release: int)
    ensures Datable(e, release) <==> release in LinkedReleases(e) && !IsUndated(e, release) && !IsMissing(e, release)
    ensures IsMissing(e, release) ==> release in LinkedReleases(e) && !IsUndated(e, release)
  {
    IsLinked(e, release);
  }

  lemma InEvents(e: Export, plan: Plan, releases: seq<int>)
    requires EventsOk(e, plan, releases)
    ensures Strict(releases) && |releases| == |plan.ats| && forall r :: r in releases <==> Datable(e, r)
  {
    forall r | r in releases ensures Datable(e, r) {
      var m :| 0 <= m < |releases| && releases[m] == r;
      assert EventOk(e, releases[m], plan.gids[m], plan.discogs[m], plan.ats[m]);
    }
  }

  /** Counting a set by an increasing list of what is left of it. */
  lemma CountRest(whole: set<int>, part: set<int>, rest: seq<int>)
    requires part <= whole && Strict(rest) && forall r :: r in rest <==> r in whole && r !in part
    ensures |part| == |whole| - |rest|
  {
    StrictCount(rest);
    assert (set r | r in rest) == whole - part;
  }

  lemma InAll(dated: seq<Dated>, all: seq<int>, release: int)
    requires |all| == |dated| && forall m :: 0 <= m < |all| ==> all[m] == dated[m].release
    ensures release in all <==> IsDated(dated, release)
  {
    if release in all {
      var m :| 0 <= m < |all| && all[m] == release;
      assert dated[m] in dated;
    }
    if IsDated(dated, release) {
      var d :| d in dated && d.release == release;
      var m :| 0 <= m < |dated| && dated[m] == d;
      assert all[m] == release;
    }
  }

  lemma CountsSplit(linked: set<int>, undated: set<int>, missing: set<int>, all: seq<int>, releases: seq<int>)
    requires undated <= linked && missing <= linked && Strict(all) && Strict(releases)
    requires forall r :: r in all <==> r in linked && r !in undated
    requires forall r :: r in releases <==> r in all && r !in missing
    requires forall r :: r in missing ==> r !in undated
    ensures |undated| == |linked| - |all| && |missing| == |all| - |releases|
  {
    CountRest(linked, undated, all);
    StrictCount(all);
    var dated := set r | r in all;
    assert forall r :: r in missing ==> r in dated;
    CountRest(dated, missing, releases);
  }

  lemma UndatedMissing(e: Export, cands: seq<Cand>, bounds: seq<int>, order: seq<nat>, dated: seq<Dated>, linked: nat, undated: nat,
                       all: seq<int>, plan: Plan, releases: seq<int>)
    requires Bounded(Stamps(e.rows), LinkRows(e), e.urls, cands, bounds) && Grouped(cands, bounds, order, |order|, dated, linked, undated)
    requires Strict(all) && |all| == |dated| && (forall m :: 0 <= m < |all| ==> all[m] == dated[m].release) && EventsOk(e, plan, releases)
    ensures |Undated(e)| == |LinkedReleases(e)| - |all| && |Missing(e)| == |all| - |plan.ats|
  {
    InEvents(e, plan, releases);
    forall r ensures (r in all <==> r in LinkedReleases(e) && !IsUndated(e, r)) && (r in releases <==> r in all && !IsMissing(e, r))
                     && (IsMissing(e, r) ==> !IsUndated(e, r))
    {
      InAll(dated, all, r);
      DatedSet(e, cands, bounds, order, dated, linked, undated, r);
      DatableSet(e, r);
    }
    CountsSplit(LinkedReleases(e), Undated(e), Missing(e), all, releases);
  }

  lemma LinkedIs(e: Export, links: set<ReleaseUrl>, cands: seq<Cand>, bounds: seq<int>, order: seq<nat>, dated: seq<Dated>, linked: nat, undated: nat)
    requires links == LinkRows(e) && Bounded(Stamps(e.rows), links, e.urls, cands, bounds) && Grouped(cands, bounds, order, |order|, dated, linked, undated)
    ensures linked == |LinkedReleases(e)| && undated + |dated| == linked
  {
    assert order[..|order|] == order;
    LinkedCount(links, e.urls, cands, order);
  }

  /** `finalize`. */
  method Finalize(e: Export) returns (r: Outcome, ghost releases: seq<int>)
    ensures r.Refused? <==> TABLES - e.read != {} || e.linkTypes == {}
    ensures r.Refused? ==> r.error == if TABLES - e.read != {} then MissingTables(TABLES - e.read) else NoDiscogsLinkType
    ensures r.Planned? ==> PlanOk(e, r.plan, releases)
  {
    releases := [];
    if TABLES - e.read != {} { return Refused(MissingTables(TABLES - e.read)), []; }
    if e.linkTypes == {} { return Refused(NoDiscogsLinkType), []; }
    var cands, bounds := BoundCandidates(e);
    var order := OrderByRelease(cands);
    var all, discogs, ats, linked, undated;
    all, discogs, ats, linked, undated := DateReleases(cands, bounds, order);
    ghost var dated := Zip(all, discogs, ats);
    StrictReleases(cands, bounds[..], order, dated, linked, undated, all, discogs, ats);
    var gids, found := FindReleases(all, e.releases);
    assert Scanned(e, cands, bounds[..], order, dated, linked, undated, all, discogs, ats, gids[..], found[..]);
    var plan;
    plan, releases := Assemble(e, |cands|, cands, bounds[..], order, dated, linked, undated, all, discogs, ats, gids[..], found[..]);
    r := Planned(plan);
  }

  /** Drop the dated releases that have no row, and count. */
  method Assemble(e: Export, links: nat, ghost cands: seq<Cand>, ghost bounds: seq<int>, ghost order: seq<nat>, ghost dated: seq<Dated>,
                  linked: nat, undated: nat, all: seq<int>, discogs: seq<int>, ats: seq<int>, gids: seq<int>, found: seq<bool>)
    returns (plan: Plan, ghost releases: seq<int>)
    requires Scanned(e, cands, bounds, order, dated, linked, undated, all, discogs, ats, gids, found) && links == LinkCount(e.rows, LinkRows(e))
    ensures PlanOk(e, plan, releases)
  {
    Lengths(e, cands, bounds, order, dated, linked, undated, all, discogs, ats, gids, found);
    var kept := Kept(found);
    var missing := |all| - |kept|;
    plan := Plan(gids, discogs, ats, Counts(|e.rows|, links, linked, undated, missing, |kept|));
    if missing > 0 {
      plan := plan.(gids := Pick(gids, kept), discogs := Pick(discogs, kept), ats := Pick(ats, kept));
    } else {
      PickAll(gids, found);
      PickAll(discogs, found);
      PickAll(ats, found);
    }
    releases := Pick(all, kept);
    EventsAreOk(e, cands, bounds, order, dated, linked, undated, all, discogs, ats, gids, found, kept, plan, releases);
    CountsOnScan(e, cands, bounds, order, dated, linked, undated, all, discogs, ats, gids, found, plan, releases);
  }

  lemma CountsOnScan(e: Export, cands: seq<Cand>, bounds: seq<int>, order: seq<nat>, dated: seq<Dated>, linked: nat, undated: nat,
                     all: seq<int>, discogs: seq<int>, ats: seq<int>, gids: seq<int>, found: seq<bool>, plan: Plan, releases: seq<int>)
    requires Scanned(e, cands, bounds, order, dated, linked, undated, all, discogs, ats, gids, found) && EventsOk(e, plan, releases)
    requires |plan.ats| <= |dated| && plan.counts == Counts(|e.rows|, LinkCount(e.rows, LinkRows(e)), linked, undated, |dated| - |plan.ats|, |plan.ats|)
    ensures CountsOk(e, plan)
  {
    UndatedMissing(e, cands, bounds, order, dated, linked, undated, all, plan, releases);
    LinkedIs(e, LinkRows(e), cands, bounds, order, dated, linked, undated);
  }

  lemma StrictReleases(cands: seq<Cand>, bounds: seq<int>, order: seq<nat>, dated: seq<Dated>, linked: nat, undated: nat, all: seq<int>, discogs: seq<int>, ats: seq<int>)
    requires Grouped(cands, bounds, order, |order|, dated, linked, undated) && Aligned(dated, all, discogs, ats)
    ensures Strict(all)
  {
  }
}
