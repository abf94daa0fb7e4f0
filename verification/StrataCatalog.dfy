/** The catalog side of one root and its cached form (api/strata.py). */
module StrataCatalog {
  import opened Seqs

  /** The sorted artist ids a release is credited to. */
  type Credit = seq<string>

  datatype Provider = Discogs | MusicBrainz

  datatype Release = Release(
    id: string, masterId: Option<string>, year: Option<int>, credit: Credit,
    provider: Provider, title: Option<string>)

  datatype Catalog = Catalog(
    rootId: string, rootName: Option<string>, releases: seq<Release>,
    masterYears: map<string, Option<int>>)

  // ---- The cached form ----------------------------------------------------------------

  const CATALOG_FORMAT := 1

  /** A release row: four cells, or six when the release carries a provider or a title. */
  datatype Row = Row(
    id: string, masterId: Option<string>, year: Option<int>, credit: int,
    extra: Option<(Provider, Option<string>)>)

  datatype Cached = Cached(
    format: int, rootId: string, rootName: Option<string>, credits: seq<Credit>,
    rows: seq<Row>, masterYears: map<string, Option<int>>)

  /** Python's list indexing: a negative index counts from the end. */
  function IndexCredit(credits: seq<Credit>, i: int): Option<Credit> {
    if 0 <= i < |credits| then Some(credits[i])
    else if -|credits| <= i < 0 then Some(credits[|credits| + i])
    else None
  }

  function DecodeRow(credits: seq<Credit>, row: Row): Option<Release> {
    match IndexCredit(credits, row.credit)
    case None => None
    case Some(credit) =>
      match row.extra
      case None => Some(Release(row.id, row.masterId, row.year, credit, Discogs, None))
      case Some((provider, title)) => Some(Release(row.id, row.masterId, row.year, credit, provider, title))
  }

  function DecodeRows(credits: seq<Credit>, rows: seq<Row>): Option<seq<Release>> {
    if rows == [] then Some([])
    else
      var n := |rows| - 1;
      match (DecodeRows(credits, rows[..n]), DecodeRow(credits, rows[n]))
      case (Some(init), Some(last)) => Some(init + [last])
      case _ => None
  }

  /** `decode_catalog`: an entry another build wrote, or one whose credit index is out of
      range, reads as a miss. */
  function Decode(entry: Cached): Option<Catalog> {
    if entry.format != CATALOG_FORMAT then None
    else
      match DecodeRows(entry.credits, entry.rows)
      case None => None
      case Some(releases) => Some(Catalog(entry.rootId, entry.rootName, releases, entry.masterYears))
  }

  /** Interning more credits leaves every row already written readable as before. */
  lemma {:induction false} DecodeRowsGrow(credits: seq<Credit>, more: seq<Credit>, rows: seq<Row>)
    requires forall row :: row in rows ==> 0 <= row.credit < |credits|
    ensures DecodeRows(credits + more, rows) == DecodeRows(credits, rows)
  {
    if rows != [] {
      DecodeRowsGrow(credits, more, rows[..|rows| - 1]);
      assert rows[|rows| - 1] in rows;
    }
  }

  /** `encode_catalog`: whatever it writes decodes to the catalog it was given, every
      distinct credit is stored once, and none is stored that no release carries. */
  method Encode(catalog: Catalog) returns (entry: Cached)
    ensures Decode(entry) == Some(catalog)
    ensures Distinct(entry.credits)
    ensures forall c :: c in entry.credits <==> exists r :: r in catalog.releases && r.credit == c
    ensures forall row :: row in entry.rows && row.extra.Some? ==> row.extra != Some((Discogs, None))
  {
    var credits: seq<Credit> := [];
    var index: map<Credit, int> := map[];
    var rows: seq<Row> := [];
    for i := 0 to |catalog.releases|
      invariant |rows| == i
      invariant Distinct(credits)
      invariant forall c :: c in index ==> 0 <= index[c] < |credits| && credits[index[c]] == c
      invariant forall c :: c in credits ==> c in index
      invariant forall row :: row in rows ==> 0 <= row.credit < |credits|
      invariant forall row :: row in rows && row.extra.Some? ==> row.extra != Some((Discogs, None))
      invariant DecodeRows(credits, rows) == Some(catalog.releases[..i])
      invariant forall c :: c in credits ==> exists r :: r in catalog.releases && r.credit == c
      invariant forall r :: r in catalog.releases[..i] ==> r.credit in credits
    {
      var release := catalog.releases[i];
      assert release in catalog.releases;
      assert catalog.releases[..i + 1] == catalog.releases[..i] + [release];
      if release.credit !in index {
        DecodeRowsGrow(credits, [release.credit], rows);
        index := index[release.credit := |credits|];
        credits := credits + [release.credit];
      }
      var extra := if release.provider != Discogs || release.title.Some?
                   then Some((release.provider, release.title)) else None;
      var row := Row(release.id, release.masterId, release.year, index[release.credit], extra);
      assert DecodeRow(credits, row) == Some(release);
      assert (rows + [row])[..i] == rows;
      rows := rows + [row];
    }
    assert catalog.releases[..|catalog.releases|] == catalog.releases;
    entry := Cached(CATALOG_FORMAT, catalog.rootId, catalog.rootName, credits, rows, catalog.masterYears);
  }
}
