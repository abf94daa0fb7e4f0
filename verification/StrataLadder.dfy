/** One root's discography indexed for folding: credits, masters and releases
    (api/strata.py, `_Ladder.__init__`). */
module StrataLadder {
  import opened Seqs
  import opened StrataCatalog
  import opened StrataCursor

  datatype Mark = Mark(owned: bool, wanted: bool)
  datatype CollectorState = NoState | Wanted | Owned | WantedOwned

  /** `None` for an anonymous caller. */
  type Marks = Option<map<string, Mark>>

  function MarkState(mark: Mark): CollectorState {
    if mark.owned && mark.wanted then WantedOwned
    else if mark.owned then Owned
    else if mark.wanted then Wanted
    else NoState
  }

  /** A release placed on the ladder. */
  datatype Item = Item(release: Release, year: Option<int>, credit: Credit, state: Option<CollectorState>) {
    predicate Stateful() { state.Some? && state != Some(NoState) }

    function NodeId(): string {
      (if release.provider == Discogs then "r:" else "mb:") + release.id
    }
  }

  // ---- Sort keys: Python tuples flattened to integers -----------------------------------------

  predicate IsDigits(text: string) {
    text != "" && forall i :: 0 <= i < |text| ==> '0' <= text[i] <= '9'
  }

  function Number(text: string): int
    requires forall i :: 0 <= i < |text| ==> '0' <= text[i] <= '9'
  {
    if text == "" then 0
    else 10 * Number(text[..|text| - 1]) + (text[|text| - 1] - '0') as int
  }

  function Codes(text: string): seq<int> {
    seq(|text|, i requires 0 <= i < |text| => text[i] as int)
  }

  /** `id_key`: numeric ids in number order, before the others in text order. */
  function IdKey(id: string): seq<int> {
    if IsDigits(id) then [0, Number(id)] else [1, 0] + Codes(id)
  }

  function Flag(b: bool): int { if b then 1 else 0 }

  function YearOr0(year: Option<int>): int { if year.Some? then year.value else 0 }

  function OriginalKey(r: Release): seq<int> {
    [Flag(r.year.None?), YearOr0(r.year)] + IdKey(r.id)
  }

  function ItemKey(item: Item): seq<int> {
    [Flag(item.year.Some?), YearOr0(item.year), Flag(item.release.provider != Discogs)] + IdKey(item.release.id)
  }

  // ---- The ladder -------------------------------------------------------------------------------

  datatype Ladder = Ladder(
    root: Credit,
    items: seq<Item>,
    anchor: map<string, string>,
    masterCredit: map<string, Credit>,
    masterYear: map<string, Option<int>>,
    byMaster: Groups<string, Item>,
    masterless: Groups<Credit, Item>,
    byCredit: Groups<Credit, string>,
    stateful: set<string>,
    creditOrder: seq<Credit>)
  {
    function Masters(credit: Credit): seq<string> {
      if credit in byCredit.at then byCredit.at[credit] else []
    }

    function Lane(credit: Credit): seq<Item> {
      if credit in masterless.at then masterless.at[credit] else []
    }

    /** `credit_items`: everything that sits under a credit. */
    function CreditItems(credit: Credit): seq<Item> {
      Flat(Masters(credit), byMaster.at) + Lane(credit)
    }

    /** The root leads, and every credit something sits under is listed once. */
    ghost predicate CreditsListed() {
      && creditOrder != [] && creditOrder[0] == root && Distinct(creditOrder)
      && (forall c :: c in byCredit.at ==> c in creditOrder)
      && (forall c :: c in masterless.at ==> c in creditOrder)
    }

    /** What the rest of the module relies on. */
    ghost predicate Valid() {
      && CreditsListed()
      && ItemsHung(items, byMaster, masterless, stateful)
      && MastersHung(byMaster, masterCredit, byCredit)
      && (forall m :: m in byMaster.at ==> m in masterYear && m in anchor)
    }
  }

  /** Every master hangs under exactly its own credit. */
  ghost predicate MastersHung(byMaster: Groups<string, Item>, masterCredit: map<string, Credit>, byCredit: Groups<Credit, string>) {
    && Indexed(byCredit)
    && (forall m :: m in byMaster.at ==> m in masterCredit)
    && KeyedMembers(byCredit, byMaster.order, CreditOf(masterCredit))
    && multiset(Flat(byCredit.order, byCredit.at)) == multiset(byMaster.order)
  }

  /** Every item hangs under exactly its master, or lies in exactly its credit's lane. */
  ghost predicate ItemsHung(items: seq<Item>, byMaster: Groups<string, Item>, masterless: Groups<Credit, Item>, stateful: set<string>) {
    && Indexed(byMaster) && Indexed(masterless)
    && multiset(items) == multiset(Flat(byMaster.order, byMaster.at)) + multiset(Flat(masterless.order, masterless.at))
    && KeyedMembers(byMaster, items, ItemMaster) && KeyedMembers(masterless, items, ItemLane)
    && (forall m :: m in stateful <==> m in byMaster.at && exists i :: i in byMaster.at[m] && i.Stateful())
  }

  // ---- What the ladder of a catalog is ------------------------------------------------------------

  predicate IsDiscogs(r: Release) { r.provider == Discogs }
  function ReleaseMaster(r: Release): Option<string> { r.masterId }
  function ItemMaster(i: Item): Option<string> { i.release.masterId }
  function ItemLane(i: Item): Option<Credit> { if i.release.masterId.None? then Some(i.credit) else None }
  function CreditOf(masterCredit: map<string, Credit>): string -> Option<Credit> {
    m => if m in masterCredit then Some(masterCredit[m]) else None
  }
  function MasterKey(masterYear: map<string, Option<int>>): string -> seq<int> {
    m => var year := if m in masterYear then masterYear[m] else None;
         [Flag(year.Some?), YearOr0(year)] + IdKey(m)
  }
  /** `r` is master `m`'s original: a Discogs release of it, no other sorts before it. */
  ghost predicate IsOriginal(catalog: Catalog, m: string, r: Release) {
    && r in catalog.releases && IsDiscogs(r) && r.masterId == Some(m)
    && forall other :: other in catalog.releases && IsDiscogs(other) && other.masterId == Some(m) ==>
         LexLe(OriginalKey(r), OriginalKey(other))
  }

  function EffectiveYear(catalog: Catalog, r: Release): Option<int> {
    if r.year.Some? then r.year
    else if r.masterId.Some? && r.masterId.value != "" && r.masterId.value in catalog.masterYears
      then catalog.masterYears[r.masterId.value]
    else None
  }

  /** Where one release lands, if anywhere: a MusicBrainz-only release reaches the ladder
      only through a master that a Discogs release also derives from. */
  function Place(catalog: Catalog, marks: Marks, masterCredit: map<string, Credit>, r: Release): Option<Item> {
    if r.provider == Discogs then
      var state := if marks.None? then None
                   else Some(MarkState(if r.id in marks.value then marks.value[r.id] else Mark(false, false)));
      Some(Item(r, EffectiveYear(catalog, r), r.credit, state))
    else if r.masterId.Some? && r.masterId.value in masterCredit then
      Some(Item(r, EffectiveYear(catalog, r), masterCredit[r.masterId.value], None))
    else None
  }

  function PlaceAll(catalog: Catalog, marks: Marks, masterCredit: map<string, Credit>, rs: seq<Release>): seq<Item> {
    if rs == [] then []
    else
      var n := |rs| - 1;
      PlaceAll(catalog, marks, masterCredit, rs[..n]) +
      match Place(catalog, marks, masterCredit, rs[n]) case None => [] case Some(item) => [item]
  }

  lemma {:induction false} PlaceAllMembers(catalog: Catalog, marks: Marks, masterCredit: map<string, Credit>, rs: seq<Release>)
    ensures forall i :: i in PlaceAll(catalog, marks, masterCredit, rs) <==>
              exists r :: r in rs && Place(catalog, marks, masterCredit, r) == Some(i)
  {
    if rs != [] {
      var n := |rs| - 1;
      PlaceAllMembers(catalog, marks, masterCredit, rs[..n]);
      assert rs == rs[..n] + [rs[n]];
      var all := PlaceAll(catalog, marks, masterCredit, rs);
      forall i ensures i in all <==> exists r :: r in rs && Place(catalog, marks, masterCredit, r) == Some(i) {
        if i in all && i !in PlaceAll(catalog, marks, masterCredit, rs[..n]) {
          assert rs[n] in rs && Place(catalog, marks, masterCredit, rs[n]) == Some(i);
        }
      }
    }
  }

  /** Exactly the masters a Discogs release derives from are anchored, each at its original. */
  ghost predicate AnchorsOf(catalog: Catalog, anchor: map<string, string>, masterCredit: map<string, Credit>) {
    && masterCredit.Keys == anchor.Keys
    && (forall r :: r in catalog.releases && IsDiscogs(r) && r.masterId.Some? ==> r.masterId.value in anchor)
    && (forall m :: m in anchor ==>
          exists r :: IsOriginal(catalog, m, r) && anchor[m] == r.id && masterCredit[m] == r.credit)
  }

  /** The ladder is the catalog's: its anchors, its placed items, its groups and its years. */
  ghost predicate LadderOf(l: Ladder, catalog: Catalog, marks: Marks) {
    && l.root == [catalog.rootId]
    && AnchorsOf(catalog, l.anchor, l.masterCredit)
    && l.items == PlaceAll(catalog, marks, l.masterCredit, catalog.releases)
    && (forall m :: m in l.byMaster.at ==> l.byMaster.at[m] == SortBy(Select(l.items, ItemMaster, m), ItemKey))
    && (forall c :: c in l.masterless.at ==> l.masterless.at[c] == SortBy(Select(l.items, ItemLane, c), ItemKey))
    && (forall m :: m in l.masterYear ==> m in l.byMaster.at && l.masterYear[m] == MasterYear(catalog, m, l.byMaster.at[m]))
    && (forall c :: c in l.byCredit.at ==>
          l.byCredit.at[c] == SortBy(Select(l.byMaster.order, CreditOf(l.masterCredit), c), MasterKey(l.masterYear)))
    && (forall c :: c in l.creditOrder ==> c == l.root || l.CreditItems(c) != [])
    && l.creditOrder != [] && SortedBy(l.creditOrder[1..], RankKey(l.byCredit.at, l.byMaster.at, l.masterless.at))
  }

  /** The most releases first, then the credit id. */
  function RankKey(byCredit: map<Credit, seq<string>>, byMaster: map<string, seq<Item>>, masterless: map<Credit, seq<Item>>): Credit -> seq<int> {
    c =>
      var placed := (if c in byCredit then |Flat(byCredit[c], byMaster)| else 0)
                  + (if c in masterless then |masterless[c]| else 0);
      [-placed] + Codes(CreditId(c))
  }

  /** The earliest year among the items, if any is dated. */
  function EarliestYear(items: seq<Item>): (year: Option<int>)
    ensures year.None? <==> forall i :: i in items ==> i.year.None?
    ensures year.Some? ==> (exists i :: i in items && i.year == year)
    ensures year.Some? ==> forall i :: i in items && i.year.Some? ==> year.value <= i.year.value
  {
    if items == [] then None
    else
      var n := |items| - 1;
      assert items == items[..n] + [items[n]];
      var init := EarliestYear(items[..n]);
      if init.None? || (items[n].year.Some? && items[n].year.value < init.value)
      then items[n].year else init
  }

  function MasterYear(catalog: Catalog, m: string, group: seq<Item>): Option<int> {
    if m in catalog.masterYears && catalog.masterYears[m].Some? then catalog.masterYears[m]
    else EarliestYear(group)
  }

  // ---- What a placed item says ------------------------------------------------------------------

  /** A release reaches the ladder if it is on Discogs, or some Discogs release derives from its
      master. */
  predicate OnLadder(catalog: Catalog, r: Release) {
    IsDiscogs(r) || (r.masterId.Some? && exists o :: o in catalog.releases && IsDiscogs(o) && o.masterId == r.masterId)
  }

  function ReachesLadder(catalog: Catalog): Release -> bool { r => OnLadder(catalog, r) }

  /** The caller collects or wants the release. */
  predicate Marked(marks: Marks, r: Release) {
    IsDiscogs(r) && marks.Some? && r.id in marks.value && (marks.value[r.id].owned || marks.value[r.id].wanted)
  }

  /** Its own year, else the year its master was given, else none. */
  predicate YearIs(catalog: Catalog, r: Release, year: Option<int>) {
    && (r.year.Some? ==> year == r.year)
    && (r.year.None? && r.masterId.Some? && r.masterId.value != "" && r.masterId.value in catalog.masterYears ==>
          year == catalog.masterYears[r.masterId.value])
    && (r.year.None? && (r.masterId.None? || r.masterId.value == "" || r.masterId.value !in catalog.masterYears) ==> year.None?)
  }

  /** The year the catalog gives the master, else that of its earliest dated release. */
  predicate MasterYearIs(catalog: Catalog, m: string, group: seq<Item>, year: Option<int>) {
    && (m in catalog.masterYears && catalog.masterYears[m].Some? ==> year == catalog.masterYears[m])
    && (m !in catalog.masterYears || catalog.masterYears[m].None? ==>
          && (year.None? <==> forall i :: i in group ==> i.year.None?)
          && (year.Some? ==> (exists i :: i in group && i.year == year) && forall i :: i in group && i.year.Some? ==> year.value <= i.year.value))
  }

  /** Its own credit on Discogs, else the credit of its master's original. */
  ghost predicate CreditIs(catalog: Catalog, r: Release, credit: Credit) {
    && (IsDiscogs(r) ==> credit == r.credit)
    && (!IsDiscogs(r) ==> r.masterId.Some? && exists o :: IsOriginal(catalog, r.masterId.value, o) && credit == o.credit)
  }

  /** No state for an anonymous caller or a MusicBrainz release, else what the marks say. */
  predicate StateIs(marks: Marks, r: Release, state: Option<CollectorState>) {
    && (state.None? <==> marks.None? || !IsDiscogs(r))
    && (state.Some? && marks.Some? ==>
          var owned, wanted := r.id in marks.value && marks.value[r.id].owned, r.id in marks.value && marks.value[r.id].wanted;
          && (state == Some(WantedOwned) <==> owned && wanted) && (state == Some(Owned) <==> owned && !wanted)
          && (state == Some(Wanted) <==> wanted && !owned) && (state == Some(NoState) <==> !owned && !wanted))
  }

  ghost predicate ItemIs(catalog: Catalog, marks: Marks, r: Release, i: Item) {
    i.release == r && YearIs(catalog, r, i.year) && CreditIs(catalog, r, i.credit) && StateIs(marks, r, i.state)
  }

  /** The items are the releases that reach the ladder, in the catalog's order. */
  ghost predicate ItemsAre(catalog: Catalog, marks: Marks, items: seq<Item>, rs: seq<Release>) {
    && |items| == |rs|
    && forall k :: 0 <= k < |items| ==> ItemIs(catalog, marks, rs[k], items[k])
  }

  lemma PlacedIs(catalog: Catalog, marks: Marks, anchor: map<string, string>, masterCredit: map<string, Credit>, r: Release)
    requires AnchorsOf(catalog, anchor, masterCredit)
    ensures Place(catalog, marks, masterCredit, r).Some? <==> OnLadder(catalog, r)
    ensures Place(catalog, marks, masterCredit, r).Some? ==> ItemIs(catalog, marks, r, Place(catalog, marks, masterCredit, r).value)
  {
  }

  lemma {:induction false} PlaceAllIs(catalog: Catalog, marks: Marks, anchor: map<string, string>, masterCredit: map<string, Credit>, rs: seq<Release>)
    requires AnchorsOf(catalog, anchor, masterCredit)
    ensures ItemsAre(catalog, marks, PlaceAll(catalog, marks, masterCredit, rs), Filter(rs, ReachesLadder(catalog)))
  {
    if rs != [] {
      PlaceAllIs(catalog, marks, anchor, masterCredit, rs[..|rs| - 1]);
      PlacedIs(catalog, marks, anchor, masterCredit, rs[|rs| - 1]);
    }
  }

  // ---- Building it ------------------------------------------------------------------------------

  lemma OriginalIsOriginal(catalog: Catalog, m: string, group: seq<Release>)
    requires group == Select(Filter(catalog.releases, IsDiscogs), ReleaseMaster, m) && group != []
    ensures IsOriginal(catalog, m, MinBy(group, OriginalKey))
  {
    var r := MinBy(group, OriginalKey);
    FilterMembers(catalog.releases, IsDiscogs);
    SelectMembers(Filter(catalog.releases, IsDiscogs), ReleaseMaster, m);
    forall other | other in catalog.releases && IsDiscogs(other) && other.masterId == Some(m)
      ensures LexLe(OriginalKey(r), OriginalKey(other))
    {
      assert ReleaseMaster(other) == Some(m) && other in group;
      var k :| 0 <= k < |group| && group[k] == other;
    }
  }

  method PlaceItems(catalog: Catalog, marks: Marks, masterCredit: map<string, Credit>) returns (items: seq<Item>)
    ensures items == PlaceAll(catalog, marks, masterCredit, catalog.releases)
  {
    items := [];
    for i := 0 to |catalog.releases|
      invariant items == PlaceAll(catalog, marks, masterCredit, catalog.releases[..i])
    {
      assert catalog.releases[..i + 1][..i] == catalog.releases[..i];
      match Place(catalog, marks, masterCredit, catalog.releases[i]) {
        case None =>
        case Some(item) => items := items + [item];
      }
    }
    assert catalog.releases[..|catalog.releases|] == catalog.releases;
  }

  /** The root first, then every other credit something sits under, by rank. */
  method OrderCredits(root: Credit, keys: seq<Credit>, rank: Credit -> seq<int>) returns (order: seq<Credit>)
    requires Distinct(keys)
    ensures order != [] && order[0] == root && Distinct(order)
    ensures forall c :: c in keys ==> c in order
    ensures forall c :: c in order ==> c == root || c in keys
    ensures SortedBy(order[1..], rank)
  {
    var notRoot := c => c != root;
    var others := Filter(keys, notRoot);
    var ranked := SortBy(others, rank);
    OthersRanked(root, keys, notRoot, others, ranked);
    SortBySorted(others, rank);
    order := [root] + ranked;
    assert forall j :: 0 <= j < |ranked| ==> ranked[j] in ranked;
    assert order[1..] == ranked;
  }

  lemma OthersRanked(root: Credit, keys: seq<Credit>, notRoot: Credit -> bool, others: seq<Credit>, ranked: seq<Credit>)
    requires Distinct(keys) && others == Filter(keys, notRoot) && multiset(ranked) == multiset(others)
    requires forall c :: notRoot(c) <==> c != root
    ensures Distinct(ranked)
    ensures forall c :: c in ranked <==> c in keys && c != root
  {
    FilterMembers(keys, notRoot);
    FilterDistinct(keys, notRoot);
    SameMembers(others, ranked);
  }

  /** The keys of both indexes, each once. */
  function UnionOrder<K(==)>(a: seq<K>, b: seq<K>): seq<K> {
    a + Filter(b, k => k !in a)
  }

  lemma UnionOrderMembers<K>(a: seq<K>, b: seq<K>)
    requires Distinct(a) && Distinct(b)
    ensures Distinct(UnionOrder(a, b))
    ensures forall k :: k in UnionOrder(a, b) <==> k in a || k in b
  {
    var isNew := k => k !in a;
    FilterMembers(b, isNew);
    FilterDistinct(b, isNew);
    var r := Filter(b, isNew);
    assert forall j :: 0 <= j < |r| ==> r[j] in r;
    assert forall j :: 0 <= j < |a| ==> a[j] in a;
  }

  lemma AnchorsAreOriginals(catalog: Catalog, groups: Groups<string, Release>, anchor: map<string, string>, masterCredit: map<string, Credit>)
    requires GroupsOf(groups, Filter(catalog.releases, IsDiscogs), ReleaseMaster)
    requires anchor.Keys == masterCredit.Keys == groups.at.Keys
    requires forall m :: m in groups.at ==>
               anchor[m] == MinBy(groups.at[m], OriginalKey).id && masterCredit[m] == MinBy(groups.at[m], OriginalKey).credit
    ensures AnchorsOf(catalog, anchor, masterCredit)
  {
    forall m | m in anchor
      ensures exists r :: IsOriginal(catalog, m, r) && anchor[m] == r.id && masterCredit[m] == r.credit
    {
      OriginalIsOriginal(catalog, m, groups.at[m]);
    }
    forall r | r in catalog.releases && IsDiscogs(r) && r.masterId.Some? ensures r.masterId.value in anchor {
      FilterMembers(catalog.releases, IsDiscogs);
      assert ReleaseMaster(r).value in groups.at;
    }
  }

  /** Only a master with a credit is ever grouped. */
  lemma ItemsHaveCredits(catalog: Catalog, marks: Marks, masterCredit: map<string, Credit>, items: seq<Item>)
    requires forall r :: r in catalog.releases && IsDiscogs(r) && r.masterId.Some? ==> r.masterId.value in masterCredit
    requires items == PlaceAll(catalog, marks, masterCredit, catalog.releases)
    ensures forall i :: i in items && i.release.masterId.Some? ==> i.release.masterId.value in masterCredit
  {
    PlaceAllMembers(catalog, marks, masterCredit, catalog.releases);
  }

  lemma MastersHaveCredits(items: seq<Item>, byMaster: Groups<string, Item>, masterCredit: map<string, Credit>)
    requires Indexed(byMaster) && KeyedMembers(byMaster, items, ItemMaster)
    requires forall i :: i in items && i.release.masterId.Some? ==> i.release.masterId.value in masterCredit
    ensures forall m :: m in byMaster.at ==> m in masterCredit
  {
    forall m | m in byMaster.at ensures m in masterCredit {
      var i := byMaster.at[m][0];
      assert i in byMaster.at[m];
      assert ItemMaster(i) == Some(m);
    }
  }

  method GroupItems(items: seq<Item>)
    returns (byMaster: Groups<string, Item>, masterless: Groups<Credit, Item>, stateful: set<string>)
    ensures ItemsHung(items, byMaster, masterless, stateful)
    ensures forall m :: m in byMaster.at ==> byMaster.at[m] == SortBy(Select(items, ItemMaster, m), ItemKey)
    ensures forall c :: c in masterless.at ==> masterless.at[c] == SortBy(Select(items, ItemLane, c), ItemKey)
  {
    byMaster := SortedGroups(items, ItemMaster, ItemKey);
    masterless := SortedGroups(items, ItemLane, ItemKey);
    KeyedSplits(items, ItemMaster, ItemLane);
    stateful := set m | m in byMaster.at && exists i :: i in byMaster.at[m] && i.Stateful();
  }

  method GroupMasters(byMaster: Groups<string, Item>, masterCredit: map<string, Credit>, masterYear: map<string, Option<int>>)
    returns (byCredit: Groups<Credit, string>)
    requires Indexed(byMaster)
    requires forall m :: m in byMaster.at ==> m in masterCredit
    ensures MastersHung(byMaster, masterCredit, byCredit)
    ensures forall c :: c in byCredit.at ==>
              byCredit.at[c] == SortBy(Select(byMaster.order, CreditOf(masterCredit), c), MasterKey(masterYear))
  {
    byCredit := SortedGroups(byMaster.order, CreditOf(masterCredit), MasterKey(masterYear));
    KeyedAll(byMaster.order, CreditOf(masterCredit));
  }

  /** Every master's original, by the release id and the credit it gives the master. */
  method Anchors(catalog: Catalog) returns (anchor: map<string, string>, masterCredit: map<string, Credit>)
    ensures AnchorsOf(catalog, anchor, masterCredit)
  {
    var discogs := GroupBy(Filter(catalog.releases, IsDiscogs), ReleaseMaster);
    anchor := map m | m in discogs.at :: MinBy(discogs.at[m], OriginalKey).id;
    masterCredit := map m | m in discogs.at :: MinBy(discogs.at[m], OriginalKey).credit;
    AnchorsAreOriginals(catalog, discogs, anchor, masterCredit);
  }

  /** Everything under a credit, in the order of the credits. */
  method RankCredits(root: Credit, byMaster: Groups<string, Item>, masterless: Groups<Credit, Item>, byCredit: Groups<Credit, string>)
    returns (order: seq<Credit>)
    requires Indexed(byCredit) && Indexed(masterless)
    ensures order != [] && order[0] == root && Distinct(order)
    ensures forall c :: c in byCredit.at || c in masterless.at ==> c in order
    ensures forall c :: c in order ==> c == root || c in byCredit.order || c in masterless.order
    ensures SortedBy(order[1..], RankKey(byCredit.at, byMaster.at, masterless.at))
  {
    UnionOrderMembers(byCredit.order, masterless.order);
    order := OrderCredits(root, UnionOrder(byCredit.order, masterless.order), RankKey(byCredit.at, byMaster.at, masterless.at));
  }

  /** `_Ladder(catalog, marks)`: for every catalog and every caller, an index of exactly
      that catalog that keeps what folding relies on. */
  method Build(catalog: Catalog, marks: Marks) returns (l: Ladder)
    ensures LadderOf(l, catalog, marks)
    ensures l.Valid()
    ensures ItemsAre(catalog, marks, l.items, Filter(catalog.releases, ReachesLadder(catalog)))
    ensures forall m :: m in l.byMaster.at ==> m in l.masterYear && MasterYearIs(catalog, m, l.byMaster.at[m], l.masterYear[m])
  {
    var anchor, masterCredit := Anchors(catalog);
    var items := PlaceItems(catalog, marks, masterCredit);
    PlaceAllIs(catalog, marks, anchor, masterCredit, catalog.releases);
    ItemsHaveCredits(catalog, marks, masterCredit, items);
    var byMaster, masterless, stateful := GroupItems(items);
    MastersHaveCredits(items, byMaster, masterCredit);
    var masterYear := map m | m in byMaster.at :: MasterYear(catalog, m, byMaster.at[m]);
    var byCredit := GroupMasters(byMaster, masterCredit, masterYear);
    var creditOrder := RankCredits([catalog.rootId], byMaster, masterless, byCredit);
    YearsAre(catalog, byMaster.at, masterYear);
    l := Ladder([catalog.rootId], items, anchor, masterCredit, masterYear, byMaster, masterless, byCredit, stateful, creditOrder);
    CreditsHold(l);
  }

  lemma YearsAre(catalog: Catalog, at: map<string, seq<Item>>, masterYear: map<string, Option<int>>)
    requires masterYear == map m | m in at :: MasterYear(catalog, m, at[m])
    ensures forall m :: m in at ==> m in masterYear && MasterYearIs(catalog, m, at[m], masterYear[m])
  {
  }

  lemma CreditsHold(l: Ladder)
    requires Indexed(l.byCredit) && Indexed(l.masterless)
    requires MastersHung(l.byMaster, l.masterCredit, l.byCredit)
    requires Indexed(l.byMaster)
    requires forall c :: c in l.creditOrder ==> c == l.root || c in l.byCredit.order || c in l.masterless.order
    ensures forall c :: c in l.creditOrder ==> c == l.root || l.CreditItems(c) != []
  {
  }
}
