/** Budgets, focus cursors and pages (api/strata.py). */
module StrataFocus {
  import opened Seqs
  import opened StrataCatalog
  import opened StrataCursor
  import opened StrataLadder

  const PAGE_SIZE := 8
  const MAX_CREDITS := 48
  const MAX_MASTERS := 500
  const MAX_RELEASES := 500

  /** Most entries per plane, nodes plus aggregates. */
  datatype Budget = Budget(credits: int, masters: int, releases: int) {
    /** `Budget.validate` accepts. */
    predicate Valid() {
      && 3 <= credits <= MAX_CREDITS
      && 2 * credits <= masters <= MAX_MASTERS
      && credits + 1 <= releases <= MAX_RELEASES
    }
  }

  // ---- Pages ----------------------------------------------------------------------------------

  function Least(a: int, b: int): int { if a < b then a else b }

  function PageSize(members: nat, withoutRest: int, withRest: int): int {
    if members <= Least(PAGE_SIZE, withoutRest) then members
    else if Least(PAGE_SIZE, withRest) < 1 then 1
    else Least(PAGE_SIZE, withRest)
  }

  /** `math.ceil(members / size)`. */
  function Pages(members: nat, size: int): nat
    requires size > 0
  {
    (members + size - 1) / size
  }

  /** Python's `members[start : start + size]`. */
  function Slice<T>(members: seq<T>, start: nat, size: nat): seq<T> {
    if start >= |members| then []
    else if start + size >= |members| then members[start..]
    else members[start..start + size]
  }

  function Page<T>(members: seq<T>, page: nat, size: nat): seq<T> {
    Slice(members, page * size, size)
  }

  /** `members[:start] + members[start + size :]`. */
  function Without<T>(members: seq<T>, start: nat, size: nat): seq<T> {
    if start >= |members| then members
    else if start + size >= |members| then members[..start]
    else members[..start] + members[start + size..]
  }

  function Rest<T>(members: seq<T>, page: nat, size: nat): seq<T> {
    Without(members, page * size, size)
  }

  lemma ThreeParts<T>(members: seq<T>, start: nat, end: nat)
    requires start <= end <= |members|
    ensures members == members[..start] + members[start..end] + members[end..]
  {
  }

  lemma SliceAndWithout<T>(members: seq<T>, start: nat, size: nat)
    ensures multiset(Slice(members, start, size)) + multiset(Without(members, start, size)) == multiset(members)
    ensures |Slice(members, start, size)| <= size
  {
    if start < |members| {
      var end := if start + size >= |members| then |members| else start + size;
      ThreeParts(members, start, end);
      MiddleOut(members[..start], members[start..end], members[end..]);
      LastPart(members, start, end);
    }
  }

  lemma LastPart<T>(members: seq<T>, start: nat, end: nat)
    requires start <= end <= |members|
    ensures end == |members| ==> members[start..end] == members[start..] && members[..start] + members[end..] == members[..start]
  {
  }

  lemma MiddleOut<T>(a: seq<T>, b: seq<T>, c: seq<T>)
    ensures multiset(b) + multiset(a + c) == multiset(a + b + c)
  {
  }

  /** A page and the rest hold every member once between them, and a page no more than its size. */
  lemma PageAndRest<T>(members: seq<T>, page: nat, size: nat)
    ensures multiset(Page(members, page, size)) + multiset(Rest(members, page, size)) == multiset(members)
    ensures |Page(members, page, size)| <= size
    ensures |Page(members, page, size)| + |Rest(members, page, size)| == |members|
  {
    SliceAndWithout(members, page * size, size);
    assert |multiset(Page(members, page, size)) + multiset(Rest(members, page, size))| == |members|;
  }

  /** A set that fits on one page has no rest. */
  lemma WholePage<T>(members: seq<T>, page: nat, size: int)
    requires |members| == size > 0 && page < Pages(|members|, size)
    ensures Page(members, page, size) == members && Rest(members, page, size) == []
  {
  }

  /** The first `n` pages, one after the other. */
  function FirstPages<T>(members: seq<T>, n: nat, size: nat): seq<T> {
    if n == 0 then [] else FirstPages(members, n - 1, size) + Page(members, n - 1, size)
  }

  lemma {:induction false} FirstPagesPrefix<T>(members: seq<T>, n: nat, size: nat)
    ensures FirstPages(members, n, size) == members[..Least(n * size, |members|)]
  {
    if n > 0 {
      FirstPagesPrefix(members, n - 1, size);
      assert n * size == (n - 1) * size + size;
      assert (n - 1) * size >= 0;
    }
  }

  lemma PagesCover(members: nat, size: int)
    requires size > 0
    ensures Pages(members, size) * size >= members
    ensures members > 0 ==> Pages(members, size) >= 1
  {
  }

  lemma IndexPage(members: nat, index: nat, size: int)
    requires size > 0 && index < members
    ensures index / size < Pages(members, size)
    ensures index / size * size <= index < index / size * size + size
  {
    var p, q := index / size, Pages(members, size);
    PagesCover(members, size);
    assert index == p * size + index % size;
    assert p >= q ==> p * size >= q * size;
  }

  /** Walking a focus page by page meets every member once, in order. */
  lemma PagesConcatenate<T>(members: seq<T>, size: int)
    requires size > 0
    ensures FirstPages(members, Pages(|members|, size), size) == members
  {
    PagesCover(|members|, size);
    FirstPagesPrefix(members, Pages(|members|, size), size);
  }

  /** The page a member's index names draws that member. */
  lemma PageOfIndex<T>(members: seq<T>, index: nat, size: int)
    requires size > 0 && index < |members|
    ensures members[index] in Page(members, index / size, size)
    ensures index / size < Pages(|members|, size)
  {
    IndexPage(|members|, index, size);
    SliceHolds(members, index, index / size * size, size);
  }

  lemma SliceHolds<T>(members: seq<T>, index: nat, start: nat, size: nat)
    requires index < |members| && start <= index < start + size
    ensures members[index] in Slice(members, start, size)
  {
  }

  // ---- What a cursor names ---------------------------------------------------------------------

  /** The member set of a cursor: every credit but the root, a credit's masters with a
      label, a master's releases, or a credit's no-master lane, whole or one decade. */
  datatype Target =
    | OtherCredits(credits: seq<Credit>)
    | MasterSet(credit: Credit, tag: string, masters: seq<string>)
    | MasterReleases(master: string, under: Credit, items: seq<Item>)
    | LaneReleases(lane: Credit, decade: Option<string>, laneItems: seq<Item>)
  {
    function Size(): nat {
      match this
      case OtherCredits(cs) => |cs|
      case MasterSet(_, _, ms) => |ms|
      case MasterReleases(_, _, items) => |items|
      case LaneReleases(_, _, items) => |items|
    }

    /** The credit that must be drawn beside the root, if any. */
    function Under(): Option<Credit> {
      match this
      case OtherCredits(_) => None
      case MasterSet(c, _, _) => Some(c)
      case MasterReleases(_, c, _) => Some(c)
      case LaneReleases(c, _, _) => Some(c)
    }
  }

  /** The canonical id of a member set. */
  function TargetId(t: Target): string {
    match t
    case OtherCredits(_) => OTHER_CREDITS
    case MasterSet(c, tag, _) => "ma:" + Labelled(c, Some(tag))
    case MasterReleases(m, _, _) => "ra:m:" + m
    case LaneReleases(c, tag, _) => "ra:nm:" + Labelled(c, tag)
  }

  function Bucket(l: Ladder, m: string, byDecade: bool): string {
    if byDecade then Decade(if m in l.masterYear then l.masterYear[m] else None) else ALL
  }

  function HasTag(l: Ladder, tag: string): string -> bool {
    m => tag == ALL || Bucket(l, m, true) == tag
  }

  function InDecade(tag: Option<string>): Item -> bool {
    (i: Item) => tag.None? || Decade(i.year) == tag.value
  }

  function MastersTagged(l: Ladder, c: Credit, tag: string): seq<string> {
    Filter(l.Masters(c), HasTag(l, tag))
  }

  function LaneTagged(l: Ladder, c: Credit, tag: Option<string>): seq<Item> {
    Filter(l.Lane(c), InDecade(tag))
  }

  /** A non-empty member set of this ladder. */
  ghost predicate TargetOf(l: Ladder, t: Target) {
    && t.Size() > 0
    && match t
       case OtherCredits(cs) => l.creditOrder != [] && cs == l.creditOrder[1..]
       case MasterSet(c, tag, ms) => ms == MastersTagged(l, c, tag)
       case MasterReleases(m, c, items) =>
         m in l.byMaster.at && items == l.byMaster.at[m] && m in l.masterCredit && c == l.masterCredit[m]
       case LaneReleases(c, tag, items) => items == LaneTagged(l, c, tag)
  }

  // ---- Reading a cursor ------------------------------------------------------------------------

  predicate Starts(text: string, prefix: string) {
    |prefix| <= |text| && text[..|prefix|] == prefix
  }

  function ParseMaster(l: Ladder, m: string): Option<Target> {
    if m in l.byMaster.at && m in l.masterCredit
    then Some(MasterReleases(m, l.masterCredit[m], l.byMaster.at[m]))
    else None
  }

  function ParseLane(l: Ladder, text: string): Option<Target> {
    var (credit, tag) := ParseCredit(text);
    if credit.None? || LaneTagged(l, credit.value, tag) == [] then None
    else Some(LaneReleases(credit.value, tag, LaneTagged(l, credit.value, tag)))
  }

  function ParseBucket(l: Ladder, text: string): Option<Target> {
    var (credit, tag) := ParseCredit(text);
    if credit.None? || tag.None? || MastersTagged(l, credit.value, tag.value) == [] then None
    else Some(MasterSet(credit.value, tag.value, MastersTagged(l, credit.value, tag.value)))
  }

  /** `_parse_focus`. */
  function ParseFocus(l: Ladder, id: string): (t: Option<Target>)
    requires l.creditOrder != []
  {
    if id == OTHER_CREDITS then
      if |l.creditOrder| > 1 then Some(OtherCredits(l.creditOrder[1..])) else None
    else if Starts(id, "ra:m:") then ParseMaster(l, id[5..])
    else if Starts(id, "m:") then ParseMaster(l, id[2..])
    else if Starts(id, "ra:nm:") then ParseLane(l, id[6..])
    else if Starts(id, "nm:") then ParseLane(l, id[3..])
    else if Starts(id, "ma:") then ParseBucket(l, id[3..])
    else None
  }

  /** Whatever a cursor names is a non-empty member set of the ladder. */
  lemma ParsedTarget(l: Ladder, id: string)
    requires l.creditOrder != [] && Indexed(l.byMaster) && ParseFocus(l, id).Some?
    ensures TargetOf(l, ParseFocus(l, id).value)
  {
  }

  lemma PrefixRead(prefix: string, rest: string)
    ensures Starts(prefix + rest, prefix) && (prefix + rest)[|prefix|..] == rest
  {
  }

  lemma DiffersEarly(text: string, prefix: string, i: nat)
    requires i < |text| && i < |prefix| && text[i] != prefix[i]
    ensures !Starts(text, prefix)
  {
  }

  lemma BucketIdParses(l: Ladder, text: string)
    requires l.creditOrder != []
    ensures ParseFocus(l, "ma:" + text) == ParseBucket(l, text)
  {
    var id := "ma:" + text;
    PrefixRead("ma:", text);
    assert id[0] == 'm' && id[1] == 'a';
    DiffersEarly(id, OTHER_CREDITS, 0);
    DiffersEarly(id, "ra:m:", 0);
    DiffersEarly(id, "m:", 1);
    DiffersEarly(id, "ra:nm:", 0);
    DiffersEarly(id, "nm:", 0);
    assert id != OTHER_CREDITS;
  }

  lemma MasterIdParses(l: Ladder, m: string)
    requires l.creditOrder != []
    ensures ParseFocus(l, "ra:m:" + m) == ParseMaster(l, m)
    ensures ParseFocus(l, "m:" + m) == ParseMaster(l, m)
  {
    PrefixRead("ra:m:", m);
    assert ("ra:m:" + m)[0] == 'r';
    assert "ra:m:" + m != OTHER_CREDITS;
    PrefixRead("m:", m);
    assert ("m:" + m)[0] == 'm';
    DiffersEarly("m:" + m, "ra:m:", 0);
    assert "m:" + m != OTHER_CREDITS;
  }

  lemma LaneIdParses(l: Ladder, text: string)
    requires l.creditOrder != []
    ensures ParseFocus(l, "ra:nm:" + text) == ParseLane(l, text)
    ensures ParseFocus(l, "nm:" + text) == ParseLane(l, text)
  {
    var id := "ra:nm:" + text;
    PrefixRead("ra:nm:", text);
    assert id[0] == 'r' && id[3] == 'n';
    DiffersEarly(id, "ra:m:", 3);
    DiffersEarly(id, "m:", 0);
    assert id != OTHER_CREDITS;
    var short := "nm:" + text;
    PrefixRead("nm:", text);
    assert short[0] == 'n';
    DiffersEarly(short, "ra:m:", 0);
    DiffersEarly(short, "m:", 0);
    DiffersEarly(short, "ra:nm:", 0);
    assert short != OTHER_CREDITS;
  }

  /** A member set's own id reads back as that member set. */
  lemma TargetIdParses(l: Ladder, t: Target)
    requires l.creditOrder != [] && TargetOf(l, t)
    requires t.MasterSet? || t.LaneReleases? ==> Readable(t.Under().value)
    requires t.MasterSet? ==> ':' !in t.tag
    requires t.LaneReleases? && t.decade.Some? ==> ':' !in t.decade.value
    ensures ParseFocus(l, TargetId(t)) == Some(t)
  {
    match t {
      case OtherCredits(cs) =>
      case MasterSet(c, tag, ms) =>
        BucketIdParses(l, Labelled(c, Some(tag)));
        ReadableParses(c, Some(tag));
      case MasterReleases(m, c, items) =>
        MasterIdParses(l, m);
      case LaneReleases(c, tag, items) =>
        LaneIdParses(l, Labelled(c, tag));
        ReadableParses(c, tag);
    }
  }

  // ---- Resolving a focus -------------------------------------------------------------------------

  datatype Focus = Focus(id: string, target: Target, page: nat, size: nat)

  /** How many of the root's and the credit's no-master lanes hold anything. */
  function LaneCount(l: Ladder, credit: Credit): int {
    Flag(l.Lane(l.root) != []) + if credit == l.root then 0 else Flag(l.Lane(credit) != [])
  }

  /** The entries the rest of the coarsest view takes on the master plane beside a focused
      master set: lanes and one bucket for each credit's other masters. */
  function OtherMasterEntries(l: Ladder, credit: Credit, members: seq<string>): int {
    Flag(l.Lane(credit) != []) + Flag(exists m :: m in l.Masters(credit) && m !in members)
    + if credit == l.root then 0 else Flag(l.Lane(l.root) != []) + Flag(l.Masters(l.root) != [])
  }

  /** The release-plane entries the unfocused lanes take beside a focused release set. */
  function OtherLaneEntries(l: Ladder, t: Target, credit: Credit): int {
    LaneEntry(l, t, l.root) + if credit == l.root then 0 else LaneEntry(l, t, credit)
  }

  function LaneEntry(l: Ladder, t: Target, c: Credit): int {
    if t.LaneReleases? && t.lane == c then Flag(|l.Lane(c)| > t.Size()) else Flag(l.Lane(c) != [])
  }

  /** The page size of a member set: no page index is among its arguments. */
  function SizeOf(l: Ladder, budget: Budget, t: Target): int {
    match t
    case OtherCredits(_) => PageSize(t.Size(), budget.credits - 1, budget.credits - 2)
    case MasterSet(c, _, ms) =>
      var others := OtherMasterEntries(l, c, ms);
      var lanes := LaneCount(l, c);
      PageSize(t.Size(),
        Least(budget.masters - others, budget.releases - lanes),
        Least(budget.masters - others - 1, budget.releases - lanes))
    case MasterReleases(_, c, _) =>
      var room := budget.releases - OtherLaneEntries(l, t, c);
      PageSize(t.Size(), room, room - 1)
    case LaneReleases(c, _, _) =>
      var room := budget.releases - OtherLaneEntries(l, t, c);
      PageSize(t.Size(), room, room - 1)
  }

  /** `by_node_id.get(id)`: the last item written under an id. */
  function Pressing(items: seq<Item>, id: string): (p: Option<Item>)
    ensures p.None? ==> forall i :: i in items ==> i.NodeId() != id
    ensures p.Some? ==> exists k :: 0 <= k < |items| && items[k] == p.value && items[k].NodeId() == id && forall j :: k < j < |items| ==> items[j].NodeId() != id
  {
    if items == [] then None
    else if items[|items| - 1].NodeId() == id then Some(items[|items| - 1])
    else Pressing(items[..|items| - 1], id)
  }

  function Lower(text: string): string {
    seq(|text|, i requires 0 <= i < |text| =>
      if 'A' <= text[i] <= 'Z' then text[i] - 'A' + 'a' else text[i])
  }

  function PressingOf(l: Ladder, id: string): Option<Item> {
    if Starts(id, "mb:") then Pressing(l.items, Lower(id))
    else if Starts(id, "r:") then Pressing(l.items, id)
    else None
  }

  /** `_pressing_cursor`: the member set that holds a pressing. */
  function PressingCursor(item: Item): string {
    if item.release.masterId.Some? then "ra:m:" + item.release.masterId.value
    else "ra:nm:" + CreditId(item.credit)
  }

  function IndexOf<T(==)>(s: seq<T>, x: T): (i: Option<nat>)
    ensures i.Some? ==> i.value < |s| && s[i.value] == x
    ensures i.None? ==> x !in s
  {
    if s == [] then None
    else if s[0] == x then Some(0)
    else match IndexOf(s[1..], x) case None => None case Some(i) => Some(i + 1)
  }

  function ReleaseItems(t: Target): seq<Item> {
    match t
    case MasterReleases(_, _, items) => items
    case LaneReleases(_, _, items) => items
    case _ => []
  }

  /** The page that holds the member at `index`. */
  function Landing(index: nat, size: int, pages: nat): nat
    requires size > 0 && pages > 0
  {
    index / size % pages
  }

  lemma LandingDraws<T>(members: seq<T>, index: nat, size: int)
    requires size > 0 && index < |members|
    ensures Pages(|members|, size) > 0
    ensures members[index] in Page(members, Landing(index, size, Pages(|members|, size)), size)
  {
    PageOfIndex(members, index, size);
    SmallRemainder(index / size, Pages(|members|, size));
    assert Landing(index, size, Pages(|members|, size)) == index / size;
  }

  lemma SmallRemainder(a: nat, n: nat)
    requires a < n
    ensures a % n == a
  {
  }

  /** `NotHeld`: a pressing whose cursor names a set without it, a crash in the original. */
  datatype Resolved = NotFound | NotHeld | Found(focus: Focus)

  lemma SizePositive(l: Ladder, budget: Budget, t: Target)
    requires budget.Valid() && t.Size() > 0
    ensures SizeOf(l, budget, t) > 0
    ensures Pages(t.Size(), SizeOf(l, budget, t)) > 0
  {
  }

  /** `resolve_focus`. */
  function ResolveFocus(l: Ladder, id: string, page: int, budget: Budget): Resolved
    requires l.Valid() && budget.Valid()
  {
    var pressing := PressingOf(l, id);
    var cursor := if pressing.Some? then PressingCursor(pressing.value) else id;
    match ParseFocus(l, cursor)
    case None => NotFound
    case Some(t) =>
      ParsedTarget(l, cursor);
      SizePositive(l, budget, t);
      var size := SizeOf(l, budget, t);
      var pages := Pages(t.Size(), size);
      if pressing.None? then Found(Focus(TargetId(t), t, page % pages, size))
      else
        match IndexOf(ReleaseItems(t), pressing.value)
        case None => NotHeld
        case Some(index) => Found(Focus(TargetId(t), t, Landing(index, size, pages), size))
  }

  /** What fitting relies on: a member set of this ladder, its page size for this budget,
      and a page it has. */
  ghost predicate FocusOf(l: Ladder, budget: Budget, f: Focus) {
    && TargetOf(l, f.target)
    && f.id == TargetId(f.target)
    && f.size > 0 && f.size == SizeOf(l, budget, f.target)
    && f.page < Pages(f.target.Size(), f.size)
  }

  /** Every focus `resolve_focus` accepts is one, and its page size ignores the page. */
  lemma ResolvedFocus(l: Ladder, id: string, page: int, budget: Budget)
    requires l.Valid() && budget.Valid()
    ensures var r := ResolveFocus(l, id, page, budget);
            r.Found? ==> FocusOf(l, budget, r.focus)
    ensures forall page' :: ResolveFocus(l, id, page', budget).Found? <==> ResolveFocus(l, id, page, budget).Found?
    ensures forall page' :: ResolveFocus(l, id, page', budget).Found? ==>
              ResolveFocus(l, id, page', budget).focus.(page := 0) == ResolveFocus(l, id, page, budget).focus.(page := 0)
  {
    var pressing := PressingOf(l, id);
    var cursor := if pressing.Some? then PressingCursor(pressing.value) else id;
    if ParseFocus(l, cursor).Some? {
      ParsedTarget(l, cursor);
      SizePositive(l, budget, ParseFocus(l, cursor).value);
    }
  }

  /** A cursor that is no pressing's shows the page asked for, around the set's pages. */
  lemma PagePicked(l: Ladder, id: string, page: int, budget: Budget)
    requires l.Valid() && budget.Valid() && PressingOf(l, id).None?
    ensures var r := ResolveFocus(l, id, page, budget);
            r.Found? ==> r.focus.size > 0 && Pages(r.focus.target.Size(), r.focus.size) > 0
                         && r.focus.page == page % Pages(r.focus.target.Size(), r.focus.size)
  {
    if ParseFocus(l, id).Some? {
      ParsedTarget(l, id);
      SizePositive(l, budget, ParseFocus(l, id).value);
    }
  }
}
