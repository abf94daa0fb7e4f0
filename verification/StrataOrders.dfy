/** What the sort keys of the strata module order by, said without them (api/strata.py). */
module StrataOrders {
  import opened Seqs
  import opened StrataCatalog
  import opened StrataCursor
  import opened StrataLadder
  import opened StrataFocus
  import opened StrataFit
  import opened StrataMasters

  // ---- Ids ------------------------------------------------------------------------------------------------------

  /** Text order, code point by code point. */
  predicate TextLe(a: string, b: string) {
    a == "" || (b != "" && (a[0] < b[0] || (a[0] == b[0] && TextLe(a[1..], b[1..]))))
  }

  /** Numbers in number order, then everything else in text order. */
  predicate IdLe(a: string, b: string) {
    if IsDigits(a) && IsDigits(b) then Number(a) <= Number(b)
    else if IsDigits(a) || IsDigits(b) then IsDigits(a)
    else TextLe(a, b)
  }

  lemma LexHead(a: int, s: seq<int>, b: int, t: seq<int>)
    ensures LexLe([a] + s, [b] + t) <==> a < b || (a == b && LexLe(s, t))
  {
    assert ([a] + s)[1..] == s && ([b] + t)[1..] == t;
  }

  lemma {:induction false} CodesOrder(a: string, b: string)
    ensures LexLe(Codes(a), Codes(b)) <==> TextLe(a, b)
    decreases |a|
  {
    if a != "" && b != "" {
      CodesOrder(a[1..], b[1..]);
      assert Codes(a)[1..] == Codes(a[1..]) && Codes(b)[1..] == Codes(b[1..]);
    }
  }

  lemma ThreeKeys(a: int, b: int, s: seq<int>, c: int, d: int, t: seq<int>)
    ensures LexLe([a, b] + s, [c, d] + t) <==> a < c || (a == c && (b < d || (b == d && LexLe(s, t))))
  {
    assert [a, b] + s == [a] + ([b] + s) && [c, d] + t == [c] + ([d] + t);
    LexHead(a, [b] + s, c, [d] + t);
    LexHead(b, s, d, t);
  }

  /** The parts of an id's key. */
  lemma IdParts(a: string)
    ensures IsDigits(a) ==> IdKey(a) == [0, Number(a)] + []
    ensures !IsDigits(a) ==> IdKey(a) == [1, 0] + Codes(a)
  {
  }

  lemma NumbersOrder(a: string, b: string)
    requires IsDigits(a) && IsDigits(b)
    ensures LexLe(IdKey(a), IdKey(b)) <==> Number(a) <= Number(b)
  {
    IdParts(a);
    IdParts(b);
    ThreeKeys(0, Number(a), [], 0, Number(b), []);
  }

  lemma TextsOrder(a: string, b: string)
    requires !IsDigits(a) && !IsDigits(b)
    ensures LexLe(IdKey(a), IdKey(b)) <==> TextLe(a, b)
  {
    IdParts(a);
    IdParts(b);
    ThreeKeys(1, 0, Codes(a), 1, 0, Codes(b));
    CodesOrder(a, b);
  }

  lemma MixedOrder(a: string, b: string)
    requires IsDigits(a) && !IsDigits(b)
    ensures LexLe(IdKey(a), IdKey(b)) && !LexLe(IdKey(b), IdKey(a))
  {
    IdParts(a);
    IdParts(b);
    ThreeKeys(0, Number(a), [], 1, 0, Codes(b));
    ThreeKeys(1, 0, Codes(b), 0, Number(a), []);
  }

  /** `id_key`. */
  lemma IdOrder(a: string, b: string)
    ensures LexLe(IdKey(a), IdKey(b)) <==> IdLe(a, b)
  {
    if IsDigits(a) && IsDigits(b) { NumbersOrder(a, b); }
    else if IsDigits(a) { MixedOrder(a, b); }
    else if IsDigits(b) { MixedOrder(b, a); }
    else { TextsOrder(a, b); }
  }

  /** Numbers read as they are written. */
  lemma {:induction false} NumberReads(n: nat)
    ensures IsDigits(Digits(n)) && Number(Digits(n)) == n
  {
    if n >= 10 {
      NumberReads(n / 10);
      assert Digits(n)[..|Digits(n)| - 1] == Digits(n / 10);
    }
  }

  // ---- Releases, masters and credits ------------------------------------------------------------------------------

  /** The earliest year first, those without one at the end. */
  predicate DatedBefore(a: Option<int>, b: Option<int>) {
    a.Some? && (b.None? || a.value < b.value)
  }

  /** Those without a year first, then the earliest. */
  predicate UndatedBefore(a: Option<int>, b: Option<int>) {
    b.Some? && (a.None? || a.value < b.value)
  }

  /** `original`: the earliest dated release, then the lowest id. */
  lemma OriginalOrder(a: Release, b: Release)
    ensures LexLe(OriginalKey(a), OriginalKey(b)) <==> DatedBefore(a.year, b.year) || (a.year == b.year && IdLe(a.id, b.id))
  {
    IdOrder(a.id, b.id);
    ThreeKeys(Flag(a.year.None?), YearOr0(a.year), IdKey(a.id), Flag(b.year.None?), YearOr0(b.year), IdKey(b.id));
  }

  /** `sort_key`: undated first, then the year, Discogs before MusicBrainz, then the id. */
  lemma ItemOrder(a: Item, b: Item)
    ensures LexLe(ItemKey(a), ItemKey(b)) <==>
              || UndatedBefore(a.year, b.year)
              || (a.year == b.year && IsDiscogs(a.release) && !IsDiscogs(b.release))
              || (a.year == b.year && (IsDiscogs(a.release) <==> IsDiscogs(b.release)) && IdLe(a.release.id, b.release.id))
  {
    var p, q := Flag(a.release.provider != Discogs), Flag(b.release.provider != Discogs);
    var s, t := [p] + IdKey(a.release.id), [q] + IdKey(b.release.id);
    ItemParts(a, p, s);
    ItemParts(b, q, t);
    ThreeKeys(Flag(a.year.Some?), YearOr0(a.year), s, Flag(b.year.Some?), YearOr0(b.year), t);
    LexHead(p, IdKey(a.release.id), q, IdKey(b.release.id));
    IdOrder(a.release.id, b.release.id);
  }

  lemma ItemParts(a: Item, p: int, s: seq<int>)
    requires p == Flag(a.release.provider != Discogs) && s == [p] + IdKey(a.release.id)
    ensures ItemKey(a) == [Flag(a.year.Some?), YearOr0(a.year)] + s
  {
  }

  function YearIn(years: map<string, Option<int>>, m: string): Option<int> { if m in years then years[m] else None }

  /** A credit's masters: undated first, then the year, then the id. */
  lemma MasterOrder(years: map<string, Option<int>>, a: string, b: string)
    ensures LexLe(MasterKey(years)(a), MasterKey(years)(b)) <==>
              UndatedBefore(YearIn(years, a), YearIn(years, b)) || (YearIn(years, a) == YearIn(years, b) && IdLe(a, b))
  {
    var p, q := YearIn(years, a), YearIn(years, b);
    IdOrder(a, b);
    ThreeKeys(Flag(p.Some?), YearOr0(p), IdKey(a), Flag(q.Some?), YearOr0(q), IdKey(b));
  }

  /** `_master_priority`: masters with collector state first, then those with the most releases,
      then the id. */
  lemma PriorityOrder(l: Ladder, a: string, b: string)
    requires a in l.byMaster.at && b in l.byMaster.at
    ensures var p, q, m, n := a in l.stateful, b in l.stateful, |l.byMaster.at[a]|, |l.byMaster.at[b]|;
            LexLe(PriorityKey(l)(a), PriorityKey(l)(b)) <==> (p && !q) || (p == q && (m > n || (m == n && IdLe(a, b))))
  {
    IdOrder(a, b);
    ThreeKeys(Flag(a !in l.stateful), -|l.byMaster.at[a]|, IdKey(a), Flag(b !in l.stateful), -|l.byMaster.at[b]|, IdKey(b));
  }

  /** `credit_order`: the credits with the most releases first, then the credit id as text. */
  lemma RankOrder(l: Ladder, a: Credit, b: Credit)
    ensures var key, m, n := RankKey(l.byCredit.at, l.byMaster.at, l.masterless.at), |l.CreditItems(a)|, |l.CreditItems(b)|;
            LexLe(key(a), key(b)) <==> m > n || (m == n && TextLe(CreditId(a), CreditId(b)))
  {
    CodesOrder(CreditId(a), CreditId(b));
    LexHead(-|l.CreditItems(a)|, Codes(CreditId(a)), -|l.CreditItems(b)|, Codes(CreditId(b)));
  }

  // ---- Decades -----------------------------------------------------------------------------------------------------

  lemma {:induction false} DigitsDiffer(m: nat, n: nat)
    requires Digits(m) == Digits(n)
    ensures m == n
  {
    NumberReads(m);
    NumberReads(n);
  }

  lemma IntTextDiffers(m: int, n: int)
    requires IntText(m) == IntText(n)
    ensures m == n
  {
    if m >= 0 && n >= 0 {
      DigitsDiffer(m, n);
    } else if m < 0 && n < 0 {
      assert IntText(m)[1..] == Digits(-m) && IntText(n)[1..] == Digits(-n);
      DigitsDiffer(-m, -n);
    } else {
      SignDiffers(if m < 0 then m else n, if m < 0 then n else m);
    }
  }

  lemma SignDiffers(m: int, n: int)
    requires m < 0 <= n
    ensures IntText(m) != IntText(n)
  {
    assert IntText(m)[0] == '-' && IntText(n)[0] in IntText(n);
  }

  /** Two years share a label exactly when they fall in one decade; no year shares that of
      undated ones. */
  lemma DecadeMeans(a: int, b: int)
    ensures Decade(Some(a)) == Decade(Some(b)) <==> a / 10 == b / 10
    ensures Decade(Some(a)) != Decade(None)
  {
    var x, y := a / 10 * 10, b / 10 * 10;
    assert Decade(Some(a)) == IntText(x) + "s" && Decade(Some(b)) == IntText(y) + "s";
    if Decade(Some(a)) == Decade(Some(b)) {
      assert IntText(x) == Decade(Some(a))[..|Decade(Some(a))| - 1] == IntText(y);
      IntTextDiffers(x, y);
    }
    assert Decade(Some(a))[|Decade(Some(a))| - 1] == 's' && UNDATED[|UNDATED| - 1] == 'd';
  }

  // ---- Pages -------------------------------------------------------------------------------------------------------

  /** A page of `s` members has room: with the others in one aggregate, or without if none are
      left. */
  predicate HasRoom(members: nat, withoutRest: int, withRest: int, s: int) {
    s <= 8 && if s == members then s <= withoutRest else s <= withRest
  }

  /** The page size is the largest that has room, and one if none has. */
  lemma PageSizeIs(members: nat, withoutRest: int, withRest: int, s: int)
    requires members > 0 && withRest <= withoutRest && 0 < s <= members
    ensures var size := PageSize(members, withoutRest, withRest);
            && 0 < size <= members && (HasRoom(members, withoutRest, withRest, size) || size == 1)
            && (s > size ==> !HasRoom(members, withoutRest, withRest, s))
  {
  }

  /** One of the two credits every view of a focus under `c` draws has a lane. */
  ghost function LanesBeside(l: Ladder, c: Credit): set<Credit> {
    set x | x in {l.root, c} && l.Lane(x) != []
  }

  /** ... or has masters outside the focused set. */
  ghost function BucketsBeside(l: Ladder, c: Credit, ms: seq<string>): set<Credit> {
    set x | x in {l.root, c} && exists m :: m in l.Masters(x) && (x == c ==> m !in ms)
  }

  /** ... or has lane releases outside the focused set. */
  ghost function LanesLeft(l: Ladder, t: Target, c: Credit): set<Credit> {
    set x | x in {l.root, c} && if t.LaneReleases? && t.lane == x then |l.Lane(x)| > t.Size() else l.Lane(x) != []
  }

  /** `s` members of the set, one aggregate for the others if any, and one entry for each lane or
      bucket beside it, fit every plane they are on. */
  ghost predicate PageFitsBeside(l: Ladder, budget: Budget, t: Target, s: int) {
    var rest := if s < t.Size() then 1 else 0;
    s <= 8 &&
    match t
    case OtherCredits(_) => 1 + s + rest <= budget.credits
    case MasterSet(c, _, ms) =>
      s + rest + |LanesBeside(l, c)| + |BucketsBeside(l, c, ms)| <= budget.masters && s + |LanesBeside(l, c)| <= budget.releases
    case MasterReleases(_, c, _) => s + rest + |LanesLeft(l, t, c)| <= budget.releases
    case LaneReleases(c, _, _) => s + rest + |LanesLeft(l, t, c)| <= budget.releases
  }

  /** How many of two, perhaps the same, satisfy something. */
  lemma OneOrTwo<T>(a: T, b: T, s: set<T>, p: bool, q: bool)
    requires (a in s <==> p) && (b in s <==> q) && forall x :: x in s ==> x == a || x == b
    ensures |s| == Flag(p) + if a == b then 0 else Flag(q)
  {
    if p && q { assert s == {a, b}; } else if p { assert s == {a}; } else if q { assert s == {b}; } else { assert s == {}; }
  }

  lemma BesideCounts(l: Ladder, c: Credit, ms: seq<string>)
    ensures |LanesBeside(l, c)| == LaneCount(l, c)
    ensures |LanesBeside(l, c)| + |BucketsBeside(l, c, ms)| == OtherMasterEntries(l, c, ms)
  {
    OneOrTwo(l.root, c, LanesBeside(l, c), l.Lane(l.root) != [], l.Lane(c) != []);
    var spills := exists m :: m in l.Masters(c) && m !in ms;
    assert l.Masters(l.root) != [] ==> l.Masters(l.root)[0] in l.Masters(l.root);
    OneOrTwo(c, l.root, BucketsBeside(l, c, ms), spills, if c == l.root then spills else l.Masters(l.root) != []);
  }

  lemma LeftCounts(l: Ladder, t: Target, c: Credit)
    ensures |LanesLeft(l, t, c)| == OtherLaneEntries(l, t, c)
  {
    OneOrTwo(l.root, c, LanesLeft(l, t, c), l.root in LanesLeft(l, t, c), c in LanesLeft(l, t, c));
  }

  /** The page size of a member set is the largest that fits beside the rest of the coarsest
      view, and one if none does. */
  lemma SizeIsMost(l: Ladder, budget: Budget, t: Target, s: int)
    requires t.Size() > 0 && 0 < s <= t.Size()
    ensures var size := SizeOf(l, budget, t);
            && 0 < size <= t.Size() && (PageFitsBeside(l, budget, t, size) || size == 1)
            && (s > size ==> !PageFitsBeside(l, budget, t, s))
  {
    match t {
      case OtherCredits(_) => PageSizeIs(t.Size(), budget.credits - 1, budget.credits - 2, s);
      case MasterSet(c, _, ms) =>
        BesideCounts(l, c, ms);
        var others, lanes := OtherMasterEntries(l, c, ms), LaneCount(l, c);
        PageSizeIs(t.Size(), Least(budget.masters - others, budget.releases - lanes), Least(budget.masters - others - 1, budget.releases - lanes), s);
      case MasterReleases(_, c, _) =>
        LeftCounts(l, t, c);
        var room := budget.releases - OtherLaneEntries(l, t, c);
        PageSizeIs(t.Size(), room, room - 1, s);
      case LaneReleases(c, _, _) =>
        LeftCounts(l, t, c);
        var room := budget.releases - OtherLaneEntries(l, t, c);
        PageSizeIs(t.Size(), room, room - 1, s);
    }
  }

  // ---- Buckets and levels ----------------------------------------------------------------------------------------

  /** By decade, masters share a label exactly when their years fall in one decade or neither has
      one; in the other mode all do. */
  lemma BucketMeans(l: Ladder, m: string, n: string)
    requires m in l.masterYear && n in l.masterYear
    ensures var a, b := l.masterYear[m], l.masterYear[n];
            Bucket(l, m, true) == Bucket(l, n, true) <==> a.Some? == b.Some? && (a.Some? ==> a.value / 10 == b.value / 10)
    ensures Bucket(l, m, false) == Bucket(l, n, false) == "all"
  {
    var a, b := l.masterYear[m], l.masterYear[n];
    if a.Some? { DecadeMeans(a.value, if b.Some? then b.value else 0); }
    if b.Some? { DecadeMeans(b.value, 0); }
  }

  /** The first level fills the credit plane, each next one draws one credit less, and a level
      folds the lowest ranked of those it may. */
lemma LevelsMean(l: Ladder, budget: Budget, focus: Option<Focus>, k: nat, i: nat, j: nat)
    requires CreditsReady(l, focus) && budget.Valid() && !OnCredits(focus)
    requires k < |Levels(l, budget, focus)| && i < j < |l.creditOrder|
    ensures var levels := Levels(l, budget, focus);
            && (levels[0].folded == [] || |levels[0].shown| + 1 == budget.credits)
            && |levels[k].shown| + k == |levels[0].shown| && |levels| + |Base(l, focus)| == |levels[0].shown| + 1
            && (l.creditOrder[i] in levels[k].folded && l.creditOrder[j] !in Base(l, focus) ==> l.creditOrder[j] in levels[k].folded)
  {
    FallbacksFit(l, budget, focus);
    var most := Most(l, budget, focus);
    LevelIs(l, focus, most, 0, i, j);
    LevelIs(l, focus, most, k, i, j);
    assert most == |Others(l, focus)| || |Base(l, focus)| + most + 1 == budget.credits;
  }

  lemma LevelIs(l: Ladder, focus: Option<Focus>, most: nat, k: nat, i: nat, j: nat)
    requires CreditsReady(l, focus) && k <= most <= |Others(l, focus)| && i < j < |l.creditOrder|
    ensures |FallbackLevels(l, focus, most)| == most + 1
    ensures var level := FallbackLevels(l, focus, most)[k];
            && |level.shown| == |Base(l, focus)| + most - k && |level.folded| == |Others(l, focus)| - most + k
            && (l.creditOrder[i] in level.folded && l.creditOrder[j] !in Base(l, focus) ==> l.creditOrder[j] in level.folded)
  {
    ShownCount(l, focus, most - k);
    SuffixRanks(l.creditOrder, NoneOf(Base(l, focus)), most - k, i, j);
    assert FallbackLevels(l, focus, most)[k] == LevelWith(l, focus, most - k);
  }
  lemma ShownCount(l: Ladder, focus: Option<Focus>, extra: nat)
    requires CreditsReady(l, focus) && extra <= |Others(l, focus)|
    ensures |LevelWith(l, focus, extra).shown| == |Base(l, focus)| + extra
  {
    BaseListed(l, focus);
    OthersFacts(l.creditOrder, Base(l, focus));
    Partition(l.creditOrder, Base(l, focus), Others(l, focus), extra, LevelWith(l, focus, extra).shown);
  }

  /** What comes later in a sequence is in every suffix of a filter that an earlier one is in. */
  lemma {:induction false} SuffixRanks<T>(s: seq<T>, keep: T -> bool, n: nat, i: nat, j: nat)
    requires Distinct(s) && n <= |Filter(s, keep)| && i < j < |s|
    ensures s[i] in Filter(s, keep)[n..] && keep(s[j]) ==> s[j] in Filter(s, keep)[n..]
  {
    var init, last := s[..|s| - 1], s[|s| - 1];
    var f := Filter(init, keep);
    if n <= |f| {
      if j < |s| - 1 { SuffixRanks(init, keep, n, i, j); }
      assert Filter(s, keep)[n..] == f[n..] + if keep(last) then [last] else [];
    } else {
      assert Filter(s, keep)[n..] == [];
    }
  }

  // ---- Pressings -----------------------------------------------------------------------------------------------------

  lemma NodeIdIs(i: Item, x: string)
    ensures i.NodeId() == "r:" + x <==> IsDiscogs(i.release) && i.release.id == x
    ensures i.NodeId() == "mb:" + x <==> !IsDiscogs(i.release) && i.release.id == x
  {
    assert i.NodeId()[0] == if IsDiscogs(i.release) then 'r' else 'm';
    assert ("r:" + x)[2..] == x && ("mb:" + x)[3..] == x;
    assert IsDiscogs(i.release) ==> i.NodeId()[2..] == i.release.id;
    assert !IsDiscogs(i.release) ==> i.NodeId()[3..] == i.release.id;
  }

  /** The item is the last on the ladder of that provider and id. */
  ghost predicate LastWith(items: seq<Item>, discogs: bool, x: string, p: Item) {
    exists k :: 0 <= k < |items| && items[k] == p && IsDiscogs(p.release) == discogs && p.release.id == x
      && forall j :: k < j < |items| ==> !(IsDiscogs(items[j].release) == discogs && items[j].release.id == x)
  }

  /** `r:` names a Discogs release by its id; `mb:` a MusicBrainz one, in any case. */
  lemma PressingMeans(l: Ladder, x: string)
    ensures PressingOf(l, "r:" + x).None? <==> forall i :: i in l.items ==> !(IsDiscogs(i.release) && i.release.id == x)
    ensures PressingOf(l, "r:" + x).Some? ==> LastWith(l.items, true, x, PressingOf(l, "r:" + x).value)
    ensures PressingOf(l, "mb:" + x).None? <==> forall i :: i in l.items ==> !(!IsDiscogs(i.release) && i.release.id == Lower(x))
    ensures PressingOf(l, "mb:" + x).Some? ==> LastWith(l.items, false, Lower(x), PressingOf(l, "mb:" + x).value)
  {
    forall i: Item, y: string ensures (i.NodeId() == "r:" + y <==> IsDiscogs(i.release) && i.release.id == y) && (i.NodeId() == "mb:" + y <==> !IsDiscogs(i.release) && i.release.id == y) {
      NodeIdIs(i, y);
    }
    PrefixRead("r:", x);
    PrefixRead("mb:", x);
    assert ("r:" + x)[0] == 'r';
    DiffersEarly("r:" + x, "mb:", 0);
    assert Lower("mb:" + x) == "mb:" + Lower(x);
  }

  /** Only capital letters change, each to its small letter. */
  lemma LowerMeans(text: string, i: nat)
    requires i < |text|
    ensures |Lower(text)| == |text| && !('A' <= Lower(text)[i] <= 'Z')
    ensures Lower(text)[i] == text[i] || ('A' <= text[i] <= 'Z' && Lower(text)[i] as int == text[i] as int + 32)
  {
  }
}
