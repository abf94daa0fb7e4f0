/** `build_strata`: for every catalog, caller, validated budget and accepted cursor, the
    four promises of the module hold of the response (api/strata.py). */
module StrataResponse {
  import opened Seqs
  import opened StrataCatalog
  import opened StrataCursor
  import opened StrataLadder
  import opened StrataFocus
  import opened StrataFit
  import opened StrataMasters
  import opened StrataCoarsest
  import opened StrataReleases
  import opened StrataReleasePlan
  import opened StrataConserve
  import opened StrataView
  import opened StrataDrawn

  /** Of the focused set the page is drawn and no other member, on whichever plane it is. */
  ghost predicate PageShown(focus: Option<Focus>, v: View) {
    focus.Some? ==>
      var f := focus.value;
      match f.target
      case OtherCredits(cs) => forall c :: c in cs ==> (c in v.plan.level.shown <==> c in Page(cs, f.page, f.size))
      case MasterSet(_, _, ms) => forall m :: m in ms ==> (m in v.plan.masters <==> m in Page(ms, f.page, f.size))
      case _ => PageDrawn(f, v.nodes)
  }

  lemma ReadyCredits(l: Ladder, budget: Budget, focus: Option<Focus>)
    requires l.Valid() && (focus.Some? ==> FocusOf(l, budget, focus.value))
    ensures CreditsReady(l, focus) && Hung(l)
  {
    if focus.Some? && focus.value.target.Under().Some? {
      UnderIsListed(l, focus.value.target);
    }
  }

  lemma MastersAreParented(l: Ladder, shown: seq<Credit>, masters: seq<string>, bucketed: multiset<string>, remainder: seq<string>)
    requires Hung(l) && Indexed(l.byMaster)
    requires multiset(masters) + bucketed + multiset(remainder) == multiset(Flat(shown, l.byCredit.at))
    ensures forall k :: 0 <= k < |masters| ==> Parented(l, shown, masters[k])
    ensures forall k :: 0 <= k < |remainder| ==> Parented(l, shown, remainder[k])
  {
    PartParented(l, shown, masters, bucketed + multiset(remainder));
    PartParented(l, shown, remainder, multiset(masters) + bucketed);
  }

  lemma ViewConserves(l: Ladder, budget: Budget, focus: Option<Focus>, v: View, byDecade: bool, keep: nat)
    requires l.Valid() && (focus.Some? ==> FocusOf(l, budget, focus.value))
    requires LevelFits(l, budget, focus, v.plan.level) && PlanWith(l, v.plan.level, focus, byDecade, v.plan, keep)
    requires Holds(v.nodes, v.aggs) == multiset(Flat(v.plan.masters, l.byMaster.at)) + multiset(Flat(v.plan.lanes, l.masterless.at))
    ensures Conserves(l, v)
  {
    MastersConserved(l, v.plan.level, focus, byDecade, v.plan, keep);
    ItemsConserved(l, v.plan.level, v.plan.masters, Flat(v.plan.buckets.order, v.plan.buckets.at), v.plan.remainder);
  }

  lemma ViewParents(l: Ladder, budget: Budget, focus: Option<Focus>, v: View, byDecade: bool, keep: nat)
    requires l.Valid() && (focus.Some? ==> FocusOf(l, budget, focus.value))
    requires LevelFits(l, budget, focus, v.plan.level) && PlanWith(l, v.plan.level, focus, byDecade, v.plan, keep)
    requires EntriesUnder(l, v.plan.masters, v.plan.lanes, v.nodes, v.aggs)
    ensures ParentsDrawn(l, v)
  {
    MastersConserved(l, v.plan.level, focus, byDecade, v.plan, keep);
    MastersAreParented(l, v.plan.level.shown, v.plan.masters, multiset(Flat(v.plan.buckets.order, v.plan.buckets.at)), v.plan.remainder);
    LanesParented(l, v.plan.level.shown);
    forall b | b in v.plan.buckets.at ensures BucketParented(l, v.plan.level.shown, b, v.plan.buckets.at[b]) {
      BucketParents(l, v.plan.level.shown, focus, byDecade, keep, v.plan.buckets, b);
    }
  }

  lemma BucketsResolve(l: Ladder, shown: seq<Credit>, focus: Option<Focus>, byDecade: bool, keep: nat, buckets: Groups<(Credit, string), string>, b: (Credit, string))
    requires Hung(l) && Indexed(l.byMaster) && l.creditOrder != [] && keep <= |Candidates(l, shown, focus)|
    requires GroupsOf(buckets, Candidates(l, shown, focus)[keep..], BucketOf(l, byDecade)) && b in buckets.at
    ensures BucketResolves(l, b, buckets.at[b]) <==> Readable(b.0)
  {
    var ms := buckets.at[b];
    forall k | 0 <= k < |ms| ensures ms[k] in l.Masters(b.0) && Bucket(l, ms[k], byDecade) == b.1 {
      assert ms[k] in ms;
      BucketParent(l, shown, focus, byDecade, keep, buckets, b, ms[k]);
    }
    BucketCursor(l, byDecade, b, ms);
  }

  lemma ViewCursors(l: Ladder, budget: Budget, focus: Option<Focus>, v: View, byDecade: bool, keep: nat)
    requires CreditsReady(l, focus) && Hung(l) && Indexed(l.byMaster) && ItemsKeyed(l)
    requires focus.Some? ==> TargetOf(l, focus.value.target) && focus.value.id == TargetId(focus.value.target)
    requires LevelFits(l, budget, focus, v.plan.level) && PlanWith(l, v.plan.level, focus, byDecade, v.plan, keep)
    requires EntriesUnder(l, v.plan.masters, v.plan.lanes, v.nodes, v.aggs)
    ensures CursorsResolve(l, focus, v)
  {
    var level := v.plan.level;
    LanesParented(l, level.shown);
    if level.folded != [] { OtherCursor(l, level); }
    forall k | 0 <= k < |v.plan.lanes| ensures LaneResolves(l, v.plan.lanes[k]) <==> Readable(v.plan.lanes[k]) {
      LaneCursor(l, v.plan.lanes[k]);
    }
    forall b | b in v.plan.buckets.at ensures BucketResolves(l, b, v.plan.buckets.at[b]) <==> Readable(b.0) {
      BucketsResolve(l, level.shown, focus, byDecade, keep, v.plan.buckets, b);
    }
    if v.plan.remainder != [] {
      FocusCursor(l, focus.value, focus.value.target.credit);
    }
    forall k | 0 <= k < |v.aggs| ensures v.aggs[k].items != [] && (AggResolves(l, v.aggs[k]) <==> CursorReads(v.aggs[k].items[0])) {
      AggCursor(l, v.plan.masters, v.plan.lanes, v.aggs[k]);
    }
  }

  // ---- The response ------------------------------------------------------------------------------------------------

  /** The promises of a response: what the module lists, at the finest this budget allows. */
  ghost predicate Promised(l: Ladder, budget: Budget, focus: Option<Focus>, v: View)
    requires l.creditOrder != []
  {
    Keeps(l, budget, focus, v) && FinestView(l, budget, focus, v)
  }

  ghost predicate Keeps(l: Ladder, budget: Budget, focus: Option<Focus>, v: View)
    requires l.creditOrder != []
  {
    && WithinBudget(v, budget)
    && ParentsDrawn(l, v)
    && Conserves(l, v)
    && PageShown(focus, v)
    && CursorsResolve(l, focus, v)
  }

  /** For this budget, the first level and mode of the credit and master planes that fit, with
      the most masters kept, and the first strategy of the release plane that fits. */
  ghost predicate FinestView(l: Ladder, budget: Budget, focus: Option<Focus>, v: View) {
    && CreditsReady(l, focus) && budget.Valid()
    && (exists i, byDecade, keep :: FinestPlan(l, budget, focus, v.plan, i, byDecade, keep))
    && FinestPlane(l, v.plan.masters, v.plan.lanes, budget, focus, v.nodes, v.aggs)
  }

  lemma PageIsShown(l: Ladder, budget: Budget, focus: Option<Focus>, v: View, byDecade: bool, keep: nat)
    requires l.Valid() && (focus.Some? ==> FocusOf(l, budget, focus.value))
    requires LevelFits(l, budget, focus, v.plan.level) && PlanWith(l, v.plan.level, focus, byDecade, v.plan, keep)
    requires OnCredits(focus) ==> v.plan.level == FocusedLevel(l, focus.value)
    requires FocusOn(focus, v.plan.masters) || FocusOnLane(focus, v.plan.lanes) ==> PageDrawn(focus.value, v.nodes)
    ensures PageShown(focus, v)
  {
    if focus.Some? {
      var f := focus.value;
      match f.target {
        case OtherCredits(cs) => CreditPage(l, f, v.plan.level);
        case MasterSet(_, _, ms) => MasterPage(l, budget, f, v.plan, byDecade, keep);
        case _ => ReleasesAreFocused(l, budget, f, v.plan, byDecade, keep);
      }
    }
  }

  lemma ReleasesAreFocused(l: Ladder, budget: Budget, f: Focus, plan: MasterPlan, byDecade: bool, keep: nat)
    requires FocusOf(l, budget, f) && (f.target.MasterReleases? || f.target.LaneReleases?)
    requires LevelFits(l, budget, Some(f), plan.level) && PlanWith(l, plan.level, Some(f), byDecade, plan, keep)
    ensures FocusOn(Some(f), plan.masters) || FocusOnLane(Some(f), plan.lanes)
  {
    if f.target.MasterReleases? {
      var m := f.target.master;
      assert m in Pinned(Some(f));
      assert m in plan.masters && FocusedMaster(Some(f), m);
    } else {
      var c := f.target.lane;
      FilterMembers(plan.level.shown, HasLane(l));
      FilterMembers(l.Lane(c), InDecade(f.target.decade));
      assert c in Base(l, Some(f));
      assert c in plan.lanes && FocusedLane(Some(f), c);
    }
  }

  lemma CreditPage(l: Ladder, f: Focus, level: Level)
    requires l.CreditsListed() && f.size > 0 && f.target.OtherCredits? && f.target.credits == l.creditOrder[1..] && level == FocusedLevel(l, f)
    ensures forall c :: c in f.target.credits ==> (c in level.shown <==> c in Page(f.target.credits, f.page, f.size))
  {
  }

  /** A member on the page is pinned; one off it is in the remainder, which no drawn master is. */
  lemma MasterPage(l: Ladder, budget: Budget, f: Focus, plan: MasterPlan, byDecade: bool, keep: nat)
    requires l.Valid() && FocusOf(l, budget, f) && f.target.MasterSet?
    requires LevelFits(l, budget, Some(f), plan.level) && PlanWith(l, plan.level, Some(f), byDecade, plan, keep)
    ensures forall m :: m in f.target.masters ==> (m in plan.masters <==> m in Page(f.target.masters, f.page, f.size))
  {
    MastersDrawnOnce(l, budget, Some(f), plan, byDecade, keep);
    forall m | m in f.target.masters ensures m in plan.masters <==> m in Page(f.target.masters, f.page, f.size) {
      HeldMasters(f, m);
    }
  }

  /** The masters drawn are distinct, and none is in the remainder. */
  lemma MastersDrawnOnce(l: Ladder, budget: Budget, focus: Option<Focus>, plan: MasterPlan, byDecade: bool, keep: nat)
    requires l.Valid() && (focus.Some? ==> FocusOf(l, budget, focus.value))
    requires LevelFits(l, budget, focus, plan.level) && PlanWith(l, plan.level, focus, byDecade, plan, keep)
    ensures Distinct(plan.masters) && forall m :: m in plan.remainder ==> m !in plan.masters
  {
    MastersConserved(l, plan.level, focus, byDecade, plan, keep);
    var bucketed := Flat(plan.buckets.order, plan.buckets.at);
    PartsApart(plan.masters, multiset(bucketed), plan.remainder, multiset(Flat(plan.level.folded, l.byCredit.at)), l.byMaster.order);
  }

  lemma PartsApart<T>(a: seq<T>, b: multiset<T>, c: seq<T>, d: multiset<T>, whole: seq<T>)
    requires Distinct(whole) && multiset(a) + b + multiset(c) + d == multiset(whole)
    ensures Distinct(a) && forall x :: x in c ==> x !in a
  {
    DistinctPart(a, whole);
    DistinctCount(whole);
    forall x | x in c ensures x !in a {
      assert multiset(c)[x] >= 1 && multiset(whole)[x] <= 1;
      assert (multiset(a) + b + multiset(c) + d)[x] <= 1;
    }
  }

  lemma LadderKeyed(l: Ladder)
    requires l.Valid()
    ensures ItemsKeyed(l)
  {
  }

  lemma CreditFocusLevel(l: Ladder, budget: Budget, focus: Option<Focus>, plan: MasterPlan, i: nat, byDecade: bool, keep: nat)
    requires CreditsReady(l, focus) && budget.Valid() && FinestPlan(l, budget, focus, plan, i, byDecade, keep)
    ensures OnCredits(focus) ==> plan.level == FocusedLevel(l, focus.value)
    ensures LevelFits(l, budget, focus, plan.level) && PlanOf(l, plan.level, budget, focus, byDecade, plan, keep)
  {
  }

  /** `render`: a response keeps every promise. */
  method Render(l: Ladder, budget: Budget, focus: Option<Focus>) returns (v: View)
    requires l.Valid() && budget.Valid() && (focus.Some? ==> FocusOf(l, budget, focus.value))
    ensures Promised(l, budget, focus, v)
  {
    ReadyCredits(l, budget, focus);
    var plan := Fit(l, budget, focus);
    ghost var i, byDecade, keep :| FinestPlan(l, budget, focus, plan, i, byDecade, keep);
    CreditFocusLevel(l, budget, focus, plan, i, byDecade, keep);
    v := DrawReleases(l, budget, focus, plan, byDecade, keep);
  }

  method DrawReleases(l: Ladder, budget: Budget, focus: Option<Focus>, plan: MasterPlan, ghost byDecade: bool, ghost keep: nat) returns (v: View)
    requires l.Valid() && budget.Valid() && CreditsReady(l, focus) && Hung(l) && (focus.Some? ==> FocusOf(l, budget, focus.value))
    requires LevelFits(l, budget, focus, plan.level) && PlanOf(l, plan.level, budget, focus, byDecade, plan, keep)
    requires OnCredits(focus) ==> plan.level == FocusedLevel(l, focus.value)
    ensures v.plan == plan && Keeps(l, budget, focus, v) && FinestPlane(l, plan.masters, plan.lanes, budget, focus, v.nodes, v.aggs)
  {
    PlanFloor(l, plan.level, budget, focus, byDecade, plan, keep);
    LanesParented(l, plan.level.shown);
    MastersConserved(l, plan.level, focus, byDecade, plan, keep);
    MastersAreParented(l, plan.level.shown, plan.masters, multiset(Flat(plan.buckets.order, plan.buckets.at)), plan.remainder);
    MastersDrawnOnce(l, budget, focus, plan, byDecade, keep);
    FilterDistinct(plan.level.shown, HasLane(l));
    LadderKeyed(l);
    var nodes, aggs := PlanReleases(l, plan.masters, plan.lanes, budget, focus);
    v := View(plan, nodes, aggs);
    KeepsBudget(l, budget, focus, v, byDecade, keep);
    KeepsParents(l, budget, focus, v, byDecade, keep);
    KeepsItems(l, budget, focus, v, byDecade, keep);
    KeepsCursors(l, budget, focus, v, byDecade, keep);
  }

  /** A view planned and drawn as the module does. */
  ghost predicate Made(l: Ladder, budget: Budget, focus: Option<Focus>, v: View, byDecade: bool, keep: nat) {
    && l.Valid() && budget.Valid() && CreditsReady(l, focus) && Hung(l) && (focus.Some? ==> FocusOf(l, budget, focus.value))
    && LevelFits(l, budget, focus, v.plan.level) && PlanOf(l, v.plan.level, budget, focus, byDecade, v.plan, keep)
    && (OnCredits(focus) ==> v.plan.level == FocusedLevel(l, focus.value))
    && ReleasePlane(l, v.plan.masters, v.plan.lanes, budget, focus, v.nodes, v.aggs)
  }

  lemma KeepsBudget(l: Ladder, budget: Budget, focus: Option<Focus>, v: View, byDecade: bool, keep: nat)
    requires Made(l, budget, focus, v, byDecade, keep)
    ensures WithinBudget(v, budget)
  {
    PlanWithinMasters(l, v.plan.level, budget, focus, byDecade, v.plan, keep);
  }

  lemma KeepsParents(l: Ladder, budget: Budget, focus: Option<Focus>, v: View, byDecade: bool, keep: nat)
    requires Made(l, budget, focus, v, byDecade, keep)
    ensures ParentsDrawn(l, v)
  {
    ViewParents(l, budget, focus, v, byDecade, keep);
  }

  lemma KeepsItems(l: Ladder, budget: Budget, focus: Option<Focus>, v: View, byDecade: bool, keep: nat)
    requires Made(l, budget, focus, v, byDecade, keep)
    ensures Conserves(l, v) && PageShown(focus, v)
  {
    ViewConserves(l, budget, focus, v, byDecade, keep);
    PageIsShown(l, budget, focus, v, byDecade, keep);
  }

  lemma KeepsCursors(l: Ladder, budget: Budget, focus: Option<Focus>, v: View, byDecade: bool, keep: nat)
    requires Made(l, budget, focus, v, byDecade, keep)
    ensures l.creditOrder != [] && CursorsResolve(l, focus, v)
  {
    LadderKeyed(l);
    ViewCursors(l, budget, focus, v, byDecade, keep);
  }

  // ---- Pressings -----------------------------------------------------------------------------------------------------

  /** A placed item lies under its master, or in its credit's lane. */
  lemma ItemIsHung(l: Ladder, p: Item)
    requires ItemsHung(l.items, l.byMaster, l.masterless, l.stateful) && p in l.items
    ensures p.release.masterId.Some? ==> p.release.masterId.value in l.byMaster.at && p in l.byMaster.at[p.release.masterId.value]
    ensures p.release.masterId.None? ==> p.credit in l.masterless.at && p in l.masterless.at[p.credit]
  {
    var masters, lanes := Flat(l.byMaster.order, l.byMaster.at), Flat(l.masterless.order, l.masterless.at);
    SameMember(masters + lanes, l.items, p);
    FlatMembers(l.byMaster.order, l.byMaster.at);
    FlatMembers(l.masterless.order, l.masterless.at);
    if p in masters {
      var m :| m in l.byMaster.order && m in l.byMaster.at && p in l.byMaster.at[m];
      assert ItemMaster(p) == Some(m);
    } else {
      var c :| c in l.masterless.order && c in l.masterless.at && p in l.masterless.at[c];
      assert ItemLane(p) == Some(c);
    }
  }

  /** A pressing whose credit id reads back as another credit, one with releases of its own. */
  predicate Misread(l: Ladder, p: Item) {
    var (credit, tag) := ParseCredit(CreditId(p.credit));
    !CursorReads(p) && credit.Some? && LaneTagged(l, credit.value, tag) != []
  }

  /** The member set such a cursor names holds the pressing. */
  lemma PressingCursorHolds(l: Ladder, p: Item)
    requires l.Valid() && CursorReads(p) && p in l.items
    ensures ParseFocus(l, PressingCursor(p)).Some? && p in ReleaseItems(ParseFocus(l, PressingCursor(p)).value)
  {
    ItemIsHung(l, p);
    if p.release.masterId.Some? {
      MasterIdParses(l, p.release.masterId.value);
    } else {
      LaneIdParses(l, CreditId(p.credit));
      assert Labelled(p.credit, None) == CreditId(p.credit);
      ReadableParses(p.credit, None);
      FilterMembers(l.Lane(p.credit), InDecade(None));
      assert p in LaneTagged(l, p.credit, None);
    }
  }

  lemma LaneKeyed(l: Ladder, c: Credit, p: Item)
    requires l.Valid()
    ensures p in l.Lane(c) ==> ItemLane(p) == Some(c)
  {
  }

  /** Any other names a set without it, or none. */
  lemma UnreadCursorLacks(l: Ladder, p: Item)
    requires l.Valid() && !CursorReads(p)
    ensures ParseFocus(l, PressingCursor(p)).Some? <==> Misread(l, p)
    ensures ParseFocus(l, PressingCursor(p)).Some? ==> p !in ReleaseItems(ParseFocus(l, PressingCursor(p)).value)
  {
    LaneIdParses(l, CreditId(p.credit));
    assert Labelled(p.credit, None) == CreditId(p.credit);
    CreditRoundTrip(p.credit, None);
    var (credit, tag) := ParseCredit(CreditId(p.credit));
    if credit.Some? {
      FilterMembers(l.Lane(credit.value), InDecade(tag));
      LaneKeyed(l, credit.value, p);
    }
  }

  /** A pressing cursor lands on the page of its set that draws it, whatever page was asked,
      exactly when its cursor reads; it crashes exactly when it is misread. */
  lemma PressingLands(l: Ladder, id: string, page: int, budget: Budget)
    requires l.Valid() && budget.Valid() && PressingOf(l, id).Some?
    ensures var r, p := ResolveFocus(l, id, page, budget), PressingOf(l, id).value;
            && (r.Found? <==> CursorReads(p)) && (r.Found? ==> p in PageItems(r.focus))
            && (r.NotHeld? <==> Misread(l, p))
  {
    var p := PressingOf(l, id).value;
    var cursor := PressingCursor(p);
    if CursorReads(p) {
      PressingCursorHolds(l, p);
      var t := ParseFocus(l, cursor).value;
      ParsedTarget(l, cursor);
      SizePositive(l, budget, t);
      assert |ReleaseItems(t)| == t.Size();
      LandingDraws(ReleaseItems(t), IndexOf(ReleaseItems(t), p).value, SizeOf(l, budget, t));
    } else {
      UnreadCursorLacks(l, p);
    }
  }

  // ---- Walking a cursor ------------------------------------------------------------------------------------------------

  /** The first `n` pages of the focused set, one after the other, are the whole set in order. */
  ghost predicate WalksWhole(f: Focus, n: nat) {
    match f.target
    case OtherCredits(cs) => FirstPages(cs, n, f.size) == cs
    case MasterSet(_, _, ms) => FirstPages(ms, n, f.size) == ms
    case MasterReleases(_, _, items) => FirstPages(items, n, f.size) == items
    case LaneReleases(_, _, items) => FirstPages(items, n, f.size) == items
  }

  /** Only the page of a resolved cursor depends on the page asked for. */
  lemma PageAsked(l: Ladder, id: string, budget: Budget, f: Focus, i: nat)
    requires l.Valid() && budget.Valid() && PressingOf(l, id).None? && ResolveFocus(l, id, 0, budget) == Found(f)
    ensures f.size > 0
    ensures i < Pages(f.target.Size(), f.size) ==> ResolveFocus(l, id, i, budget) == Found(f.(page := i))
  {
    ResolvedFocus(l, id, 0, budget);
    PagePicked(l, id, 0, budget);
    PagePicked(l, id, i, budget);
    if i < Pages(f.target.Size(), f.size) {
      SmallRemainder(i, Pages(f.target.Size(), f.size));
      SamePage(ResolveFocus(l, id, i, budget), f, i);
    }
  }

  lemma SamePage(r: Resolved, f: Focus, i: nat)
    requires r.Found? && r.focus.(page := 0) == f.(page := 0) && r.focus.page == i
    ensures r == Found(f.(page := i))
  {
  }

  lemma WalkIsWhole(f: Focus)
    requires f.size > 0
    ensures WalksWhole(f, Pages(f.target.Size(), f.size))
  {
    match f.target {
      case OtherCredits(cs) => PagesConcatenate(cs, f.size);
      case MasterSet(_, _, ms) => PagesConcatenate(ms, f.size);
      case MasterReleases(_, _, items) => PagesConcatenate(items, f.size);
      case LaneReleases(_, _, items) => PagesConcatenate(items, f.size);
    }
  }

  /** Asking for pages 0, 1, ... of a cursor in turn, each answered as `BuildStrata` promises:
      response `i` draws page `i`, and the pages together are the member set, every member once,
      in order. */
  lemma CursorWalk(l: Ladder, id: string, budget: Budget, f: Focus, views: seq<View>)
    requires l.Valid() && budget.Valid() && PressingOf(l, id).None? && ResolveFocus(l, id, 0, budget) == Found(f)
    requires f.size > 0 ==> |views| == Pages(f.target.Size(), f.size)
    requires forall i :: 0 <= i < |views| && ResolveFocus(l, id, i, budget).Found? ==> PageShown(Some(ResolveFocus(l, id, i, budget).focus), views[i])
    ensures forall i :: 0 <= i < |views| ==> ResolveFocus(l, id, i, budget) == Found(f.(page := i)) && PageShown(Some(f.(page := i)), views[i])
    ensures WalksWhole(f, |views|)
  {
    PageAsked(l, id, budget, f, 0);
    forall i: nat | i < |views| ensures ResolveFocus(l, id, i, budget) == Found(f.(page := i)) { PageAsked(l, id, budget, f, i); }
    WalkIsWhole(f);
  }

  // ---- The entry point -------------------------------------------------------------------------------------------------

  /** `Unheld`: the crash of a misread pressing. */
  datatype Response = NotFound | Unheld | Drawn(focus: Option<Focus>, view: View)

  /** `build_strata`: every catalog and caller get a ladder of that catalog, an unfocused
      request is always answered, a focused one is answered exactly when its cursor
      resolves and crashes exactly on a misread pressing, and every answer keeps the promises. */
  method BuildStrata(catalog: Catalog, marks: Marks, budget: Budget, focusId: string, page: int) returns (l: Ladder, r: Response)
    requires budget.Valid()
    ensures LadderOf(l, catalog, marks) && l.Valid()
    ensures focusId == "" ==> r.Drawn? && r.focus.None?
    ensures focusId != "" ==>
              var resolved := ResolveFocus(l, focusId, page, budget);
              && (r.Drawn? <==> resolved.Found?) && (r.Drawn? ==> r.focus == Some(resolved.focus))
              && (r.Unheld? <==> PressingOf(l, focusId).Some? && Misread(l, PressingOf(l, focusId).value))
    ensures r.Drawn? ==> Promised(l, budget, r.focus, r.view) && DrawnByRule(l, catalog, marks, budget, r.focus, r.view)
  {
    l := Build(catalog, marks);
    ghost var rs := Filter(catalog.releases, ReachesLadder(catalog));
    if focusId == "" {
      var v := Render(l, budget, None);
      DrawsByRule(l, catalog, marks, rs, budget, None, v);
      return l, Drawn(None, v);
    }
    ResolvedFocus(l, focusId, page, budget);
    if PressingOf(l, focusId).Some? { PressingLands(l, focusId, page, budget); }
    match ResolveFocus(l, focusId, page, budget) {
      case NotFound => r := Response.NotFound;
      case NotHeld => r := Unheld;
      case Found(f) =>
        var v := Render(l, budget, Some(f));
        DrawsByRule(l, catalog, marks, rs, budget, Some(f), v);
        r := Drawn(Some(f), v);
    }
  }

  // ---- A catalog that crashes ------------------------------------------------------------------------------------------

  function Loose(id: string, credit: Credit): Release { Release(id, None, None, credit, Discogs, None) }

  /** Two releases without a master: one by an artist whose id holds a plus sign, one by two. */
  function PlusCatalog(): Catalog {
    Catalog("z", None, [Loose("1", ["a+b"]), Loose("2", ["a", "b"])], map[])
  }

  lemma PlusItems(l: Ladder, marks: Marks)
    requires LadderOf(l, PlusCatalog(), marks)
    ensures |l.items| == 2 && l.items[0].release == Loose("1", ["a+b"]) && l.items[1].release == Loose("2", ["a", "b"])
    ensures l.items[0].credit == ["a+b"] && l.items[1].credit == ["a", "b"]
  {
    PlacesBoth(PlusCatalog(), marks, l.masterCredit, Loose("1", ["a+b"]), Loose("2", ["a", "b"]));
  }

  lemma PlacesBoth(catalog: Catalog, marks: Marks, masterCredit: map<string, Credit>, a: Release, b: Release)
    requires a.provider == Discogs && b.provider == Discogs
    ensures var items := PlaceAll(catalog, marks, masterCredit, [a, b]);
            && |items| == 2 && items[0].release == a && items[1].release == b
            && items[0].credit == a.credit && items[1].credit == b.credit
  {
    var rs := [a, b];
    assert rs[..1] == [a] && [a][..0] == [];
    assert PlaceAll(catalog, marks, masterCredit, []) == [];
    assert |PlaceAll(catalog, marks, masterCredit, [a])| == 1;
  }

  lemma SameCreditIds()
    ensures CreditId(["a+b"]) == CreditId(["a", "b"]) && ParseCredit(CreditId(["a+b"])) == (Some(["a", "b"]), None)
  {
    assert Join(["b"], '+') == "b" && ["a", "b"][1..] == ["b"];
    assert Join(["a", "b"], '+') == "a+b" && Join(["a+b"], '+') == "a+b";
    assert Labelled(["a", "b"], None) == CreditId(["a", "b"]);
    ReadableParses(["a", "b"], None);
  }

  /** The first release's cursor names the second's lane, whatever the budget and page. */
  lemma PlusIsMisread(l: Ladder, marks: Marks, page: int, budget: Budget)
    requires LadderOf(l, PlusCatalog(), marks) && l.Valid() && budget.Valid()
    ensures ResolveFocus(l, "r:1", page, budget).NotHeld?
  {
    PlusItems(l, marks);
    SameCreditIds();
    var p, q := l.items[0], l.items[1];
    ItemIsHung(l, q);
    FilterMembers(l.Lane(["a", "b"]), InDecade(None));
    assert q in LaneTagged(l, ["a", "b"], None);
    assert '+' in "a+b" by { assert "a+b"[1] == '+'; }
    assert Misread(l, p);
    PlusPressing(l, marks);
    PressingLands(l, "r:1", page, budget);
  }

  lemma PlusPressing(l: Ladder, marks: Marks)
    requires LadderOf(l, PlusCatalog(), marks)
    ensures PressingOf(l, "r:1") == Some(l.items[0])
  {
    PlusItems(l, marks);
    DiffersEarly("r:1", "mb:", 0);
    assert Starts("r:1", "r:") by { PrefixRead("r:", "1"); assert "r:" + "1" == "r:1"; }
    assert l.items[1].NodeId() == "r:" + "2" && l.items[0].NodeId() == "r:" + "1";
    assert ("r:" + "2")[2] != "r:1"[2] && "r:" + "1" == "r:1";
    var first := l.items[..1];
    assert first[0] == l.items[0];
    assert Pressing(first, "r:1") == Some(l.items[0]);
  }
}
