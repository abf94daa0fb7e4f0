/** A whole strata response: fitting, conservation, parents and cursors (api/strata.py). */
module StrataView {
  import opened Seqs
  import opened StrataCatalog
  import opened StrataCursor
  import opened StrataLadder
  import opened StrataFocus
  import opened StrataFit
  import opened StrataMasters
  import opened StrataCoarsest
  import opened StrataReleases
  import opened StrataReleasePlan
  import opened StrataConserve

  // ---- Fitting ----------------------------------------------------------------------------------------------

  /** No level before the `i`th fits in either mode. */
  ghost predicate NoneBefore(l: Ladder, budget: Budget, focus: Option<Focus>, levels: seq<Level>, i: nat) {
    i <= |levels| && forall j, mode :: 0 <= j < i ==> NoneFit(l, levels[j].shown, budget, focus, mode)
  }

  lemma NoneAt(l: Ladder, budget: Budget, focus: Option<Focus>, levels: seq<Level>, i: nat)
    requires i < |levels| && NoneBefore(l, budget, focus, levels, i)
    requires NoneFit(l, levels[i].shown, budget, focus, true) && NoneFit(l, levels[i].shown, budget, focus, false)
    ensures NoneBefore(l, budget, focus, levels, i + 1)
  {
  }

  lemma CoarsestIsTried(l: Ladder, budget: Budget, focus: Option<Focus>, levels: seq<Level>)
    requires Hung(l) && budget.Valid() && (focus.Some? ==> FocusOf(l, budget, focus.value))
    requires levels != [] && LevelFits(l, budget, focus, levels[|levels| - 1]) && Coarsest(l, focus, levels[|levels| - 1])
    ensures !NoneBefore(l, budget, focus, levels, |levels|)
  {
    var level := levels[|levels| - 1];
    CoarsestFits(l, budget, focus, level);
    assert 0 in FittingKeeps(l, level.shown, budget, focus, false);
    assert !NoneFit(l, levels[|levels| - 1].shown, budget, focus, false);
  }

  /** The plan of the finest level and mode that fit: decades before whole buckets, and
      every level before it fits in neither mode. */
  ghost predicate FinestPlan(l: Ladder, budget: Budget, focus: Option<Focus>, plan: MasterPlan, i: nat, byDecade: bool, keep: nat)
    requires CreditsReady(l, focus) && budget.Valid()
  {
    var levels := Levels(l, budget, focus);
    && i < |levels|
    && LevelFits(l, budget, focus, levels[i])
    && PlanOf(l, levels[i], budget, focus, byDecade, plan, keep)
    && NoneBefore(l, budget, focus, levels, i)
    && (!byDecade ==> NoneFit(l, levels[i].shown, budget, focus, true))
  }

  /** Both modes of one level, decades first. */
  method TryLevel(l: Ladder, level: Level, budget: Budget, focus: Option<Focus>) returns (r: Option<MasterPlan>, byDecade: bool)
    ensures r.Some? ==> exists keep :: PlanOf(l, level, budget, focus, byDecade, r.value, keep)
    ensures r.None? || !byDecade ==> NoneFit(l, level.shown, budget, focus, true)
    ensures r.None? ==> NoneFit(l, level.shown, budget, focus, false)
  {
    byDecade := true;
    r := PlanMasters(l, level, budget, focus, true);
    if r.None? {
      byDecade := false;
      r := PlanMasters(l, level, budget, focus, false);
    }
  }

  /** `fit`: every validated budget has a plan for every view, so the original's closing
      assertion is unreachable. */
  method Fit(l: Ladder, budget: Budget, focus: Option<Focus>) returns (plan: MasterPlan)
    requires CreditsReady(l, focus) && Hung(l) && budget.Valid()
    requires focus.Some? ==> FocusOf(l, budget, focus.value)
    ensures exists i, byDecade, keep :: FinestPlan(l, budget, focus, plan, i, byDecade, keep)
  {
    plan := MasterPlan(Level([], []), [], Groups([], map[]), [], []);
    var levels := CreditLevels(l, budget, focus);
    for i := 0 to |levels|
      invariant NoneBefore(l, budget, focus, levels, i)
    {
      var r, byDecade := TryLevel(l, levels[i], budget, focus);
      if r.Some? {
        ghost var keep :| PlanOf(l, levels[i], budget, focus, byDecade, r.value, keep);
        assert FinestPlan(l, budget, focus, r.value, i, byDecade, keep);
        return r.value;
      }
      NoneAt(l, budget, focus, levels, i);
    }
    CoarsestIsTried(l, budget, focus, levels);
    assert false;
  }

  // ---- The response ------------------------------------------------------------------------------------------

  datatype View = View(plan: MasterPlan, nodes: seq<Node>, aggs: seq<ReleaseAgg>)

  /** Every plane holds at most its budget of entries, nodes plus aggregates. */
  ghost predicate WithinBudget(v: View, budget: Budget) {
    && |v.plan.level.shown| + Flag(v.plan.level.folded != []) <= budget.credits
    && |v.plan.masters| + |v.plan.lanes| + |v.plan.buckets.order| + Flag(v.plan.remainder != []) <= budget.masters
    && |v.nodes| + |v.aggs| <= budget.releases
  }

  /** Every credit, master and release of the root is drawn or held exactly once. */
  ghost predicate Conserves(l: Ladder, v: View) {
    var plan := v.plan;
    var bucketed := Flat(plan.buckets.order, plan.buckets.at);
    && multiset(plan.level.shown) + multiset(plan.level.folded) == multiset(l.creditOrder)
    && multiset(plan.masters) + multiset(bucketed) + multiset(plan.remainder) + multiset(Flat(plan.level.folded, l.byCredit.at))
       == multiset(l.byMaster.order)
    && Holds(v.nodes, v.aggs) + multiset(Flat(bucketed + plan.remainder, l.byMaster.at)) + multiset(UnderCredits(l, plan.level.folded))
       == multiset(l.items)
  }

  /** A master hangs under a drawn credit. */
  ghost predicate Parented(l: Ladder, shown: seq<Credit>, m: string) {
    m in l.byMaster.at && m in l.masterCredit && l.masterCredit[m] in shown
  }

  /** A bucket holds masters of one drawn credit, the one its id names. */
  ghost predicate BucketParented(l: Ladder, shown: seq<Credit>, b: (Credit, string), ms: seq<string>) {
    forall k :: 0 <= k < |ms| ==> Parented(l, shown, ms[k]) && l.masterCredit[ms[k]] == b.0
  }

  /** Every entry below the credit plane names a parent drawn on the plane above. */
  ghost predicate ParentsDrawn(l: Ladder, v: View) {
    var shown := v.plan.level.shown;
    && (forall k :: 0 <= k < |v.plan.masters| ==> Parented(l, shown, v.plan.masters[k]))
    && (forall k :: 0 <= k < |v.plan.remainder| ==> Parented(l, shown, v.plan.remainder[k]))
    && (forall k :: 0 <= k < |v.plan.lanes| ==> v.plan.lanes[k] in shown && l.Lane(v.plan.lanes[k]) != [])
    && (forall b :: b in v.plan.buckets.at ==> BucketParented(l, shown, b, v.plan.buckets.at[b]))
    && EntriesUnder(l, v.plan.masters, v.plan.lanes, v.nodes, v.aggs)
  }

  function BucketId(b: (Credit, string)): string { "ma:" + Labelled(b.0, Some(b.1)) }

  /** A cursor can name the item's own set: its master's, or the lane of a credit whose id can
      be read back. */
  predicate CursorReads(p: Item) {
    p.release.masterId.Some? || Readable(p.credit)
  }

  /** An aggregate's id parses to a member set that contains what the aggregate holds, exactly
      when its credit can be read back; that of folded credits or of a master's releases always
      does. */
  ghost predicate CursorsResolve(l: Ladder, focus: Option<Focus>, v: View)
    requires l.creditOrder != []
  {
    && (v.plan.level.folded != [] ==>
          exists cs :: ParseFocus(l, OTHER_CREDITS) == Some(OtherCredits(cs)) && forall c :: c in v.plan.level.folded ==> c in cs)
    && (forall k :: 0 <= k < |v.plan.lanes| ==> (LaneResolves(l, v.plan.lanes[k]) <==> Readable(v.plan.lanes[k])))
    && (forall b :: b in v.plan.buckets.at ==> (BucketResolves(l, b, v.plan.buckets.at[b]) <==> Readable(b.0)))
    && (v.plan.remainder != [] ==>
          focus.Some? && focus.value.target.MasterSet?
          && (ParseFocus(l, focus.value.id) == Some(focus.value.target) <==> Readable(focus.value.target.credit))
          && forall m :: m in v.plan.remainder ==> m in focus.value.target.masters)
    && (forall k :: 0 <= k < |v.aggs| ==> v.aggs[k].items != [] && (AggResolves(l, v.aggs[k]) <==> CursorReads(v.aggs[k].items[0])))
  }

  ghost predicate LaneResolves(l: Ladder, c: Credit)
    requires l.creditOrder != []
  {
    exists t :: ParseFocus(l, LaneId(c)) == Some(t) && forall i :: i in l.Lane(c) ==> i in ReleaseItems(t)
  }

  ghost predicate BucketResolves(l: Ladder, b: (Credit, string), ms: seq<string>)
    requires l.creditOrder != []
  {
    exists held :: ParseFocus(l, BucketId(b)) == Some(MasterSet(b.0, b.1, held)) && forall m :: m in ms ==> m in held
  }

  ghost predicate AggResolves(l: Ladder, a: ReleaseAgg)
    requires l.creditOrder != []
  {
    exists t :: ParseFocus(l, a.id) == Some(t) && forall i :: i in a.items ==> i in ReleaseItems(t)
  }

  // ---- Why it holds --------------------------------------------------------------------------------------------

  lemma {:induction false} KeptFloors(focus: Option<Focus>, pinned: seq<string>, kept: seq<string>)
    requires forall m :: m in kept ==> !FocusedMaster(focus, m)
    ensures MasterFloors(focus, pinned + kept) == MasterFloors(focus, pinned) + |kept|
  {
    if kept == [] {
      assert pinned + kept == pinned;
    } else {
      var n := |kept| - 1;
      KeptFloors(focus, pinned, kept[..n]);
      assert (pinned + kept)[..|pinned + kept| - 1] == pinned + kept[..n];
      assert kept[n] in kept;
    }
  }

  /** Candidates are never the focused master, so a kept one takes one release entry at least. */
  lemma PlanFloor(l: Ladder, level: Level, budget: Budget, focus: Option<Focus>, byDecade: bool, plan: MasterPlan, keep: nat)
    requires Hung(l) && PlanOf(l, level, budget, focus, byDecade, plan, keep)
    ensures MasterFloors(focus, plan.masters) + LaneFloors(l, focus, plan.lanes) <= budget.releases
  {
    var cs := Candidates(l, level.shown, focus);
    forall m | m in cs[..keep] ensures !FocusedMaster(focus, m) {
      assert m in cs;
      CandidateFacts(l, level.shown, focus, m);
      assert FocusedMaster(focus, m) ==> m in Pinned(focus);
    }
    KeptFloors(focus, Pinned(focus), cs[..keep]);
  }

  lemma PlanWithinMasters(l: Ladder, level: Level, budget: Budget, focus: Option<Focus>, byDecade: bool, plan: MasterPlan, keep: nat)
    requires PlanOf(l, level, budget, focus, byDecade, plan, keep)
    ensures |plan.masters| + |plan.lanes| + |plan.buckets.order| + Flag(plan.remainder != []) <= budget.masters
  {
    BucketCount(l, byDecade, Candidates(l, level.shown, focus)[keep..], plan.buckets);
  }

  /** A drawn credit's master is parented. */
  lemma FlatParented(l: Ladder, shown: seq<Credit>, m: string)
    requires Hung(l) && Indexed(l.byMaster) && m in Flat(shown, l.byCredit.at)
    ensures Parented(l, shown, m)
  {
  }

  lemma MultisetMember<T>(a: seq<T>, b: multiset<T>, whole: seq<T>, x: T)
    requires multiset(a) + b == multiset(whole) && x in a
    ensures x in whole
  {
    assert x in multiset(a);
    assert x in multiset(whole);
  }

  lemma BucketMembers(l: Ladder, cs: seq<string>, byDecade: bool, buckets: Groups<(Credit, string), string>, b: (Credit, string), m: string)
    requires GroupsOf(buckets, cs, BucketOf(l, byDecade)) && b in buckets.at && m in buckets.at[b]
    ensures m in cs && BucketKey(l, byDecade, m) == b
  {
    SelectMembers(cs, BucketOf(l, byDecade), b);
    assert BucketOf(l, byDecade)(m) == Some(b);
  }

  /** Any part of the drawn credits' masters is parented. */
  lemma PartParented(l: Ladder, shown: seq<Credit>, ms: seq<string>, others: multiset<string>)
    requires Hung(l) && Indexed(l.byMaster)
    requires multiset(ms) + others == multiset(Flat(shown, l.byCredit.at))
    ensures forall k :: 0 <= k < |ms| ==> Parented(l, shown, ms[k])
  {
    forall k | 0 <= k < |ms| ensures Parented(l, shown, ms[k]) {
      assert ms[k] in ms;
      MultisetMember(ms, others, Flat(shown, l.byCredit.at), ms[k]);
      FlatParented(l, shown, ms[k]);
    }
  }

  lemma LanesParented(l: Ladder, shown: seq<Credit>)
    ensures forall k :: 0 <= k < |LanesOf(l, shown)| ==> LanesOf(l, shown)[k] in shown && l.Lane(LanesOf(l, shown)[k]) != []
  {
    FilterMembers(shown, HasLane(l));
    assert forall k :: 0 <= k < |LanesOf(l, shown)| ==> LanesOf(l, shown)[k] in LanesOf(l, shown);
  }

  lemma BucketParent(l: Ladder, shown: seq<Credit>, focus: Option<Focus>, byDecade: bool, keep: nat, buckets: Groups<(Credit, string), string>, b: (Credit, string), m: string)
    requires Hung(l) && Indexed(l.byMaster) && keep <= |Candidates(l, shown, focus)|
    requires GroupsOf(buckets, Candidates(l, shown, focus)[keep..], BucketOf(l, byDecade)) && b in buckets.at && m in buckets.at[b]
    ensures Parented(l, shown, m) && l.masterCredit[m] == b.0 && m in l.Masters(b.0) && Bucket(l, m, byDecade) == b.1
  {
    BucketMembers(l, Candidates(l, shown, focus)[keep..], byDecade, buckets, b, m);
    assert m in Candidates(l, shown, focus);
    CandidateFacts(l, shown, focus, m);
    CandidateHung(l, l.masterCredit[m], m);
  }

  lemma BucketParents(l: Ladder, shown: seq<Credit>, focus: Option<Focus>, byDecade: bool, keep: nat, buckets: Groups<(Credit, string), string>, b: (Credit, string))
    requires Hung(l) && Indexed(l.byMaster) && keep <= |Candidates(l, shown, focus)|
    requires GroupsOf(buckets, Candidates(l, shown, focus)[keep..], BucketOf(l, byDecade)) && b in buckets.at
    ensures BucketParented(l, shown, b, buckets.at[b])
  {
    var ms := buckets.at[b];
    forall k | 0 <= k < |ms| ensures Parented(l, shown, ms[k]) && l.masterCredit[ms[k]] == b.0 {
      assert ms[k] in ms;
      BucketParent(l, shown, focus, byDecade, keep, buckets, b, ms[k]);
    }
  }

  lemma CandidateHung(l: Ladder, c: Credit, m: string)
    requires Hung(l) && Indexed(l.byMaster) && m in l.Masters(c)
    ensures m in l.byMaster.at
  {
  }

  // ---- Why the cursors resolve -----------------------------------------------------------------------------------

  /** No text names the lane of an unreadable credit. */
  lemma LaneUnread(l: Ladder, c: Credit, text: string, i: Item)
    requires ItemsKeyed(l) && !Readable(c) && i in l.Lane(c) && ParseLane(l, text).Some?
    ensures i !in ReleaseItems(ParseLane(l, text).value)
  {
    ParsedIsReadable(text);
    var (credit, tag) := ParseCredit(text);
    FilterMembers(l.Lane(credit.value), InDecade(tag));
    OneLane(l, c, credit.value, i);
  }

  lemma OneLane(l: Ladder, c: Credit, d: Credit, i: Item)
    requires ItemsKeyed(l)
    ensures i in l.Lane(c) && i in l.Lane(d) ==> c == d
  {
    assert i in l.Lane(c) ==> ItemLane(i) == Some(c);
    assert i in l.Lane(d) ==> ItemLane(i) == Some(d);
  }

  lemma ReadableLane(l: Ladder, c: Credit)
    requires l.creditOrder != [] && Readable(c) && l.Lane(c) != []
    ensures LaneResolves(l, c)
  {
    LaneIdParses(l, CreditId(c));
    assert CreditId(c) + "" == CreditId(c);
    ReadableParses(c, None);
    FilterMembers(l.Lane(c), InDecade(None));
    assert l.Lane(c)[0] in l.Lane(c);
    assert ParseFocus(l, LaneId(c)) == Some(LaneReleases(c, None, LaneTagged(l, c, None)));
  }

  lemma LaneCursor(l: Ladder, c: Credit)
    requires l.creditOrder != [] && ItemsKeyed(l) && l.Lane(c) != []
    ensures LaneResolves(l, c) <==> Readable(c)
  {
    if Readable(c) {
      ReadableLane(l, c);
    } else if LaneResolves(l, c) {
      LaneIdParses(l, CreditId(c));
      LaneUnread(l, c, CreditId(c), l.Lane(c)[0]);
    }
  }

  lemma ReadableBucket(l: Ladder, byDecade: bool, b: (Credit, string), ms: seq<string>)
    requires l.creditOrder != [] && Readable(b.0) && ms != []
    requires forall k :: 0 <= k < |ms| ==> ms[k] in l.Masters(b.0) && Bucket(l, ms[k], byDecade) == b.1
    ensures BucketResolves(l, b, ms)
  {
    var held := MastersTagged(l, b.0, b.1);
    FilterMembers(l.Masters(b.0), HasTag(l, b.1));
    assert Bucket(l, ms[0], byDecade) == b.1;
    forall m | m in ms ensures m in held {
      assert HasTag(l, b.1)(m);
    }
    assert ms[0] in ms;
    TargetIdParses(l, MasterSet(b.0, b.1, held));
    assert ParseFocus(l, BucketId(b)) == Some(MasterSet(b.0, b.1, held));
  }

  lemma BucketCursor(l: Ladder, byDecade: bool, b: (Credit, string), ms: seq<string>)
    requires l.creditOrder != [] && ms != []
    requires forall k :: 0 <= k < |ms| ==> ms[k] in l.Masters(b.0) && Bucket(l, ms[k], byDecade) == b.1
    ensures BucketResolves(l, b, ms) <==> Readable(b.0)
  {
    if Readable(b.0) {
      ReadableBucket(l, byDecade, b, ms);
    } else {
      BucketIdParses(l, Labelled(b.0, Some(b.1)));
      ParsedIsReadable(Labelled(b.0, Some(b.1)));
    }
  }

  /** A decade label that some item carries is a decade's. */
  lemma LaneTagPlain(l: Ladder, t: Target)
    requires TargetOf(l, t) && t.LaneReleases? && t.decade.Some?
    ensures ':' !in t.decade.value
  {
    FilterMembers(l.Lane(t.lane), InDecade(t.decade));
    var i := t.laneItems[0];
    assert i in t.laneItems;
    assert Decade(i.year) == t.decade.value;
  }

  lemma MasterTagPlain(l: Ladder, t: Target)
    requires TargetOf(l, t) && t.MasterSet?
    ensures ':' !in t.tag
  {
    FilterMembers(l.Masters(t.credit), HasTag(l, t.tag));
    var m := t.masters[0];
    assert m in t.masters;
    assert HasTag(l, t.tag)(m);
  }

  lemma TargetCursor(l: Ladder, t: Target)
    requires l.creditOrder != [] && TargetOf(l, t) && (t.MasterReleases? || (t.LaneReleases? && Readable(t.lane)))
    ensures ParseFocus(l, TargetId(t)) == Some(t)
  {
    if t.LaneReleases? && t.decade.Some? { LaneTagPlain(l, t); }
    TargetIdParses(l, t);
  }

  lemma AggCursor(l: Ladder, masters: seq<string>, lanes: seq<Credit>, a: ReleaseAgg)
    requires l.creditOrder != [] && ItemsKeyed(l) && AggUnder(l, masters, lanes, a)
    ensures a.items != [] && (AggResolves(l, a) <==> CursorReads(a.items[0]))
  {
    var t :| AggFor(l, masters, lanes, a, t);
    var i := a.items[0];
    assert i in a.items && i in ReleaseItems(t);
    TargetKeyed(l, t, i);
    if t.MasterReleases? || Readable(t.lane) {
      TargetCursor(l, t);
    } else {
      FilterMembers(l.Lane(t.lane), InDecade(t.decade));
      LaneIdParses(l, Labelled(t.lane, t.decade));
      if AggResolves(l, a) { LaneUnread(l, t.lane, Labelled(t.lane, t.decade), i); }
    }
  }

  lemma FocusCursor(l: Ladder, f: Focus, c: Credit)
    requires l.creditOrder != [] && TargetOf(l, f.target) && f.id == TargetId(f.target)
    requires f.target.MasterSet? && f.target.credit == c
    ensures ParseFocus(l, f.id) == Some(f.target) <==> Readable(c)
    ensures forall m :: m in Remainder(Some(f)) ==> m in f.target.masters
  {
    MasterTagPlain(l, f.target);
    if Readable(c) {
      TargetIdParses(l, f.target);
    } else {
      BucketIdParses(l, Labelled(c, Some(f.target.tag)));
      ParsedIsReadable(Labelled(c, Some(f.target.tag)));
    }
    forall m | m in Remainder(Some(f)) ensures m in f.target.masters {
      HeldMasters(f, m);
    }
  }

  lemma OtherCursor(l: Ladder, level: Level)
    requires l.creditOrder != [] && l.creditOrder[0] == l.root && l.root !in level.folded && level.folded != []
    requires multiset(level.shown) + multiset(level.folded) == multiset(l.creditOrder)
    ensures ParseFocus(l, OTHER_CREDITS) == Some(OtherCredits(l.creditOrder[1..]))
    ensures forall c :: c in level.folded ==> c in l.creditOrder[1..]
  {
    forall c | c in level.folded ensures c in l.creditOrder[1..] {
      MultisetMember(level.folded, multiset(level.shown), l.creditOrder, c);
      assert l.creditOrder == [l.creditOrder[0]] + l.creditOrder[1..];
    }
    assert level.folded[0] in level.folded;
  }
}
