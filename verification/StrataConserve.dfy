/** Nothing of a discography is lost between the planes of a response (api/strata.py). */
module StrataConserve {
  import opened Seqs
  import opened StrataCatalog
  import opened StrataCursor
  import opened StrataLadder
  import opened StrataFocus
  import opened StrataFit
  import opened StrataMasters
  import opened StrataCoarsest
  import opened StrataReleases
  import opened StrataReleasePlan

  // ---- Masters ------------------------------------------------------------------------------------------------

  /** Any duplicate-free split of the credit order splits what hangs under the credits. */
  lemma CreditsSplit<V>(l: Ladder, shown: seq<Credit>, folded: seq<Credit>, g: Groups<Credit, V>)
    requires multiset(shown) + multiset(folded) == multiset(l.creditOrder) && Distinct(l.creditOrder)
    requires Indexed(g) && forall c :: c in g.at ==> c in l.creditOrder
    ensures multiset(Flat(shown, g.at)) + multiset(Flat(folded, g.at)) == multiset(Flat(g.order, g.at))
  {
    FlatAppend(shown, folded, g.at);
    assert multiset(shown + folded) == multiset(l.creditOrder);
    FlatPermutation(shown + folded, l.creditOrder, g.at);
    FlatCover(l.creditOrder, g.order, g.at);
  }

  lemma {:induction false} FlatContains<K, V>(keys: seq<K>, at: map<K, seq<V>>, k: K)
    requires k in keys && k in at
    ensures multiset(at[k]) <= multiset(Flat(keys, at))
  {
    var n := |keys| - 1;
    if keys[n] != k {
      FlatContains(keys[..n], at, k);
    }
  }

  lemma DistinctPart<T>(part: seq<T>, whole: seq<T>)
    requires Distinct(whole) && multiset(part) <= multiset(whole)
    ensures Distinct(part)
  {
    DistinctCount(whole);
    DistinctFromMultiset(part);
  }

  /** A credit's masters are distinct. */
  lemma MastersDistinct(l: Ladder, c: Credit)
    requires Indexed(l.byCredit) && Distinct(l.byMaster.order)
    requires multiset(Flat(l.byCredit.order, l.byCredit.at)) == multiset(l.byMaster.order)
    ensures Distinct(l.Masters(c))
  {
    if c in l.byCredit.at {
      FlatContains(l.byCredit.order, l.byCredit.at, c);
      DistinctPart(l.byCredit.at[c], l.byMaster.order);
    }
  }

  /** A master is listed under its own credit. */
  lemma MasterIsHung(l: Ladder, m: string)
    requires Indexed(l.byMaster) && MastersHung(l.byMaster, l.masterCredit, l.byCredit) && m in l.byMaster.at
    ensures l.masterCredit[m] in l.byCredit.at && m in l.byCredit.at[l.masterCredit[m]]
  {
    SameMember(Flat(l.byCredit.order, l.byCredit.at), l.byMaster.order, m);
    FlatMembers(l.byCredit.order, l.byCredit.at);
    var c :| c in l.byCredit.order && c in l.byCredit.at && m in l.byCredit.at[c];
    assert CreditOf(l.masterCredit)(m) == Some(c);
  }

  /** The credit a focus needs drawn is on the ladder. */
  lemma UnderIsListed(l: Ladder, t: Target)
    requires l.Valid() && TargetOf(l, t) && t.Under().Some?
    ensures t.Under().value in l.creditOrder
  {
    match t {
      case MasterSet(c, tag, ms) => FilterMembers(l.Masters(c), HasTag(l, tag));
      case MasterReleases(m, c, items) => MasterIsHung(l, m);
      case LaneReleases(c, tag, items) => FilterMembers(l.Lane(c), InDecade(tag));
    }
  }

  /** The masters a focus holds are distinct and hang under a drawn credit. */
  lemma HeldIsDrawn(l: Ladder, shown: seq<Credit>, focus: Option<Focus>)
    requires l.Valid() && (focus.Some? ==> TargetOf(l, focus.value.target))
    requires forall c :: c in Base(l, focus) ==> c in shown
    ensures Distinct(Pinned(focus) + Remainder(focus))
    ensures forall m :: m in Pinned(focus) + Remainder(focus) ==> m in Flat(shown, l.byCredit.at)
  {
    FlatMembers(shown, l.byCredit.at);
    if focus.Some? {
      var f := focus.value;
      match f.target {
        case MasterSet(c, tag, ms) => HeldSetIsDrawn(l, f, c);
        case MasterReleases(m, c, items) => MasterIsHung(l, m);
        case _ =>
      }
      assert f.target.Under().Some? ==> f.target.Under().value in Base(l, focus);
    }
  }

  lemma HeldSetIsDrawn(l: Ladder, f: Focus, c: Credit)
    requires Indexed(l.byCredit) && Distinct(l.byMaster.order)
    requires multiset(Flat(l.byCredit.order, l.byCredit.at)) == multiset(l.byMaster.order)
    requires TargetOf(l, f.target) && f.target.MasterSet? && f.target.credit == c
    ensures Distinct(Pinned(Some(f)) + Remainder(Some(f)))
    ensures forall m :: m in Pinned(Some(f)) + Remainder(Some(f)) ==> c in l.byCredit.at && m in l.byCredit.at[c]
  {
    var ms := f.target.masters;
    MastersDistinct(l, c);
    FilterDistinct(l.Masters(c), HasTag(l, f.target.tag));
    FilterMembers(l.Masters(c), HasTag(l, f.target.tag));
    PageAndRest(ms, f.page, f.size);
    SameMembers(ms, Pinned(Some(f)) + Remainder(Some(f)));
  }

  lemma HeldSplits<T>(all: seq<T>, held: seq<T>)
    requires Distinct(all) && Distinct(held) && forall m :: m in held ==> m in all
    ensures multiset(Filter(all, NoneOf(held))) + multiset(held) == multiset(all)
  {
    FilterSplits(all, NoneOf(held), OneOf(held));
    FilterMembers(all, OneOf(held));
    FilterDistinct(all, OneOf(held));
    DistinctPermutation(Filter(all, OneOf(held)), held);
  }

  /** The candidates and what the focus holds are the drawn credits' masters, each once. */
  lemma CandidatesSplit(l: Ladder, level: Level, focus: Option<Focus>)
    requires l.Valid() && (focus.Some? ==> TargetOf(l, focus.value.target))
    requires multiset(level.shown) + multiset(level.folded) == multiset(l.creditOrder)
    requires forall c :: c in Base(l, focus) ==> c in level.shown
    ensures multiset(Candidates(l, level.shown, focus)) + multiset(Pinned(focus) + Remainder(focus)) == multiset(Flat(level.shown, l.byCredit.at))
    ensures multiset(Flat(level.shown, l.byCredit.at)) + multiset(Flat(level.folded, l.byCredit.at)) == multiset(l.byMaster.order)
  {
    var all := Flat(level.shown, l.byCredit.at);
    CreditsSplit(l, level.shown, level.folded, l.byCredit);
    DistinctPart(all, l.byMaster.order);
    HeldIsDrawn(l, level.shown, focus);
    HeldSplits(all, Pinned(focus) + Remainder(focus));
  }

  lemma KeptAndFolded<T>(cs: seq<T>, keep: nat, pinned: seq<T>, remainder: seq<T>, folded: seq<T>)
    requires keep <= |cs| && multiset(folded) == multiset(cs[keep..])
    ensures multiset(pinned + cs[..keep]) + multiset(folded) + multiset(remainder) == multiset(cs) + multiset(pinned + remainder)
  {
    assert cs == cs[..keep] + cs[keep..];
  }

  /** Every master of a drawn credit is drawn, bucketed, or in the focus's remainder, once. */
  lemma MastersConserved(l: Ladder, level: Level, focus: Option<Focus>, byDecade: bool, plan: MasterPlan, keep: nat)
    requires l.Valid() && (focus.Some? ==> TargetOf(l, focus.value.target))
    requires multiset(level.shown) + multiset(level.folded) == multiset(l.creditOrder)
    requires forall c :: c in Base(l, focus) ==> c in level.shown
    requires PlanWith(l, level, focus, byDecade, plan, keep)
    ensures multiset(plan.masters) + multiset(Flat(plan.buckets.order, plan.buckets.at)) + multiset(plan.remainder)
            == multiset(Flat(level.shown, l.byCredit.at))
    ensures multiset(Flat(level.shown, l.byCredit.at)) + multiset(Flat(level.folded, l.byCredit.at)) == multiset(l.byMaster.order)
  {
    CandidatesSplit(l, level, focus);
    KeptAndFolded(Candidates(l, level.shown, focus), keep, Pinned(focus), Remainder(focus), Flat(plan.buckets.order, plan.buckets.at));
  }

  // ---- Releases ----------------------------------------------------------------------------------------------

  /** Everything under some credits: their masters' items and their lanes. */
  function UnderCredits(l: Ladder, cs: seq<Credit>): seq<Item> {
    if cs == [] then [] else UnderCredits(l, cs[..|cs| - 1]) + l.CreditItems(cs[|cs| - 1])
  }

  lemma {:induction false} UnderCreditsSplit(l: Ladder, cs: seq<Credit>)
    ensures multiset(UnderCredits(l, cs))
            == multiset(Flat(Flat(cs, l.byCredit.at), l.byMaster.at)) + multiset(Flat(cs, l.masterless.at))
  {
    if cs != [] {
      var n := |cs| - 1;
      UnderCreditsSplit(l, cs[..n]);
      FlatAppend(Flat(cs[..n], l.byCredit.at), l.Masters(cs[n]), l.byMaster.at);
      assert Flat(cs, l.byCredit.at) == Flat(cs[..n], l.byCredit.at) + l.Masters(cs[n]);
      assert Flat(cs, l.masterless.at) == Flat(cs[..n], l.masterless.at) + l.Lane(cs[n]);
    }
  }

  lemma LanesHold(l: Ladder, shown: seq<Credit>)
    ensures Flat(LanesOf(l, shown), l.masterless.at) == Flat(shown, l.masterless.at)
  {
    FlatLane(l, shown);
  }

  lemma {:induction false} FlatLane(l: Ladder, cs: seq<Credit>)
    ensures Flat(Filter(cs, HasLane(l)), l.masterless.at) == Flat(cs, l.masterless.at)
  {
    if cs != [] {
      var n := |cs| - 1;
      FlatLane(l, cs[..n]);
      if HasLane(l)(cs[n]) {
        FlatAppend(Filter(cs[..n], HasLane(l)), [cs[n]], l.masterless.at);
        SingleFlat(cs[n], l.masterless.at);
      } else {
        assert Filter(cs, HasLane(l)) == Filter(cs[..n], HasLane(l));
        assert Flat(cs, l.masterless.at) == Flat(cs[..n], l.masterless.at) + [];
      }
    }
  }

  /** Every item under a master is drawn or held below a drawn master, or counted by the
      bucket, remainder or folded credit its master is in. */
  lemma MasterItemsConserved(l: Ladder, drawn: seq<string>, bucketed: seq<string>, remainder: seq<string>, folded: seq<string>)
    requires multiset(drawn) + multiset(bucketed) + multiset(remainder) + multiset(folded) == multiset(l.byMaster.order)
    ensures multiset(Flat(drawn, l.byMaster.at)) + multiset(Flat(bucketed + remainder, l.byMaster.at)) + multiset(Flat(folded, l.byMaster.at))
            == multiset(Flat(l.byMaster.order, l.byMaster.at))
  {
    var all := drawn + (bucketed + remainder) + folded;
    assert multiset(all) == multiset(l.byMaster.order);
    FlatPermutation(all, l.byMaster.order, l.byMaster.at);
    FlatAppend(drawn + (bucketed + remainder), folded, l.byMaster.at);
    FlatAppend(drawn, bucketed + remainder, l.byMaster.at);
  }

  lemma Regroup<T>(masters: multiset<T>, lanes: multiset<T>, drawn: multiset<T>, bucketed: multiset<T>, folded: multiset<T>,
                   shownLanes: multiset<T>, foldedLanes: multiset<T>)
    requires drawn + bucketed + folded == masters && shownLanes + foldedLanes == lanes
    ensures (drawn + shownLanes) + bucketed + (folded + foldedLanes) == masters + lanes
  {
  }

  /** Every item of the root has one home: an entry of the release plane, a bucket or the
      remainder of its master, or a folded credit. */
  lemma ItemsConserved(l: Ladder, level: Level, drawn: seq<string>, bucketed: seq<string>, remainder: seq<string>)
    requires multiset(l.items) == multiset(Flat(l.byMaster.order, l.byMaster.at)) + multiset(Flat(l.masterless.order, l.masterless.at))
    requires Indexed(l.masterless) && Distinct(l.creditOrder) && forall c :: c in l.masterless.at ==> c in l.creditOrder
    requires multiset(level.shown) + multiset(level.folded) == multiset(l.creditOrder)
    requires multiset(drawn) + multiset(bucketed) + multiset(remainder) + multiset(Flat(level.folded, l.byCredit.at)) == multiset(l.byMaster.order)
    ensures multiset(Flat(drawn, l.byMaster.at)) + multiset(Flat(LanesOf(l, level.shown), l.masterless.at))
            + multiset(Flat(bucketed + remainder, l.byMaster.at)) + multiset(UnderCredits(l, level.folded)) == multiset(l.items)
  {
    var folded := Flat(level.folded, l.byCredit.at);
    MasterItemsConserved(l, drawn, bucketed, remainder, folded);
    UnderCreditsSplit(l, level.folded);
    LanesHold(l, level.shown);
    CreditsSplit(l, level.shown, level.folded, l.masterless);
    Regroup(multiset(Flat(l.byMaster.order, l.byMaster.at)), multiset(Flat(l.masterless.order, l.masterless.at)),
      multiset(Flat(drawn, l.byMaster.at)), multiset(Flat(bucketed + remainder, l.byMaster.at)), multiset(Flat(folded, l.byMaster.at)),
      multiset(Flat(level.shown, l.masterless.at)), multiset(Flat(level.folded, l.masterless.at)));
  }
}
