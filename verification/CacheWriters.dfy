/** Interleaved writers of one budgeted cache, command by command (api/cache_budget.py). */
module CacheWriters {
  import opened Seqs
  import CacheBudget

  type Key = CacheBudget.Key
  type Writer = nat

  /** Where a writer is inside `store_within_budget`, with its key and its weight. */
  datatype Phase =
    | Start
    | Refreshing                           // its key was in the index
    | Absent                               // its key was not
    | Evicting(left: nat)                  // attempts left
    | Chosen(victim: Key, left: nat)       // the lightest entry, strictly cheaper
    | Claimed(victim: Key, left: nat)      // removed from the cost set by this writer
    | Forgetting                           // a full index without a cost set
    | Admitted                             // has a slot, not yet in the index
    | Counted                              // in the index, not yet in the cost set
    | Done

  datatype Job = Job(key: Key, weight: int, phase: Phase)

  datatype State = State(index: set<Key>, costs: map<Key, int>, jobs: map<Writer, Job>)

  datatype Command =
    | Begin(i: Writer, key: Key, weight: int)
    | Score(i: Writer)      // ZSCORE index key
    | Card(i: Writer)       // ZCARD index
    | Range(i: Writer)      // ZRANGE costs 0 0
    | Claim(i: Writer)      // ZREM costs victim
    | Free(i: Writer)       // ZREM index victim
    | Forget(i: Writer)     // DEL index
    | AddIndex(i: Writer)   // ZADD index
    | AddCost(i: Writer)    // ZADD costs
    | Expire(index: set<Key>, costs: set<Key>)

  function Move(s: State, i: Writer, p: Phase): State
    requires i in s.jobs
  {
    s.(jobs := s.jobs[i := s.jobs[i].(phase := p)])
  }

  ghost function Lightest(costs: map<Key, int>): (k: Key)
    requires costs != map[]
    ensures CacheBudget.IsLightest(costs, k)
  {
    LightestExists(costs);
    var k :| CacheBudget.IsLightest(costs, k);
    k
  }

  lemma {:induction false} LightestExists(costs: map<Key, int>)
    requires costs != map[]
    ensures exists k :: CacheBudget.IsLightest(costs, k)
  {
    var k :| k in costs;
    var rest := costs - {k};
    if rest == map[] {
      assert forall j :: j in costs ==> j == k || j in rest;
      assert CacheBudget.IsLightest(costs, k);
    } else {
      LightestExists(rest);
      var m :| CacheBudget.IsLightest(rest, m);
      assert forall j :: j in costs ==> j == k || j in rest;
      assert CacheBudget.IsLightest(costs, if costs[k] < costs[m] then k else m);
    }
  }

  /** A command of a writer in the phase that issues it; in any other phase nothing happens. */
  ghost function Step(s: State, maxKeys: nat, c: Command): State {
    if c.Expire? then State(s.index - c.index, s.costs - c.costs, s.jobs)
    else if c.i !in s.jobs then s
    else
      var i, job := c.i, s.jobs[c.i];
      match c
      case Begin(_, key, weight) => if job.phase.Done? then s.(jobs := s.jobs[i := Job(key, weight, Start)]) else s
      case Score(_) => if !job.phase.Start? then s else if job.key in s.index then Move(s, i, Refreshing) else Move(s, i, Absent)
      case Card(_) =>
        if !job.phase.Absent? then s
        else if |s.index| < maxKeys then Move(s, i, Admitted) else Move(s, i, Evicting(CacheBudget.EVICTION_ATTEMPTS))
      case Range(_) =>
        if !job.phase.Evicting? then s
        else if job.phase.left == 0 then Move(s, i, Done)
        else if s.costs == map[] then (if s.index != {} then Move(s, i, Forgetting) else Move(s, i, Done))
        else
          var victim := Lightest(s.costs);
          if job.weight <= s.costs[victim] then Move(s, i, Done) else Move(s, i, Chosen(victim, job.phase.left))
      case Claim(_) =>
        if !job.phase.Chosen? then s
        else if job.phase.victim in s.costs then Move(s, i, Claimed(job.phase.victim, job.phase.left)).(costs := s.costs - {job.phase.victim})
        else Move(s, i, Evicting(Less(job.phase.left)))
      case Free(_) =>
        if !job.phase.Claimed? then s
        else if job.phase.victim in s.index then Move(s, i, Admitted).(index := s.index - {job.phase.victim})
        else Move(s, i, Evicting(Less(job.phase.left)))
      case Forget(_) => if !job.phase.Forgetting? then s else Move(s, i, Admitted).(index := {})
      case AddIndex(_) => if !job.phase.Admitted? && !job.phase.Refreshing? then s else Move(s, i, Counted).(index := s.index + {job.key})
      case AddCost(_) => if !job.phase.Counted? then s else Move(s, i, Done).(costs := s.costs[job.key := job.weight])
  }

  function Less(n: nat): nat { if n == 0 then 0 else n - 1 }

  ghost function Run(s: State, maxKeys: nat, cs: seq<Command>): State {
    if cs == [] then s else Step(Run(s, maxKeys, cs[..|cs| - 1]), maxKeys, cs[|cs| - 1])
  }

  /** The writers with a slot they have not used yet. */
  ghost function Pending(s: State): set<Writer> {
    set i | i in s.jobs && s.jobs[i].phase.Admitted?
  }

  /** The command puts back a key that left the index after its writer found it there. */
  predicate PutsBack(s: State, c: Command) {
    c.AddIndex? && c.i in s.jobs && s.jobs[c.i].phase.Refreshing? && s.jobs[c.i].key !in s.index
  }

  ghost function CountPutBack(s: State, maxKeys: nat, cs: seq<Command>): nat {
    if cs == [] then 0
    else CountPutBack(s, maxKeys, cs[..|cs| - 1]) + if PutsBack(Run(s, maxKeys, cs[..|cs| - 1]), cs[|cs| - 1]) then 1 else 0
  }

  /** Used and promised slots together stay within the budget, the other writers and the keys
      put back. */
  ghost predicate Within(s: State, maxKeys: nat, putBack: nat) {
    |s.index| + |Pending(s)| <= maxKeys + |s.jobs.Keys| - 1 + putBack
  }

  lemma PendingMoves(s: State, s': State, i: Writer)
    requires i in s.jobs && i in s'.jobs && s'.jobs == s.jobs[i := s'.jobs[i]]
    ensures s'.jobs.Keys == s.jobs.Keys
    ensures Pending(s') == if s'.jobs[i].phase.Admitted? then Pending(s) + {i} else Pending(s) - {i}
    ensures |Pending(s) - {i}| <= |s.jobs.Keys| - 1
  {
    Subset(Pending(s) - {i}, s.jobs.Keys - {i});
  }

  /** The five ways a command can bear on the slots. */
  ghost predicate SlotStep(s: State, s': State, i: Writer, maxKeys: nat, back: bool) {
    && i in s.jobs && i in s'.jobs && s'.jobs == s.jobs[i := s'.jobs[i]]
    && var was, now := s.jobs[i].phase.Admitted?, s'.jobs[i].phase.Admitted?;
       || (was == now && s'.index == s.index)
       || (now && |s'.index| < maxKeys)
       || (now && !was && |s'.index| < |s.index|)
       || (was && !now && |s'.index| <= |s.index| + 1)
       || (!was && !now && back && |s'.index| <= |s.index| + 1)
  }

  lemma SlotStepWithin(s: State, s': State, i: Writer, maxKeys: nat, putBack: nat, back: bool)
    requires Within(s, maxKeys, putBack) && SlotStep(s, s', i, maxKeys, back)
    ensures Within(s', maxKeys, putBack + if back then 1 else 0) && s'.jobs.Keys == s.jobs.Keys
  {
    PendingMoves(s, s', i);
    CacheBudget.OneMore(Pending(s) - {i}, i);
    if i in Pending(s) { assert Pending(s) - {i} + {i} == Pending(s); } else { assert Pending(s) - {i} == Pending(s); }
  }

  /** Every command of a writer is one of them. */
  lemma StepIsSlot(s: State, maxKeys: nat, c: Command)
    requires maxKeys > 0 && !c.Expire? && c.i in s.jobs
    ensures SlotStep(s, Step(s, maxKeys, c), c.i, maxKeys, PutsBack(s, c))
  {
    var s', job := Step(s, maxKeys, c), s.jobs[c.i];
    assert s.jobs == s.jobs[c.i := job];
    match c {
      case AddIndex(_) =>
        CacheBudget.OneMore(s.index, job.key);
        if job.key in s.index { assert s.index + {job.key} == s.index; }
      case Free(_) => if job.phase.Claimed? && job.phase.victim in s.index { CacheBudget.OneFewer(s.index, job.phase.victim); }
      case _ =>
    }
  }

  lemma StepWithin(s: State, maxKeys: nat, c: Command, putBack: nat)
    requires Within(s, maxKeys, putBack) && maxKeys > 0
    ensures Within(Step(s, maxKeys, c), maxKeys, putBack + if PutsBack(s, c) then 1 else 0)
    ensures Step(s, maxKeys, c).jobs.Keys == s.jobs.Keys
  {
    var s' := Step(s, maxKeys, c);
    if c.Expire? {
      Subset(s'.index, s.index);
      assert Pending(s') == Pending(s);
    } else if c.i in s.jobs {
      StepIsSlot(s, maxKeys, c);
      SlotStepWithin(s, s', c.i, maxKeys, putBack, PutsBack(s, c));
    }
  }

  predicate Fresh(s: State, maxKeys: nat) {
    maxKeys > 0 && s.jobs != map[] && |s.index| <= maxKeys && forall i :: i in s.jobs ==> s.jobs[i].phase.Done?
  }

  /** Whatever the interleaving, `W` writers take the index above `maxKeys + W - 1` by no more
      than the keys put back. */
  lemma {:induction false} OvershootBounded(s: State, maxKeys: nat, cs: seq<Command>)
    requires Fresh(s, maxKeys)
    ensures Run(s, maxKeys, cs).jobs.Keys == s.jobs.Keys && Within(Run(s, maxKeys, cs), maxKeys, CountPutBack(s, maxKeys, cs))
    ensures |Run(s, maxKeys, cs).index| <= maxKeys + |s.jobs.Keys| - 1 + CountPutBack(s, maxKeys, cs)
  {
    if cs == [] {
      assert Pending(s) == {};
      var i :| i in s.jobs;
      assert s.jobs.Keys != {};
    } else {
      OvershootBounded(s, maxKeys, cs[..|cs| - 1]);
      StepWithin(Run(s, maxKeys, cs[..|cs| - 1]), maxKeys, cs[|cs| - 1], CountPutBack(s, maxKeys, cs[..|cs| - 1]));
    }
  }

  lemma {:induction false} NonePutBack(s: State, maxKeys: nat, cs: seq<Command>)
    requires forall i :: 0 <= i < |cs| ==> !PutsBack(Run(s, maxKeys, cs[..i]), cs[i])
    ensures CountPutBack(s, maxKeys, cs) == 0
  {
    if cs != [] {
      var init := cs[..|cs| - 1];
      assert forall i :: 0 <= i < |init| ==> init[..i] == cs[..i] && init[i] == cs[i];
      NonePutBack(s, maxKeys, init);
    }
  }

  /** When no key leaves the index between its writer's check and its write, as when every key
      was absent at the check, the documented bound holds. */
  lemma AbsentWritersBounded(s: State, maxKeys: nat, cs: seq<Command>)
    requires Fresh(s, maxKeys) && forall i :: 0 <= i < |cs| ==> !PutsBack(Run(s, maxKeys, cs[..i]), cs[i])
    ensures |Run(s, maxKeys, cs).index| <= maxKeys + |s.jobs.Keys| - 1
  {
    OvershootBounded(s, maxKeys, cs);
    NonePutBack(s, maxKeys, cs);
  }

  // ---- One writer -----------------------------------------------------------------------------------------------------

  /** A lone writer's slot is its own, and a key it refreshes had one. */
  ghost predicate SlotOk(index: set<Key>, job: Job, maxKeys: nat) {
    var holds :=
      && |index| <= maxKeys && (job.phase.Admitted? ==> |index| < maxKeys)
      && (job.phase.Refreshing? ==> |index + {job.key}| <= maxKeys);
    holds
  }

  ghost predicate Lone(s: State, i: Writer, maxKeys: nat) {
    s.jobs.Keys == {i} && SlotOk(s.index, s.jobs[i], maxKeys)
  }

  lemma ExpireOk(index: set<Key>, gone: set<Key>, job: Job, maxKeys: nat)
    requires SlotOk(index, job, maxKeys)
    ensures SlotOk(index - gone, job, maxKeys)
  {
    Subset(index - gone, index);
    Subset(index - gone + {job.key}, index + {job.key});
  }

  /** What a lone writer's command can do to the index and its phase. */
  ghost predicate LoneMove(index: set<Key>, job: Job, index': set<Key>, job': Job, maxKeys: nat) {
    || (index' == index && (job' == job || !(job'.phase.Admitted? || job'.phase.Refreshing?) || (job'.phase.Admitted? && |index| < maxKeys)))
    || (index' == index && job'.phase.Refreshing? && job'.key in index)
    || (job'.phase.Admitted? && (index' == {} || (job.phase.Claimed? && job.phase.victim in index && index' == index - {job.phase.victim})))
    || ((job.phase.Admitted? || job.phase.Refreshing?) && !job'.phase.Admitted? && !job'.phase.Refreshing? && index' == index + {job.key})
  }

  lemma MoveOk(index: set<Key>, job: Job, index': set<Key>, job': Job, maxKeys: nat)
    requires SlotOk(index, job, maxKeys) && LoneMove(index, job, index', job', maxKeys) && maxKeys > 0
    ensures SlotOk(index', job', maxKeys)
  {
    CacheBudget.OneMore(index, job.key);
    if job.phase.Claimed? && job.phase.victim in index { CacheBudget.OneFewer(index, job.phase.victim); }
    if job'.key in index { assert index + {job'.key} == index; }
  }

  lemma StepMoves(s: State, i: Writer, maxKeys: nat, c: Command)
    requires s.jobs.Keys == {i} && !c.Expire?
    ensures var s' := Step(s, maxKeys, c); s'.jobs.Keys == {i} && LoneMove(s.index, s.jobs[i], s'.index, s'.jobs[i], maxKeys)
  {
  }

  lemma LoneStep(s: State, i: Writer, maxKeys: nat, c: Command)
    requires Lone(s, i, maxKeys) && maxKeys > 0
    ensures Lone(Step(s, maxKeys, c), i, maxKeys)
  {
    var s' := Step(s, maxKeys, c);
    if c.Expire? {
      ExpireOk(s.index, c.index, s.jobs[i], maxKeys);
    } else {
      StepMoves(s, i, maxKeys, c);
      MoveOk(s.index, s.jobs[i], s'.index, s'.jobs[i], maxKeys);
    }
  }

  lemma {:induction false} LoneRun(s: State, i: Writer, maxKeys: nat, cs: seq<Command>)
    requires Lone(s, i, maxKeys) && maxKeys > 0
    ensures Lone(Run(s, maxKeys, cs), i, maxKeys)
  {
    if cs != [] {
      LoneRun(s, i, maxKeys, cs[..|cs| - 1]);
      LoneStep(Run(s, maxKeys, cs[..|cs| - 1]), i, maxKeys, cs[|cs| - 1]);
    }
  }

  // ---- Two writers ----------------------------------------------------------------------------------------------------

  ghost predicate Reaches(s: State, maxKeys: nat, t: State) {
    exists cs :: Run(s, maxKeys, cs) == t
  }

  lemma ReachesSelf(s: State, maxKeys: nat)
    ensures Reaches(s, maxKeys, s)
  {
    assert Run(s, maxKeys, []) == s;
  }

  lemma Next(s: State, maxKeys: nat, t: State, c: Command, u: State)
    requires Reaches(s, maxKeys, t) && u == Step(t, maxKeys, c)
    ensures Reaches(s, maxKeys, u)
  {
    var cs :| Run(s, maxKeys, cs) == t;
    assert (cs + [c])[..|cs|] == cs;
    assert Run(s, maxKeys, cs + [c]) == u;
  }

  /** Every writer is done, and every counted key has a cost. */
  ghost predicate Quiet(s: State) {
    s.index == s.costs.Keys && forall i :: i in s.jobs ==> s.jobs[i].phase.Done?
  }

  function At(s: State, i: Writer, job: Job): State { s.(jobs := s.jobs[i := job]) }

  /** A writer finds its key in the index. */
  lemma Watches(s0: State, s: State, maxKeys: nat, i: Writer, a: Key, own: int)
    requires Reaches(s0, maxKeys, s) && i in s.jobs && s.jobs[i].phase.Done? && a in s.index
    ensures Reaches(s0, maxKeys, At(s, i, Job(a, own, Refreshing)))
  {
    Starts(s0, s, maxKeys, i, a, own);
    MovesOn(s0, s, maxKeys, i, Job(a, own, Start), Score(i), Refreshing);
  }

  /** A command that only moves the writer on. */
  lemma MovesOn(s0: State, s: State, maxKeys: nat, j: Writer, job: Job, c: Command, p: Phase)
    requires Reaches(s0, maxKeys, At(s, j, job)) && Step(At(s, j, job), maxKeys, c) == Move(At(s, j, job), j, p)
    ensures Reaches(s0, maxKeys, At(s, j, job.(phase := p)))
  {
    assert Move(At(s, j, job), j, p) == At(s, j, job.(phase := p));
    Next(s0, maxKeys, At(s, j, job), c, At(s, j, job.(phase := p)));
  }

  lemma Starts(s0: State, s: State, maxKeys: nat, j: Writer, b: Key, w: int)
    requires Reaches(s0, maxKeys, s) && j in s.jobs && s.jobs[j].phase.Done?
    ensures Reaches(s0, maxKeys, At(s, j, Job(b, w, Start)))
  {
    Next(s0, maxKeys, s, Begin(j, b, w), At(s, j, Job(b, w, Start)));
  }

  /** A writer of an absent key sees a full index. */
  lemma Misses(s0: State, s: State, maxKeys: nat, j: Writer, b: Key, w: int)
    requires Reaches(s0, maxKeys, At(s, j, Job(b, w, Start))) && b !in s.index
    ensures Reaches(s0, maxKeys, At(s, j, Job(b, w, Absent)))
  {
    MovesOn(s0, s, maxKeys, j, Job(b, w, Start), Score(j), Absent);
  }

  lemma FindsFull(s0: State, s: State, maxKeys: nat, j: Writer, b: Key, w: int)
    requires Reaches(s0, maxKeys, At(s, j, Job(b, w, Absent))) && |s.index| >= maxKeys
    ensures Reaches(s0, maxKeys, At(s, j, Job(b, w, Evicting(CacheBudget.EVICTION_ATTEMPTS))))
  {
    MovesOn(s0, s, maxKeys, j, Job(b, w, Absent), Card(j), Evicting(CacheBudget.EVICTION_ATTEMPTS));
  }

  /** A heavier one picks the lightest entry. */
  lemma Picks(s0: State, s: State, maxKeys: nat, j: Writer, b: Key, w: int, a: Key, left: nat)
    requires Reaches(s0, maxKeys, At(s, j, Job(b, w, Evicting(left)))) && left > 0 && s.costs != map[] && a == Lightest(s.costs) && s.costs[a] < w
    ensures Reaches(s0, maxKeys, At(s, j, Job(b, w, Chosen(a, left))))
  {
    MovesOn(s0, s, maxKeys, j, Job(b, w, Evicting(left)), Range(j), Chosen(a, left));
  }

  /** The entry it picked is evicted, and its slot is the writer's. */
  lemma Evicts(s0: State, s: State, maxKeys: nat, j: Writer, b: Key, w: int, a: Key, left: nat)
    requires Reaches(s0, maxKeys, At(s, j, Job(b, w, Chosen(a, left)))) && a in s.costs && a in s.index
    ensures Reaches(s0, maxKeys, At(s, j, Job(b, w, Admitted)).(index := s.index - {a}, costs := s.costs - {a}))
  {
    var s1, s2 := At(s, j, Job(b, w, Chosen(a, left))), At(s, j, Job(b, w, Claimed(a, left))).(costs := s.costs - {a});
    assert Move(s1, j, Claimed(a, left)).(costs := s.costs - {a}) == s2;
    Next(s0, maxKeys, s1, Claim(j), s2);
    var s3 := At(s, j, Job(b, w, Admitted)).(index := s.index - {a}, costs := s.costs - {a});
    assert Move(s2, j, Admitted).(index := s.index - {a}) == s3;
    Next(s0, maxKeys, s2, Free(j), s3);
  }

  /** A writer that may puts its key into both sets. */
  lemma Puts(s0: State, s: State, maxKeys: nat, i: Writer)
    requires Reaches(s0, maxKeys, s) && i in s.jobs && (s.jobs[i].phase.Admitted? || s.jobs[i].phase.Refreshing?)
    ensures var job := s.jobs[i];
            Reaches(s0, maxKeys, At(s, i, job.(phase := Done)).(index := s.index + {job.key}, costs := s.costs[job.key := job.weight]))
  {
    var job := s.jobs[i];
    var s1 := At(s, i, job.(phase := Counted)).(index := s.index + {job.key});
    Next(s0, maxKeys, s, AddIndex(i), s1);
    var s2 := At(s, i, job.(phase := Done)).(index := s.index + {job.key}, costs := s.costs[job.key := job.weight]);
    assert Move(s1, i, Done).(costs := s.costs[job.key := job.weight]) == s2;
    Next(s0, maxKeys, s1, AddCost(i), s2);
  }

  /** The state after a round: one writer's key was evicted for the other's, then put back. */
  function Rounded(s: State, i: Writer, j: Writer, a: Key, own: int, b: Key, w: int): State {
    State((s.index - {a}) + {b} + {a}, (s.costs - {a})[b := w][a := own], s.jobs[i := Job(a, own, Refreshing)][j := Job(b, w, Done)][i := Job(a, own, Done)])
  }

  /** The first half: `i` has found `a` in the index, and `j` has its slot. */
  function Halfway(s: State, i: Writer, j: Writer, a: Key, own: int, b: Key, w: int): State {
    State(s.index - {a}, s.costs - {a}, s.jobs[i := Job(a, own, Refreshing)][j := Job(b, w, Admitted)])
  }

  lemma ToHalfway(s0: State, s: State, maxKeys: nat, i: Writer, j: Writer, a: Key, own: int, b: Key, w: int)
    requires Reaches(s0, maxKeys, s) && i in s.jobs && j in s.jobs && i != j && Quiet(s) && |s.index| >= maxKeys && s.costs != map[] && b !in s.index
    requires a == Lightest(s.costs) && w > s.costs[a]
    ensures Reaches(s0, maxKeys, Halfway(s, i, j, a, own, b, w))
  {
    var s1 := At(s, i, Job(a, own, Refreshing));
    Watches(s0, s, maxKeys, i, a, own);
    Starts(s0, s1, maxKeys, j, b, w);
    Misses(s0, s1, maxKeys, j, b, w);
    FindsFull(s0, s1, maxKeys, j, b, w);
    Picks(s0, s1, maxKeys, j, b, w, a, CacheBudget.EVICTION_ATTEMPTS);
    Evicts(s0, s1, maxKeys, j, b, w, a, CacheBudget.EVICTION_ATTEMPTS);
  }

  lemma PutBoth(s0: State, s: State, maxKeys: nat, i: Writer, j: Writer, u: Job, v: Job)
    requires Reaches(s0, maxKeys, s) && i in s.jobs && j in s.jobs && i != j && s.jobs[i] == u && s.jobs[j] == v && u.phase.Refreshing? && v.phase.Admitted?
    ensures Reaches(s0, maxKeys, State(s.index + {v.key} + {u.key}, s.costs[v.key := v.weight][u.key := u.weight],
                                       s.jobs[j := v.(phase := Done)][i := u.(phase := Done)]))
  {
    Puts(s0, s, maxKeys, j);
    Puts(s0, At(s, j, v.(phase := Done)).(index := s.index + {v.key}, costs := s.costs[v.key := v.weight]), maxKeys, i);
  }

  lemma SameJobs(jobs: map<Writer, Job>, i: Writer, j: Writer, u: Job, v: Job, v': Job)
    ensures jobs[i := u][j := v][j := v'] == jobs[i := u][j := v']
  {
  }

  lemma Round(s0: State, s: State, maxKeys: nat, i: Writer, j: Writer, a: Key, own: int, b: Key, w: int)
    requires Reaches(s0, maxKeys, s) && i in s.jobs && j in s.jobs && i != j && Quiet(s) && |s.index| >= maxKeys && s.costs != map[] && b !in s.index
    requires a == Lightest(s.costs) && w > s.costs[a]
    ensures Reaches(s0, maxKeys, Rounded(s, i, j, a, own, b, w))
  {
    ToHalfway(s0, s, maxKeys, i, j, a, own, b, w);
    PutBoth(s0, Halfway(s, i, j, a, own, b, w), maxKeys, i, j, Job(a, own, Refreshing), Job(b, w, Admitted));
    SameJobs(s.jobs, i, j, Job(a, own, Refreshing), Job(b, w, Admitted), Job(b, w, Done));
  }

  lemma RoundGrows(s: State, i: Writer, j: Writer, a: Key, own: int, b: Key, w: int)
    requires Quiet(s) && i in s.jobs && j in s.jobs && i != j && a in s.index && b !in s.index
    ensures var t := Rounded(s, i, j, a, own, b, w); Quiet(t) && t.jobs.Keys == s.jobs.Keys && |t.index| == |s.index| + 1 && t.costs != map[]
  {
    var t := Rounded(s, i, j, a, own, b, w);
    assert t.index == s.index + {b};
    assert a in t.costs;
  }

  /** Two writers can take a full index as far above the budget as they like. */
  lemma {:induction false} TwoWritersOvershoot(s: State, maxKeys: nat, i: Writer, j: Writer, n: nat) returns (t: State)
    requires i in s.jobs && j in s.jobs && i != j && Quiet(s) && |s.index| >= maxKeys && s.costs != map[]
    ensures Reaches(s, maxKeys, t) && |t.index| == |s.index| + n && Quiet(t) && t.jobs.Keys == s.jobs.Keys && t.costs != map[]
  {
    ReachesSelf(s, maxKeys);
    if n == 0 {
      t := s;
    } else {
      var u := TwoWritersOvershoot(s, maxKeys, i, j, n - 1);
      FreshExists(u.index);
      var b: nat :| b !in u.index;
      var a := Lightest(u.costs);
      t := Rounded(u, i, j, a, u.costs[a], b, u.costs[a] + 1);
      Round(s, u, maxKeys, i, j, a, u.costs[a], b, u.costs[a] + 1);
      RoundGrows(u, i, j, a, u.costs[a], b, u.costs[a] + 1);
    }
  }

  // ---- The claim ------------------------------------------------------------------------------------------------------

  /** No run by these writers takes the index above the budget and the other writers. */
  ghost predicate BoundedByWriters(writers: set<Writer>, maxKeys: nat) {
    forall s: State, cs :: Fresh(s, maxKeys) && s.jobs.Keys == writers ==> |Run(s, maxKeys, cs).index| <= maxKeys + |writers| - 1
  }

  lemma {:induction false} FullIndex(n: nat) returns (index: set<Key>)
    ensures |index| == n
  {
    if n == 0 {
      index := {};
    } else {
      index := FullIndex(n - 1);
      FreshExists(index);
      var k: nat :| k !in index;
      index := index + {k};
    }
  }

  /** A full cache that these writers are idle on. */
  lemma Full(writers: set<Writer>, maxKeys: nat) returns (s: State)
    requires maxKeys > 0 && writers != {}
    ensures Fresh(s, maxKeys) && Quiet(s) && |s.index| == maxKeys && s.costs != map[] && s.jobs.Keys == writers
  {
    var index := FullIndex(maxKeys);
    s := State(index, map k | k in index :: 0, map i | i in writers :: Job(0, 0, Done));
    var k :| k in index;
    assert k in s.costs;
    var i :| i in writers;
    assert i in s.jobs;
  }

  /** The overshoot is bounded by the number of writers exactly when there is one. */
  lemma BoundedIffAlone(writers: set<Writer>, maxKeys: nat)
    requires maxKeys > 0 && writers != {}
    ensures BoundedByWriters(writers, maxKeys) <==> |writers| == 1
  {
    var i :| i in writers;
    if writers == {i} {
      forall s: State, cs | Fresh(s, maxKeys) && s.jobs.Keys == writers ensures |Run(s, maxKeys, cs).index| <= maxKeys + |writers| - 1 {
        LoneRun(s, i, maxKeys, cs);
      }
    } else {
      var j :| j in writers && j != i;
      assert |writers - {i, j}| == |writers| - 2;
      var s := Full(writers, maxKeys);
      var t := TwoWritersOvershoot(s, maxKeys, i, j, |writers|);
      var cs :| Run(s, maxKeys, cs) == t;
      assert |Run(s, maxKeys, cs).index| > maxKeys + |writers| - 1;
    }
  }
}
