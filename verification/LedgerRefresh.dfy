/** Keeping the precomputed ledger fresh (api/ledger_refresh.py). */
module LedgerRefresh {
  import opened Seqs

  // ---- Refresh never loses a counted write ------------------------------------------------------------------------

  type Write = nat
  type Replica = nat

  /** Where a refresh is. `seen` is what the watermark counted when it was read. */
  datatype Phase =
    | Idle
    | Read(seen: set<Write>)           // a poll read the watermark, before the lock
    | Waiting                          // an inline refresh, waiting for the lock
    | Holding                          // it has the lock
    | Refreshing(seen: set<Write>)     // under the lock, watermark read
    | Built(seen: set<Write>, rows: set<Write>)  // the views are rebuilt, not yet committed

  /** The committed writes, those the statistics count so far, what the views hold and what the
      stored watermark counted. */
  datatype State = State(
    committed: set<Write>, counted: set<Write>, views: set<Write>, stored: Option<set<Write>>,
    lock: Option<Replica>, phases: map<Replica, Phase>)

  datatype Act =
    | Commit(w: Write)
    | Count(w: Write)              // the statistics catch up with a committed write
    | Poll(r: Replica)             // read the watermark and decide to refresh
    | Skip(r: Replica)             // nothing to do, or the lock is taken
    | TryLock(r: Replica)
    | Inline(r: Replica)
    | Lock(r: Replica)
    | ReadWatermark(r: Replica)
    | Rebuild(r: Replica)
    | End(r: Replica, ok: bool)    // the transaction commits, or fails and rolls back

  function At(s: State, r: Replica): Phase { if r in s.phases then s.phases[r] else Idle }

  function Move(s: State, r: Replica, p: Phase): State { s.(phases := s.phases[r := p]) }

  function Step(s: State, a: Act): State {
    match a
    case Commit(w) => s.(committed := s.committed + {w})
    case Count(w) => if w in s.committed then s.(counted := s.counted + {w}) else s
    case Poll(r) => if At(s, r).Idle? then Move(s, r, Read(s.counted)) else s
    case Skip(r) => if At(s, r).Read? then Move(s, r, Idle) else s
    case TryLock(r) => if At(s, r).Read? && s.lock.None? then Move(s, r, Refreshing(At(s, r).seen)).(lock := Some(r)) else s
    case Inline(r) => if At(s, r).Idle? then Move(s, r, Waiting) else s
    case Lock(r) => if At(s, r).Waiting? && s.lock.None? then Move(s, r, Holding).(lock := Some(r)) else s
    case ReadWatermark(r) => if At(s, r).Holding? then Move(s, r, Refreshing(s.counted)) else s
    case Rebuild(r) => if At(s, r).Refreshing? then Move(s, r, Built(At(s, r).seen, s.committed)) else s
    case End(r, ok) =>
      if !At(s, r).Built? && !At(s, r).Refreshing? && !At(s, r).Holding? then s
      else
        var s' := Move(s, r, Idle).(lock := if s.lock == Some(r) then None else s.lock);
        if ok && At(s, r).Built? then s'.(views := At(s, r).rows, stored := Some(At(s, r).seen)) else s'
  }

  function Run(s: State, acts: seq<Act>): State {
    if acts == [] then s else Step(Run(s, acts[..|acts| - 1]), acts[|acts| - 1])
  }

  ghost predicate PhaseOk(s: State, p: Phase) {
    match p
    case Read(seen) => seen <= s.counted
    case Refreshing(seen) => seen <= s.counted
    case Built(seen, rows) => seen <= rows && rows <= s.committed
    case _ => true
  }

  ghost predicate Inv(s: State) {
    && s.counted <= s.committed && s.views <= s.committed
    && (s.stored.Some? ==> s.stored.value <= s.views)
    && (forall r :: r in s.phases ==> PhaseOk(s, s.phases[r]))
  }

  lemma StepKeeps(s: State, a: Act)
    requires Inv(s)
    ensures Inv(Step(s, a))
  {
  }

  /** Under any interleaving of writers, inline refreshes and polling replicas, the views hold
      every write the stored watermark counted. */
  lemma {:induction false} NoCountedWriteLost(s: State, acts: seq<Act>)
    requires s.counted <= s.committed && s.views <= s.committed && s.stored.None? && s.phases == map[]
    ensures Inv(Run(s, acts))
    ensures var after := Run(s, acts); after.stored.Some? ==> after.stored.value <= after.views
  {
    if acts != [] {
      NoCountedWriteLost(s, acts[..|acts| - 1]);
      StepKeeps(Run(s, acts[..|acts| - 1]), acts[|acts| - 1]);
    }
  }

  /** A refresh that nothing interrupts, polled or inline, leaves the views with every committed
      write, the watermark with every counted one and the lock free. */
  lemma RefreshStores(s: State, r: Replica, inline: bool, locked: State, after: State)
    requires At(s, r).Idle? && s.lock.None?
    requires locked == if inline then Step(Step(Step(s, Inline(r)), Lock(r)), ReadWatermark(r)) else Step(Step(s, Poll(r)), TryLock(r))
    requires after == Step(Step(locked, Rebuild(r)), End(r, true))
    ensures after.views == s.committed && after.stored == Some(s.counted) && after.lock.None? && At(after, r).Idle?
  {
  }

  // ---- How soon a poll refreshes ----------------------------------------------------------------------------------------

  /** `ChangeTracker`. */
  class ChangeTracker {
    var seen: Option<int>
    var movedAt: real

    constructor ()
      ensures seen == None && movedAt == 0.0
    {
      seen, movedAt := None, 0.0;
    }

    method Observe(current: int, now: real) returns (still: real)
      modifies this
      ensures Tracked(seen, movedAt) == Observed(Tracked(old(seen), old(movedAt)), current, now)
      ensures still == now - movedAt
    {
      if Some(current) != seen {
        seen := Some(current);
        movedAt := now;
      }
      still := now - movedAt;
    }
  }

  /** What a tracker remembers. */
  datatype Tracked = Tracked(seen: Option<int>, movedAt: real)

  function Observed(t: Tracked, current: int, now: real): Tracked {
    if Some(current) != t.seen then Tracked(Some(current), now) else t
  }

  datatype Reason = Unpopulated | Quiet | Stale

  /** `refresh_reason`. */
  function RefreshReason(populated: bool, stored: Option<int>, age: Option<real>, current: int, still: real, quiet: real, maxStaleness: real): Option<Reason> {
    if !populated then Some(Unpopulated)
    else if stored == Some(current) then None
    else if still >= quiet then Some(Quiet)
    else if age.None? || age.value >= maxStaleness then Some(Stale)
    else None
  }

  /** One poll: its time, the watermark it reads, and the stored state's condition. */
  datatype Tick = Tick(at: real, current: int, populated: bool, age: Option<real>)

  datatype Poller = Poller(tracked: Tracked, stored: Option<int>)

  /** A poll that finds the lock free and whose refresh succeeds. */
  function PollOnce(p: Poller, t: Tick, quiet: real, maxStaleness: real): Poller {
    var tracked := Observed(p.tracked, t.current, t.at);
    var reason := RefreshReason(t.populated, p.stored, t.age, t.current, t.at - tracked.movedAt, quiet, maxStaleness);
    Poller(tracked, if reason.Some? then Some(t.current) else p.stored)
  }

  function Polls(p: Poller, ts: seq<Tick>, quiet: real, maxStaleness: real): Poller {
    if ts == [] then p else PollOnce(Polls(p, ts[..|ts| - 1], quiet, maxStaleness), ts[|ts| - 1], quiet, maxStaleness)
  }

  /** Once the sources hold still at `c`, from the poll `k` on: the tracker last moved no later
      than that poll, and never moves again. */
  lemma {:induction false} HoldsStill(p: Poller, ts: seq<Tick>, k: nat, n: nat, c: int, quiet: real, maxStaleness: real)
    requires k < n <= |ts| && (forall i :: k <= i < n ==> ts[i].current == c) && forall i :: 0 <= i < n - 1 ==> ts[i].at <= ts[i + 1].at
    requires p.tracked.movedAt <= ts[0].at
    ensures var q := Polls(p, ts[..n], quiet, maxStaleness); q.tracked.seen == Some(c) && q.tracked.movedAt <= ts[k].at
    decreases n
  {
    assert ts[..n][..n - 1] == ts[..n - 1];
    if n - 1 > k {
      HoldsStill(p, ts, k, n - 1, c, quiet, maxStaleness);
    } else {
      MovedBefore(p, ts, n, quiet, maxStaleness);
    }
  }

  lemma {:induction false} MovedBefore(p: Poller, ts: seq<Tick>, n: nat, quiet: real, maxStaleness: real)
    requires 0 < n <= |ts| && (forall i :: 0 <= i < n - 1 ==> ts[i].at <= ts[i + 1].at) && p.tracked.movedAt <= ts[0].at
    ensures Polls(p, ts[..n], quiet, maxStaleness).tracked.movedAt <= ts[n - 1].at
    decreases n
  {
    assert ts[..n][..n - 1] == ts[..n - 1];
    if n > 1 { MovedBefore(p, ts, n - 1, quiet, maxStaleness); }
  }

  /** The first poll at or after a time, with gaps of at most `gap`, comes at most one gap
      later. */
  lemma {:induction false} PollSoon(ts: seq<Tick>, from: nat, time: real, gap: real) returns (k: nat)
    requires from < |ts| && ts[from].at <= time <= ts[|ts| - 1].at && gap >= 0.0
    requires forall i :: 0 <= i < |ts| - 1 ==> ts[i].at <= ts[i + 1].at <= ts[i].at + gap
    ensures from <= k < |ts| && time <= ts[k].at <= time + gap
    decreases |ts| - from
  {
    if ts[from].at == time || from == |ts| - 1 {
      k := from;
    } else if ts[from + 1].at >= time {
      k := from + 1;
    } else {
      k := PollSoon(ts, from + 1, time, gap);
    }
  }

  /** With polls at most `gap` apart and refreshes that succeed, a lone poller has refreshed
      within the quiet interval and two gaps of the last write. */
  lemma RefreshedWithin(p: Poller, ts: seq<Tick>, last: real, c: int, gap: real, quiet: real, maxStaleness: real) returns (m: nat)
    requires ts != [] && gap >= 0.0 && quiet >= 0.0 && p.tracked.movedAt <= ts[0].at <= last
    requires forall i :: 0 <= i < |ts| - 1 ==> ts[i].at <= ts[i + 1].at <= ts[i].at + gap
    requires forall i :: 0 <= i < |ts| && ts[i].at >= last ==> ts[i].current == c
    requires ts[|ts| - 1].at >= last + quiet + 2.0 * gap
    ensures m < |ts| && last <= ts[m].at <= last + quiet + 2.0 * gap
    ensures Polls(p, ts[..m + 1], quiet, maxStaleness).stored == Some(c)
  {
    var k := PollSoon(ts, 0, last, gap);
    m := PollSoon(ts, k, ts[k].at + quiet, gap);
    Ordered(ts, k);
    HoldsStill(p, ts, k, m + 1, c, quiet, maxStaleness);
    assert ts[..m + 1][..m] == ts[..m];
  }

  lemma {:induction false} OrderedUp(ts: seq<Tick>, k: nat, i: nat)
    requires k <= i < |ts| && forall j :: 0 <= j < |ts| - 1 ==> ts[j].at <= ts[j + 1].at
    ensures ts[k].at <= ts[i].at
    decreases i
  {
    if i > k { OrderedUp(ts, k, i - 1); }
  }

  lemma Ordered(ts: seq<Tick>, k: nat)
    requires k < |ts| && forall j :: 0 <= j < |ts| - 1 ==> ts[j].at <= ts[j + 1].at
    ensures forall i :: k <= i < |ts| ==> ts[k].at <= ts[i].at
  {
    forall i | k <= i < |ts| ensures ts[k].at <= ts[i].at { OrderedUp(ts, k, i); }
  }

  // ---- Polls on the beat ---------------------------------------------------------------------------------------------------

  /** The time of the `i`th beat. */
  function BeatAt(i: nat, gap: real): real {
    if i == 0 then 0.0 else BeatAt(i - 1, gap) + gap
  }

  /** The `i`th poll of a poller that polls exactly every `gap`; the one write comes at `last`,
      and the stored refresh is never old enough to be stale. */
  function BeatTick(i: nat, gap: real, last: real, before: int, after: int): Tick {
    var at := BeatAt(i, gap);
    Tick(at, if at >= last then after else before, true, Some(0.0))
  }

  function BeatPolls(n: nat, gap: real, last: real, before: int, after: int, quiet: real, maxStaleness: real): Poller {
    if n == 0 then Poller(Tracked(Some(before), 0.0), Some(before))
    else PollOnce(BeatPolls(n - 1, gap, last, before, after, quiet, maxStaleness), BeatTick(n - 1, gap, last, before, after), quiet, maxStaleness)
  }

  lemma {:induction false} BeatsAdd(i: nat, j: nat, gap: real)
    ensures BeatAt(i + j, gap) == BeatAt(i, gap) + BeatAt(j, gap)
    decreases j
  {
    if j > 0 { BeatsAdd(i, j - 1, gap); }
  }

  lemma {:induction false} BeatTimes(n: nat, gap: real)
    ensures BeatAt(n, gap) == n as real * gap
  {
    if n > 0 {
      BeatTimes(n - 1, gap);
      OneMore((n - 1) as real, n as real, gap);
    }
  }

  lemma OneMore(a: real, b: real, gap: real)
    requires b == a + 1.0
    ensures b * gap == a * gap + gap
  {
  }

  lemma {:induction false} BeatsGrow(i: nat, j: nat, gap: real)
    requires gap > 0.0
    ensures i <= j ==> BeatAt(i, gap) <= BeatAt(j, gap)
    ensures i < j ==> BeatAt(i, gap) < BeatAt(j, gap)
    decreases j
  {
    if i < j { BeatsGrow(i, j - 1, gap); }
  }

  /** Poll `k` is the first at or after the write. */
  predicate FirstAfter(k: nat, gap: real, last: real) {
    k > 0 && BeatAt(k - 1, gap) < last <= BeatAt(k, gap)
  }

  /** `n` beats are the fewest that make up the quiet interval. */
  predicate FewestBeats(n: nat, gap: real, quiet: real) {
    quiet <= BeatAt(n, gap) && (n > 0 ==> BeatAt(n - 1, gap) < quiet)
  }

  lemma BeatReads(i: nat, k: nat, gap: real, last: real, before: int, after: int)
    requires gap > 0.0 && FirstAfter(k, gap, last)
    ensures BeatTick(i, gap, last, before, after).current == if i < k then before else after
  {
    if i < k { BeatsGrow(i, k - 1, gap); } else { BeatsGrow(k, i, gap); }
  }

  lemma {:induction false} BeforeWrite(j: nat, k: nat, gap: real, last: real, before: int, after: int, quiet: real, maxStaleness: real)
    requires gap > 0.0 && FirstAfter(k, gap, last) && j <= k && before != after
    ensures BeatPolls(j, gap, last, before, after, quiet, maxStaleness) == Poller(Tracked(Some(before), 0.0), Some(before))
  {
    if j > 0 {
      BeforeWrite(j - 1, k, gap, last, before, after, quiet, maxStaleness);
      BeatReads(j - 1, k, gap, last, before, after);
    }
  }

  /** A poll at `at` of a source that has read `after` since `moved`. */
  lemma PollAfter(p: Poller, t: Tick, moved: real, before: int, after: int, quiet: real, maxStaleness: real)
    requires t.current == after && t.populated && t.age == Some(0.0) && maxStaleness > 0.0 && before != after && p.stored == Some(before)
    requires Observed(p.tracked, after, t.at) == Tracked(Some(after), moved)
    ensures PollOnce(p, t, quiet, maxStaleness) == Poller(Tracked(Some(after), moved), if t.at - moved >= quiet then Some(after) else Some(before))
  {
  }

  lemma Waited(j: nat, k: nat, n: nat, gap: real, quiet: real)
    requires gap > 0.0 && FewestBeats(n, gap, quiet) && j <= n
    ensures BeatAt(k + j, gap) - BeatAt(k, gap) >= quiet <==> j == n
  {
    BeatsAdd(k, j, gap);
    if j < n { BeatsGrow(j, n - 1, gap); }
  }

  /** Until the quiet interval has passed since poll `k`, nothing is refreshed; at poll `k + n`
      it is. */
  lemma {:induction false} BeatRefresh(j: nat, k: nat, n: nat, gap: real, last: real, before: int, after: int, quiet: real, maxStaleness: real)
    requires gap > 0.0 && FirstAfter(k, gap, last) && FewestBeats(n, gap, quiet) && j <= n && before != after && maxStaleness > 0.0
    ensures BeatPolls(k + j + 1, gap, last, before, after, quiet, maxStaleness)
            == Poller(Tracked(Some(after), BeatAt(k, gap)), if j == n then Some(after) else Some(before))
    decreases j
  {
    BeatReads(k + j, k, gap, last, before, after);
    Waited(j, k, n, gap, quiet);
    var t := BeatTick(k + j, gap, last, before, after);
    if j == 0 {
      BeforeWrite(k, k, gap, last, before, after, quiet, maxStaleness);
      PollAfter(BeatPolls(k, gap, last, before, after, quiet, maxStaleness), t, BeatAt(k, gap), before, after, quiet, maxStaleness);
    } else {
      BeatRefresh(j - 1, k, n, gap, last, before, after, quiet, maxStaleness);
      PollAfter(BeatPolls(k + j, gap, last, before, after, quiet, maxStaleness), t, BeatAt(k, gap), before, after, quiet, maxStaleness);
    }
  }

  /** No poll before poll `k + n` leaves the write refreshed. */
  lemma NotBefore(m: nat, k: nat, n: nat, gap: real, last: real, before: int, after: int, quiet: real, maxStaleness: real)
    requires gap > 0.0 && FirstAfter(k, gap, last) && FewestBeats(n, gap, quiet) && before != after && maxStaleness > 0.0
    requires BeatPolls(m + 1, gap, last, before, after, quiet, maxStaleness).stored == Some(after)
    ensures m >= k + n
  {
    if m < k {
      BeforeWrite(m + 1, k, gap, last, before, after, quiet, maxStaleness);
    } else if m < k + n {
      BeatRefresh(m - k, k, n, gap, last, before, after, quiet, maxStaleness);
    }
  }

  /** Poll `m` comes by the time `limit` and leaves the write refreshed. */
  predicate RefreshesBy(m: nat, limit: real, gap: real, last: real, before: int, after: int, quiet: real, maxStaleness: real) {
    var holds := BeatAt(m, gap) <= limit && BeatPolls(m + 1, gap, last, before, after, quiet, maxStaleness).stored == Some(after);
    holds
  }

  ghost predicate RefreshedBy(limit: real, gap: real, last: real, before: int, after: int, quiet: real, maxStaleness: real) {
    exists m: nat :: RefreshesBy(m, limit, gap, last, before, after, quiet, maxStaleness)
  }

  /** The first poll that can do it is poll `k + n`, and it does. */
  lemma RefreshesAfter(m: nat, limit: real, k: nat, n: nat, gap: real, last: real, before: int, after: int, quiet: real, maxStaleness: real)
    requires gap > 0.0 && FirstAfter(k, gap, last) && FewestBeats(n, gap, quiet) && before != after && maxStaleness > 0.0
    requires RefreshesBy(m, limit, gap, last, before, after, quiet, maxStaleness)
    ensures BeatAt(k + n, gap) <= limit
  {
    NotBefore(m, k, n, gap, last, before, after, quiet, maxStaleness);
    BeatsGrow(k + n, m, gap);
  }

  lemma RefreshesAt(m: nat, limit: real, k: nat, n: nat, gap: real, last: real, before: int, after: int, quiet: real, maxStaleness: real)
    requires gap > 0.0 && FirstAfter(k, gap, last) && FewestBeats(n, gap, quiet) && before != after && maxStaleness > 0.0
    requires m == k + n && BeatAt(m, gap) <= limit
    ensures RefreshesBy(m, limit, gap, last, before, after, quiet, maxStaleness)
  {
    BeatRefresh(n, k, n, gap, last, before, after, quiet, maxStaleness);
  }

  /** A write is refreshed by the time `limit` exactly when poll `k + n` comes by then. */
  lemma RefreshedByIff(limit: real, k: nat, n: nat, gap: real, last: real, before: int, after: int, quiet: real, maxStaleness: real)
    requires gap > 0.0 && FirstAfter(k, gap, last) && FewestBeats(n, gap, quiet) && before != after && maxStaleness > 0.0
    ensures RefreshedBy(limit, gap, last, before, after, quiet, maxStaleness) <==> BeatAt(k + n, gap) <= limit
  {
    if BeatAt(k + n, gap) <= limit { RefreshesAt(k + n, limit, k, n, gap, last, before, after, quiet, maxStaleness); }
    if RefreshedBy(limit, gap, last, before, after, quiet, maxStaleness) {
      var m: nat :| RefreshesBy(m, limit, gap, last, before, after, quiet, maxStaleness);
      RefreshesAfter(m, limit, k, n, gap, last, before, after, quiet, maxStaleness);
    }
  }

  /** Every write is refreshed within the quiet interval and one gap. */
  ghost predicate WithinOneGap(gap: real, before: int, after: int, quiet: real, maxStaleness: real) {
    forall k: nat, last: real :: FirstAfter(k, gap, last) ==> RefreshedBy(last + quiet + gap, gap, last, before, after, quiet, maxStaleness)
  }

  /** For polls on the beat, one gap is enough exactly when the quiet interval is a whole number
      of gaps. */
  lemma OneGapIff(n: nat, gap: real, before: int, after: int, quiet: real, maxStaleness: real)
    requires gap > 0.0 && quiet >= 0.0 && FewestBeats(n, gap, quiet) && before != after && maxStaleness > 0.0
    ensures WithinOneGap(gap, before, after, quiet, maxStaleness) <==> n as real * gap == quiet
  {
    BeatTimes(n, gap);
    if BeatAt(n, gap) == quiet {
      forall k: nat, last: real | FirstAfter(k, gap, last)
        ensures RefreshedBy(last + quiet + gap, gap, last, before, after, quiet, maxStaleness)
      {
        RefreshedByIff(last + quiet + gap, k, n, gap, last, before, after, quiet, maxStaleness);
        BeatsAdd(k, n, gap);
      }
    } else {
      var last := LateWrite(n, gap, quiet);
      RefreshedByIff(last + quiet + gap, 1, n, gap, last, before, after, quiet, maxStaleness);
    }
  }

  /** A write just after poll 0, when the quiet interval ends between two polls. */
  lemma LateWrite(n: nat, gap: real, quiet: real) returns (last: real)
    requires gap > 0.0 && quiet >= 0.0 && FewestBeats(n, gap, quiet) && BeatAt(n, gap) != quiet
    ensures FirstAfter(1, gap, last) && BeatAt(1 + n, gap) > last + quiet + gap
  {
    last := (BeatAt(n, gap) - quiet) / 2.0;
    BeatsAdd(1, n, gap);
    assert BeatAt(1, gap) == BeatAt(0, gap) + gap;
  }
}
