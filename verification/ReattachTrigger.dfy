/** Automatic re-attachment after a Discogs extraction, across replicas that crash and lose
    their lock session (api/reattach_trigger.py, `pending_extraction` and `run_pending`). */
module ReattachTrigger {
  import opened Seqs

  type Replica = nat
  type Session = nat
  type Job = nat
  type Version = nat

  datatype AuditAction = Started | Handled | FailedRun

  datatype Entry = Entry(action: AuditAction, target: Version)

  /** Where a replica is inside `run_pending`. */
  datatype Phase =
    | Idle
    | Checked                              // the pre-check found something pending
    | Locked                               // the advisory lock is taken on this session
    | Read(version: Version)               // the newest version, re-read under the lock
    | Unhandled(version: Version)          // no marker for it
    | Begun(version: Version, job: Job)    // the audit row is written
    | Attached(version: Version, job: Job) // the re-attachment finished
    | Projected(version: Version, job: Job)
    | Leaving                              // only the unlock remains

  datatype Proc = Proc(phase: Phase, session: Session)

  /** When a job's work happened. */
  datatype Work = Work(version: Version, begun: nat, attached: Option<nat>, projected: Option<nat>)

  /** The shared database, the replicas, and a history of the jobs. Every step advances `now`. */
  datatype State = State(
    now: nat,
    completed: map<Version, nat>,
    created: map<Version, nat>,
    newest: Option<Version>,
    audit: map<Job, Entry>,
    refs: set<Job>,
    lock: Option<Session>,
    alive: set<Session>,
    procs: map<Replica, Proc>,
    works: map<Job, Work>)

  datatype Act =
    | Complete(v: Version, created: nat) // an extraction whose latch row is from `created` completes
    | Enter(r: Replica)      // poll: connect and pre-check
    | TryLock(r: Replica)
    | ReadNewest(r: Replica)
    | CheckHandled(r: Replica)
    | Begin(r: Replica)
    | Write(r: Replica)      // one item re-attached under the job's decision_ref
    | FinishAttach(r: Replica)
    | FailJob(r: Replica)    // either job raised
    | FinishProject(r: Replica)
    | Mark(r: Replica)
    | Unlock(r: Replica)
    | Crash(r: Replica)
    | LoseSession(x: Session)

  ghost predicate IsHandled(s: State, v: Version) {
    exists j :: j in s.audit && s.audit[j] == Entry(Handled, v)
  }

  function SetPhase(s: State, r: Replica, p: Phase): State
    requires r in s.procs
  {
    s.(procs := s.procs[r := s.procs[r].(phase := p)])
  }

  /** A session that ends drops the lock it holds. */
  function EndSession(s: State, x: Session): State {
    s.(alive := s.alive - {x}, lock := if s.lock == Some(x) then None else s.lock)
  }

  ghost function FreshSession(s: State): (x: Session)
    ensures x !in s.alive && forall r :: r in s.procs ==> s.procs[r].session != x
  {
    var used := s.alive + (set r | r in s.procs :: s.procs[r].session);
    FreshExists(used);
    var x :| x !in used;
    x
  }

  ghost function FreshJob(s: State): (j: Job)
    ensures j !in s.audit && j !in s.works
  {
    FreshExists(s.audit.Keys + s.works.Keys);
    var j :| j !in s.audit.Keys + s.works.Keys;
    j
  }

  /** A replica whose statement needs its own connection, and has it. */
  predicate Connected(s: State, r: Replica) {
    r in s.procs && s.procs[r].session in s.alive
  }

  predicate At(s: State, r: Replica, p: Phase) {
    r in s.procs && s.procs[r].phase == p
  }

  function Tick(s: State): State { s.(now := s.now + 1) }

  predicate In(s: State, r: Replica) { r in s.procs }

  /** The order of `_LATEST_COMPLETE`: by creation, then by version. */
  predicate Older(created: map<Version, nat>, v: Version, w: Version)
    requires v in created && w in created
  {
    created[v] < created[w] || (created[v] == created[w] && v <= w)
  }

  /** A straggler that completes an older extraction does not displace the newest. */
  function DoComplete(s: State, v: Version, at: nat): State {
    if v in s.completed then s
    else
      var created := s.created[v := at];
      var superseded := s.newest.Some? && s.newest.value in created && Older(created, v, s.newest.value);
      s.(completed := s.completed[v := s.now], created := created, newest := if superseded then s.newest else Some(v))
  }

  /** Connect and look for a pending extraction before taking the lock. */
  ghost function DoEnter(s: State, r: Replica): State {
    if (In(s, r) && !s.procs[r].phase.Idle?) || s.newest.None? || IsHandled(s, s.newest.value) then s
    else var x := FreshSession(s); s.(alive := s.alive + {x}, procs := s.procs[r := Proc(Checked, x)])
  }

  function DoLock(s: State, r: Replica): State {
    if !At(s, r, Checked) then s
    else if Connected(s, r) && s.lock.None? then SetPhase(s, r, Locked).(lock := Some(s.procs[r].session))
    else Leave(s, r)
  }

  /** `pending_extraction` again, under the lock: the newest version, then its marker. */
  function DoRead(s: State, r: Replica): State {
    if !At(s, r, Locked) then s
    else if Connected(s, r) && s.newest.Some? then SetPhase(s, r, Read(s.newest.value))
    else SetPhase(s, r, Leaving)
  }

  ghost function DoCheck(s: State, r: Replica): State {
    if !In(s, r) || !s.procs[r].phase.Read? then s
    else if Connected(s, r) && !IsHandled(s, s.procs[r].phase.version) then SetPhase(s, r, Unhandled(s.procs[r].phase.version))
    else SetPhase(s, r, Leaving)
  }

  /** The audit row, on the lock's session, before any identity write. */
  ghost function DoBegin(s: State, r: Replica): State {
    if !In(s, r) || !s.procs[r].phase.Unhandled? then s
    else if !Connected(s, r) then SetPhase(s, r, Leaving)
    else
      var v, j := s.procs[r].phase.version, FreshJob(s);
      SetPhase(s, r, Begun(v, j)).(audit := s.audit[j := Entry(Started, v)], works := s.works[j := Work(v, s.now, None, None)])
  }

  /** One item re-attached, on another connection, under the job's decision_ref. */
  function DoWrite(s: State, r: Replica): State {
    if !In(s, r) || !s.procs[r].phase.Begun? then s else s.(refs := s.refs + {s.procs[r].phase.job})
  }

  function DoAttach(s: State, r: Replica): State {
    if !In(s, r) || !s.procs[r].phase.Begun? || s.procs[r].phase.job !in s.works then s
    else
      var v, j := s.procs[r].phase.version, s.procs[r].phase.job;
      SetPhase(s, r, Attached(v, j)).(works := s.works[j := s.works[j].(attached := Some(s.now))])
  }

  /** Either job raised: the entry is finalized on another connection. */
  function DoFail(s: State, r: Replica): State {
    if !In(s, r) || !(s.procs[r].phase.Begun? || s.procs[r].phase.Attached?) then s
    else
      var v, j := s.procs[r].phase.version, s.procs[r].phase.job;
      SetPhase(s, r, Leaving).(audit := if j in s.audit then s.audit[j := Entry(FailedRun, v)] else s.audit)
  }

  function DoProject(s: State, r: Replica): State {
    if !In(s, r) || !s.procs[r].phase.Attached? || s.procs[r].phase.job !in s.works then s
    else
      var v, j := s.procs[r].phase.version, s.procs[r].phase.job;
      SetPhase(s, r, Projected(v, j)).(works := s.works[j := s.works[j].(projected := Some(s.now))])
  }

  /** The handled marker, written on the lock's session: refused if that session is gone. */
  function DoMark(s: State, r: Replica): State {
    if !In(s, r) || !s.procs[r].phase.Projected? then s
    else if !Connected(s, r) then SetPhase(s, r, Leaving)
    else
      var v, j := s.procs[r].phase.version, s.procs[r].phase.job;
      SetPhase(s, r, Leaving).(audit := if j in s.audit then s.audit[j := Entry(Handled, v)] else s.audit)
  }

  /** The connection closes and, with it, the lock goes. */
  function Leave(s: State, r: Replica): State
    requires In(s, r)
  {
    SetPhase(EndSession(s, s.procs[r].session), r, Idle)
  }

  /** One step. An act that is not enabled changes nothing but the time. */
  ghost function Apply(s0: State, a: Act): State {
    var s := Tick(s0);
    match a
    case Complete(v, at) => DoComplete(s, v, at)
    case Enter(r) => DoEnter(s, r)
    case TryLock(r) => DoLock(s, r)
    case ReadNewest(r) => DoRead(s, r)
    case CheckHandled(r) => DoCheck(s, r)
    case Begin(r) => DoBegin(s, r)
    case Write(r) => DoWrite(s, r)
    case FinishAttach(r) => DoAttach(s, r)
    case FailJob(r) => DoFail(s, r)
    case FinishProject(r) => DoProject(s, r)
    case Mark(r) => DoMark(s, r)
    case Unlock(r) => if At(s, r, Leaving) then Leave(s, r) else s
    case Crash(r) => if In(s, r) then Leave(s, r) else s
    case LoseSession(x) => EndSession(s, x)
  }

  ghost function Run(s: State, acts: seq<Act>): State {
    if acts == [] then s else Apply(Run(s, acts[..|acts| - 1]), acts[|acts| - 1])
  }

  predicate Initial(s: State) {
    s.completed == map[] && s.created == map[] && s.newest.None? && s.audit == map[] && s.refs == {} && s.lock.None? && s.alive == {} && s.procs == map[] && s.works == map[]
  }

  // ---- The invariant ----------------------------------------------------------------------------------------------

  predicate HasVersion(p: Phase) { p.Read? || p.Unhandled? || HasJob(p) }

  predicate HasJob(p: Phase) { p.Begun? || p.Attached? || p.Projected? }

  predicate PastLock(p: Phase) { !p.Idle? && !p.Checked? }

  /** The work a job in this phase has behind it, all of it after its extraction completed. */
  ghost predicate JobOk(s: State, p: Phase)
    requires HasJob(p)
  {
    && p.job in s.audit && s.audit[p.job] == Entry(Started, p.version) && p.job in s.works && p.version in s.completed
    && WorkOk(s.works[p.job], p.version, s.completed[p.version], p.Attached? || p.Projected?, p.Projected?)
  }

  /** Begun after its extraction completed, then re-attached, then projected. */
  predicate WorkOk(w: Work, v: Version, completed: nat, attached: bool, projected: bool) {
    && w.version == v && completed < w.begun
    && (attached ==> w.attached.Some? && w.begun < w.attached.value)
    && (projected ==> w.attached.Some? && w.projected.Some? && w.attached.value < w.projected.value)
  }

  predicate WorkBefore(w: Work, t: nat) {
    w.begun < t && (w.attached.Some? ==> w.attached.value < t) && (w.projected.Some? ==> w.projected.value < t)
  }

  ghost predicate ProcOk(s: State, r: Replica)
    requires r in s.procs
  {
    var p := s.procs[r];
    && (PastLock(p.phase) && p.session in s.alive ==> s.lock == Some(p.session))
    && (HasVersion(p.phase) ==> p.phase.version in s.completed)
    && ((p.phase.Unhandled? || HasJob(p.phase)) && p.session in s.alive ==> !IsHandled(s, p.phase.version))
    && (HasJob(p.phase) ==> JobOk(s, p.phase))
  }

  /** Replicas at work have sessions and jobs of their own. */
  predicate Apart(a: Proc, b: Proc) {
    !a.phase.Idle? && !b.phase.Idle? ==> a.session != b.session && (HasJob(a.phase) && HasJob(b.phase) ==> a.phase.job != b.phase.job)
  }

  /** A marker has a whole re-attachment, then a whole projection, behind it, begun after its
      extraction completed. */
  ghost predicate MarkerOk(s: State, j: Job)
    requires j in s.audit
  {
    s.audit[j].action.Handled? ==>
      j in s.works && s.audit[j].target in s.completed && WorkOk(s.works[j], s.audit[j].target, s.completed[s.audit[j].target], true, true)
  }

  ghost predicate OneMarker(s: State) {
    forall i, j :: i in s.audit && j in s.audit && s.audit[i].action.Handled? && s.audit[i] == s.audit[j] ==> i == j
  }

  ghost predicate ProcsOk(s: State) { forall r :: r in s.procs ==> ProcOk(s, r) }

  ghost predicate AllApart(s: State) {
    forall q, r :: q in s.procs && r in s.procs && q != r ==> Apart(s.procs[q], s.procs[r])
  }

  ghost predicate Records(s: State) {
    && (forall j :: j in s.audit ==> MarkerOk(s, j)) && OneMarker(s) && s.refs <= s.audit.Keys
    && (s.newest.Some? ==> s.newest.value in s.completed)
  }

  /** Everything recorded so far is in the past. */
  ghost predicate Past(s: State, t: nat) {
    var holds := (forall v :: v in s.completed ==> s.completed[v] < t) && (forall j :: j in s.works ==> WorkBefore(s.works[j], t));
    holds
  }

  ghost predicate Safe(s: State) {
    var holds := ProcsOk(s) && AllApart(s) && Records(s);
    holds
  }

  lemma TickKeeps(s: State)
    requires Safe(s) && Past(s, s.now + 1)
    ensures Safe(Tick(s)) && Past(Tick(s), Tick(s).now)
  {
    var s' := Tick(s);
    forall r | r in s'.procs ensures ProcOk(s', r) { assert ProcOk(s, r); }
    forall j | j in s'.audit ensures MarkerOk(s', j) { assert MarkerOk(s, j); }
  }

  lemma CompleteKeeps(s: State, v: Version, at: nat)
    requires Safe(s) && Past(s, s.now)
    ensures Safe(DoComplete(s, v, at)) && Past(DoComplete(s, v, at), s.now + 1)
  {
    var s' := DoComplete(s, v, at);
    forall r | r in s'.procs ensures ProcOk(s', r) { assert ProcOk(s, r); }
    forall j | j in s'.audit ensures MarkerOk(s', j) { assert MarkerOk(s, j); }
  }

  lemma EnterKeeps(s: State, r: Replica)
    requires Safe(s) && Past(s, s.now)
    ensures Safe(DoEnter(s, r)) && Past(DoEnter(s, r), s.now + 1)
  {
    var s' := DoEnter(s, r);
    forall q | q in s'.procs ensures ProcOk(s', q) { if q in s.procs { assert ProcOk(s, q); } }
    forall j | j in s'.audit ensures MarkerOk(s', j) { assert MarkerOk(s, j); }
  }

  /** Moving one replica within the protocol, or out of it, when nothing is recorded. */
  lemma MoveKeeps(s: State, s': State, r: Replica)
    requires Safe(s) && r in s.procs && r in s'.procs && s' == s.(procs := s.procs[r := s'.procs[r]], lock := s'.lock, alive := s'.alive)
    requires s'.alive <= s.alive && s'.procs[r].session == s.procs[r].session
    requires forall q :: q in s.procs && q != r && s.procs[q].session in s'.alive && PastLock(s.procs[q].phase) ==> s'.lock == s.lock
    requires HasJob(s'.procs[r].phase) ==> s'.procs[r].phase == s.procs[r].phase
    requires !s'.procs[r].phase.Idle? ==> !s.procs[r].phase.Idle?
    requires ProcOk(s', r)
    ensures Safe(s')
  {
    forall q | q in s'.procs ensures ProcOk(s', q) { if q != r { assert ProcOk(s, q); } }
    forall j | j in s'.audit ensures MarkerOk(s', j) { assert MarkerOk(s, j); }
  }

  lemma LeaveKeeps(s: State, r: Replica)
    requires Safe(s) && r in s.procs
    ensures Safe(Leave(s, r))
  {
    var s' := Leave(s, r);
    forall q | q in s.procs && q != r && s.procs[q].session in s'.alive && PastLock(s.procs[q].phase) ensures s'.lock == s.lock { assert ProcOk(s, q); }
    MoveKeeps(s, s', r);
  }

  lemma NoneHolds(s: State)
    requires ProcsOk(s) && s.lock.None?
    ensures forall q :: q in s.procs && PastLock(s.procs[q].phase) ==> s.procs[q].session !in s.alive
  {
    forall q | q in s.procs && PastLock(s.procs[q].phase) ensures s.procs[q].session !in s.alive { assert ProcOk(s, q); }
  }

  lemma LockKeeps(s: State, r: Replica)
    requires Safe(s)
    ensures Safe(DoLock(s, r))
  {
    if At(s, r, Checked) {
      if Connected(s, r) && s.lock.None? {
        NoneHolds(s);
        MoveKeeps(s, DoLock(s, r), r);
      } else {
        LeaveKeeps(s, r);
      }
    }
  }

  lemma ReadKeeps(s: State, r: Replica)
    requires Safe(s)
    ensures Safe(DoRead(s, r))
  {
    if At(s, r, Locked) {
      assert ProcOk(s, r);
      MoveKeeps(s, DoRead(s, r), r);
    }
  }

  lemma CheckKeeps(s: State, r: Replica)
    requires Safe(s)
    ensures Safe(DoCheck(s, r))
  {
    if In(s, r) && s.procs[r].phase.Read? {
      assert ProcOk(s, r);
      CheckedOk(s, r);
      MoveKeeps(s, DoCheck(s, r), r);
    }
  }

  lemma SameHandled(s: State, s': State, v: Version)
    requires s'.audit == s.audit
    ensures IsHandled(s', v) <==> IsHandled(s, v)
  {
  }

  lemma CheckedOk(s: State, r: Replica)
    requires In(s, r) && s.procs[r].phase.Read? && ProcOk(s, r)
    ensures ProcOk(DoCheck(s, r), r)
  {
    SameHandled(s, DoCheck(s, r), s.procs[r].phase.version);
  }

  lemma LoseKeeps(s: State, x: Session)
    requires Safe(s)
    ensures Safe(EndSession(s, x))
  {
    var s' := EndSession(s, x);
    forall q | q in s'.procs ensures ProcOk(s', q) { assert ProcOk(s, q); }
    forall j | j in s'.audit ensures MarkerOk(s', j) { assert MarkerOk(s, j); }
  }

  lemma WriteKeeps(s: State, r: Replica)
    requires Safe(s)
    ensures Safe(DoWrite(s, r))
  {
    var s' := DoWrite(s, r);
    forall q | q in s'.procs ensures ProcOk(s', q) { assert ProcOk(s, q); }
    forall j | j in s'.audit ensures MarkerOk(s', j) { assert MarkerOk(s, j); }
  }

  /** A record under a replica's own job leaves the others as they were. */
  lemma RecordKeepsOther(s: State, s': State, r: Replica, j: Job, q: Replica)
    requires q in s.procs && q in s'.procs && q != r && ProcOk(s, q) && s'.procs[q] == s.procs[q]
    requires s'.completed == s.completed && s'.lock == s.lock && s'.alive == s.alive
    requires forall i :: i in s.audit && i != j ==> i in s'.audit && s'.audit[i] == s.audit[i]
    requires forall i :: i in s.works && i != j ==> i in s'.works && s'.works[i] == s.works[i]
    requires HasJob(s.procs[q].phase) ==> s.procs[q].phase.job != j
    requires HasVersion(s.procs[q].phase) && s.procs[q].session in s.alive && IsHandled(s', s.procs[q].phase.version) ==> IsHandled(s, s.procs[q].phase.version)
    ensures ProcOk(s', q)
  {
  }

  lemma RecordKeepsMarkers(s: State, s': State, j: Job)
    requires Records(s) && s'.completed == s.completed && s'.newest == s.newest && s'.refs == s.refs && j in s'.audit
    requires s'.audit.Keys == s.audit.Keys + {j} && forall i :: i in s.audit && i != j ==> s'.audit[i] == s.audit[i]
    requires forall i :: i in s.works && i != j ==> i in s'.works && s'.works[i] == s.works[i]
    requires MarkerOk(s', j) && (s'.audit[j].action.Handled? ==> forall i :: i in s.audit && i != j ==> s.audit[i] != s'.audit[j])
    ensures Records(s')
  {
    forall i | i in s'.audit ensures MarkerOk(s', i) { if i != j { assert MarkerOk(s, i); } }
  }

  lemma NotNewlyHandled(s: State, s': State, j: Job, v: Version)
    requires j in s'.audit && !s'.audit[j].action.Handled? && forall i :: i in s'.audit && i != j ==> i in s.audit && s'.audit[i] == s.audit[i]
    ensures IsHandled(s', v) ==> IsHandled(s, v)
  {
  }

  /** A step by `r` that records something other than a marker under its job `j`. */
  lemma RecordKeeps(s: State, s': State, r: Replica, j: Job)
    requires Safe(s) && r in s.procs && r in s'.procs && s'.procs == s.procs[r := s'.procs[r]] && s'.procs[r].session == s.procs[r].session
    requires s' == s.(procs := s'.procs, audit := s'.audit, works := s'.works) && j in s'.audit && !s'.audit[j].action.Handled? && !s.procs[r].phase.Idle?
    requires s'.audit.Keys == s.audit.Keys + {j} && forall i :: i in s.audit && i != j ==> s'.audit[i] == s.audit[i]
    requires forall i :: i in s.works && i != j ==> i in s'.works && s'.works[i] == s.works[i]
    requires forall q :: q in s.procs && q != r && HasJob(s.procs[q].phase) ==> s.procs[q].phase.job != j
    requires HasJob(s'.procs[r].phase) ==> s'.procs[r].phase.job == j
    requires ProcOk(s', r)
    ensures Safe(s')
  {
    RecordKeepsMarkers(s, s', j);
    forall q | q in s'.procs ensures ProcOk(s', q) {
      if q != r {
        assert ProcOk(s, q);
        if HasVersion(s.procs[q].phase) { NotNewlyHandled(s, s', j, s.procs[q].phase.version); }
        RecordKeepsOther(s, s', r, j, q);
      }
    }
  }

  /** The new job has its audit row and its work behind it. */
  lemma BegunOk(s: State, r: Replica)
    requires Connected(s, r) && s.procs[r].phase.Unhandled? && ProcOk(s, r) && Past(s, s.now)
    ensures ProcOk(DoBegin(s, r), r)
  {
    var s' := DoBegin(s, r);
    NotNewlyHandled(s, s', s'.procs[r].phase.job, s.procs[r].phase.version);
  }

  lemma BeginPast(s: State, r: Replica)
    requires Past(s, s.now)
    ensures Past(DoBegin(s, r), s.now + 1)
  {
  }

  lemma BeginRecords(s: State, r: Replica, s': State)
    requires Safe(s) && Past(s, s.now) && Connected(s, r) && s.procs[r].phase.Unhandled? && s' == DoBegin(s, r)
    ensures Safe(s')
  {
    assert ProcOk(s, r);
    BegunOk(s, r);
    JobsAreRecorded(s);
    RecordKeeps(s, s', r, s'.procs[r].phase.job);
  }

  lemma BeginKeeps(s: State, r: Replica)
    requires Safe(s) && Past(s, s.now)
    ensures Safe(DoBegin(s, r)) && Past(DoBegin(s, r), s.now + 1)
  {
    var s' := DoBegin(s, r);
    BeginPast(s, r);
    if In(s, r) && s.procs[r].phase.Unhandled? {
      if Connected(s, r) {
        BeginRecords(s, r, s');
      } else {
        assert ProcOk(s, r);
        MoveKeeps(s, s', r);
      }
    }
  }

  lemma JobsAreRecorded(s: State)
    requires ProcsOk(s)
    ensures forall q :: q in s.procs && HasJob(s.procs[q].phase) ==> s.procs[q].phase.job in s.audit
  {
    forall q | q in s.procs && HasJob(s.procs[q].phase) ensures s.procs[q].phase.job in s.audit { assert ProcOk(s, q); }
  }

  /** A replica's job is its own. */
  lemma OwnJob(s: State, r: Replica)
    requires AllApart(s) && r in s.procs && HasJob(s.procs[r].phase)
    ensures forall q :: q in s.procs && q != r && HasJob(s.procs[q].phase) ==> s.procs[q].phase.job != s.procs[r].phase.job
  {
    forall q | q in s.procs && q != r && HasJob(s.procs[q].phase) ensures s.procs[q].phase.job != s.procs[r].phase.job {
      assert Apart(s.procs[q], s.procs[r]);
    }
  }

  lemma AttachKeeps(s: State, r: Replica)
    requires Safe(s) && Past(s, s.now)
    ensures Safe(DoAttach(s, r)) && Past(DoAttach(s, r), s.now + 1)
  {
    var s' := DoAttach(s, r);
    if In(s, r) && s.procs[r].phase.Begun? && s.procs[r].phase.job in s.works {
      assert ProcOk(s, r);
      OwnJob(s, r);
      SameHandled(s, s', s.procs[r].phase.version);
      RecordKeeps(s, s', r, s.procs[r].phase.job);
    }
  }

  lemma ProjectKeeps(s: State, r: Replica)
    requires Safe(s) && Past(s, s.now)
    ensures Safe(DoProject(s, r)) && Past(DoProject(s, r), s.now + 1)
  {
    var s' := DoProject(s, r);
    if In(s, r) && s.procs[r].phase.Attached? && s.procs[r].phase.job in s.works {
      assert ProcOk(s, r);
      OwnJob(s, r);
      SameHandled(s, s', s.procs[r].phase.version);
      RecordKeeps(s, s', r, s.procs[r].phase.job);
    }
  }

  lemma FailKeeps(s: State, r: Replica)
    requires Safe(s)
    ensures Safe(DoFail(s, r))
  {
    var s' := DoFail(s, r);
    if In(s, r) && (s.procs[r].phase.Begun? || s.procs[r].phase.Attached?) {
      assert ProcOk(s, r);
      OwnJob(s, r);
      RecordKeeps(s, s', r, s.procs[r].phase.job);
    }
  }

  /** Only the lock's holder is past the lock with a live session. */
  lemma OneHolder(s: State, r: Replica, q: Replica)
    requires Safe(s) && r in s.procs && q in s.procs && q != r && PastLock(s.procs[r].phase) && PastLock(s.procs[q].phase) && s.procs[r].session in s.alive
    ensures s.procs[q].session !in s.alive
  {
    assert ProcOk(s, r) && ProcOk(s, q) && Apart(s.procs[q], s.procs[r]);
  }

  /** The marker is written once: its writer holds the lock, and saw none under it. */
  lemma MarkKeeps(s: State, r: Replica)
    requires Safe(s)
    ensures Safe(DoMark(s, r))
  {
    var s' := DoMark(s, r);
    if In(s, r) && s.procs[r].phase.Projected? {
      assert ProcOk(s, r);
      if Connected(s, r) {
        var j := s.procs[r].phase.job;
        OwnJob(s, r);
        RecordKeepsMarkers(s, s', j);
        forall q | q in s'.procs ensures ProcOk(s', q) {
          if q != r {
            assert ProcOk(s, q);
            if PastLock(s.procs[q].phase) { OneHolder(s, r, q); }
            RecordKeepsOther(s, s', r, j, q);
          }
        }
      } else {
        MoveKeeps(s, s', r);
      }
    }
  }

  /** Nothing was recorded. */
  lemma PastSame(s: State, s': State)
    requires Past(s, s.now) && s'.completed == s.completed && s'.works == s.works && s'.now == s.now
    ensures Past(s', s'.now + 1)
  {
  }

  ghost predicate Good(s: State) {
    var holds := Safe(s) && Past(s, s.now + 1);
    holds
  }

  lemma ReaderKeeps(s0: State, a: Act, s: State, s': State)
    requires s == Tick(s0) && s' == Apply(s0, a) && Safe(s) && Past(s, s.now)
    requires a.TryLock? || a.ReadNewest? || a.CheckHandled?
    ensures Good(s')
  {
    match a {
      case TryLock(r) => LockKeeps(s, r);
      case ReadNewest(r) => ReadKeeps(s, r);
      case CheckHandled(r) => CheckKeeps(s, r);
    }
    PastSame(s, s');
  }

  lemma WriterKeeps(s0: State, a: Act, s: State, s': State)
    requires s == Tick(s0) && s' == Apply(s0, a) && Safe(s) && Past(s, s.now)
    requires a.Write? || a.FailJob? || a.Mark?
    ensures Good(s')
  {
    match a {
      case Write(r) => WriteKeeps(s, r);
      case FailJob(r) => FailKeeps(s, r);
      case Mark(r) => MarkKeeps(s, r);
    }
    PastSame(s, s');
  }

  lemma EndKeeps(s0: State, a: Act, s: State, s': State)
    requires s == Tick(s0) && s' == Apply(s0, a) && Safe(s) && Past(s, s.now)
    requires a.Unlock? || a.Crash? || a.LoseSession?
    ensures Good(s')
  {
    match a {
      case Unlock(r) => if At(s, r, Leaving) { LeaveKeeps(s, r); }
      case Crash(r) => if In(s, r) { LeaveKeeps(s, r); }
      case LoseSession(x) => LoseKeeps(s, x);
    }
    PastSame(s, s');
  }

  lemma WorkKeeps(s0: State, a: Act, s: State, s': State)
    requires s == Tick(s0) && s' == Apply(s0, a) && Safe(s) && Past(s, s.now)
    requires a.Complete? || a.Enter? || a.Begin? || a.FinishAttach? || a.FinishProject?
    ensures Good(s')
  {
    match a {
      case Complete(v, at) => CompleteKeeps(s, v, at);
      case Enter(r) => EnterKeeps(s, r);
      case Begin(r) => BeginKeeps(s, r);
      case FinishAttach(r) => AttachKeeps(s, r);
      case FinishProject(r) => ProjectKeeps(s, r);
    }
  }

  lemma ApplyKeeps(s: State, a: Act)
    requires Good(s)
    ensures Good(Apply(s, a))
  {
    TickKeeps(s);
    if a.Unlock? || a.Crash? || a.LoseSession? {
      EndKeeps(s, a, Tick(s), Apply(s, a));
    } else if a.Complete? || a.Enter? || a.Begin? || a.FinishAttach? || a.FinishProject? {
      WorkKeeps(s, a, Tick(s), Apply(s, a));
    } else if a.Write? || a.FailJob? || a.Mark? {
      WriterKeeps(s, a, Tick(s), Apply(s, a));
    } else {
      ReaderKeeps(s, a, Tick(s), Apply(s, a));
    }
  }

  lemma {:induction false} RunKeeps(s: State, acts: seq<Act>)
    requires Initial(s)
    ensures Good(Run(s, acts))
  {
    if acts != [] {
      RunKeeps(s, acts[..|acts| - 1]);
      ApplyKeeps(Run(s, acts[..|acts| - 1]), acts[|acts| - 1]);
    }
  }

  /** The version a poll would read is the newest complete one, whatever order they completed
      in. */
  ghost predicate NewestOk(s: State) {
    && s.created.Keys == s.completed.Keys
    && (s.newest.None? <==> s.completed == map[])
    && (s.newest.Some? ==> s.newest.value in s.created && forall v :: v in s.created ==> Older(s.created, v, s.newest.value))
  }

  lemma CompleteNewest(s: State, v: Version, at: nat)
    requires NewestOk(s)
    ensures NewestOk(DoComplete(s, v, at))
  {
    var s' := DoComplete(s, v, at);
    if v !in s.completed { assert s'.completed != map[] by { assert v in s'.completed; } }
  }

  lemma {:induction false} NewestIs(s: State, acts: seq<Act>)
    requires Initial(s)
    ensures NewestOk(Run(s, acts))
  {
    if acts != [] {
      var was, last := Run(s, acts[..|acts| - 1]), acts[|acts| - 1];
      NewestIs(s, acts[..|acts| - 1]);
      if last.Complete? {
        CompleteNewest(Tick(was), last.v, last.created);
      } else {
        OthersComplete(was, last);
      }
    }
  }

  ghost predicate SameCompleted(s: State, s': State) {
    s'.completed == s.completed && s'.created == s.created && s'.newest == s.newest
  }

  lemma ReaderCompletes(s: State, r: Replica)
    ensures SameCompleted(s, DoEnter(s, r)) && SameCompleted(s, DoLock(s, r)) && SameCompleted(s, DoRead(s, r)) && SameCompleted(s, DoCheck(s, r))
  {
  }

  lemma WriterCompletes(s: State, r: Replica)
    ensures SameCompleted(s, DoBegin(s, r)) && SameCompleted(s, DoWrite(s, r)) && SameCompleted(s, DoAttach(s, r))
    ensures SameCompleted(s, DoFail(s, r)) && SameCompleted(s, DoProject(s, r)) && SameCompleted(s, DoMark(s, r))
  {
  }

  lemma OthersComplete(s: State, a: Act)
    requires !a.Complete?
    ensures SameCompleted(s, Apply(s, a))
  {
    if !a.LoseSession? {
      ReaderCompletes(Tick(s), a.r);
      WriterCompletes(Tick(s), a.r);
    }
  }

  /** Over every interleaving of replicas, crashes and lost sessions: at most one handled
      marker per extraction; a marker has a whole re-attachment and then a whole projection
      behind it, begun after the extraction completed; and every decision_ref written names
      an audit row. */
  lemma ExactlyOnce(s: State, acts: seq<Act>)
    requires Initial(s)
    ensures var after := Run(s, acts);
            && OneMarker(after)
            && (forall j :: j in after.audit && after.audit[j].action.Handled? ==>
                  && j in after.works && after.audit[j].target in after.completed
                  && WorkOk(after.works[j], after.audit[j].target, after.completed[after.audit[j].target], true, true))
            && after.refs <= after.audit.Keys
  {
    RunKeeps(s, acts);
    var after := Run(s, acts);
    forall j | j in after.audit ensures MarkerOk(after, j) { }
  }

  // ---- A pending extraction can always be handled -----------------------------------------------------------------

  ghost predicate Reaches(s: State, t: State) { exists acts :: Run(s, acts) == t }

  lemma ReachesNext(s: State, t: State, a: Act)
    requires Reaches(s, t)
    ensures Reaches(s, Apply(t, a))
  {
    var acts :| Run(s, acts) == t;
    assert (acts + [a])[..|acts|] == acts;
    assert Run(s, acts + [a]) == Apply(t, a);
  }

  /** The replica is connected and in this phase, and the version polled has no marker. */
  ghost predicate Working(s: State, t: State, r: Replica, v: Version, p: Phase) {
    Reaches(s, t) && At(t, r, p) && Connected(t, r) && t.newest == Some(v) && !IsHandled(t, v)
  }

  /** With the lock free, a replica that polls ends up holding it with the version unhandled. */
  lemma Takes(s: State, t: State, r: Replica, v: Version) returns (t': State)
    requires Reaches(s, t) && t.newest == Some(v) && !IsHandled(t, v) && t.lock.None? && r !in t.procs
    ensures Working(s, t', r, v, Unhandled(v))
  {
    ReachesNext(s, t, Enter(r));
    var t1 := Apply(t, Enter(r));
    Enters(t, r, v, t1);
    ReachesNext(s, t1, TryLock(r));
    var t2 := Apply(t1, TryLock(r));
    Locks(t1, r, v, t2);
    t' := Checks(s, t2, r, v);
  }

  lemma Enters(t: State, r: Replica, v: Version, t': State)
    requires t.newest == Some(v) && !IsHandled(t, v) && t.lock.None? && r !in t.procs && t' == Apply(t, Enter(r))
    ensures At(t', r, Checked) && Connected(t', r) && t'.newest == Some(v) && t'.lock.None? && !IsHandled(t', v)
  {
    SameHandled(t, Tick(t), v);
    SameHandled(t, t', v);
  }

  lemma Locks(t: State, r: Replica, v: Version, t': State)
    requires At(t, r, Checked) && Connected(t, r) && t.newest == Some(v) && t.lock.None? && !IsHandled(t, v) && t' == Apply(t, TryLock(r))
    ensures At(t', r, Locked) && Connected(t', r) && t'.newest == Some(v) && !IsHandled(t', v)
  {
    SameHandled(t, t', v);
  }

  lemma Checks(s: State, t: State, r: Replica, v: Version) returns (t': State)
    requires Working(s, t, r, v, Locked)
    ensures Working(s, t', r, v, Unhandled(v))
  {
    ReachesNext(s, t, ReadNewest(r));
    var t1 := Apply(t, ReadNewest(r));
    SameHandled(t, t1, v);
    ReachesNext(s, t1, CheckHandled(r));
    SameHandled(t1, Tick(t1), v);
    t' := Apply(t1, CheckHandled(r));
    SameHandled(t1, t', v);
  }

  /** Having found the version unhandled, it begins a job. */
  lemma Begins(s: State, t: State, r: Replica, v: Version) returns (t': State, j: Job)
    requires Working(s, t, r, v, Unhandled(v))
    ensures Working(s, t', r, v, Begun(v, j)) && j in t'.works && j in t'.audit
  {
    ReachesNext(s, t, Begin(r));
    t' := Apply(t, Begin(r));
    j := FreshJob(Tick(t));
    forall k | k in t'.audit ensures t'.audit[k] != Entry(Handled, v) {
      if k != j { assert k in t.audit && t'.audit[k] == t.audit[k]; }
    }
  }

  /** A begun job whose work succeeds leaves the marker. */
  lemma Finishes(s: State, t: State, r: Replica, v: Version, j: Job) returns (t': State)
    requires Working(s, t, r, v, Begun(v, j)) && j in t.works && j in t.audit
    ensures Reaches(s, t') && IsHandled(t', v)
  {
    ReachesNext(s, t, FinishAttach(r));
    var t1 := Apply(t, FinishAttach(r));
    ReachesNext(s, t1, FinishProject(r));
    var t2 := Apply(t1, FinishProject(r));
    Projects(t, r, v, j, t1, t2);
    ReachesNext(s, t2, Mark(r));
    t' := Apply(t2, Mark(r));
    Marks(t2, r, v, j, t');
  }

  lemma Projects(t: State, r: Replica, v: Version, j: Job, t1: State, t2: State)
    requires At(t, r, Begun(v, j)) && Connected(t, r) && j in t.works && j in t.audit
    requires t1 == Apply(t, FinishAttach(r)) && t2 == Apply(t1, FinishProject(r))
    ensures At(t2, r, Projected(v, j)) && Connected(t2, r) && j in t2.audit
  {
    assert At(t1, r, Attached(v, j)) && Connected(t1, r) && j in t1.works && t1.audit == t.audit;
  }

  lemma Marks(t: State, r: Replica, v: Version, j: Job, t': State)
    requires At(t, r, Projected(v, j)) && Connected(t, r) && j in t.audit && t' == Apply(t, Mark(r))
    ensures IsHandled(t', v)
  {
    assert j in t'.audit && t'.audit[j] == Entry(Handled, v);
  }

  /** From every state, whatever crashed or failed before, some run handles the newest
      extraction. */
  lemma NeverStuck(s: State) returns (t: State)
    requires s.newest.Some?
    ensures Reaches(s, t) && IsHandled(t, s.newest.value)
  {
    var v := s.newest.value;
    assert Run(s, []) == s;
    t := s;
    if !IsHandled(s, v) {
      if s.lock.Some? {
        ReachesNext(s, s, LoseSession(s.lock.value));
        t := Apply(s, LoseSession(s.lock.value));
        SameHandled(s, t, v);
      }
      FreshExists(t.procs.Keys);
      var r :| r !in t.procs.Keys;
      var j;
      t := Takes(s, t, r, v);
      t, j := Begins(s, t, r, v);
      t := Finishes(s, t, r, v, j);
    }
  }
}
