/** The fence that stops Discord operations.

    Three kinds of parties interleave here. An operator disables and re-enables operations on
    one control row. A drain loop counts the jobs that are still being worked on. Workers claim
    jobs, look at the control row, look at it again inside the mutation transaction, and commit.
    Every look and every write is a step of its own, because nothing locks the control row. */
module OperationsFence {

  /** How old a claim must be before another worker may take the job over. */
  const LEASE_MS: nat := 120_000
  const CLAIM_BATCH_SIZE: nat := 20

  type JobId = string
  type WorkerId = string
  type ClaimId = nat

  datatype Control = Control(enabled: bool, epoch: nat, pendingRemoteCleanup: bool)

  datatype JobStatus = Pending | Retry | Processing | Succeeded | Stale | Abandoned

  /** The states a finished claim can leave its job in. */
  type EndStatus = s: JobStatus | s != Pending && s != Processing witness Stale

  datatype Job = Job(
    status: JobStatus,
    renderedEpoch: nat,
    hasApplication: bool,
    claimId: ClaimId,
    claimedAt: nat)

  datatype Claim = Claim(job: JobId, id: ClaimId, renderedEpoch: nat, claimedAt: nat)

  /** Where a worker is with the first claim of its batch. */
  datatype Phase = Start | Allowed | InTransaction | Finishing(status: EndStatus)

  datatype Worker =
    | Idle
    | Claiming(epoch: nat, now: nat)
    | Running(claims: seq<Claim>, phase: Phase)

  datatype State = State(
    control: Control,
    jobs: map<JobId, Job>,
    workers: map<WorkerId, Worker>,
    usedClaims: set<ClaimId>,
    clock: nat)

  datatype Event =
    | Tick(ms: nat)
    | Enqueue(job: JobId, renderedEpoch: nat, hasApplication: bool)
    | ReadControlToClaim(worker: WorkerId, now: nat)
    | CommitClaims(worker: WorkerId, claims: seq<Claim>)
    | CheckDispatch(worker: WorkerId)
    | RefuseDispatch(worker: WorkerId, status: EndStatus)
    | ReadControlInTransaction(worker: WorkerId)
    | RollBack(worker: WorkerId)
    | CommitMutation(worker: WorkerId)
    | FinishClaim(worker: WorkerId)
    | Crash(worker: WorkerId)
    | BeginDisable
    | DrainCheck(fence: nat, count: nat)
    | SetPendingRemoteCleanup(pending: bool)
    | Reenable(acknowledged: bool)

  // ---------------------------------------------------------------- the steps

  ghost predicate RunningIn(s: State, w: WorkerId, phase: Phase) {
    && w in s.workers
    && s.workers[w].Running?
    && |s.workers[w].claims| > 0
    && s.workers[w].phase == phase
  }

  function Head(s: State, w: WorkerId): Claim
    requires w in s.workers && s.workers[w].Running? && |s.workers[w].claims| > 0
  {
    s.workers[w].claims[0]
  }

  function SetPhase(s: State, w: WorkerId, phase: Phase): State
    requires w in s.workers && s.workers[w].Running?
  {
    s.(workers := s.workers[w := Running(s.workers[w].claims, phase)])
  }

  /** The job row still names this claim as the one being processed. */
  predicate Owns(s: State, c: Claim) {
    c.job in s.jobs && s.jobs[c.job].status == Processing && s.jobs[c.job].claimId == c.id
  }

  predicate Claimable(j: Job, epoch: nat, now: nat) {
    && j.renderedEpoch == epoch
    && (j.status == Pending || j.status == Retry || (j.status == Processing && j.claimedAt + LEASE_MS <= now))
  }

  predicate GoodBatch(s: State, epoch: nat, now: nat, claims: seq<Claim>) {
    && |claims| <= CLAIM_BATCH_SIZE
    && (forall i :: 0 <= i < |claims| ==>
          && claims[i].job in s.jobs
          && Claimable(s.jobs[claims[i].job], epoch, now)
          && claims[i].id !in s.usedClaims
          && claims[i].renderedEpoch == epoch
          && claims[i].claimedAt == now)
    && (forall i, k :: 0 <= i < k < |claims| ==> claims[i].job != claims[k].job && claims[i].id != claims[k].id)
  }

  /** Every claimed row becomes PROCESSING under its new claim; the other rows stay. */
  function ClaimJobs(jobs: map<JobId, Job>, claims: seq<Claim>): (r: map<JobId, Job>)
    requires forall i :: 0 <= i < |claims| ==> claims[i].job in jobs
    ensures r.Keys == jobs.Keys
  {
    if claims == [] then jobs
    else
      var c := claims[0];
      ClaimJobs(jobs[c.job := jobs[c.job].(status := Processing, claimId := c.id, claimedAt := c.claimedAt)], claims[1..])
  }

  function DispatchVerdict(s: State, c: Claim): Phase {
    if c.job in s.jobs && !s.jobs[c.job].hasApplication then Finishing(Stale)
    else if
      && s.control.enabled
      && s.control.epoch == c.renderedEpoch
      && Owns(s, c)
      && s.jobs[c.job].renderedEpoch == s.control.epoch
    then Allowed
    else Finishing(Stale)
  }

  function ActiveOldJobs(s: State, fence: nat): set<JobId> {
    set j | j in s.jobs && s.jobs[j].status == Processing && s.jobs[j].renderedEpoch < fence
  }

  function IdsOf(claims: seq<Claim>): set<ClaimId> {
    set c | c in claims :: c.id
  }

  ghost predicate Enabled(s: State, e: Event) {
    match e
    case Tick(_) => true
    case Enqueue(j, _, _) => j !in s.jobs
    case ReadControlToClaim(w, now) => w in s.workers && s.workers[w].Idle? && now <= s.clock
    case CommitClaims(w, claims) =>
      && w in s.workers && s.workers[w].Claiming?
      && GoodBatch(s, s.workers[w].epoch, s.workers[w].now, claims)
    case CheckDispatch(w) => RunningIn(s, w, Start)
    case RefuseDispatch(w, status) =>
      (RunningIn(s, w, Allowed) || RunningIn(s, w, InTransaction)) && status != Succeeded
    case ReadControlInTransaction(w) => RunningIn(s, w, Allowed)
    case RollBack(w) => RunningIn(s, w, InTransaction)
    case CommitMutation(w) => RunningIn(s, w, InTransaction)
    case FinishClaim(w) => w in s.workers && s.workers[w].Running? && RunningIn(s, w, s.workers[w].phase) && s.workers[w].phase.Finishing?
    case Crash(w) => w in s.workers
    case BeginDisable => true
    case DrainCheck(fence, count) => fence <= s.control.epoch && count == |ActiveOldJobs(s, fence)|
    case SetPendingRemoteCleanup(_) => true
    case Reenable(_) => true
  }

  function BeginDisableOf(c: Control): Control {
    c.(enabled := false, epoch := c.epoch + 1)
  }

  /** Without an acknowledgement, leftover remote controls keep operations disabled. */
  function ReenableOf(c: Control, acknowledged: bool): Control {
    if c.pendingRemoteCleanup && !acknowledged then c else Control(true, c.epoch + 1, false)
  }

  function FinishOf(s: State, w: WorkerId, status: EndStatus): State
    requires w in s.workers && s.workers[w].Running? && |s.workers[w].claims| > 0
  {
    var c := Head(s, w);
    var rest := s.workers[w].claims[1..];
    if Owns(s, c) then
      s.(jobs := s.jobs[c.job := s.jobs[c.job].(status := status, claimId := 0, claimedAt := 0)],
         workers := s.workers[w := if rest == [] then Idle else Running(rest, Start)])
    else
      s.(workers := s.workers[w := Idle])  // the claim is lost: the whole batch ends with an error
  }

  ghost function Apply(s: State, e: Event): State
    requires Enabled(s, e)
  {
    match e
    case Tick(ms) => s.(clock := s.clock + ms)
    case Enqueue(j, epoch, app) => s.(jobs := s.jobs[j := Job(Pending, epoch, app, 0, 0)])
    case ReadControlToClaim(w, now) =>
      if s.control.enabled then s.(workers := s.workers[w := Claiming(s.control.epoch, now)]) else s
    case CommitClaims(w, claims) =>
      s.(jobs := ClaimJobs(s.jobs, claims),
         workers := s.workers[w := if claims == [] then Idle else Running(claims, Start)],
         usedClaims := s.usedClaims + IdsOf(claims))
    case CheckDispatch(w) => SetPhase(s, w, DispatchVerdict(s, Head(s, w)))
    case RefuseDispatch(w, status) => SetPhase(s, w, Finishing(status))
    case ReadControlInTransaction(w) =>
      SetPhase(s, w,
        if s.control.enabled && s.control.epoch == Head(s, w).renderedEpoch then InTransaction else Finishing(Stale))
    case RollBack(w) => SetPhase(s, w, Allowed)
    case CommitMutation(w) => SetPhase(s, w, Finishing(Succeeded))
    case FinishClaim(w) => FinishOf(s, w, s.workers[w].phase.status)
    case Crash(w) => s.(workers := s.workers[w := Idle])
    case BeginDisable => s.(control := BeginDisableOf(s.control))
    case DrainCheck(_, _) => s
    case SetPendingRemoteCleanup(p) => s.(control := s.control.(pendingRemoteCleanup := p))
    case Reenable(ack) => s.(control := ReenableOf(s.control, ack))
  }

  /** states[i + 1] is what events[i] makes of states[i]. */
  datatype Trace = Trace(events: seq<Event>, states: seq<State>)

  ghost predicate Initial(s: State) {
    s.jobs == map[] && forall w :: w in s.workers ==> s.workers[w].Idle?
  }

  ghost predicate Valid(t: Trace) {
    && |t.states| == |t.events| + 1
    && Initial(t.states[0])
    && forall i :: 0 <= i < |t.events| ==> Enabled(t.states[i], t.events[i]) && t.states[i + 1] == Apply(t.states[i], t.events[i])
  }

  // ---------------------------------------------------------------- what every step keeps

  ghost predicate ClaimAt(s: State, w: WorkerId, i: int, c: Claim) {
    && w in s.workers
    && s.workers[w].Running?
    && 0 <= i < |s.workers[w].claims|
    && s.workers[w].claims[i] == c
  }

  ghost predicate ClaimInv(s: State, c: Claim) {
    && c.id in s.usedClaims
    && c.job in s.jobs
    && s.jobs[c.job].renderedEpoch == c.renderedEpoch
    && (Owns(s, c) ==> s.jobs[c.job].claimedAt == c.claimedAt)
    && (Owns(s, c) || c.claimedAt + LEASE_MS <= s.clock)
  }

  ghost predicate Inv(s: State) {
    && (forall w :: w in s.workers && s.workers[w].Claiming? ==> s.workers[w].now <= s.clock)
    && (forall w, i, c :: ClaimAt(s, w, i, c) ==> ClaimInv(s, c))
    && (forall w, i, c, v, k, d :: ClaimAt(s, w, i, c) && ClaimAt(s, v, k, d) && c.id == d.id ==> w == v && i == k)
  }

  /** Nobody can still commit a mutation rendered before the fence: whoever holds such a
      transaction open has outlived its lease. */
  ghost predicate Sealed(s: State, fence: nat) {
    && fence <= s.control.epoch
    && forall w :: RunningIn(s, w, InTransaction) && Head(s, w).renderedEpoch < fence ==>
                     Head(s, w).claimedAt + LEASE_MS <= s.clock
  }

  lemma {:induction false} ClaimJobsAt(jobs: map<JobId, Job>, claims: seq<Claim>)
    requires forall i :: 0 <= i < |claims| ==> claims[i].job in jobs
    requires forall i, k :: 0 <= i < k < |claims| ==> claims[i].job != claims[k].job
    ensures forall i :: 0 <= i < |claims| ==>
              ClaimJobs(jobs, claims)[claims[i].job]
              == jobs[claims[i].job].(status := Processing, claimId := claims[i].id, claimedAt := claims[i].claimedAt)
    ensures forall j :: j in jobs && (forall i :: 0 <= i < |claims| ==> claims[i].job != j) ==> ClaimJobs(jobs, claims)[j] == jobs[j]
  {
    if claims != [] {
      var c := claims[0];
      var next := jobs[c.job := jobs[c.job].(status := Processing, claimId := c.id, claimedAt := c.claimedAt)];
      ClaimJobsAt(next, claims[1..]);
      assert forall i :: 1 <= i < |claims| ==> claims[i] == claims[1..][i - 1];
      forall j | j in jobs && (forall i :: 0 <= i < |claims| ==> claims[i].job != j)
        ensures ClaimJobs(jobs, claims)[j] == jobs[j]
      {
        assert forall i :: 0 <= i < |claims[1..]| ==> claims[1..][i] == claims[i + 1];
      }
      assert forall i :: 0 <= i < |claims[1..]| ==> claims[1..][i] == claims[i + 1];
    }
  }

  /** Claims of the post-state are claims of the pre-state, unless the step just took them. */
  lemma InvAfterCommitClaims(s: State, w: WorkerId, claims: seq<Claim>)
    requires Inv(s) && Enabled(s, CommitClaims(w, claims))
    ensures Inv(Apply(s, CommitClaims(w, claims)))
  {
    var e := CommitClaims(w, claims);
    var s' := Apply(s, e);
    ClaimJobsAt(s.jobs, claims);
    forall v, i, c | ClaimAt(s', v, i, c) ensures ClaimInv(s', c) {
      if v == w {
        assert c in claims && c.id in IdsOf(claims);
      } else {
        assert ClaimAt(s, v, i, c) && ClaimInv(s, c);
      }
    }
    forall v, i, c, u, k, d | ClaimAt(s', v, i, c) && ClaimAt(s', u, k, d) && c.id == d.id ensures v == u && i == k {
      if v != w { assert ClaimAt(s, v, i, c) && ClaimInv(s, c); }
      if u != w { assert ClaimAt(s, u, k, d) && ClaimInv(s, d); }
    }
  }

  lemma InvAfterFinish(s: State, w: WorkerId)
    requires Inv(s) && Enabled(s, FinishClaim(w))
    ensures Inv(Apply(s, FinishClaim(w)))
  {
    var s' := Apply(s, FinishClaim(w));
    var head := Head(s, w);
    assert ClaimAt(s, w, 0, head) && ClaimInv(s, head);
    forall v, i, c | ClaimAt(s', v, i, c)
      ensures ClaimInv(s', c) && ClaimAt(s, v, if v == w then i + 1 else i, c)
    {
      var k := if v == w then i + 1 else i;
      assert ClaimAt(s, v, k, c) && ClaimInv(s, c);
    }
  }

  lemma InvAfterOtherWorkerStep(s: State, e: Event)
    requires Inv(s) && Enabled(s, e)
    requires e.ReadControlToClaim? || e.CheckDispatch? || e.RefuseDispatch? || e.ReadControlInTransaction?
          || e.RollBack? || e.CommitMutation? || e.Crash?
    ensures Inv(Apply(s, e))
  {
    var s' := Apply(s, e);
    forall v, i, c | ClaimAt(s', v, i, c) ensures ClaimInv(s', c) && ClaimAt(s, v, i, c) {
      assert ClaimAt(s, v, i, c) && ClaimInv(s, c);
    }
  }

  lemma InvAfterSharedStep(s: State, e: Event)
    requires Inv(s) && Enabled(s, e)
    requires e.Tick? || e.Enqueue? || e.BeginDisable? || e.DrainCheck? || e.SetPendingRemoteCleanup? || e.Reenable?
    ensures Inv(Apply(s, e))
  {
    var s' := Apply(s, e);
    forall v, i, c | ClaimAt(s', v, i, c) ensures ClaimInv(s', c) && ClaimAt(s, v, i, c) {
      assert ClaimAt(s, v, i, c) && ClaimInv(s, c);
    }
  }

  lemma InvAfterStep(s: State, e: Event)
    requires Inv(s) && Enabled(s, e)
    ensures Inv(Apply(s, e))
  {
    match e
    case CommitClaims(w, claims) => InvAfterCommitClaims(s, w, claims);
    case FinishClaim(w) => InvAfterFinish(s, w);
    case Tick(_) => InvAfterSharedStep(s, e);
    case Enqueue(_, _, _) => InvAfterSharedStep(s, e);
    case BeginDisable => InvAfterSharedStep(s, e);
    case DrainCheck(_, _) => InvAfterSharedStep(s, e);
    case SetPendingRemoteCleanup(_) => InvAfterSharedStep(s, e);
    case Reenable(_) => InvAfterSharedStep(s, e);
    case _ => InvAfterOtherWorkerStep(s, e);
  }

  lemma {:induction false} InvAlways(t: Trace, i: nat)
    requires Valid(t) && i < |t.states|
    ensures Inv(t.states[i])
  {
    if i > 0 {
      InvAlways(t, i - 1);
      InvAfterStep(t.states[i - 1], t.events[i - 1]);
    }
  }

  // ---------------------------------------------------------------- the fence

  /** Epochs and the clock only grow, over any stretch of any run. */
  lemma {:induction false} EpochsOnlyGrow(t: Trace, i: nat, k: nat)
    requires Valid(t) && i <= k < |t.states|
    ensures t.states[i].control.epoch <= t.states[k].control.epoch && t.states[i].clock <= t.states[k].clock
  {
    if i < k { EpochsOnlyGrow(t, i, k - 1); }
  }

  lemma ZeroDrainSeals(s: State, fence: nat)
    requires Inv(s) && Enabled(s, DrainCheck(fence, 0))
    ensures Sealed(s, fence)
  {
    assert ActiveOldJobs(s, fence) == {};
    forall w | RunningIn(s, w, InTransaction) && Head(s, w).renderedEpoch < fence
      ensures Head(s, w).claimedAt + LEASE_MS <= s.clock
    {
      var c := Head(s, w);
      assert ClaimAt(s, w, 0, c) && ClaimInv(s, c);
      assert c.job !in ActiveOldJobs(s, fence);
    }
  }

  lemma SealedAfterStep(s: State, e: Event, fence: nat)
    requires Inv(s) && Enabled(s, e) && Sealed(s, fence)
    ensures Sealed(Apply(s, e), fence)
  {
    var s' := Apply(s, e);
    forall w | RunningIn(s', w, InTransaction) && Head(s', w).renderedEpoch < fence
      ensures Head(s', w).claimedAt + LEASE_MS <= s'.clock
    {
      assert RunningIn(s, w, InTransaction) && Head(s, w) == Head(s', w);
    }
  }

  lemma {:induction false} SealedEverAfter(t: Trace, i: nat, k: nat, fence: nat)
    requires Valid(t) && i <= k < |t.states|
    requires Sealed(t.states[i], fence)
    ensures Sealed(t.states[k], fence)
  {
    if i < k {
      SealedEverAfter(t, i, k - 1, fence);
      InvAlways(t, k - 1);
      SealedAfterStep(t.states[k - 1], t.events[k - 1], fence);
    }
  }

  /** No mutation commits later than budget milliseconds after its job was claimed. */
  ghost predicate WithinBudget(t: Trace, budget: nat)
    requires Valid(t)
  {
    forall i :: 0 <= i < |t.events| && t.events[i].CommitMutation? ==>
      t.states[i].clock <= Head(t.states[i], t.events[i].worker).claimedAt + budget
  }

  /** Once a drain check has returned 0, no mutation rendered before the fence ever commits. */
  ghost predicate Fenced(t: Trace)
    requires Valid(t)
  {
    forall i, k :: 0 <= i < k < |t.events| && t.events[i].DrainCheck? && t.events[i].count == 0 && t.events[k].CommitMutation? ==>
      t.events[i].fence <= Head(t.states[k], t.events[k].worker).renderedEpoch
  }

  lemma FencedWithinLease(t: Trace, budget: nat)
    requires Valid(t) && WithinBudget(t, budget) && budget < LEASE_MS
    ensures Fenced(t)
  {
    forall i, k | 0 <= i < k < |t.events| && t.events[i].DrainCheck? && t.events[i].count == 0 && t.events[k].CommitMutation?
      ensures t.events[i].fence <= Head(t.states[k], t.events[k].worker).renderedEpoch
    {
      InvAlways(t, i);
      ZeroDrainSeals(t.states[i], t.events[i].fence);
      SealedEverAfter(t, i, k, t.events[i].fence);
      assert RunningIn(t.states[k], t.events[k].worker, InTransaction);
    }
  }

  function Last(t: Trace): State
    requires |t.states| > 0
  {
    t.states[|t.states| - 1]
  }

  ghost function Then(t: Trace, e: Event): (r: Trace)
    requires Valid(t) && Enabled(Last(t), e)
    ensures Valid(r) && Last(r) == Apply(Last(t), e)
  {
    Trace(t.events + [e], t.states + [Apply(Last(t), e)])
  }

  ghost predicate CommitsNothing(t: Trace) {
    forall i :: 0 <= i < |t.events| ==> !t.events[i].CommitMutation?
  }

  /** A batch can be claimed exactly if it has at most twenty claims, with new identifiers and for jobs of their
      own, rendered at the epoch that the worker read, which wait or whose last claim is two minutes old. */
  lemma ClaimsAre(s: State, w: WorkerId, claims: seq<Claim>)
    requires w in s.workers && s.workers[w].Claiming?
    ensures Enabled(s, CommitClaims(w, claims)) <==>
            && |claims| <= 20
            && (forall c :: c in claims ==>
                  && c.job in s.jobs && c.id !in s.usedClaims
                  && s.jobs[c.job].renderedEpoch == c.renderedEpoch == s.workers[w].epoch && c.claimedAt == s.workers[w].now
                  && (s.jobs[c.job].status in {Pending, Retry}
                      || (s.jobs[c.job].status == Processing && s.jobs[c.job].claimedAt + 120_000 <= s.workers[w].now)))
            && (forall i, k :: 0 <= i < k < |claims| ==> claims[i].job != claims[k].job && claims[i].id != claims[k].id)
  {
    assert forall i :: 0 <= i < |claims| ==> claims[i] in claims;
  }

  /** The operator may act at any time. */
  lemma OperatorIsFree(s: State, b: bool)
    ensures Enabled(s, BeginDisable) && Enabled(s, SetPendingRemoteCleanup(b)) && Enabled(s, Reenable(b))
  {
  }

  // ---------------------------------------------------------------- what the workers' steps do

  /** The look before the transaction lets a claim through exactly if operations are enabled at the epoch the
      job was rendered at, the row still names this claim, and there is an application; all others end as stale. */
  lemma DispatchAnswers(s: State, w: WorkerId)
    requires RunningIn(s, w, Start)
    ensures var c, after := Head(s, w), Apply(s, CheckDispatch(w)).workers[w];
            && after.claims == s.workers[w].claims && after.phase in {Allowed, Finishing(Stale)}
            && (after.phase == Allowed <==>
                && s.control.enabled && s.control.epoch == c.renderedEpoch && c.job in s.jobs
                && s.jobs[c.job].status == Processing && s.jobs[c.job].claimId == c.id
                && s.jobs[c.job].renderedEpoch == c.renderedEpoch && s.jobs[c.job].hasApplication)
  {
  }

  /** The second look, inside the transaction, asks for the control row alone; a transaction that is rolled back
      is tried again from that look on. */
  lemma TransactionAnswers(s: State, w: WorkerId)
    ensures RunningIn(s, w, Allowed) ==>
              Apply(s, ReadControlInTransaction(w)).workers[w].phase ==
              if s.control.enabled && s.control.epoch == Head(s, w).renderedEpoch then InTransaction else Finishing(Stale)
    ensures Enabled(s, RollBack(w)) <==> RunningIn(s, w, InTransaction)
    ensures Enabled(s, RollBack(w)) ==> Enabled(Apply(s, RollBack(w)), ReadControlInTransaction(w))
  {
  }

  /** Only a commit ends in success; every other end can follow before or inside the transaction. */
  lemma RefusalsAreOpen(s: State, w: WorkerId, status: EndStatus)
    ensures Enabled(s, RefuseDispatch(w, status)) <==>
            (RunningIn(s, w, Allowed) || RunningIn(s, w, InTransaction)) && status in {Retry, Stale, Abandoned}
    ensures Enabled(s, RefuseDispatch(w, status)) ==> Apply(s, RefuseDispatch(w, status)).workers[w].phase == Finishing(status)
    ensures Enabled(s, CommitMutation(w)) ==> Apply(s, CommitMutation(w)).workers[w].phase == Finishing(Succeeded)
  {
  }

  /** A drain check can return 0 exactly if every job that is being processed was rendered at the fence or later. */
  lemma DrainIsZeroIff(s: State, fence: nat)
    ensures Enabled(s, DrainCheck(fence, 0)) <==>
            fence <= s.control.epoch && forall j :: j in s.jobs && s.jobs[j].status == Processing ==> fence <= s.jobs[j].renderedEpoch
  {
    if j :| j in s.jobs && s.jobs[j].status == Processing && s.jobs[j].renderedEpoch < fence {
      assert j in ActiveOldJobs(s, fence);
    } else {
      assert ActiveOldJobs(s, fence) == {};
    }
  }

  /** While the row names the claim, the job takes the status and the worker goes on to the next claim of its
      batch; otherwise no row changes and the rest of the batch is dropped. */
  lemma FinishingDoes(s: State, w: WorkerId, rest: seq<Claim>)
    requires Enabled(s, FinishClaim(w)) && s.workers[w].claims == [Head(s, w)] + rest
    ensures var c, after := Head(s, w), Apply(s, FinishClaim(w));
            if c.job in s.jobs && s.jobs[c.job].status == Processing && s.jobs[c.job].claimId == c.id then
              && after.jobs == s.jobs[c.job := Job(s.workers[w].phase.status, s.jobs[c.job].renderedEpoch, s.jobs[c.job].hasApplication, 0, 0)]
              && after.workers[w] == if |rest| == 0 then Idle else Running(rest, Start)
            else after.jobs == s.jobs && after.workers[w] == Idle
  {
    assert s.workers[w].claims[1..] == rest;
  }

  /** No worker starts claiming while operations are disabled; one that read before goes on. */
  lemma ClaimingNeedsTheControl(s: State, w: WorkerId, now: nat, claims: seq<Claim>)
    ensures Enabled(s, ReadControlToClaim(w, now)) ==>
              Apply(s, ReadControlToClaim(w, now)).workers[w] == if s.control.enabled then Claiming(s.control.epoch, now) else Idle
    ensures Enabled(s, CommitClaims(w, claims)) ==>
              Apply(s, CommitClaims(w, claims)).workers[w] == if |claims| == 0 then Idle else Running(claims, Start)
  {
  }

  // ---------------------------------------------------------------- operations come back

  /** What the operator's steps do to the control row, and no step of a worker does anything to it. */
  lemma ControlChanges(s: State, e: Event)
    requires Enabled(s, e)
    ensures var before, after := s.control, Apply(s, e).control;
            match e
            case BeginDisable => !after.enabled && after.epoch == before.epoch + 1 && after.pendingRemoteCleanup == before.pendingRemoteCleanup
            case SetPendingRemoteCleanup(p) => after.enabled == before.enabled && after.epoch == before.epoch && after.pendingRemoteCleanup == p
            case Reenable(ack) =>
              if before.pendingRemoteCleanup && !ack then after == before
              else after.enabled && after.epoch == before.epoch + 1 && !after.pendingRemoteCleanup
            case _ => after == before
  {
  }

  lemma JobIsClaimed(t: Trace, w: WorkerId, j: JobId, id: ClaimId) returns (r: Trace)
    requires Valid(t) && w in Last(t).workers && Last(t).workers[w] == Claiming(Last(t).control.epoch, Last(t).clock)
    requires j in Last(t).jobs && Last(t).jobs[j] == Job(Pending, Last(t).control.epoch, true, 0, 0) && id !in Last(t).usedClaims
    ensures Valid(r) && t.events <= r.events && t.states <= r.states
    ensures var s, c := Last(t), Claim(j, id, Last(t).control.epoch, Last(t).clock);
            && w in Last(r).workers && Last(r).workers[w] == Running([c], Start) && Last(r).control == s.control
            && j in Last(r).jobs && Last(r).jobs[j] == Job(Processing, s.control.epoch, true, id, s.clock)
  {
    var s := Last(t);
    var claims := [Claim(j, id, s.control.epoch, s.clock)];
    assert GoodBatch(s, s.control.epoch, s.clock, claims);
    ClaimJobsAt(s.jobs, claims);
    r := Then(t, CommitClaims(w, claims));
  }

  lemma ClaimIsInTransaction(t: Trace, w: WorkerId, c: Claim) returns (r: Trace)
    requires Valid(t) && w in Last(t).workers && Last(t).workers[w] == Running([c], Start)
    requires Last(t).control.enabled && c.renderedEpoch == Last(t).control.epoch
    requires c.job in Last(t).jobs && Last(t).jobs[c.job] == Job(Processing, c.renderedEpoch, true, c.id, c.claimedAt)
    ensures Valid(r) && r.events == t.events + [CheckDispatch(w), ReadControlInTransaction(w)] && t.states <= r.states
    ensures Last(r) == Last(t).(workers := Last(t).workers[w := Running([c], InTransaction)])
  {
    r := Then(t, CheckDispatch(w));
    r := Then(r, ReadControlInTransaction(w));
  }

  lemma ClaimIsCommitted(t: Trace, w: WorkerId, c: Claim) returns (r: Trace)
    requires Valid(t) && w in Last(t).workers && Last(t).workers[w] == Running([c], Start)
    requires Last(t).control.enabled && c.renderedEpoch == Last(t).control.epoch
    requires c.job in Last(t).jobs && Last(t).jobs[c.job] == Job(Processing, c.renderedEpoch, true, c.id, c.claimedAt)
    ensures Valid(r) && r.events == t.events + [CheckDispatch(w), ReadControlInTransaction(w), CommitMutation(w), FinishClaim(w)]
    ensures t.states <= r.states && c.job in Last(r).jobs && Last(r).jobs[c.job].status == Succeeded
  {
    r := ClaimIsInTransaction(t, w, c);
    r := Then(r, CommitMutation(w));
    r := Then(r, FinishClaim(w));
  }

  lemma JobIsRendered(t: Trace, acknowledged: bool, w: WorkerId, j: JobId) returns (r: Trace)
    requires Valid(t) && (acknowledged || !Last(t).control.pendingRemoteCleanup)
    requires w in Last(t).workers && Last(t).workers[w].Idle? && j !in Last(t).jobs
    ensures Valid(r) && r.events == t.events + [Reenable(acknowledged), Enqueue(j, Last(t).control.epoch + 1, true)]
    ensures t.states <= r.states && r.states[|t.states|].control == Control(true, Last(t).control.epoch + 1, false)
    ensures Last(r) == Last(t).(control := Control(true, Last(t).control.epoch + 1, false),
                                jobs := Last(t).jobs[j := Job(Pending, Last(t).control.epoch + 1, true, 0, 0)])
  {
    r := Then(t, Reenable(acknowledged));
    r := Then(r, Enqueue(j, Last(r).control.epoch, true));
  }

  lemma RenderedJobSucceeds(t: Trace, w: WorkerId, j: JobId, id: ClaimId) returns (r: Trace)
    requires Valid(t) && w in Last(t).workers && Last(t).workers[w].Idle? && Last(t).control.enabled
    requires j in Last(t).jobs && Last(t).jobs[j] == Job(Pending, Last(t).control.epoch, true, 0, 0) && id !in Last(t).usedClaims
    ensures Valid(r) && t.events <= r.events && t.states <= r.states
    ensures |r.events| > |t.events| + 2 && r.events[|r.events| - 2] == CommitMutation(w)
    ensures j in Last(r).jobs && Last(r).jobs[j].status == Succeeded
  {
    var t1 := Then(t, ReadControlToClaim(w, Last(t).clock));
    var t2 := JobIsClaimed(t1, w, j, id);
    r := ClaimIsCommitted(t2, w, Claim(j, id, Last(t1).control.epoch, Last(t1).clock));
  }

  /** Wherever a run has got to: after a re-enabling that takes effect, a job rendered at the new epoch can
      be claimed by any idle worker, its mutation committed, and the job finished. */
  lemma OperationsComeBack(t: Trace, acknowledged: bool, w: WorkerId, j: JobId, id: ClaimId) returns (r: Trace)
    requires Valid(t) && (acknowledged || !Last(t).control.pendingRemoteCleanup)
    requires w in Last(t).workers && Last(t).workers[w].Idle? && j !in Last(t).jobs && id !in Last(t).usedClaims
    ensures Valid(r) && t.events + [Reenable(acknowledged), Enqueue(j, Last(t).control.epoch + 1, true)] <= r.events
    ensures t.states <= r.states && |r.states| > |t.states|
    ensures r.states[|t.states|].control == Control(true, Last(t).control.epoch + 1, false)
    ensures |r.events| > |t.events| + 2 && r.events[|r.events| - 2] == CommitMutation(w)
    ensures j in Last(r).jobs && Last(r).jobs[j].status == Succeeded
  {
    var rendered := JobIsRendered(t, acknowledged, w, j);
    r := RenderedJobSucceeds(rendered, w, j, id);
  }

  const SLOW_CLAIM := Claim("job", 1, 0, 0)
  const FAST_CLAIM := Claim("job", 2, 0, LEASE_MS)

  function Scene(control: Control, job: Job, slow: Worker, fast: Worker, used: set<ClaimId>, clock: nat): State {
    State(control, map["job" := job], map["slow" := slow, "fast" := fast], used, clock)
  }

  lemma SlowWorkerReads() returns (t: Trace)
    ensures Valid(t) && CommitsNothing(t)
    ensures Last(t) == Scene(Control(true, 0, false), Job(Pending, 0, true, 0, 0), Claiming(0, 0), Idle, {}, 0)
  {
    var none: map<JobId, Job> := map[];
    t := Trace([], [State(Control(true, 0, false), none, map["slow" := Idle, "fast" := Idle], {}, 0)]);
    t := Then(t, Enqueue("job", 0, true));
    t := Then(t, ReadControlToClaim("slow", 0));
  }

  lemma SlowWorkerClaims() returns (t: Trace)
    ensures Valid(t) && CommitsNothing(t)
    ensures Last(t) == Scene(Control(true, 0, false), Job(Processing, 0, true, 1, 0), Running([SLOW_CLAIM], Start), Idle, {1}, 0)
  {
    t := SlowWorkerReads();
    assert GoodBatch(Last(t), 0, 0, [SLOW_CLAIM]);
    ClaimJobsAt(Last(t).jobs, [SLOW_CLAIM]);
    assert [SLOW_CLAIM][0] in [SLOW_CLAIM] && IdsOf([SLOW_CLAIM]) == {1};
    t := Then(t, CommitClaims("slow", [SLOW_CLAIM]));
  }

  /** A claim can wait behind the other nineteen of its batch for nearly as long as the lease. */
  lemma SlowWorkerOpensTransaction() returns (t: Trace)
    ensures Valid(t) && CommitsNothing(t)
    ensures Last(t) == Scene(Control(true, 0, false), Job(Processing, 0, true, 1, 0), Running([SLOW_CLAIM], InTransaction), Idle, {1}, LEASE_MS)
  {
    t := SlowWorkerClaims();
    t := Then(t, Tick(LEASE_MS - 1));
    t := Then(t, CheckDispatch("slow"));
    t := Then(t, ReadControlInTransaction("slow"));
    t := Then(t, Tick(1));
  }

  lemma FastWorkerTakesOver() returns (t: Trace)
    ensures Valid(t) && CommitsNothing(t)
    ensures Last(t) == Scene(Control(true, 0, false), Job(Processing, 0, true, 2, LEASE_MS), Running([SLOW_CLAIM], InTransaction), Running([FAST_CLAIM], Start), {1, 2}, LEASE_MS)
  {
    t := SlowWorkerOpensTransaction();
    t := Then(t, ReadControlToClaim("fast", LEASE_MS));
    assert GoodBatch(Last(t), 0, LEASE_MS, [FAST_CLAIM]);
    ClaimJobsAt(Last(t).jobs, [FAST_CLAIM]);
    assert [FAST_CLAIM][0] in [FAST_CLAIM] && IdsOf([FAST_CLAIM]) == {2};
    t := Then(t, CommitClaims("fast", [FAST_CLAIM]));
  }

  lemma FastWorkerGivesUp() returns (t: Trace)
    ensures Valid(t) && CommitsNothing(t)
    ensures Last(t) == Scene(Control(false, 1, false), Job(Stale, 0, true, 0, 0), Running([SLOW_CLAIM], InTransaction), Idle, {1, 2}, LEASE_MS)
  {
    t := FastWorkerTakesOver();
    t := Then(t, BeginDisable);
    t := Then(t, CheckDispatch("fast"));
    t := Then(t, FinishClaim("fast"));
  }

  /** A slow worker opens its transaction a millisecond before its lease ends, a second worker takes the
      job over, the fence goes up, the second worker gives the job up as stale, the drain check
      sees nothing, and then the slow worker commits. */
  lemma TakeoverBreaksTheFence(budget: nat)
    requires budget >= LEASE_MS
    ensures exists t :: Valid(t) && WithinBudget(t, budget) && !Fenced(t)
  {
    var t0 := FastWorkerGivesUp();
    assert ActiveOldJobs(Last(t0), 1) == {};
    var n := |t0.events|;
    var t1 := Then(t0, DrainCheck(1, 0));
    var t2 := Then(t1, CommitMutation("slow"));
    assert t2.events[n] == DrainCheck(1, 0) && t2.events[n + 1] == CommitMutation("slow");
    assert t2.states[n + 1] == Last(t1) == Last(t0);
    assert t2.events == t0.events + [DrainCheck(1, 0), CommitMutation("slow")];
    assert forall i :: 0 <= i < |t2.events| && t2.events[i].CommitMutation? ==> i == n + 1;
    assert WithinBudget(t2, budget) && !Fenced(t2);
  }

  /** The fence holds in every interleaving exactly when every mutation commits before its lease
      is over. */
  lemma FenceHoldsIffMutationsBeatTheLease(budget: nat)
    ensures (forall t :: Valid(t) && WithinBudget(t, budget) ==> Fenced(t)) <==> budget < 120_000
  {
    if budget < LEASE_MS {
      forall t | Valid(t) && WithinBudget(t, budget) ensures Fenced(t) { FencedWithinLease(t, budget); }
    } else {
      TakeoverBreaksTheFence(budget);
    }
  }
}
