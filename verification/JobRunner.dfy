/** The worker that runs a batch of claimed Discord interaction jobs one after the other. While it is
    busy with one, other workers may take over the jobs of claims that have grown too old. */
module JobRunner {
  import opened Wrappers

  type Id = nat
  type ClaimId = nat
  type Millis = int

  const MAX_ATTEMPTS: nat := 8
  const RETRY_DELAYS_MINUTES: seq<nat> := [1, 2, 5, 15, 30, 60]

  datatype Status = Pending | Retry | Processing | Succeeded | Stale | Abandoned

  datatype Job = Job(status: Status, attempts: nat, nextAttemptAt: Option<Millis>, claim: Option<ClaimId>)

  datatype Claim = Claim(job: Id, id: ClaimId, attempts: nat)

  /** What comes of one claim: two checks before the dispatch can refuse it, and the dispatch can
      end in five ways. */
  datatype Verdict =
    | ApplicationMissing
    | NotAllowed
    | DispatchSucceeded
    | DispatchStale
    | DispatchThrew
    | RetryableFailure
    | TerminalFailure

  datatype Counts = Counts(abandoned: nat, claimed: nat, retried: nat, stale: nat, succeeded: nat)

  function RetryDelay(attempts: nat): nat {
    if attempts == 0 then 60 else RETRY_DELAYS_MINUTES[Min(attempts, |RETRY_DELAYS_MINUTES|) - 1]
  }

  function RetryAt(now: Millis, attempts: nat): Millis { now + RetryDelay(attempts) * 60_000 }

  function StatusFor(v: Verdict, attempts: nat): Status {
    match v
    case ApplicationMissing => Stale
    case NotAllowed => Stale
    case DispatchStale => Stale
    case DispatchSucceeded => Succeeded
    case TerminalFailure => Abandoned
    case DispatchThrew => if attempts >= MAX_ATTEMPTS then Abandoned else Retry
    case RetryableFailure => if attempts >= MAX_ATTEMPTS then Abandoned else Retry
  }

  /** A job when its claim is finished; attempts were counted when it was claimed. */
  function FinishedJob(j: Job, c: Claim, v: Verdict, now: Millis): Job {
    var status := StatusFor(v, c.attempts);
    Job(status, j.attempts, if status == Retry then Some(RetryAt(now, c.attempts)) else None, None)
  }

  predicate Current(jobs: map<Id, Job>, c: Claim) {
    c.job in jobs && jobs[c.job].status == Processing && jobs[c.job].claim == Some(c.id)
  }

  function Counted(n: Counts, s: Status): Counts {
    match s
    case Abandoned => n.(abandoned := n.abandoned + 1)
    case Retry => n.(retried := n.retried + 1)
    case Stale => n.(stale := n.stale + 1)
    case Succeeded => n.(succeeded := n.succeeded + 1)
    case Pending => n
    case Processing => n
  }

  /** How far a run got: a claim that is no longer current ends it with an exception. */
  datatype Progress = Progress(jobs: map<Id, Job>, counts: Counts, thrown: bool)

  /** The first claims of the batch, each after what others did to the jobs meanwhile. */
  function RunPrefix(jobs: map<Id, Job>, claims: seq<Claim>, verdicts: seq<Verdict>, meanwhile: seq<map<Id, Job>>,
                     now: Millis, k: nat): Progress
    requires k <= |claims| == |verdicts| == |meanwhile|
  {
    if k == 0 then Progress(jobs, Counts(0, |claims|, 0, 0, 0), false)
    else
      var p := RunPrefix(jobs, claims, verdicts, meanwhile, now, k - 1);
      if p.thrown then p
      else
        var seen := p.jobs + meanwhile[k - 1];
        var c := claims[k - 1];
        if Current(seen, c)
        then Progress(seen[c.job := FinishedJob(seen[c.job], c, verdicts[k - 1], now)],
                      Counted(p.counts, StatusFor(verdicts[k - 1], c.attempts)), false)
        else Progress(seen, p.counts, true)
  }

  /** The delays before the second attempt and so on; from the sixth failure on an hour. */
  lemma RetryDelays(now: Millis, attempts: nat)
    ensures RetryAt(now, attempts) ==
            if attempts == 0 then now + 3_600_000 else if attempts == 1 then now + 60_000 else if attempts == 2 then now + 120_000
            else if attempts == 3 then now + 300_000 else if attempts == 4 then now + 900_000
            else if attempts == 5 then now + 1_800_000 else now + 3_600_000
  {
  }

  /** How a finished claim leaves its job: whatever came of it, the claim is gone and the attempts stay. */
  lemma JobsEnd(j: Job, c: Claim, v: Verdict, now: Millis)
    ensures var after := FinishedJob(j, c, v, now);
            && after.attempts == j.attempts && after.claim == None
            && (after.status == Succeeded <==> v == DispatchSucceeded)
            && (after.status == Stale <==> v == ApplicationMissing || v == NotAllowed || v == DispatchStale)
            && (after.status == Retry <==> (v == DispatchThrew || v == RetryableFailure) && c.attempts <= 7)
            && (after.status == Abandoned <==> v == TerminalFailure || ((v == DispatchThrew || v == RetryableFailure) && c.attempts >= 8))
            && after.nextAttemptAt == if after.status == Retry then Some(RetryAt(now, c.attempts)) else None
  {
  }

  class JobStore {
    var jobs: map<Id, Job>

    constructor (jobs: map<Id, Job>)
      ensures this.jobs == jobs
    {
      this.jobs := jobs;
    }

    /** A guarded update; false stands for the exception that the claim is lost. */
    method FinishClaim(c: Claim, status: Status, nextAttemptAt: Option<Millis>) returns (finished: bool)
      modifies this
      ensures finished <==> Current(old(jobs), c)
      ensures finished <==> c.job in old(jobs) && old(jobs)[c.job].status == Processing && old(jobs)[c.job].claim == Some(c.id)
      ensures jobs == if finished then old(jobs)[c.job := Job(status, old(jobs)[c.job].attempts, nextAttemptAt, None)] else old(jobs)
    {
      finished := Current(jobs, c);
      if finished { jobs := jobs[c.job := Job(status, jobs[c.job].attempts, nextAttemptAt, None)]; }
    }

    method RunClaims(claims: seq<Claim>, verdicts: seq<Verdict>, meanwhile: seq<map<Id, Job>>, now: Millis)
      returns (counts: Counts, thrown: bool)
      requires |claims| == |verdicts| == |meanwhile|
      modifies this
      ensures Progress(jobs, counts, thrown) == RunPrefix(old(jobs), claims, verdicts, meanwhile, now, |claims|)
    {
      counts, thrown := Counts(0, |claims|, 0, 0, 0), false;
      for i := 0 to |claims|
        invariant !thrown && Progress(jobs, counts, false) == RunPrefix(old(jobs), claims, verdicts, meanwhile, now, i)
      {
        jobs := jobs + meanwhile[i];
        var c := claims[i];
        var status := Stale;
        var nextAttemptAt := None;
        match verdicts[i] {
          case ApplicationMissing =>
          case NotAllowed =>
          case DispatchStale =>
          case DispatchSucceeded => status := Succeeded;
          case TerminalFailure => status := Abandoned;
          case DispatchThrew | RetryableFailure =>
            if c.attempts >= MAX_ATTEMPTS {
              status := Abandoned;
            } else {
              status, nextAttemptAt := Retry, Some(RetryAt(now, c.attempts));
            }
        }
        var finished := FinishClaim(c, status, nextAttemptAt);
        if !finished {
          thrown := true;
          ThrownStays(old(jobs), claims, verdicts, meanwhile, now, i + 1, |claims|);
          return;
        }
        counts := Counted(counts, status);
      }
    }
  }

  /** Each claim of a run that nothing has stopped: its job is finished exactly when the row still says
      PROCESSING under this claim, and otherwise the run stops there. */
  lemma OnlyCurrentClaimsFinish(jobs: map<Id, Job>, claims: seq<Claim>, verdicts: seq<Verdict>, meanwhile: seq<map<Id, Job>>,
                                now: Millis, k: nat)
    requires k < |claims| == |verdicts| == |meanwhile| && !RunPrefix(jobs, claims, verdicts, meanwhile, now, k).thrown
    ensures var p, q := RunPrefix(jobs, claims, verdicts, meanwhile, now, k), RunPrefix(jobs, claims, verdicts, meanwhile, now, k + 1);
            var seen, c := p.jobs + meanwhile[k], claims[k];
            if c.job in seen && seen[c.job].status == Processing && seen[c.job].claim == Some(c.id) then
              !q.thrown && q.jobs == seen[c.job := FinishedJob(seen[c.job], c, verdicts[k], now)]
            else q.thrown && q.jobs == seen && q.counts == p.counts
  {
  }

  lemma {:induction false} ThrownStays(jobs: map<Id, Job>, claims: seq<Claim>, verdicts: seq<Verdict>, meanwhile: seq<map<Id, Job>>,
                                       now: Millis, k: nat, n: nat)
    requires k <= n <= |claims| == |verdicts| == |meanwhile|
    requires RunPrefix(jobs, claims, verdicts, meanwhile, now, k).thrown
    ensures RunPrefix(jobs, claims, verdicts, meanwhile, now, n) == RunPrefix(jobs, claims, verdicts, meanwhile, now, k)
  {
    if k < n { ThrownStays(jobs, claims, verdicts, meanwhile, now, k, n - 1); }
  }

  /** The four outcomes add up to the claims, unless the run ended with an exception. */
  lemma {:induction false} CountsAddUp(jobs: map<Id, Job>, claims: seq<Claim>, verdicts: seq<Verdict>, meanwhile: seq<map<Id, Job>>,
                                       now: Millis, k: nat)
    requires k <= |claims| == |verdicts| == |meanwhile|
    ensures var p := RunPrefix(jobs, claims, verdicts, meanwhile, now, k);
            && p.counts.claimed == |claims|
            && (!p.thrown ==> p.counts.abandoned + p.counts.retried + p.counts.stale + p.counts.succeeded == k)
  {
    if k > 0 { CountsAddUp(jobs, claims, verdicts, meanwhile, now, k - 1); }
  }

  ghost predicate DistinctJobs(claims: seq<Claim>) {
    forall i, k :: 0 <= i < k < |claims| ==> claims[i].job != claims[k].job
  }

  /** Nobody touches the jobs of this batch meanwhile. */
  ghost predicate Undisturbed(claims: seq<Claim>, meanwhile: seq<map<Id, Job>>) {
    forall i, k :: 0 <= i < |claims| && 0 <= k < |meanwhile| ==> claims[i].job !in meanwhile[k]
  }

  ghost predicate AllCurrent(jobs: map<Id, Job>, claims: seq<Claim>) {
    forall i :: 0 <= i < |claims| ==> Current(jobs, claims[i])
  }

  /** The first k jobs of the batch are as their verdicts say, the others as they were claimed. */
  ghost predicate FinishedUpTo(before: map<Id, Job>, after: map<Id, Job>, claims: seq<Claim>, verdicts: seq<Verdict>,
                               now: Millis, k: nat)
    requires |claims| == |verdicts| && AllCurrent(before, claims)
  {
    && (forall i :: 0 <= i < |claims| ==> claims[i].job in after)
    && (forall i :: 0 <= i < |claims| && i < k ==>
          after[claims[i].job] == FinishedJob(before[claims[i].job], claims[i], verdicts[i], now))
    && (forall i :: k <= i < |claims| ==> after[claims[i].job] == before[claims[i].job])
  }

  lemma OneMoreFinished(before: map<Id, Job>, after: map<Id, Job>, others: map<Id, Job>, claims: seq<Claim>,
                        verdicts: seq<Verdict>, now: Millis, k: nat)
    requires k < |claims| == |verdicts| && DistinctJobs(claims) && AllCurrent(before, claims)
    requires forall i :: 0 <= i < |claims| ==> claims[i].job !in others
    requires FinishedUpTo(before, after, claims, verdicts, now, k)
    ensures Current(after + others, claims[k])
    ensures var seen, c := after + others, claims[k];
            FinishedUpTo(before, seen[c.job := FinishedJob(seen[c.job], c, verdicts[k], now)], claims, verdicts, now, k + 1)
  {
    assert Current(before, claims[k]);
    assert (after + others)[claims[k].job] == before[claims[k].job];
  }

  /** A batch that nobody disturbs is finished to the end: each of its jobs gets exactly the status its
      own verdict calls for. */
  lemma {:induction false} UndisturbedBatchIsFinished(jobs: map<Id, Job>, claims: seq<Claim>, verdicts: seq<Verdict>,
                                                      meanwhile: seq<map<Id, Job>>, now: Millis, k: nat)
    requires k <= |claims| == |verdicts| == |meanwhile|
    requires DistinctJobs(claims) && Undisturbed(claims, meanwhile) && AllCurrent(jobs, claims)
    ensures var p := RunPrefix(jobs, claims, verdicts, meanwhile, now, k);
            !p.thrown && FinishedUpTo(jobs, p.jobs, claims, verdicts, now, k)
  {
    if k > 0 {
      UndisturbedBatchIsFinished(jobs, claims, verdicts, meanwhile, now, k - 1);
      var p := RunPrefix(jobs, claims, verdicts, meanwhile, now, k - 1);
      OneMoreFinished(jobs, p.jobs, meanwhile[k - 1], claims, verdicts, now, k - 1);
    }
  }

  // ---------------------------------------------------------------- the life of one job

  /** A claim takes a job that is due, or one whose claim has grown too old, and counts the attempt. */
  datatype Turn = Turn(id: ClaimId, now: Millis, verdict: Option<Verdict>)

  predicate MayBeClaimed(j: Job) { j.status == Pending || j.status == Retry || j.status == Processing }

  /** One claim of the job, finished with a verdict or cut off before. */
  function AfterTurn(j: Job, t: Turn): Job {
    if !MayBeClaimed(j) then j
    else
      var claimed := Job(Processing, j.attempts + 1, j.nextAttemptAt, Some(t.id));
      match t.verdict
      case None => claimed
      case Some(v) => FinishedJob(claimed, Claim(0, t.id, claimed.attempts), v, t.now)
  }

  /** A job that is done with is left alone; any other one counts the attempt, and stays with the claim when
      it is cut off. */
  lemma TurnsTake(j: Job, t: Turn)
    ensures j.status in {Succeeded, Stale, Abandoned} ==> AfterTurn(j, t) == j
    ensures j.status in {Pending, Retry, Processing} ==>
              && AfterTurn(j, t).attempts == j.attempts + 1
              && (t.verdict.None? ==> AfterTurn(j, t).status == Processing && AfterTurn(j, t).claim == Some(t.id))
  {
  }

  function AfterTurns(turns: seq<Turn>): Job {
    if turns == [] then Job(Pending, 0, None, None) else AfterTurn(AfterTurns(turns[..|turns| - 1]), turns[|turns| - 1])
  }

  /** A job waits for a retry only after one to seven attempts, for the delay of its last attempt. */
  lemma {:induction false} RetriesAreBounded(turns: seq<Turn>)
    ensures var j := AfterTurns(turns);
            && j.attempts <= |turns|
            && (j.status == Retry ==> 1 <= j.attempts < MAX_ATTEMPTS)
            && (j.status == Retry ==> exists t :: t in turns && j.nextAttemptAt == Some(RetryAt(t.now, j.attempts)))
  {
    if turns != [] {
      RetriesAreBounded(turns[..|turns| - 1]);
      assert turns[|turns| - 1] in turns;
      assert forall t :: t in turns[..|turns| - 1] ==> t in turns;
    }
  }

  /** A job whose every attempt fails in a way that may be retried is given up at the eighth, and not before. */
  lemma {:induction false} GivenUpAtTheEighthFailure(turns: seq<Turn>)
    requires forall i :: 0 <= i < |turns| ==> turns[i].verdict in {Some(DispatchThrew), Some(RetryableFailure)}
    ensures AfterTurns(turns).attempts == Min(|turns|, MAX_ATTEMPTS)
    ensures AfterTurns(turns).status ==
            if |turns| == 0 then Pending else if |turns| < MAX_ATTEMPTS then Retry else Abandoned
  {
    if turns != [] { GivenUpAtTheEighthFailure(turns[..|turns| - 1]); }
  }
}
