/** The acknowledgement handshake of one delivery of a Discord interaction. A pipeline (resolve,
    stage, activate) races a deadline; both share whether time is up, whether a job was staged, and
    one memoised settlement. The job row lives in a store where requests take effect at some later
    moment, or never, even when the caller has already been told that they failed; workers take
    activated jobs from the same store. The store may already hold a row of the interaction from an
    earlier delivery, and another delivery of it may be going on at the same time. */
module AckHandshake {
  import opened Wrappers

  type Digest = nat

  datatype Handshake = Staged | Acknowledged | AbandonedUnacked

  datatype JobStatus = Pending | Processing | Retry | Succeeded | Stale | Abandoned

  datatype Row = Row(digest: Digest, handshake: Handshake, status: JobStatus)

  /** What the store can hold: only acknowledged rows are worked on. */
  predicate WellFormed(row: Option<Row>) {
    row.Some? ==>
      && (row.value.handshake == Staged ==> row.value.status == Pending)
      && (row.value.handshake == AbandonedUnacked ==> row.value.status == Abandoned)
  }

  // ---------------------------------------------------------------- the job store

  datatype StageResult = Enqueued | Duplicate | StageConflict
  datatype ActivateResult = ActivatedPending | NotPending | ActivateConflict
  datatype SettleResult = SettledPending | SettledAbandoned | SettledMissing | SettledConflict

  /** late: the activation deadline has passed on the database clock. */
  function StageRow(row: Option<Row>, d: Digest, late: bool): (Option<Row>, StageResult) {
    match row
    case None => (Some(if late then Row(d, AbandonedUnacked, Abandoned) else Row(d, Staged, Pending)), Enqueued)
    case Some(r) => (row, if r.digest == d then Duplicate else StageConflict)
  }

  function ActivateRow(row: Option<Row>, d: Digest, late: bool): (Option<Row>, ActivateResult) {
    match row
    case None => (None, NotPending)
    case Some(r) =>
      if r == Row(d, Staged, Pending) && !late then (Some(Row(d, Acknowledged, Pending)), ActivatedPending)
      else if r.digest != d then (row, ActivateConflict)
      else (row, if r == Row(d, Acknowledged, Pending) then ActivatedPending else NotPending)
  }

  function SettleRow(row: Option<Row>, d: Digest): (Option<Row>, SettleResult) {
    match row
    case None => (None, SettledMissing)
    case Some(r) =>
      if r.digest != d then (row, SettledConflict)
      else if r == Row(d, Staged, Pending) then (Some(Row(d, AbandonedUnacked, Abandoned)), SettledAbandoned)
      else (row, if r == Row(d, Acknowledged, Pending) then SettledPending else SettledAbandoned)
  }

  /** Staging adds a row only where there is none, closed at once when it comes too late, and tells a
      redelivery from another command. */
  lemma StagingDoes(row: Option<Row>, d: Digest, late: bool)
    ensures row == None ==> StageRow(row, d, late) == (Some(if late then Row(d, AbandonedUnacked, Abandoned) else Row(d, Staged, Pending)), Enqueued)
    ensures row.Some? ==> StageRow(row, d, late).0 == row
    ensures row.Some? ==> StageRow(row, d, late).1 == if row.value.digest == d then Duplicate else StageConflict
  {
  }

  /** Activation acknowledges the staged row of the command in time; it answers pending exactly when the row
      is then acknowledged and pending. */
  lemma ActivatingDoes(row: Option<Row>, d: Digest, late: bool)
    ensures var (after, result) := ActivateRow(row, d, late);
            && after == (if row == Some(Row(d, Staged, Pending)) && !late then Some(Row(d, Acknowledged, Pending)) else row)
            && (result == ActivatedPending <==> after == Some(Row(d, Acknowledged, Pending)))
            && (result == ActivateConflict <==> row.Some? && row.value.digest != d)
  {
  }

  /** Settling gives up the command's row that is still only staged; it answers pending exactly when the row
      is acknowledged and pending, and abandoned for every other row of the command. */
  lemma SettlingDoes(row: Option<Row>, d: Digest)
    ensures var (after, result) := SettleRow(row, d);
            && after == (if row == Some(Row(d, Staged, Pending)) then Some(Row(d, AbandonedUnacked, Abandoned)) else row)
            && (result == SettledMissing <==> row == None)
            && (result == SettledConflict <==> row.Some? && row.value.digest != d)
            && (result == SettledPending <==> row == Some(Row(d, Acknowledged, Pending)))
  {
  }

  /** What a worker may claim. */
  predicate Runnable(row: Option<Row>, d: Digest) {
    row.Some? && row.value.digest == d && row.value.handshake == Acknowledged && row.value.status in {Pending, Retry}
  }

  /** What a worker has claimed or may claim. */
  predicate Open(row: Option<Row>, d: Digest) {
    Runnable(row, d) || row == Some(Row(d, Acknowledged, Processing))
  }

  // ---------------------------------------------------------------- the handler

  datatype Outcome = Acked | Rejected | Threw

  /** The memoised promise, by the store call it stands for. */
  datatype Settlement = NotStarted | InFlight(call: nat) | Resolved(outcome: Outcome)

  datatype Pipeline = Resolving | Staging | Activating | PipelineSettling | PipelineDone(outcome: Outcome)

  datatype Deadline = Waiting | DeadlineSettling | DeadlineDone(outcome: Outcome)

  /** The closure variables, how often the store was asked to settle, the two places of execution, and
      what the race has answered. */
  datatype Handler = Handler(
    timedOut: bool,
    stagedIdentity: bool,
    settlement: Settlement,
    settleCalls: nat,
    pipeline: Pipeline,
    deadline: Deadline,
    response: Option<Outcome>)

  const FRESH_HANDLER := Handler(false, false, NotStarted, 0, Resolving, Waiting, None)

  /** The first of the two to finish answers. */
  function Race(h: Handler): Handler {
    if h.response.Some? then h
    else match h.pipeline
      case PipelineDone(o) => h.(response := Some(o))
      case _ => if h.deadline.DeadlineDone? then h.(response := Some(h.deadline.outcome)) else h
  }

  /** The call of the store that settle() makes unless the promise of an earlier one is there. */
  function Memoised(h: Handler): Handler {
    if h.settlement.NotStarted? then h.(settlement := InFlight(h.settleCalls), settleCalls := h.settleCalls + 1) else h
  }

  /** settle(): nothing staged means rejected; otherwise everyone shares one promise. */
  function PipelineSettles(h: Handler): Handler {
    if !h.stagedIdentity then Race(h.(pipeline := PipelineDone(Rejected)))
    else
      var shared := Memoised(h);
      if shared.settlement.Resolved? then Race(shared.(pipeline := PipelineDone(shared.settlement.outcome)))
      else shared.(pipeline := PipelineSettling)
  }

  function DeadlineSettles(h: Handler): Handler {
    if !h.stagedIdentity then Race(h.(deadline := DeadlineDone(Rejected)))
    else
      var shared := Memoised(h);
      if shared.settlement.Resolved? then Race(shared.(deadline := DeadlineDone(shared.settlement.outcome)))
      else shared.(deadline := DeadlineSettling)
  }

  /** Asking to settle before anything is staged rejects at once and calls nothing; afterwards it waits for the
      one call, or takes what that has answered. */
  lemma SettlingShares(h: Handler)
    requires h.pipeline.Activating? && h.deadline.Waiting? && h.response.None?
    ensures !h.stagedIdentity ==>
              && PipelineSettles(h) == h.(pipeline := PipelineDone(Rejected), response := Some(Rejected))
              && DeadlineSettles(h) == h.(deadline := DeadlineDone(Rejected), response := Some(Rejected))
    ensures h.stagedIdentity && h.settlement.Resolved? ==>
              var o := h.settlement.outcome;
              && PipelineSettles(h) == h.(pipeline := PipelineDone(o), response := Some(o))
              && DeadlineSettles(h) == h.(deadline := DeadlineDone(o), response := Some(o))
    ensures h.stagedIdentity && h.settlement.InFlight? ==>
              && PipelineSettles(h) == h.(pipeline := PipelineSettling) && DeadlineSettles(h) == h.(deadline := DeadlineSettling)
    ensures h.stagedIdentity && h.settlement.NotStarted? ==>
              var started := h.(settlement := InFlight(h.settleCalls), settleCalls := h.settleCalls + 1);
              && PipelineSettles(h) == started.(pipeline := PipelineSettling)
              && DeadlineSettles(h) == started.(deadline := DeadlineSettling)
  {
  }

  function AfterResolve(h: Handler, ok: bool): Handler {
    if !ok || h.timedOut then Race(h.(pipeline := PipelineDone(Rejected)))
    else h.(stagedIdentity := true, pipeline := Staging)
  }

  function AfterStage(h: Handler, result: StageResult): Handler {
    if result.StageConflict? then Race(h.(pipeline := PipelineDone(Rejected)))
    else if h.timedOut then PipelineSettles(h)
    else h.(pipeline := Activating)
  }

  function AfterActivate(h: Handler, result: ActivateResult): Handler {
    if result.ActivatedPending? then Race(h.(pipeline := PipelineDone(Acked))) else PipelineSettles(h)
  }

  /** An activation that found the job pending is the acknowledgement; any other one has to settle. */
  lemma ActivationAnswers(h: Handler, result: ActivateResult)
    requires h.pipeline.Activating? && h.response.None?
    ensures AfterActivate(h, result) ==
            if result == ActivatedPending then h.(pipeline := PipelineDone(Acked), response := Some(Acked)) else PipelineSettles(h)
  {
  }

  function AfterSettle(h: Handler, outcome: Outcome): Handler {
    Race(h.(
      settlement := Resolved(outcome),
      pipeline := if h.pipeline.PipelineSettling? then PipelineDone(outcome) else h.pipeline,
      deadline := if h.deadline.DeadlineSettling? then DeadlineDone(outcome) else h.deadline))
  }

  function AfterDeadline(h: Handler): Handler {
    DeadlineSettles(h.(timedOut := true))
  }

  // ---------------------------------------------------------------- the whole system

  /** A request to the store: sent or not, and what it answered once it took effect. */
  datatype Request<R> = Request(sent: bool, answer: Option<R>)

  /** settles has one entry for every call that any branch made, with its answer once it took effect. */
  datatype State = State(
    handler: Handler,
    row: Option<Row>,
    stage: Request<StageResult>,
    activate: Request<ActivateResult>,
    settles: seq<Option<SettleResult>>)

  datatype Event =
    | ResolveReturns(ok: bool)
    | ResolveThrows
    | StoreStages(late: bool)
    | StageReturns
    | StageThrows
    | StoreActivates(late: bool)
    | ActivateReturns
    | ActivateThrows
    | StoreSettles(call: nat)
    | SettleReturns
    | SettleThrows
    | DeadlineElapses
    | WorkerClaims
    | WorkerEnds(status: JobStatus)
    | OtherStages(late: bool)
    | OtherActivates(late: bool)
    | OtherSettles

  /** workersWait: no worker takes the job before this delivery has been answered. overlaps: another
      delivery of the same interaction is going on. */
  datatype Config = Config(digest: Digest, workersWait: bool, overlaps: bool)

  predicate Enabled(cfg: Config, s: State, e: Event) {
    match e
    case ResolveReturns(_) => s.handler.pipeline.Resolving?
    case ResolveThrows => s.handler.pipeline.Resolving?
    case StoreStages(_) => s.stage.sent && s.stage.answer.None?
    case StageReturns => s.handler.pipeline.Staging? && s.stage.answer.Some?
    case StageThrows => s.handler.pipeline.Staging?
    case StoreActivates(_) => s.activate.sent && s.activate.answer.None?
    case ActivateReturns => s.handler.pipeline.Activating? && s.activate.answer.Some?
    case ActivateThrows => s.handler.pipeline.Activating?
    case StoreSettles(call) => call < |s.settles| && s.settles[call].None?
    case SettleReturns =>
      s.handler.settlement.InFlight? && s.handler.settlement.call < |s.settles| && s.settles[s.handler.settlement.call].Some?
    case SettleThrows => s.handler.settlement.InFlight?
    case DeadlineElapses => s.handler.deadline.Waiting? && s.handler.response.None?
    case WorkerClaims => Runnable(s.row, cfg.digest) && (cfg.workersWait ==> s.handler.response.Some?)
    case WorkerEnds(status) => s.row == Some(Row(cfg.digest, Acknowledged, Processing)) && status in {Retry, Succeeded, Stale, Abandoned}
    case OtherStages(_) => cfg.overlaps
    case OtherActivates(_) => cfg.overlaps
    case OtherSettles => cfg.overlaps
  }

  /** Workers take every job that is acknowledged and waits, and can end it in four ways. */
  lemma WorkersDo(cfg: Config, s: State)
    requires s.row.Some? && s.row.value.digest == cfg.digest && s.row.value.handshake == Acknowledged
    ensures s.row.value.status in {Pending, Retry} && s.handler.response.Some? ==> Enabled(cfg, s, WorkerClaims)
    ensures s.row.value.status in {Pending, Retry} && !cfg.workersWait ==> Enabled(cfg, s, WorkerClaims)
    ensures s.row.value.status == Processing ==>
              && Enabled(cfg, s, WorkerEnds(Retry)) && Enabled(cfg, s, WorkerEnds(Succeeded))
              && Enabled(cfg, s, WorkerEnds(Stale)) && Enabled(cfg, s, WorkerEnds(Abandoned))
  {
    assert s.row == Some(Row(cfg.digest, Acknowledged, s.row.value.status));
  }

  /** After a handler step, the requests its new position stands for have been sent. */
  function Send(s: State, h: Handler): State {
    s.(handler := h,
       stage := s.stage.(sent := s.stage.sent || h.pipeline.Staging?),
       activate := s.activate.(sent := s.activate.sent || h.pipeline.Activating?),
       settles := if h.settleCalls > |s.settles| then s.settles + [None] else s.settles)
  }

  function HandlerStep(s: State, e: Event): (h: Handler)
    requires e.ResolveReturns? || e.ResolveThrows? || e.StageReturns? || e.StageThrows? || e.ActivateReturns?
             || e.ActivateThrows? || e.SettleReturns? || e.SettleThrows? || e.DeadlineElapses?
    requires Enabled(Config(0, false, false), s, e)
  {
    var h := s.handler;
    match e
    case ResolveReturns(ok) => AfterResolve(h, ok)
    case ResolveThrows => Race(h.(pipeline := PipelineDone(Rejected)))
    case StageReturns => AfterStage(h, s.stage.answer.value)
    case StageThrows => PipelineSettles(h)
    case ActivateReturns => AfterActivate(h, s.activate.answer.value)
    case ActivateThrows => PipelineSettles(h)
    case SettleReturns => AfterSettle(h, if s.settles[h.settlement.call].value.SettledPending? then Acked else Rejected)
    case SettleThrows => AfterSettle(h, Threw)
    case DeadlineElapses => AfterDeadline(h)
  }

  predicate OnRow(e: Event) {
    e.StoreStages? || e.StoreActivates? || e.StoreSettles? || e.WorkerClaims? || e.WorkerEnds?
    || e.OtherStages? || e.OtherActivates? || e.OtherSettles?
  }

  function RowStep(cfg: Config, s: State, e: Event): State
    requires OnRow(e) && Enabled(cfg, s, e)
  {
    match e
    case StoreStages(late) =>
      var (row, result) := StageRow(s.row, cfg.digest, late);
      s.(row := row, stage := Request(true, Some(result)))
    case StoreActivates(late) =>
      var (row, result) := ActivateRow(s.row, cfg.digest, late);
      s.(row := row, activate := Request(true, Some(result)))
    case StoreSettles(call) =>
      var (row, result) := SettleRow(s.row, cfg.digest);
      s.(row := row, settles := s.settles[call := Some(result)])
    case WorkerClaims => s.(row := Some(s.row.value.(status := Processing)))
    case WorkerEnds(status) => s.(row := Some(s.row.value.(status := status)))
    case OtherStages(late) => s.(row := StageRow(s.row, cfg.digest, late).0)
    case OtherActivates(late) => s.(row := ActivateRow(s.row, cfg.digest, late).0)
    case OtherSettles => s.(row := SettleRow(s.row, cfg.digest).0)
  }

  function Apply(cfg: Config, s: State, e: Event): State
    requires Enabled(cfg, s, e)
  {
    if OnRow(e) then RowStep(cfg, s, e) else Send(s, HandlerStep(s, e))
  }

  datatype Trace = Trace(events: seq<Event>, states: seq<State>)

  function Initial(row: Option<Row>): State {
    State(FRESH_HANDLER, row, Request(false, None), Request(false, None), [])
  }

  ghost predicate Valid(cfg: Config, t: Trace) {
    && |t.states| == |t.events| + 1
    && WellFormed(t.states[0].row) && t.states[0] == Initial(t.states[0].row)
    && forall i :: 0 <= i < |t.events| ==> Enabled(cfg, t.states[i], t.events[i]) && t.states[i + 1] == Apply(cfg, t.states[i], t.events[i])
  }

  // ---------------------------------------------------------------- what every step keeps

  function SettleAnswer(s: State): Option<SettleResult> {
    if s.settles == [] then None else s.settles[0]
  }

  /** The places of execution and the shared variables fit together. */
  predicate InvHandler(h: Handler) {
    && (h.pipeline.Resolving? ==> !h.stagedIdentity) && (h.pipeline.Staging? ==> h.stagedIdentity)
    && h.settleCalls == (if h.settlement.NotStarted? then 0 else 1)
    && (h.settlement.InFlight? ==> h.settlement.call == 0)
    && (h.pipeline.PipelineSettling? || h.deadline.DeadlineSettling? ==> h.settlement.InFlight?)
    && (h.deadline.Waiting? <==> !h.timedOut)
    && (h.settlement.NotStarted? || h.timedOut || h.pipeline.PipelineSettling? || h.pipeline.PipelineDone?)
    && (h.response.None? ==> !h.pipeline.PipelineDone? && !h.deadline.DeadlineDone?)
  }

  /** Requests follow the handler. */
  predicate InvRequests(s: State) {
    && (s.stage.answer.Some? ==> s.stage.sent) && (s.stage.sent <==> s.handler.stagedIdentity)
    && (s.activate.answer.Some? ==> s.activate.sent)
    && (s.activate.sent ==> s.stage.answer.Some? && s.stage.answer != Some(StageConflict))
    && (s.activate.sent ==> !s.handler.pipeline.Resolving? && !s.handler.pipeline.Staging?)
    && (s.handler.pipeline.Activating? ==> s.activate.sent)
    && |s.settles| == s.handler.settleCalls
  }

  /** Outcomes follow the answers. */
  predicate InvOutcomes(s: State) {
    var h := s.handler;
    && (h.settlement == Resolved(Acked) ==> SettleAnswer(s) == Some(SettledPending))
    && (h.settlement == Resolved(Rejected) ==> SettleAnswer(s).Some? && SettleAnswer(s) != Some(SettledPending))
    && (h.pipeline == PipelineDone(Acked) ==> s.activate.answer == Some(ActivatedPending) || SettleAnswer(s) == Some(SettledPending))
    && (h.deadline == DeadlineDone(Acked) ==> SettleAnswer(s) == Some(SettledPending))
    && (h.response == Some(Acked) ==> h.pipeline == PipelineDone(Acked) || h.deadline == DeadlineDone(Acked))
  }

  predicate Inv(s: State) { InvHandler(s.handler) && InvRequests(s) && InvOutcomes(s) }

  lemma SettlingKeepsHandler(h: Handler)
    requires InvHandler(h.(pipeline := Activating)) && h.stagedIdentity
    requires !h.pipeline.Resolving? && !h.pipeline.PipelineSettling? && !h.pipeline.PipelineDone?
    ensures InvHandler(PipelineSettles(h))
  {
  }

  lemma DeadlineKeepsHandler(h: Handler)
    requires InvHandler(h) && h.deadline.Waiting? && h.response.None?
    ensures InvHandler(AfterDeadline(h))
  {
  }

  lemma HandlerStepKeepsHandler(s: State, e: Event)
    requires InvHandler(s.handler) && InvRequests(s) && !OnRow(e) && Enabled(Config(0, false, false), s, e)
    ensures InvHandler(HandlerStep(s, e))
  {
    if e.DeadlineElapses? {
      DeadlineKeepsHandler(s.handler);
    } else if e.StageThrows? || e.ActivateThrows? {
      SettlingKeepsHandler(s.handler);
    }
  }

  lemma HandlerStepKeepsRequests(s: State, e: Event)
    requires InvHandler(s.handler) && InvRequests(s) && !OnRow(e) && Enabled(Config(0, false, false), s, e)
    ensures InvRequests(Send(s, HandlerStep(s, e)))
  {
    HandlerStepKeepsHandler(s, e);
  }

  lemma SettlementKeepsOutcomes(s: State, e: Event)
    requires Inv(s) && (e.SettleReturns? || e.SettleThrows?) && Enabled(Config(0, false, false), s, e)
    ensures InvOutcomes(Send(s, HandlerStep(s, e)))
  {
  }

  lemma DeadlineKeepsOutcomes(s: State)
    requires Inv(s) && Enabled(Config(0, false, false), s, DeadlineElapses)
    ensures InvOutcomes(Send(s, HandlerStep(s, DeadlineElapses)))
  {
  }

  lemma HandlerStepKeepsOutcomes(s: State, e: Event)
    requires Inv(s) && !OnRow(e) && Enabled(Config(0, false, false), s, e)
    ensures InvOutcomes(Send(s, HandlerStep(s, e)))
  {
    if e.SettleReturns? || e.SettleThrows? {
      SettlementKeepsOutcomes(s, e);
    } else if e.DeadlineElapses? {
      DeadlineKeepsOutcomes(s);
    }
  }

  lemma RowStepKeeps(cfg: Config, s: State, e: Event)
    requires Inv(s) && OnRow(e) && Enabled(cfg, s, e)
    ensures Inv(RowStep(cfg, s, e))
  {
  }

  lemma InvAfterStep(cfg: Config, s: State, e: Event)
    requires Inv(s) && Enabled(cfg, s, e)
    ensures Inv(Apply(cfg, s, e))
  {
    if OnRow(e) {
      RowStepKeeps(cfg, s, e);
    } else {
      HandlerStepKeepsHandler(s, e);
      HandlerStepKeepsRequests(s, e);
      HandlerStepKeepsOutcomes(s, e);
    }
  }

  lemma {:induction false} InvAlways(cfg: Config, t: Trace, n: nat)
    requires Valid(cfg, t) && n < |t.states|
    ensures Inv(t.states[n])
  {
    if n > 0 {
      InvAlways(cfg, t, n - 1);
      InvAfterStep(cfg, t.states[n - 1], t.events[n - 1]);
    }
  }

  // ---------------------------------------------------------------- acknowledged

  predicate Ours(cfg: Config, row: Option<Row>) {
    row.Some? && row.value.digest == cfg.digest
  }

  /** The store answered that the job is pending, as it then was. */
  ghost predicate StoodPending(cfg: Config, t: Trace, i: nat)
    requires |t.states| == |t.events| + 1
  {
    && i < |t.events|
    && (t.events[i].StoreActivates? || t.events[i].StoreSettles?)
    && t.states[i + 1].row == Some(Row(cfg.digest, Acknowledged, Pending))
  }

  predicate SaidPending(s: State) {
    s.activate.answer == Some(ActivatedPending) || SettleAnswer(s) == Some(SettledPending)
  }

  /** An acknowledged row stays acknowledged. */
  lemma AcknowledgedStays(cfg: Config, s: State, e: Event)
    requires Enabled(cfg, s, e) && Ours(cfg, s.row) && s.row.value.handshake == Acknowledged
    ensures var row := Apply(cfg, s, e).row; Ours(cfg, row) && row.value.handshake == Acknowledged
  {
  }

  lemma SaysPendingWhenPending(cfg: Config, s: State, e: Event)
    requires Inv(s) && Enabled(cfg, s, e) && !SaidPending(s) && SaidPending(Apply(cfg, s, e))
    ensures (e.StoreActivates? || e.StoreSettles?) && Apply(cfg, s, e).row == Some(Row(cfg.digest, Acknowledged, Pending))
  {
    assert OnRow(e);
  }

  lemma {:induction false} PendingAnswerWasTrue(cfg: Config, t: Trace, n: nat) returns (i: nat)
    requires Valid(cfg, t) && n < |t.states| && SaidPending(t.states[n])
    ensures i < n && StoodPending(cfg, t, i)
  {
    InvAlways(cfg, t, n - 1);
    if SaidPending(t.states[n - 1]) {
      i := PendingAnswerWasTrue(cfg, t, n - 1);
    } else {
      i := n - 1;
      SaysPendingWhenPending(cfg, t.states[i], t.events[i]);
    }
  }

  lemma {:induction false} AcknowledgedFromThenOn(cfg: Config, t: Trace, i: nat, n: nat)
    requires Valid(cfg, t) && i < n < |t.states| && StoodPending(cfg, t, i)
    ensures Ours(cfg, t.states[n].row) && t.states[n].row.value.handshake == Acknowledged
  {
    if i + 1 < n {
      AcknowledgedFromThenOn(cfg, t, i, n - 1);
      AcknowledgedStays(cfg, t.states[n - 1], t.events[n - 1]);
    }
  }

  /** "acknowledged" is only ever answered after the store has seen the job pending, and such a job
      is never abandoned for the deadline later. */
  lemma AcknowledgedMeansPending(cfg: Config, t: Trace, n: nat)
    requires Valid(cfg, t) && n < |t.states|
    requires t.states[n].handler.response == Some(Acked)
    ensures exists i: nat :: i < n && StoodPending(cfg, t, i)
    ensures Ours(cfg, t.states[n].row) && t.states[n].row.value.handshake == Acknowledged
  {
    InvAlways(cfg, t, n);
    var i := PendingAnswerWasTrue(cfg, t, n);
    AcknowledgedFromThenOn(cfg, t, i, n);
  }

  // ---------------------------------------------------------------- rejected

  /** A command that was answered "rejected" can never be claimed by a worker, then or later, given
      what the store held before. */
  ghost predicate RejectedIsFinal(cfg: Config, before: Option<Row>) {
    forall t: Trace, n: nat, k: nat ::
      Valid(cfg, t) && t.states[0].row == before && n <= k < |t.states| && t.states[n].handler.response == Some(Rejected)
      ==> !Runnable(t.states[k].row, cfg.digest)
  }

  /** The row is another command's, or is done with. */
  predicate Dead(row: Option<Row>, d: Digest) {
    row.Some? && (row.value.digest != d || row.value.handshake == AbandonedUnacked
                  || (row.value.handshake == Acknowledged && row.value.status in {Succeeded, Stale, Abandoned}))
  }

  lemma {:induction false} DeadStays(cfg: Config, t: Trace, n: nat)
    requires Valid(cfg, t) && n < |t.states| && Dead(t.states[0].row, cfg.digest)
    ensures Dead(t.states[n].row, cfg.digest)
  {
    if n > 0 {
      DeadStays(cfg, t, n - 1);
      assert t.states[n] == Apply(cfg, t.states[n - 1], t.events[n - 1]);
    }
  }

  /** The pipeline has sent, or may still send, an activation that has not taken effect. */
  predicate MayStillActivate(s: State) {
    || (s.activate.sent && s.activate.answer.None?)
    || (!s.handler.timedOut && (s.handler.pipeline.Resolving? || s.handler.pipeline.Staging?))
  }

  /** The row is not open, and nothing can open it any more. */
  predicate Closed(cfg: Config, s: State) {
    && !Open(s.row, cfg.digest)
    && (s.row.None? || s.row == Some(Row(cfg.digest, Staged, Pending)) ==> !MayStillActivate(s))
  }

  /** The row follows this delivery's own requests. */
  predicate RowInv(cfg: Config, s: State) {
    && WellFormed(s.row) && (s.row.Some? ==> Ours(cfg, s.row)) && (s.stage.answer.Some? ==> s.row.Some?)
    && (s.row.Some? && s.row.value.handshake == Acknowledged ==> s.activate.answer == Some(ActivatedPending))
    && (SaidPending(s) ==> s.row.Some? && s.row.value.handshake == Acknowledged)
  }

  predicate SettleInv(cfg: Config, s: State) {
    && (SettleAnswer(s) == Some(SettledMissing) ==> !s.activate.sent && !MayStillActivate(s))
    && SettleAnswer(s) != Some(SettledConflict)
    && (SettleAnswer(s) == Some(SettledAbandoned) ==> s.row.Some? && s.row.value.handshake != Staged)
  }

  predicate RejectInv(cfg: Config, s: State) {
    && (s.handler.response.None? && s.row.Some? && s.row.value.handshake == Acknowledged ==> s.row.value.status == Pending)
    && (s.handler.response.None? && SettleAnswer(s) == Some(SettledAbandoned) ==> s.row == Some(Row(cfg.digest, AbandonedUnacked, Abandoned)))
    && (s.handler.response == Some(Rejected) ==> Closed(cfg, s))
  }

  predicate AloneInv(cfg: Config, s: State) { RowInv(cfg, s) && SettleInv(cfg, s) && RejectInv(cfg, s) }

  lemma AloneAfterRowStep(cfg: Config, s: State, e: Event)
    requires cfg.workersWait && !cfg.overlaps && Inv(s) && AloneInv(cfg, s) && OnRow(e) && Enabled(cfg, s, e)
    ensures AloneInv(cfg, RowStep(cfg, s, e))
  {
  }

  lemma AloneAfterSettlement(cfg: Config, s: State, e: Event)
    requires Inv(s) && AloneInv(cfg, s) && (e.SettleReturns? || e.SettleThrows?) && Enabled(cfg, s, e)
    ensures AloneInv(cfg, Send(s, HandlerStep(s, e)))
  {
  }

  lemma AloneAfterHandlerStep(cfg: Config, s: State, e: Event)
    requires cfg.workersWait && !cfg.overlaps && Inv(s) && AloneInv(cfg, s) && !OnRow(e) && Enabled(cfg, s, e)
    ensures AloneInv(cfg, Send(s, HandlerStep(s, e)))
  {
    if e.SettleReturns? || e.SettleThrows? { AloneAfterSettlement(cfg, s, e); }
  }

  /** What is neither open nor dead: nothing yet, or a job staged by an earlier delivery. */
  lemma StillToCome(row: Option<Row>, d: Digest)
    requires WellFormed(row) && !Dead(row, d) && !Open(row, d)
    ensures row == None || row == Some(Row(d, Staged, Pending))
  {
    if row.Some? {
      var r := row.value;
      assert r == Row(d, r.handshake, r.status);
      assert r.status == Pending || r.status == Processing || r.status == Retry || r.status in {Succeeded, Stale, Abandoned};
    }
  }

  lemma {:induction false} AloneAlways(cfg: Config, t: Trace, n: nat)
    requires Valid(cfg, t) && cfg.workersWait && !cfg.overlaps && n < |t.states|
    requires !Dead(t.states[0].row, cfg.digest) && !Open(t.states[0].row, cfg.digest)
    ensures AloneInv(cfg, t.states[n])
  {
    if n == 0 {
      StillToCome(t.states[0].row, cfg.digest);
    } else {
      AloneAlways(cfg, t, n - 1);
      InvAlways(cfg, t, n - 1);
      var s, e := t.states[n - 1], t.events[n - 1];
      if OnRow(e) { AloneAfterRowStep(cfg, s, e); } else { AloneAfterHandlerStep(cfg, s, e); }
    }
  }

  lemma {:induction false} ResponseStays(cfg: Config, t: Trace, n: nat, k: nat)
    requires Valid(cfg, t) && n <= k < |t.states| && t.states[n].handler.response.Some?
    ensures t.states[k].handler.response == t.states[n].handler.response
  {
    if n < k {
      ResponseStays(cfg, t, n, k - 1);
      assert t.states[k] == Apply(cfg, t.states[k - 1], t.events[k - 1]);
    }
  }

  function Last(t: Trace): State
    requires |t.states| > 0
  {
    t.states[|t.states| - 1]
  }

  function Begin(row: Option<Row>): Trace { Trace([], [Initial(row)]) }

  ghost function Then(cfg: Config, t: Trace, e: Event): (r: Trace)
    requires Valid(cfg, t) && Enabled(cfg, Last(t), e)
    ensures Valid(cfg, r) && Last(r) == Apply(cfg, Last(t), e) && r.states[0] == t.states[0]
  {
    Trace(t.events + [e], t.states + [Apply(cfg, Last(t), e)])
  }

  lemma Revived(cfg: Config, t: Trace)
    requires Valid(cfg, t) && Last(t).handler.response == Some(Rejected) && Runnable(Last(t).row, cfg.digest)
    ensures !RejectedIsFinal(cfg, t.states[0].row)
  {
    var n := |t.states| - 1;
    assert t.states[n].handler.response == Some(Rejected) && Runnable(t.states[n].row, cfg.digest);
  }

  /** The job of an earlier delivery waits or is worked on; this delivery is no longer authorised and
      is rejected, and the job is or becomes due all the same. */
  lemma RejectedWhileOpen(cfg: Config, before: Option<Row>)
    requires WellFormed(before) && Open(before, cfg.digest)
    ensures !RejectedIsFinal(cfg, before)
  {
    var t := Begin(before);
    t := Then(cfg, t, ResolveReturns(false));
    if before.value.status == Processing { t := Then(cfg, t, WorkerEnds(Retry)); }
    Revived(cfg, t);
  }

  /** The same with an authorised delivery: it finds a duplicate that is no longer pending, settles, and
      is told that the job was abandoned. */
  lemma DuplicateOfAWaitingJob(cfg: Config) returns (t: Trace)
    ensures Valid(cfg, t) && t.states[0].row == Last(t).row == Some(Row(cfg.digest, Acknowledged, Retry))
    ensures Last(t).settles == [Some(SettledAbandoned)] && Last(t).handler.response == Some(Rejected)
    ensures Runnable(Last(t).row, cfg.digest)
  {
    t := DuplicateIsStaged(cfg);
    t := Then(cfg, t, StoreActivates(false));
    t := Then(cfg, t, ActivateReturns);
    t := Then(cfg, t, StoreSettles(0));
    t := Then(cfg, t, SettleReturns);
  }

  lemma DuplicateIsStaged(cfg: Config) returns (t: Trace)
    ensures Valid(cfg, t) && t.states[0].row == Some(Row(cfg.digest, Acknowledged, Retry))
    ensures Last(t) == State(Handler(false, true, NotStarted, 0, Activating, Waiting, None), Some(Row(cfg.digest, Acknowledged, Retry)),
                             Request(true, Some(Duplicate)), Request(true, None), [])
  {
    t := Begin(Some(Row(cfg.digest, Acknowledged, Retry)));
    t := Then(cfg, t, ResolveReturns(true));
    t := Then(cfg, t, StoreStages(false));
    t := Then(cfg, t, StageReturns);
  }

  /** This delivery is rejected; the other one stages and activates the job after that. */
  lemma OtherDeliveryOpensTheJob(cfg: Config, before: Option<Row>)
    requires cfg.overlaps && (before == None || before == Some(Row(cfg.digest, Staged, Pending)))
    ensures !RejectedIsFinal(cfg, before)
  {
    var t := Begin(before);
    t := Then(cfg, t, ResolveReturns(false));
    t := Then(cfg, t, OtherStages(false));
    t := Then(cfg, t, OtherActivates(false));
    Revived(cfg, t);
  }

  lemma JobIsActivated(cfg: Config, before: Option<Row>) returns (t: Trace)
    requires before == None || before == Some(Row(cfg.digest, Staged, Pending))
    ensures Valid(cfg, t) && t.states[0].row == before
    ensures Last(t).handler == Handler(false, true, NotStarted, 0, Activating, Waiting, None)
    ensures Last(t).row == Some(Row(cfg.digest, Acknowledged, Pending)) && Last(t).settles == []
  {
    t := Begin(before);
    t := Then(cfg, t, ResolveReturns(true));
    t := Then(cfg, t, StoreStages(false));
    t := Then(cfg, t, StageReturns);
    t := Then(cfg, t, StoreActivates(false));
  }

  lemma WorkerIsFaster(cfg: Config, before: Option<Row>) returns (t: Trace)
    requires !cfg.workersWait && (before == None || before == Some(Row(cfg.digest, Staged, Pending)))
    ensures Valid(cfg, t) && t.states[0].row == before
    ensures Last(t).handler == Handler(true, true, InFlight(0), 1, Activating, DeadlineSettling, None)
    ensures Last(t).row == Some(Row(cfg.digest, Acknowledged, Processing)) && Last(t).settles == [None]
  {
    t := JobIsActivated(cfg, before);
    t := Then(cfg, t, WorkerClaims);
    t := Then(cfg, t, DeadlineElapses);
  }

  /** A worker takes the job between its activation and the settlement, which then finds the job no
      longer pending and reports it abandoned; the worker fails and the job is due for a retry. */
  lemma EarlyWorkerRevivesRejected(cfg: Config, before: Option<Row>)
    requires !cfg.workersWait && (before == None || before == Some(Row(cfg.digest, Staged, Pending)))
    ensures !RejectedIsFinal(cfg, before)
  {
    var t := WorkerIsFaster(cfg, before);
    t := Then(cfg, t, StoreSettles(0));
    t := Then(cfg, t, SettleReturns);
    t := Then(cfg, t, WorkerEnds(Retry));
    Revived(cfg, t);
  }

  /** "rejected" is final in every interleaving exactly when the store held a row that is done with or
      another command's, or held no open one, workers leave the job alone until this delivery has been
      answered, and no other delivery of the interaction is going on. */
  lemma RejectedIsFinalIff(cfg: Config, before: Option<Row>)
    requires WellFormed(before)
    ensures RejectedIsFinal(cfg, before) <==>
            Dead(before, cfg.digest) || (!Open(before, cfg.digest) && cfg.workersWait && !cfg.overlaps)
  {
    if Dead(before, cfg.digest) {
      forall t: Trace, k: nat | Valid(cfg, t) && t.states[0].row == before && k < |t.states|
        ensures !Runnable(t.states[k].row, cfg.digest)
      {
        DeadStays(cfg, t, k);
      }
    } else if Open(before, cfg.digest) {
      RejectedWhileOpen(cfg, before);
    } else {
      StillToCome(before, cfg.digest);
      if cfg.overlaps {
        OtherDeliveryOpensTheJob(cfg, before);
      } else if !cfg.workersWait {
        EarlyWorkerRevivesRejected(cfg, before);
      } else {
        AloneKeepsRejectedFinal(cfg, before);
      }
    }
  }

  lemma AloneKeepsRejectedFinal(cfg: Config, before: Option<Row>)
    requires cfg.workersWait && !cfg.overlaps && !Dead(before, cfg.digest) && !Open(before, cfg.digest)
    ensures RejectedIsFinal(cfg, before)
  {
    forall t: Trace, n: nat, k: nat |
      Valid(cfg, t) && t.states[0].row == before && n <= k < |t.states| && t.states[n].handler.response == Some(Rejected)
      ensures !Runnable(t.states[k].row, cfg.digest)
    {
      ResponseStays(cfg, t, n, k);
      AloneAlways(cfg, t, k);
    }
  }

  // ---------------------------------------------------------------- once, and in time

  /** However many branches ask for it, the store is called to settle at most once: by the first of them. */
  lemma SettledAtMostOnce(cfg: Config, t: Trace, n: nat)
    requires Valid(cfg, t) && n < |t.states|
    ensures |t.states[n].settles| == t.states[n].handler.settleCalls <= 1
    ensures |t.states[n].settles| == 1 <==> !t.states[n].handler.settlement.NotStarted?
  {
    InvAlways(cfg, t, n);
  }

  lemma StepAfterTheDeadline(cfg: Config, s: State, e: Event, after: State)
    requires Inv(s) && Enabled(cfg, s, e) && s.handler.timedOut && after == Apply(cfg, s, e)
    ensures after.handler.timedOut && after.stage.sent == s.stage.sent && after.activate.sent == s.activate.sent
  {
  }

  lemma RunAfterTheDeadline(cfg: Config, t: Trace, i: nat)
    requires Valid(cfg, t) && i < |t.events| && t.states[i].handler.timedOut
    ensures t.states[i + 1].handler.timedOut
    ensures t.states[i + 1].stage.sent == t.states[i].stage.sent && t.states[i + 1].activate.sent == t.states[i].activate.sent
  {
    InvAlways(cfg, t, i);
    assert Enabled(cfg, t.states[i], t.events[i]);
    StepAfterTheDeadline(cfg, t.states[i], t.events[i], t.states[i + 1]);
  }

  /** Once time is up, nothing is staged that was not staged before, and no activation is started
      that was not started before. */
  lemma {:induction false} NothingStartsAfterTheDeadline(cfg: Config, t: Trace, n: nat, k: nat)
    requires Valid(cfg, t) && n <= k < |t.states| && t.states[n].handler.timedOut
    ensures t.states[k].handler.timedOut
    ensures t.states[k].stage.sent == t.states[n].stage.sent && t.states[k].activate.sent == t.states[n].activate.sent
  {
    if n < k {
      NothingStartsAfterTheDeadline(cfg, t, n, k - 1);
      RunAfterTheDeadline(cfg, t, k - 1);
    }
  }

  // ---------------------------------------------------------------- the closures

  /** The variables that the pipeline and the deadline share, changed in place by each stretch of
      code between two awaits. */
  class Acknowledgement {
    var timedOut: bool
    var stagedIdentity: bool
    var settlement: Settlement
    var settleCalls: nat
    var pipeline: Pipeline
    var deadline: Deadline
    var response: Option<Outcome>

    function Now(): Handler
      reads this
    {
      Handler(timedOut, stagedIdentity, settlement, settleCalls, pipeline, deadline, response)
    }

    constructor ()
      ensures Now() == FRESH_HANDLER
    {
      timedOut, stagedIdentity, settlement, settleCalls := false, false, NotStarted, 0;
      pipeline, deadline, response := Resolving, Waiting, None;
    }

    method FinishPipeline(outcome: Outcome)
      modifies this
      ensures Now() == Race(old(Now()).(pipeline := PipelineDone(outcome)))
    {
      pipeline := PipelineDone(outcome);
      if response.None? { response := Some(outcome); }
    }

    method FinishDeadline(outcome: Outcome)
      requires response.None? ==> !pipeline.PipelineDone?
      modifies this
      ensures Now() == Race(old(Now()).(deadline := DeadlineDone(outcome)))
    {
      deadline := DeadlineDone(outcome);
      if response.None? { response := Some(outcome); }
    }

    /** The memo: only the first call reaches the store. */
    method StartSettlement()
      modifies this`settlement, this`settleCalls
      ensures Now() == Memoised(old(Now()))
    {
      if settlement.NotStarted? {
        settlement := InFlight(settleCalls);
        settleCalls := settleCalls + 1;
      }
    }

    method SettleFromPipeline()
      modifies this
      ensures Now() == PipelineSettles(old(Now()))
    {
      if !stagedIdentity {
        FinishPipeline(Rejected);
        return;
      }
      StartSettlement();
      if settlement.Resolved? { FinishPipeline(settlement.outcome); } else { pipeline := PipelineSettling; }
    }

    method ResumeAfterResolve(ok: bool)
      modifies this
      ensures Now() == AfterResolve(old(Now()), ok)
    {
      if !ok || timedOut {
        FinishPipeline(Rejected);
      } else {
        stagedIdentity := true;
        pipeline := Staging;
      }
    }

    method ResumeAfterStage(result: StageResult)
      modifies this
      ensures Now() == AfterStage(old(Now()), result)
    {
      if result.StageConflict? {
        FinishPipeline(Rejected);
      } else if timedOut {
        SettleFromPipeline();
      } else {
        pipeline := Activating;
      }
    }

    method ResumeAfterActivate(result: ActivateResult)
      modifies this
      ensures Now() == AfterActivate(old(Now()), result)
    {
      if result.ActivatedPending? { FinishPipeline(Acked); } else { SettleFromPipeline(); }
    }

    method DeadlineElapsed()
      requires response.None? ==> !pipeline.PipelineDone?
      modifies this
      ensures Now() == AfterDeadline(old(Now()))
    {
      timedOut := true;
      if !stagedIdentity {
        FinishDeadline(Rejected);
        return;
      }
      StartSettlement();
      if settlement.Resolved? { FinishDeadline(settlement.outcome); } else { deadline := DeadlineSettling; }
    }
  }
}
