/** Concurrent administrator creates, with cancellations and no-shows in between. Every create runs
    in a transaction that is retried twice; it locks its period and its user, looks for the
    student's own row, counts the confirmed rows of the slot, and inserts. What its reads see
    depends on the isolation level: under ReadCommitted each statement sees the latest committed
    rows, under the two snapshot levels every read sees the rows as they were when the transaction
    began, which is before it waited for its locks. Serializable also refuses, at commit, a call whose
    slot has got a row since; it need not refuse one whose slot has only lost confirmed rows, and may
    refuse any call at any time. */
module BookingCapacity {
  import opened Wrappers

  const MAX_ATTEMPTS: nat := 3

  type RowId = nat
  type CallId = nat

  datatype Isolation = ReadCommitted | RepeatableRead | Serializable

  datatype Slot = Slot(date: string, period: string)

  datatype Status = Confirmed | Cancelled | NoShow

  datatype Row = Row(user: string, slot: Slot, status: Status, createdBy: Option<CallId>)

  type Rows = map<RowId, Row>

  datatype Call = Call(user: string, slot: Slot)

  datatype Config = Config(isolation: Isolation, capacity: Slot -> nat, calls: seq<Call>)

  datatype Result = Booked(id: RowId) | Duplicate | CancelledSameSlot | Full | RetryExhausted | Failed

  datatype Phase =
    | Idle(attempt: nat)
    | Begun(attempt: nat, snapshot: Rows)
    | PeriodLocked(attempt: nat, snapshot: Rows)
    | UserLocked(attempt: nat, snapshot: Rows)
    | NoOwnRow(attempt: nat, snapshot: Rows)
    | BelowCapacity(attempt: nat, snapshot: Rows)
    | Done(result: Result)

  datatype State = State(rows: Rows, nextId: RowId, phases: seq<Phase>)

  datatype Event =
    | Begin(c: CallId)
    | LockPeriod(c: CallId)
    | LockUser(c: CallId)
    | FindOwnRow(c: CallId)
    | CountConfirmed(c: CallId)
    | Commit(c: CallId)
    | Conflict(c: CallId)
    | Fail(c: CallId)
    | Cancel(id: RowId)
    | MarkNoShow(id: RowId)

  // ---------------------------------------------------------------- the steps

  function ConfirmedIn(rows: Rows, slot: Slot): set<RowId> {
    set i | i in rows && rows[i].slot == slot && rows[i].status == Confirmed
  }

  function OwnRows(rows: Rows, call: Call): set<RowId> {
    set i | i in rows && rows[i].user == call.user && rows[i].slot == call.slot
  }

  predicate HoldsPeriod(p: Phase) {
    p.PeriodLocked? || p.UserLocked? || p.NoOwnRow? || p.BelowCapacity?
  }

  predicate HoldsUser(p: Phase) {
    p.UserLocked? || p.NoOwnRow? || p.BelowCapacity?
  }

  predicate InProgress(p: Phase) {
    !p.Idle? && !p.Done?
  }

  function View(cfg: Config, s: State, c: CallId): Rows
    requires c < |s.phases| && InProgress(s.phases[c])
  {
    if cfg.isolation == ReadCommitted then s.rows else s.phases[c].snapshot
  }

  ghost predicate Enabled(cfg: Config, s: State, e: Event) {
    && |s.phases| == |cfg.calls|
    && match e
       case Begin(c) => c < |s.phases| && s.phases[c].Idle?
       case LockPeriod(c) =>
         c < |s.phases| && s.phases[c].Begun? &&
         forall d :: 0 <= d < |s.phases| && d != c && cfg.calls[d].slot == cfg.calls[c].slot ==> !HoldsPeriod(s.phases[d])
       case LockUser(c) =>
         c < |s.phases| && s.phases[c].PeriodLocked? &&
         forall d :: 0 <= d < |s.phases| && d != c && cfg.calls[d].user == cfg.calls[c].user ==> !HoldsUser(s.phases[d])
       case FindOwnRow(c) => c < |s.phases| && s.phases[c].UserLocked?
       case CountConfirmed(c) => c < |s.phases| && s.phases[c].NoOwnRow?
       case Commit(c) => c < |s.phases| && s.phases[c].BelowCapacity?
       case Conflict(c) => c < |s.phases| && InProgress(s.phases[c])
       case Fail(c) => c < |s.phases| && InProgress(s.phases[c])
       case Cancel(id) => id in s.rows && s.rows[id].status == Confirmed
       case MarkNoShow(id) => id in s.rows && s.rows[id].status == Confirmed
  }

  function Retried(attempt: nat): Phase {
    if attempt + 1 < MAX_ATTEMPTS then Idle(attempt + 1) else Done(RetryExhausted)
  }

  function Inserted(cfg: Config, s: State, c: CallId): State
    requires c < |s.phases| == |cfg.calls|
  {
    State(s.rows[s.nextId := Row(cfg.calls[c].user, cfg.calls[c].slot, Confirmed, Some(c))], s.nextId + 1,
          s.phases[c := Done(Booked(s.nextId))])
  }

  function CommitOf(cfg: Config, s: State, c: CallId): State
    requires c < |s.phases| == |cfg.calls| && s.phases[c].BelowCapacity?
  {
    var call := cfg.calls[c];
    if cfg.isolation == Serializable && exists i :: i in s.rows && s.rows[i].slot == call.slot && i !in s.phases[c].snapshot then
      s.(phases := s.phases[c := Retried(s.phases[c].attempt)])
    else if OwnRows(s.rows, call) != {} then
      s.(phases := s.phases[c := Done(Duplicate)])  // the unique index on user, date and period
    else Inserted(cfg, s, c)
  }

  ghost function Apply(cfg: Config, s: State, e: Event): State
    requires Enabled(cfg, s, e)
  {
    match e
    case Begin(c) => s.(phases := s.phases[c := Begun(s.phases[c].attempt, s.rows)])
    case LockPeriod(c) => s.(phases := s.phases[c := PeriodLocked(s.phases[c].attempt, s.phases[c].snapshot)])
    case LockUser(c) => s.(phases := s.phases[c := UserLocked(s.phases[c].attempt, s.phases[c].snapshot)])
    case FindOwnRow(c) =>
      var view := View(cfg, s, c);
      var own := OwnRows(view, cfg.calls[c]);
      s.(phases := s.phases[c :=
        if own == {} then NoOwnRow(s.phases[c].attempt, s.phases[c].snapshot)
        else if exists i :: i in own && view[i].status == Confirmed then Done(Duplicate)
        else Done(CancelledSameSlot)])
    case CountConfirmed(c) =>
      s.(phases := s.phases[c :=
        if |ConfirmedIn(View(cfg, s, c), cfg.calls[c].slot)| >= cfg.capacity(cfg.calls[c].slot) then Done(Full)
        else BelowCapacity(s.phases[c].attempt, s.phases[c].snapshot)])
    case Commit(c) => CommitOf(cfg, s, c)
    case Conflict(c) => s.(phases := s.phases[c := Retried(s.phases[c].attempt)])
    case Fail(c) => s.(phases := s.phases[c := Done(Failed)])
    case Cancel(id) => s.(rows := s.rows[id := s.rows[id].(status := Cancelled)])
    case MarkNoShow(id) => s.(rows := s.rows[id := s.rows[id].(status := NoShow)])
  }

  /** The rows of one slot as a call sees them: as they are under ReadCommitted, else as they were when its
      transaction began. */
  ghost predicate Sees(cfg: Config, s: State, c: CallId, rows: Rows) {
    c < |s.phases| && InProgress(s.phases[c])
    && rows == if cfg.isolation == ReadCommitted then s.rows else s.phases[c].snapshot
  }

  /** The student's own row in the slot ends the call: as a duplicate when it is confirmed, and else as one
      that was cancelled or missed before. */
  lemma OwnRowAnswers(cfg: Config, s: State, c: CallId, rows: Rows)
    requires Enabled(cfg, s, FindOwnRow(c)) && Sees(cfg, s, c, rows)
    ensures var call, after := cfg.calls[c], Apply(cfg, s, FindOwnRow(c));
            && after == s.(phases := s.phases[c := after.phases[c]])
            && (after.phases[c] == Done(Duplicate) <==>
                  exists i :: i in rows && rows[i].user == call.user && rows[i].slot == call.slot && rows[i].status == Confirmed)
            && (after.phases[c] == Done(CancelledSameSlot) <==>
                  && (exists i :: i in rows && rows[i].user == call.user && rows[i].slot == call.slot)
                  && forall i :: i in rows && rows[i].user == call.user && rows[i].slot == call.slot ==> rows[i].status != Confirmed)
            && (!after.phases[c].Done? ==> after.phases[c] == NoOwnRow(s.phases[c].attempt, s.phases[c].snapshot))
  {
    var call := cfg.calls[c];
    assert forall i :: i in OwnRows(rows, call) <==> i in rows && rows[i].user == call.user && rows[i].slot == call.slot;
  }

  /** The slot is full exactly when no fewer confirmed rows are seen than there are places. */
  lemma CountAnswers(cfg: Config, s: State, c: CallId, rows: Rows)
    requires Enabled(cfg, s, CountConfirmed(c)) && Sees(cfg, s, c, rows)
    ensures var call, after := cfg.calls[c], Apply(cfg, s, CountConfirmed(c));
            var taken := set i | i in rows && rows[i].slot == call.slot && rows[i].status == Confirmed;
            && after == s.(phases := s.phases[c := after.phases[c]])
            && after.phases[c] == if |taken| >= cfg.capacity(call.slot) then Done(Full)
                                  else BelowCapacity(s.phases[c].attempt, s.phases[c].snapshot)
  {
    var call := cfg.calls[c];
    assert ConfirmedIn(rows, call.slot) == set i | i in rows && rows[i].slot == call.slot && rows[i].status == Confirmed;
  }

  /** A commit is refused when validation finds a new row in the slot; else it fails as a duplicate on the
      student's own row, and else it inserts one confirmed row. */
  lemma CommitAnswers(cfg: Config, s: State, c: CallId)
    requires Enabled(cfg, s, Commit(c))
    ensures var call, after := cfg.calls[c], Apply(cfg, s, Commit(c));
            if cfg.isolation == Serializable && exists i :: i in s.rows && s.rows[i].slot == call.slot && i !in s.phases[c].snapshot then
              after == Apply(cfg, s, Conflict(c))
            else if exists i :: i in s.rows && s.rows[i].user == call.user && s.rows[i].slot == call.slot then
              after == s.(phases := s.phases[c := Done(Duplicate)])
            else
              && after.rows == s.rows[s.nextId := Row(call.user, call.slot, Confirmed, Some(c))]
              && after.phases == s.phases[c := Done(Booked(s.nextId))] && after.nextId == s.nextId + 1
  {
    var call := cfg.calls[c];
    assert forall i :: i in OwnRows(s.rows, call) <==> i in s.rows && s.rows[i].user == call.user && s.rows[i].slot == call.slot;
  }

  /** Any other error ends the call at once. */
  lemma FailureAnswers(cfg: Config, s: State, c: CallId)
    requires Enabled(cfg, s, Fail(c))
    ensures Apply(cfg, s, Fail(c)) == s.(phases := s.phases[c := Done(Failed)])
  {
  }

  /** A conflict starts the call again from its beginning, twice; the third one ends it. */
  lemma ConflictAnswers(cfg: Config, s: State, c: CallId)
    requires Enabled(cfg, s, Conflict(c))
    ensures Apply(cfg, s, Conflict(c)) ==
            s.(phases := s.phases[c := if s.phases[c].attempt <= 1 then Idle(s.phases[c].attempt + 1) else Done(RetryExhausted)])
  {
  }

  /** Rows only leave CONFIRMED, each by its own cancellation or no-show, and every confirmed row can. */
  lemma RowsLeaveConfirmed(cfg: Config, s: State, e: Event, id: RowId)
    requires |s.phases| == |cfg.calls| && id in s.rows && id != s.nextId
    ensures Enabled(cfg, s, e) ==>
              && id in Apply(cfg, s, e).rows
              && Apply(cfg, s, e).rows[id] ==
                 if s.rows[id].status == Confirmed && e == Cancel(id) then s.rows[id].(status := Cancelled)
                 else if s.rows[id].status == Confirmed && e == MarkNoShow(id) then s.rows[id].(status := NoShow)
                 else s.rows[id]
    ensures s.rows[id].status == Confirmed ==> Enabled(cfg, s, Cancel(id)) && Enabled(cfg, s, MarkNoShow(id))
  {
  }

  datatype Trace = Trace(events: seq<Event>, states: seq<State>)

  ghost predicate WithinCapacity(cfg: Config, rows: Rows) {
    forall slot :: |ConfirmedIn(rows, slot)| <= cfg.capacity(slot)
  }

  ghost predicate OneRowPerStudentAndSlot(rows: Rows) {
    forall i, k :: i in rows && k in rows && rows[i].user == rows[k].user && rows[i].slot == rows[k].slot ==> i == k
  }

  ghost predicate Initial(cfg: Config, s: State) {
    && WithinCapacity(cfg, s.rows) && OneRowPerStudentAndSlot(s.rows)
    && (forall i :: i in s.rows ==> i < s.nextId && s.rows[i].createdBy == None)
    && |s.phases| == |cfg.calls| && forall c :: 0 <= c < |s.phases| ==> s.phases[c] == Idle(0)
  }

  ghost predicate Valid(cfg: Config, t: Trace) {
    && |t.states| == |t.events| + 1
    && Initial(cfg, t.states[0])
    && forall i :: 0 <= i < |t.events| ==> Enabled(cfg, t.states[i], t.events[i]) && t.states[i + 1] == Apply(cfg, t.states[i], t.events[i])
  }

  // ---------------------------------------------------------------- kept at every isolation level

  /** A call has put a row into the table exactly when it says so, and then exactly one. */
  ghost predicate EffectsOnce(s: State) {
    && (forall i, c :: i in s.rows && s.rows[i].createdBy == Some(c) ==> c < |s.phases| && s.phases[c] == Done(Booked(i)))
    && (forall c, i :: 0 <= c < |s.phases| && s.phases[c] == Done(Booked(i)) ==> i in s.rows && s.rows[i].createdBy == Some(c))
  }

  ghost predicate BooksItsSlot(cfg: Config, s: State) {
    forall i, c :: i in s.rows && s.rows[i].createdBy == Some(c) ==>
      c < |cfg.calls| && s.rows[i].user == cfg.calls[c].user && s.rows[i].slot == cfg.calls[c].slot
  }

  ghost predicate PeriodExclusive(cfg: Config, s: State) {
    |s.phases| == |cfg.calls| &&
    forall c, d :: 0 <= c < |s.phases| && 0 <= d < |s.phases| && HoldsPeriod(s.phases[c]) && HoldsPeriod(s.phases[d]) ==>
      (cfg.calls[c].slot == cfg.calls[d].slot ==> c == d)
  }

  ghost predicate Inv(cfg: Config, s: State) {
    && |s.phases| == |cfg.calls|
    && (forall i :: i in s.rows ==> i < s.nextId)
    && OneRowPerStudentAndSlot(s.rows)
    && EffectsOnce(s) && BooksItsSlot(cfg, s)
    && PeriodExclusive(cfg, s)
    && forall c :: 0 <= c < |s.phases| && !s.phases[c].Done? ==> s.phases[c].attempt < MAX_ATTEMPTS
  }

  /** At most one transaction holds the lock of a student. */
  ghost predicate UserExclusive(cfg: Config, s: State) {
    |s.phases| == |cfg.calls| &&
    forall c, d :: 0 <= c < |s.phases| && 0 <= d < |s.phases| && HoldsUser(s.phases[c]) && HoldsUser(s.phases[d]) ==>
      (cfg.calls[c].user == cfg.calls[d].user ==> c == d)
  }

  lemma UserExclusiveAfterStep(cfg: Config, s: State, e: Event)
    requires UserExclusive(cfg, s) && Enabled(cfg, s, e)
    ensures UserExclusive(cfg, Apply(cfg, s, e))
  {
  }

  /** Waiting for a lock ends: where nobody else holds it, the next step is possible. */
  lemma FreeLocksAreTaken(cfg: Config, s: State, c: CallId)
    requires |s.phases| == |cfg.calls| && c < |s.phases|
    ensures s.phases[c].Begun? ==>
              (Enabled(cfg, s, LockPeriod(c)) <==>
               forall d :: 0 <= d < |s.phases| && d != c && HoldsPeriod(s.phases[d]) ==> cfg.calls[d].slot != cfg.calls[c].slot)
    ensures s.phases[c].PeriodLocked? ==>
              (Enabled(cfg, s, LockUser(c)) <==>
               forall d :: 0 <= d < |s.phases| && d != c && HoldsUser(s.phases[d]) ==> cfg.calls[d].user != cfg.calls[c].user)
  {
  }

  lemma {:induction false} UserLocksAreExclusive(cfg: Config, t: Trace, n: nat)
    requires Valid(cfg, t) && n < |t.states|
    ensures UserExclusive(cfg, t.states[n])
  {
    if n > 0 {
      UserLocksAreExclusive(cfg, t, n - 1);
      UserExclusiveAfterStep(cfg, t.states[n - 1], t.events[n - 1]);
    }
  }

  /** No two transactions ever hold the lock of one student or of one period. */
  lemma LocksAreExclusive(cfg: Config, t: Trace, n: nat)
    requires Valid(cfg, t) && n < |t.states|
    ensures PeriodExclusive(cfg, t.states[n]) && UserExclusive(cfg, t.states[n])
  {
    InvAlways(cfg, t, n);
    UserLocksAreExclusive(cfg, t, n);
  }

  lemma InvAfterPhase(cfg: Config, s: State, c: CallId, p: Phase)
    requires Inv(cfg, s) && c < |s.phases| && !s.phases[c].Done?
    requires if p.Done? then !p.result.Booked? else p.attempt < MAX_ATTEMPTS
    requires HoldsPeriod(p) && !HoldsPeriod(s.phases[c]) ==>
               forall d :: 0 <= d < |s.phases| && d != c && cfg.calls[d].slot == cfg.calls[c].slot ==> !HoldsPeriod(s.phases[d])
    ensures Inv(cfg, s.(phases := s.phases[c := p]))
  {
  }

  lemma InsertKeepsOneRow(rows: Rows, id: RowId, row: Row)
    requires OneRowPerStudentAndSlot(rows) && OwnRows(rows, Call(row.user, row.slot)) == {}
    ensures OneRowPerStudentAndSlot(rows[id := row])
  {
    assert forall i :: i in rows ==> i !in OwnRows(rows, Call(row.user, row.slot));
  }

  lemma InsertKeepsSlots(cfg: Config, s: State, c: CallId)
    requires |s.phases| == |cfg.calls| && BooksItsSlot(cfg, s) && c < |s.phases|
    ensures BooksItsSlot(cfg, Inserted(cfg, s, c))
  {
  }

  lemma InsertKeepsEffects(cfg: Config, s: State, c: CallId)
    requires Inv(cfg, s) && Enabled(cfg, s, Commit(c))
    ensures EffectsOnce(Inserted(cfg, s, c))
  {
    var s' := Inserted(cfg, s, c);
    forall i, d | i in s'.rows && s'.rows[i].createdBy == Some(d) ensures d < |s'.phases| && s'.phases[d] == Done(Booked(i)) {
      if i != s.nextId { assert i in s.rows && s.phases[d] == Done(Booked(i)) && d != c; }
    }
    forall d, i | 0 <= d < |s'.phases| && s'.phases[d] == Done(Booked(i)) ensures i in s'.rows && s'.rows[i].createdBy == Some(d) {
      if d != c { assert s.phases[d] == Done(Booked(i)) && i in s.rows && i != s.nextId; }
    }
  }

  lemma InvAfterInsert(cfg: Config, s: State, c: CallId)
    requires Inv(cfg, s) && Enabled(cfg, s, Commit(c)) && OwnRows(s.rows, cfg.calls[c]) == {}
    ensures Inv(cfg, Inserted(cfg, s, c))
  {
    var call := cfg.calls[c];
    InsertKeepsOneRow(s.rows, s.nextId, Row(call.user, call.slot, Confirmed, Some(c)));
    InsertKeepsSlots(cfg, s, c);
    InsertKeepsEffects(cfg, s, c);
  }

  lemma InvAfterStatus(cfg: Config, s: State, id: RowId, status: Status)
    requires Inv(cfg, s) && id in s.rows
    ensures Inv(cfg, s.(rows := s.rows[id := s.rows[id].(status := status)]))
  {
  }

  lemma InvAfterCommit(cfg: Config, s: State, c: CallId)
    requires Inv(cfg, s) && Enabled(cfg, s, Commit(c))
    ensures Inv(cfg, CommitOf(cfg, s, c))
  {
    var s' := CommitOf(cfg, s, c);
    if s'.nextId == s.nextId { InvAfterPhase(cfg, s, c, s'.phases[c]); } else { InvAfterInsert(cfg, s, c); }
  }

  lemma InvAfterCallStep(cfg: Config, s: State, e: Event)
    requires Inv(cfg, s) && Enabled(cfg, s, e) && !e.Commit? && !e.Cancel? && !e.MarkNoShow?
    ensures Inv(cfg, Apply(cfg, s, e))
  {
    InvAfterPhase(cfg, s, e.c, Apply(cfg, s, e).phases[e.c]);
  }

  lemma InvAfterStep(cfg: Config, s: State, e: Event)
    requires Inv(cfg, s) && Enabled(cfg, s, e)
    ensures Inv(cfg, Apply(cfg, s, e))
  {
    if e.Cancel? {
      InvAfterStatus(cfg, s, e.id, Cancelled);
    } else if e.MarkNoShow? {
      InvAfterStatus(cfg, s, e.id, NoShow);
    } else if e.Commit? {
      InvAfterCommit(cfg, s, e.c);
    } else {
      InvAfterCallStep(cfg, s, e);
    }
  }

  lemma {:induction false} InvAlways(cfg: Config, t: Trace, n: nat)
    requires Valid(cfg, t) && n < |t.states|
    ensures Inv(cfg, t.states[n])
  {
    if n > 0 {
      InvAlways(cfg, t, n - 1);
      InvAfterStep(cfg, t.states[n - 1], t.events[n - 1]);
    }
  }

  /** No student ever has two rows for a slot, and each call has put in one row, for its own student
      and slot, when it says so, and none otherwise, however often it was retried. */
  lemma EffectsHappenOnce(cfg: Config, t: Trace, n: nat)
    requires Valid(cfg, t) && n < |t.states|
    ensures OneRowPerStudentAndSlot(t.states[n].rows) && EffectsOnce(t.states[n]) && BooksItsSlot(cfg, t.states[n])
  {
    InvAlways(cfg, t, n);
  }

  // ---------------------------------------------------------------- capacity

  /** A call about to insert counted fewer confirmed rows than there are places: rows it can still
      rely on, since no other call can insert into its slot meanwhile, or its snapshot, which the
      commit compares with the table. */
  ghost predicate CountedInv(cfg: Config, s: State) {
    forall c :: 0 <= c < |s.phases| == |cfg.calls| && s.phases[c].BelowCapacity? ==>
      |ConfirmedIn(View(cfg, s, c), cfg.calls[c].slot)| < cfg.capacity(cfg.calls[c].slot)
  }

  lemma FewerConfirmed(a: set<RowId>, b: set<RowId>)
    requires a <= b
    ensures |a| <= |b|
  {
    assert a + (b - a) == b;
  }

  /** Since a call took its snapshot, rows have only been added, and have only left CONFIRMED. */
  ghost predicate SnapshotInv(s: State) {
    && (forall i :: i in s.rows ==> i < s.nextId)
    && forall c :: 0 <= c < |s.phases| && InProgress(s.phases[c]) ==> Since(s.phases[c].snapshot, s.rows)
  }

  ghost predicate Since(before: Rows, after: Rows) {
    forall i :: i in before ==>
      i in after && after[i].slot == before[i].slot && (after[i].status == Confirmed ==> before[i].status == Confirmed)
  }

  lemma TableAfterStep(cfg: Config, s: State, e: Event)
    requires SnapshotInv(s) && Enabled(cfg, s, e)
    ensures Since(s.rows, Apply(cfg, s, e).rows) && s.nextId <= Apply(cfg, s, e).nextId
    ensures forall i :: i in Apply(cfg, s, e).rows ==> i < Apply(cfg, s, e).nextId
  {
  }

  lemma SnapshotIsKept(cfg: Config, s: State, e: Event, c: CallId)
    requires Enabled(cfg, s, e) && c < |Apply(cfg, s, e).phases| && InProgress(Apply(cfg, s, e).phases[c])
    ensures var p := Apply(cfg, s, e).phases[c];
            p.snapshot == s.rows || (c < |s.phases| && InProgress(s.phases[c]) && p.snapshot == s.phases[c].snapshot)
  {
  }

  lemma SinceTransitive(a: Rows, b: Rows, c: Rows)
    requires Since(a, b) && Since(b, c)
    ensures Since(a, c)
  {
  }

  lemma SnapshotAfterStep(cfg: Config, s: State, e: Event)
    requires SnapshotInv(s) && Enabled(cfg, s, e)
    ensures SnapshotInv(Apply(cfg, s, e))
  {
    var s' := Apply(cfg, s, e);
    TableAfterStep(cfg, s, e);
    forall c: CallId | c < |s'.phases| && InProgress(s'.phases[c]) ensures Since(s'.phases[c].snapshot, s'.rows) {
      SnapshotIsKept(cfg, s, e, c);
      if s'.phases[c].snapshot != s.rows { SinceTransitive(s.phases[c].snapshot, s.rows, s'.rows); }
    }
  }

  lemma {:induction false} SnapshotsAlways(cfg: Config, t: Trace, n: nat)
    requires Valid(cfg, t) && n < |t.states|
    ensures SnapshotInv(t.states[n])
  {
    if n > 0 {
      SnapshotsAlways(cfg, t, n - 1);
      SnapshotAfterStep(cfg, t.states[n - 1], t.events[n - 1]);
    }
  }

  /** A slot that has got no row since has no more confirmed ones than it had. */
  lemma NoneAdded(before: Rows, after: Rows, slot: Slot)
    requires Since(before, after) && forall i :: i in after && after[i].slot == slot ==> i in before
    ensures |ConfirmedIn(after, slot)| <= |ConfirmedIn(before, slot)|
  {
    assert ConfirmedIn(after, slot) <= ConfirmedIn(before, slot);
    FewerConfirmed(ConfirmedIn(after, slot), ConfirmedIn(before, slot));
  }

  lemma ConfirmedAfterInsert(rows: Rows, id: RowId, row: Row, slot: Slot)
    requires id !in rows && row.status == Confirmed
    ensures ConfirmedIn(rows[id := row], slot) == ConfirmedIn(rows, slot) + (if slot == row.slot then {id} else {})
  {
  }

  lemma CapacityAfterInsert(cfg: Config, s: State, c: CallId)
    requires WithinCapacity(cfg, s.rows) && c < |cfg.calls| == |s.phases|
    requires s.nextId !in s.rows && |ConfirmedIn(s.rows, cfg.calls[c].slot)| < cfg.capacity(cfg.calls[c].slot)
    ensures WithinCapacity(cfg, Inserted(cfg, s, c).rows)
    ensures forall slot :: slot != cfg.calls[c].slot ==> ConfirmedIn(Inserted(cfg, s, c).rows, slot) == ConfirmedIn(s.rows, slot)
  {
    var row := Row(cfg.calls[c].user, cfg.calls[c].slot, Confirmed, Some(c));
    forall slot {
      ConfirmedAfterInsert(s.rows, s.nextId, row, slot);
    }
  }

  /** A call that may insert finds a place. */
  lemma PlaceIsFree(cfg: Config, s: State, c: CallId)
    requires cfg.isolation != RepeatableRead && CountedInv(cfg, s) && SnapshotInv(s)
    requires Enabled(cfg, s, Commit(c)) && CommitOf(cfg, s, c).nextId != s.nextId
    ensures |ConfirmedIn(s.rows, cfg.calls[c].slot)| < cfg.capacity(cfg.calls[c].slot)
  {
    if cfg.isolation == Serializable { NoneAdded(s.phases[c].snapshot, s.rows, cfg.calls[c].slot); }
  }

  /** Other calls count other slots. */
  lemma CountsAfterInsert(cfg: Config, s: State, c: CallId)
    requires Inv(cfg, s) && CountedInv(cfg, s) && Enabled(cfg, s, Commit(c))
    requires forall slot :: slot != cfg.calls[c].slot ==> ConfirmedIn(Inserted(cfg, s, c).rows, slot) == ConfirmedIn(s.rows, slot)
    ensures CountedInv(cfg, Inserted(cfg, s, c))
  {
    var s' := Inserted(cfg, s, c);
    forall d | 0 <= d < |s'.phases| && s'.phases[d].BelowCapacity?
      ensures |ConfirmedIn(View(cfg, s', d), cfg.calls[d].slot)| < cfg.capacity(cfg.calls[d].slot)
    {
      assert d != c && cfg.calls[d].slot != cfg.calls[c].slot;
    }
  }

  lemma CountsAfterPhase(cfg: Config, s: State, c: CallId, p: Phase)
    requires |s.phases| == |cfg.calls| && CountedInv(cfg, s) && c < |s.phases|
    requires !p.BelowCapacity?
    ensures CountedInv(cfg, s.(phases := s.phases[c := p]))
  {
    var s' := s.(phases := s.phases[c := p]);
    forall d | 0 <= d < |s'.phases| && s'.phases[d].BelowCapacity?
      ensures |ConfirmedIn(View(cfg, s', d), cfg.calls[d].slot)| < cfg.capacity(cfg.calls[d].slot)
    {
      assert d != c;
      assert View(cfg, s', d) == View(cfg, s, d);
    }
  }

  lemma CountsAfterCount(cfg: Config, s: State, c: CallId)
    requires CountedInv(cfg, s) && Enabled(cfg, s, CountConfirmed(c))
    ensures CountedInv(cfg, Apply(cfg, s, CountConfirmed(c)))
  {
    var s' := Apply(cfg, s, CountConfirmed(c));
    forall d | 0 <= d < |s'.phases| && s'.phases[d].BelowCapacity?
      ensures |ConfirmedIn(View(cfg, s', d), cfg.calls[d].slot)| < cfg.capacity(cfg.calls[d].slot)
    {
      assert View(cfg, s', d) == View(cfg, s, d);
    }
  }

  lemma CapacityAfterCommit(cfg: Config, s: State, c: CallId)
    requires cfg.isolation != RepeatableRead && SnapshotInv(s)
    requires Inv(cfg, s) && CountedInv(cfg, s) && WithinCapacity(cfg, s.rows) && Enabled(cfg, s, Commit(c))
    ensures CountedInv(cfg, CommitOf(cfg, s, c)) && WithinCapacity(cfg, CommitOf(cfg, s, c).rows)
  {
    if CommitOf(cfg, s, c).nextId != s.nextId {
      PlaceIsFree(cfg, s, c);
      CapacityAfterInsert(cfg, s, c);
      CountsAfterInsert(cfg, s, c);
    } else {
      CountsAfterPhase(cfg, s, c, CommitOf(cfg, s, c).phases[c]);
    }
  }

  lemma CapacityAfterLeaving(cfg: Config, s: State, e: Event)
    requires Inv(cfg, s) && CountedInv(cfg, s) && WithinCapacity(cfg, s.rows) && Enabled(cfg, s, e)
    requires e.Cancel? || e.MarkNoShow?
    ensures CountedInv(cfg, Apply(cfg, s, e)) && WithinCapacity(cfg, Apply(cfg, s, e).rows)
  {
    var s' := Apply(cfg, s, e);
    forall sl ensures |ConfirmedIn(s'.rows, sl)| <= |ConfirmedIn(s.rows, sl)| {
      FewerConfirmed(ConfirmedIn(s'.rows, sl), ConfirmedIn(s.rows, sl));
    }
  }

  lemma CapacityAfterStep(cfg: Config, s: State, e: Event)
    requires cfg.isolation != RepeatableRead && SnapshotInv(s)
    requires Inv(cfg, s) && CountedInv(cfg, s) && WithinCapacity(cfg, s.rows) && Enabled(cfg, s, e)
    ensures CountedInv(cfg, Apply(cfg, s, e)) && WithinCapacity(cfg, Apply(cfg, s, e).rows)
  {
    if e.Commit? {
      CapacityAfterCommit(cfg, s, e.c);
    } else if e.Cancel? || e.MarkNoShow? {
      CapacityAfterLeaving(cfg, s, e);
    } else if e.CountConfirmed? {
      CountsAfterCount(cfg, s, e.c);
    } else {
      CountsAfterPhase(cfg, s, e.c, Apply(cfg, s, e).phases[e.c]);
    }
  }

  lemma {:induction false} CapacityAlways(cfg: Config, t: Trace, n: nat)
    requires cfg.isolation != RepeatableRead && Valid(cfg, t) && n < |t.states|
    ensures CountedInv(cfg, t.states[n]) && WithinCapacity(cfg, t.states[n].rows)
  {
    if n > 0 {
      CapacityAlways(cfg, t, n - 1);
      InvAlways(cfg, t, n - 1);
      SnapshotsAlways(cfg, t, n - 1);
      CapacityAfterStep(cfg, t.states[n - 1], t.events[n - 1]);
    }
  }

  ghost predicate NeverOverbooks(isolation: Isolation) {
    forall cfg: Config, t: Trace, n: nat :: cfg.isolation == isolation && Valid(cfg, t) && n < |t.states| ==>
      WithinCapacity(cfg, t.states[n].rows)
  }

  // ---------------------------------------------------------------- why the locks alone do not do

  ghost function Then(cfg: Config, t: Trace, e: Event): (r: Trace)
    requires Valid(cfg, t) && Enabled(cfg, Last(t), e)
    ensures Valid(cfg, r) && Last(r) == Apply(cfg, Last(t), e)
  {
    Trace(t.events + [e], t.states + [Apply(cfg, Last(t), e)])
  }

  function Last(t: Trace): State
    requires |t.states| > 0
  {
    t.states[|t.states| - 1]
  }

  const ONE_PLACE: Slot := Slot("2026-06-12", "EIGHTH")

  ghost const TWO_FOR_ONE_PLACE: Config := Config(RepeatableRead, _ => 1, [Call("ann", ONE_PLACE), Call("bob", ONE_PLACE)])

  const ANNS_ROW := Row("ann", ONE_PLACE, Confirmed, Some(0))
  const BOBS_ROW := Row("bob", ONE_PLACE, Confirmed, Some(1))

  lemma BothBegin() returns (t: Trace)
    ensures Valid(TWO_FOR_ONE_PLACE, t)
    ensures Last(t) == State(map[], 0, [Begun(0, map[]), Begun(0, map[])])
  {
    var cfg := TWO_FOR_ONE_PLACE;
    var none: Rows := map[];
    assert WithinCapacity(cfg, none) by {
      forall slot ensures |ConfirmedIn(none, slot)| <= 1 { assert ConfirmedIn(none, slot) == {}; }
    }
    t := Trace([], [State(none, 0, [Idle(0), Idle(0)])]);
    t := Then(cfg, t, Begin(0));
    t := Then(cfg, t, Begin(1));
  }

  lemma FirstCallLocks() returns (t: Trace)
    ensures Valid(TWO_FOR_ONE_PLACE, t)
    ensures Last(t) == State(map[], 0, [UserLocked(0, map[]), Begun(0, map[])])
  {
    var cfg := TWO_FOR_ONE_PLACE;
    t := BothBegin();
    t := Then(cfg, t, LockPeriod(0));
    t := Then(cfg, t, LockUser(0));
  }

  lemma FirstCallBooks() returns (t: Trace)
    ensures Valid(TWO_FOR_ONE_PLACE, t)
    ensures Last(t) == State(map[0 := ANNS_ROW], 1, [Done(Booked(0)), Begun(0, map[])])
  {
    var cfg := TWO_FOR_ONE_PLACE;
    var none: Rows := map[];
    assert ConfirmedIn(none, ONE_PLACE) == {} && OwnRows(none, cfg.calls[0]) == {};
    t := FirstCallLocks();
    t := Then(cfg, t, FindOwnRow(0));
    t := Then(cfg, t, CountConfirmed(0));
    t := Then(cfg, t, Commit(0));
  }

  lemma SecondCallCounts() returns (t: Trace)
    ensures Valid(TWO_FOR_ONE_PLACE, t)
    ensures Last(t) == State(map[0 := ANNS_ROW], 1, [Done(Booked(0)), BelowCapacity(0, map[])])
  {
    var cfg := TWO_FOR_ONE_PLACE;
    var none: Rows := map[];
    assert ConfirmedIn(none, ONE_PLACE) == {} && OwnRows(none, cfg.calls[1]) == {};
    t := FirstCallBooks();
    t := Then(cfg, t, LockPeriod(1));
    t := Then(cfg, t, LockUser(1));
    t := Then(cfg, t, FindOwnRow(1));
    t := Then(cfg, t, CountConfirmed(1));
  }

  /** The second call took its snapshot before the first one committed; the period lock makes it
      wait, but what it then counts is still the empty slot. */
  lemma RepeatableReadOverbooks()
    ensures !NeverOverbooks(RepeatableRead)
  {
    var cfg := TWO_FOR_ONE_PLACE;
    assert OwnRows(map[0 := ANNS_ROW], cfg.calls[1]) == {};
    var t := SecondCallCounts();
    t := Then(cfg, t, Commit(1));
    assert Last(t).rows == map[0 := ANNS_ROW, 1 := BOBS_ROW];
    assert ConfirmedIn(Last(t).rows, ONE_PLACE) == {0, 1};
    assert !WithinCapacity(cfg, t.states[|t.states| - 1].rows);
  }

  /** With these locks, confirmed rows never exceed the capacity in any interleaving exactly when
      the isolation level is not the snapshot level without validation. */
  lemma NeverOverbooksIff(isolation: Isolation)
    ensures NeverOverbooks(isolation) <==> isolation != RepeatableRead
  {
    if isolation == RepeatableRead {
      RepeatableReadOverbooks();
    } else {
      forall cfg: Config, t: Trace, n: nat | cfg.isolation == isolation && Valid(cfg, t) && n < |t.states|
        ensures WithinCapacity(cfg, t.states[n].rows)
      {
        CapacityAlways(cfg, t, n);
      }
    }
  }

  // ---------------------------------------------------------------- the retry loop

  datatype Attempt<T> = Returned(value: T) | SerializationConflict | OtherError

  datatype RetryResult<T> = Value(value: T) | Rethrown | Exhausted

  /** outcomes[i] is how attempt i would end. The first attempt that does not end in a conflict
      decides; no fourth attempt is ever made. */
  method RetrySerializable<T>(outcomes: seq<Attempt<T>>) returns (r: RetryResult<T>, attempts: nat)
    requires |outcomes| >= MAX_ATTEMPTS
    ensures 1 <= attempts <= MAX_ATTEMPTS
    ensures forall i :: 0 <= i < attempts - 1 ==> outcomes[i].SerializationConflict?
    ensures match outcomes[attempts - 1]
            case Returned(v) => r == Value(v)
            case OtherError => r == Rethrown
            case SerializationConflict => r == Exhausted && attempts == MAX_ATTEMPTS
  {
    var attempt := 0;
    while true
      invariant attempt < MAX_ATTEMPTS
      invariant forall i :: 0 <= i < attempt ==> outcomes[i].SerializationConflict?
      decreases MAX_ATTEMPTS - attempt
    {
      match outcomes[attempt] {
        case Returned(v) => return Value(v), attempt + 1;
        case OtherError => return Rethrown, attempt + 1;
        case SerializationConflict =>
          if attempt == MAX_ATTEMPTS - 1 { return Exhausted, attempt + 1; }
      }
      attempt := attempt + 1;
    }
  }
}
