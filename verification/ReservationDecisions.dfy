/** Decisions taken on reservations through Discord messages, together with the cancellations and
    no-shows of the web site, the rollback that disables pending messages and the retention cleanup. */
module ReservationDecisions {
  import opened Wrappers

  type Id = nat
  type UserId = nat

  datatype Status = Confirmed | Cancelled | NoShow

  datatype Reservation = Reservation(user: UserId, status: Status)

  datatype Decision = AcceptedDecision | CancelledDecision | NoShowDecision | DisabledDecision | RetentionDeleted

  datatype Source = Source(message: Id, guild: Id, channel: Id)

  datatype Message = Message(decision: Option<Decision>, source: Option<Source>, renderedEpoch: int)

  datatype Terminal = AcceptedResult | CancelledResult | NoShowResult | StaleResult

  /** What a stored receipt holds: something that is no terminal receipt, a terminal receipt whose
      result no longer parses, or a result. */
  datatype Body = Unreadable | Garbled | Stored(terminal: Terminal)

  datatype Receipt = Receipt(reservation: Id, body: Body)

  datatype State = State(reservations: map<Id, Reservation>, messages: map<Id, Message>, receipts: map<Id, Receipt>)

  datatype Kind = Accept | Reject | AdminCancel | MarkNoShow

  datatype Command = Command(kind: Kind, reservation: Id, interaction: Id, application: Option<Id>,
                             studentNumber: Id, renderedEpoch: int, source: Source)

  datatype Actor = Actor(administrator: bool, studentNumber: Id)

  datatype Control = Control(enabled: bool, epoch: int)

  datatype NoShowCheck = Ready | TargetMissing | AdminTarget | NotClosed

  /** What else the transaction reads. The cancellable reservations are the owner's other ones that
      a no-show cancels along the way. */
  datatype View = View(actor: Option<Actor>, job: Option<Option<Id>>, control: Option<Control>, currentApplication: Id,
                       persistedJobRequired: bool, targetUser: UserId, noShow: NoShowCheck, cancellable: set<Id>)

  datatype Result = Settled(terminal: Terminal) | Noop(code: string)

  /** A transaction either ends with a result or throws, and then nothing of it stays. */
  datatype Attempt = Done(state: State, result: Result) | Thrown

  // ---------------------------------------------------------------- the transaction as a function

  function Replay(receipts: map<Id, Receipt>, interaction: Id, reservation: Id): Option<Body> {
    if interaction in receipts && receipts[interaction].reservation == reservation && receipts[interaction].body != Unreadable
    then Some(receipts[interaction].body) else None
  }

  function Parsed(body: Body): Result {
    if body.Stored? then Settled(body.terminal) else Noop("stale_receipt")
  }

  function SettledInitialDecision(status: Status, decision: Option<Decision>): Result {
    if status == Cancelled || decision == Some(CancelledDecision) then Settled(CancelledResult)
    else if status == Confirmed && decision == Some(AcceptedDecision) then Settled(AcceptedResult)
    else Settled(StaleResult)
  }

  function WriteReceipt(s: State, c: Command, terminal: Terminal): Attempt {
    var receipts := if c.interaction in s.receipts then s.receipts
                    else s.receipts[c.interaction := Receipt(c.reservation, Stored(terminal))];
    match Replay(receipts, c.interaction, c.reservation)
    case None => Thrown
    case Some(body) => Done(s.(receipts := receipts), Parsed(body))
  }

  function CancelAll(reservations: map<Id, Reservation>, ids: set<Id>): map<Id, Reservation> {
    map r | r in reservations ::
      if r in ids && reservations[r].status == Confirmed then reservations[r].(status := Cancelled) else reservations[r]
  }

  function WithStatus(s: State, r: Id, status: Status): State
    requires r in s.reservations
  {
    s.(reservations := s.reservations[r := s.reservations[r].(status := status)])
  }

  /** Records a decision on the message, if the message is still as the command saw it. */
  function Decide(s: State, c: Command, expected: Option<Decision>, decision: Decision, terminal: Terminal): Attempt {
    if c.reservation !in s.messages then Thrown
    else
      var m := s.messages[c.reservation];
      if m.decision == expected && m.source.Some? && m.source.value.message == c.source.message && m.renderedEpoch == c.renderedEpoch
      then WriteReceipt(s.(messages := s.messages[c.reservation := m.(decision := Some(decision))]), c, terminal)
      else Thrown
  }

  function NoShowCode(check: NoShowCheck): string {
    match check
    case TargetMissing => "reservation_not_found"
    case AdminTarget => "admin_target"
    case NotClosed => "not_closed"
    case Ready => ""
  }

  function AfterNoShow(s: State, r: Id, cancellable: set<Id>): State
    requires r in s.reservations
  {
    var marked := WithStatus(s, r, NoShow);
    marked.(reservations := CancelAll(marked.reservations, cancellable - {r}))
  }

  /** The part of the transaction that runs on a confirmed reservation with a current message. */
  function Operate(s: State, c: Command, v: View): Attempt
    requires c.reservation in s.reservations && c.reservation in s.messages
  {
    var decision := s.messages[c.reservation].decision;
    match c.kind
    case Accept =>
      if decision.None? then Decide(s, c, None, AcceptedDecision, AcceptedResult)
      else Done(s, SettledInitialDecision(Confirmed, decision))
    case Reject =>
      if decision.None? then Decide(WithStatus(s, c.reservation, Cancelled), c, None, CancelledDecision, CancelledResult)
      else Done(s, SettledInitialDecision(Confirmed, decision))
    case AdminCancel =>
      if decision == Some(AcceptedDecision)
      then Decide(WithStatus(s, c.reservation, Cancelled), c, Some(AcceptedDecision), CancelledDecision, CancelledResult)
      else WriteReceipt(s, c, StaleResult)
    case MarkNoShow =>
      if decision != Some(AcceptedDecision) then WriteReceipt(s, c, StaleResult)
      else if v.noShow != Ready then Done(s, Noop(NoShowCode(v.noShow)))
      else Decide(AfterNoShow(s, c.reservation, v.cancellable), c, Some(AcceptedDecision), NoShowDecision, NoShowResult)
  }

  predicate StaleApplication(c: Command, v: View) {
    c.application != Some(v.currentApplication) || (if v.job.None? then v.persistedJobRequired else v.job.value != c.application)
  }

  predicate StaleActor(c: Command, v: View) {
    v.actor.None? || !v.actor.value.administrator || v.actor.value.studentNumber != c.studentNumber
  }

  predicate StaleControl(s: State, c: Command, v: View)
    requires c.reservation in s.messages
  {
    v.control.None? || !v.control.value.enabled || v.control.value.epoch != c.renderedEpoch
    || s.messages[c.reservation].renderedEpoch != c.renderedEpoch
  }

  function Process(s: State, c: Command, v: View): Attempt {
    if StaleApplication(c, v) then Done(s, Noop("stale_application"))
    else if Replay(s.receipts, c.interaction, c.reservation).Some? then
      Done(s, Parsed(Replay(s.receipts, c.interaction, c.reservation).value))
    else if StaleActor(c, v) then Done(s, Noop("stale_actor"))
    else if c.reservation !in s.reservations || s.reservations[c.reservation].user != v.targetUser then
      Done(s, Noop("stale_reservation"))
    else if c.reservation !in s.messages then Done(s, Noop("stale_message"))
    else if StaleControl(s, c, v) then Done(s, Noop("stale_control"))
    else if s.messages[c.reservation].source != Some(c.source) then Done(s, Noop("stale_message"))
    else if s.reservations[c.reservation].status != Confirmed then
      if c.kind == Accept || c.kind == Reject
      then Done(s, SettledInitialDecision(s.reservations[c.reservation].status, s.messages[c.reservation].decision))
      else WriteReceipt(s, c, StaleResult)
    else Operate(s, c, v)
  }

  // ---------------------------------------------------------------- the transaction as it writes

  class Database {
    var reservations: map<Id, Reservation>
    var messages: map<Id, Message>
    var receipts: map<Id, Receipt>

    function Now(): State
      reads this
    {
      State(reservations, messages, receipts)
    }

    constructor (s: State)
      ensures Now() == s
    {
      reservations, messages, receipts := s.reservations, s.messages, s.receipts;
    }

    method UpdateStatus(r: Id, status: Status) returns (updated: bool)
      modifies this`reservations
      ensures updated <==> r in old(reservations) && old(reservations)[r].status == Confirmed
      ensures Now() == if updated then WithStatus(old(Now()), r, status) else old(Now())
    {
      updated := r in reservations && reservations[r].status == Confirmed;
      if updated { reservations := reservations[r := reservations[r].(status := status)]; }
    }

    /** A guarded update of the decision. */
    method RecordDecision(c: Command, expected: Option<Decision>, decision: Decision) returns (recorded: bool)
      modifies this`messages
      ensures recorded <==> c.reservation in old(messages) && old(messages)[c.reservation].decision == expected
                            && old(messages)[c.reservation].source.Some?
                            && old(messages)[c.reservation].source.value.message == c.source.message
                            && old(messages)[c.reservation].renderedEpoch == c.renderedEpoch
      ensures messages == if recorded then old(messages)[c.reservation := old(messages)[c.reservation].(decision := Some(decision))]
                          else old(messages)
    {
      recorded := false;
      if c.reservation in messages {
        var m := messages[c.reservation];
        if m.decision == expected && m.source.Some? && m.source.value.message == c.source.message && m.renderedEpoch == c.renderedEpoch {
          messages := messages[c.reservation := m.(decision := Some(decision))];
          recorded := true;
        }
      }
    }

    method RecordReceipt(c: Command, terminal: Terminal) returns (result: Option<Result>)
      modifies this`receipts
      ensures var a := WriteReceipt(old(Now()), c, terminal);
              (result.None? <==> a.Thrown?) && (result.Some? ==> a == Done(Now(), result.value))
    {
      if c.interaction !in receipts {
        receipts := receipts[c.interaction := Receipt(c.reservation, Stored(terminal))];
      }
      var replay := Replay(receipts, c.interaction, c.reservation);
      result := if replay.None? then None else Some(Parsed(replay.value));
    }

    method DecideAndRecord(c: Command, expected: Option<Decision>, decision: Decision, terminal: Terminal)
      returns (result: Option<Result>)
      modifies this
      ensures var a := Decide(old(Now()), c, expected, decision, terminal);
              (result.None? <==> a.Thrown?) && (result.Some? ==> a == Done(Now(), result.value))
    {
      var recorded := RecordDecision(c, expected, decision);
      if !recorded { return None; }
      result := RecordReceipt(c, terminal);
    }

    method CancelReservation(c: Command, expected: Option<Decision>) returns (result: Option<Result>)
      requires c.reservation in reservations
      modifies this
      ensures old(reservations)[c.reservation].status == Confirmed ==>
                var a := Decide(WithStatus(old(Now()), c.reservation, Cancelled), c, expected, CancelledDecision, CancelledResult);
                (result.None? <==> a.Thrown?) && (result.Some? ==> a == Done(Now(), result.value))
    {
      var cancelled := UpdateStatus(c.reservation, Cancelled);
      if !cancelled { return Some(Noop("invalid_status")); }
      result := DecideAndRecord(c, expected, CancelledDecision, CancelledResult);
    }

    method MarkReservationNoShow(c: Command, v: View) returns (result: Option<Result>)
      requires c.reservation in reservations && v.noShow == Ready
      modifies this
      ensures old(reservations)[c.reservation].status == Confirmed ==>
                var a := Decide(AfterNoShow(old(Now()), c.reservation, v.cancellable), c,
                                Some(AcceptedDecision), NoShowDecision, NoShowResult);
                (result.None? <==> a.Thrown?) && (result.Some? ==> a == Done(Now(), result.value))
    {
      var marked := UpdateStatus(c.reservation, NoShow);
      if !marked { return Some(Noop("conflict")); }
      reservations := CancelAll(reservations, v.cancellable - {c.reservation});
      result := DecideAndRecord(c, Some(AcceptedDecision), NoShowDecision, NoShowResult);
    }

    method OperateOn(c: Command, v: View) returns (result: Option<Result>)
      requires c.reservation in reservations && c.reservation in messages
      requires reservations[c.reservation].status == Confirmed
      modifies this
      ensures var a := Operate(old(Now()), c, v);
              (result.None? <==> a.Thrown?) && (result.Some? ==> a == Done(Now(), result.value))
    {
      var decision := messages[c.reservation].decision;
      match c.kind {
        case Accept =>
          if decision.Some? { return Some(SettledInitialDecision(Confirmed, decision)); }
          result := DecideAndRecord(c, None, AcceptedDecision, AcceptedResult);
        case Reject =>
          if decision.Some? { return Some(SettledInitialDecision(Confirmed, decision)); }
          result := CancelReservation(c, None);
        case AdminCancel =>
          if decision != Some(AcceptedDecision) {
            result := RecordReceipt(c, StaleResult);
          } else {
            result := CancelReservation(c, Some(AcceptedDecision));
          }
        case MarkNoShow =>
          if decision != Some(AcceptedDecision) {
            result := RecordReceipt(c, StaleResult);
          } else if v.noShow != Ready {
            return Some(Noop(NoShowCode(v.noShow)));
          } else {
            result := MarkReservationNoShow(c, v);
          }
      }
    }

    method ProcessInTransaction(c: Command, v: View) returns (result: Option<Result>)
      modifies this
      ensures var a := Process(old(Now()), c, v);
              (result.None? <==> a.Thrown?) && (result.Some? ==> a == Done(Now(), result.value))
    {
      if StaleApplication(c, v) { return Some(Noop("stale_application")); }
      var replay := Replay(receipts, c.interaction, c.reservation);
      if replay.Some? { return Some(Parsed(replay.value)); }
      if StaleActor(c, v) { return Some(Noop("stale_actor")); }
      if c.reservation !in reservations || reservations[c.reservation].user != v.targetUser { return Some(Noop("stale_reservation")); }
      if c.reservation !in messages { return Some(Noop("stale_message")); }
      if StaleControl(Now(), c, v) { return Some(Noop("stale_control")); }
      if messages[c.reservation].source != Some(c.source) { return Some(Noop("stale_message")); }
      if reservations[c.reservation].status != Confirmed {
        if c.kind == Accept || c.kind == Reject {
          return Some(SettledInitialDecision(reservations[c.reservation].status, messages[c.reservation].decision));
        }
        result := RecordReceipt(c, StaleResult);
        return;
      }
      result := OperateOn(c, v);
    }

    /** A thrown exception takes back every write of the transaction. */
    method ProcessOperation(c: Command, v: View) returns (result: Option<Result>)
      modifies this
      ensures var a := Process(old(Now()), c, v);
              && (result.None? <==> a.Thrown?) && (result.Some? ==> result.value == a.result)
              && Now() == if a.Thrown? then old(Now()) else a.state
    {
      var before := Now();
      result := ProcessInTransaction(c, v);
      if result.None? {
        reservations, messages, receipts := before.reservations, before.messages, before.receipts;
      }
    }
  }

  // ---------------------------------------------------------------- runs

  /** Everything that changes reservations, decisions or receipts, in any order. */
  datatype Event =
    | Discord(command: Command, view: View)
    | WebCancel(reservation: Id)
    | WebNoShow(reservation: Id, cancellable: set<Id>)
    | Sanction(cancelled: set<Id>)
    | Book(reservation: Id, user: UserId, announced: bool)
    | Render(reservation: Id, source: Option<Source>, epoch: int)
    | Disable(reservation: Id)
    | Retire(reservation: Id)
    | Forget(reservation: Id)
    | Purge(interactions: set<Id>)

  predicate Confirmed?(s: State, r: Id) { r in s.reservations && s.reservations[r].status == Confirmed }

  function Next(s: State, e: Event): State {
    match e
    case Discord(c, v) => (match Process(s, c, v) case Thrown => s case Done(after, _) => after)
    case WebCancel(r) => if Confirmed?(s, r) then WithStatus(s, r, Cancelled) else s
    case WebNoShow(r, cancellable) => if Confirmed?(s, r) then AfterNoShow(s, r, cancellable) else s
    case Sanction(ids) => s.(reservations := CancelAll(s.reservations, ids))
    case Book(r, user, announced) =>
      if r in s.reservations then s
      else s.(reservations := s.reservations[r := Reservation(user, Confirmed)],
              messages := if announced && r !in s.messages then s.messages[r := Message(None, None, 0)] else s.messages)
    case Render(r, source, epoch) =>
      if r !in s.messages then s
      else s.(messages := s.messages[r := s.messages[r].(source := source, renderedEpoch := epoch)])
    case Disable(r) =>
      if r !in s.messages || s.messages[r].decision.Some? then s
      else s.(messages := s.messages[r := s.messages[r].(decision := Some(DisabledDecision))])
    case Retire(r) =>
      if r !in s.messages then s
      else s.(messages := s.messages[r := s.messages[r].(decision := Some(RetentionDeleted), source := None)])
    case Forget(r) =>
      if r !in s.messages || s.messages[r].source.Some? then s else s.(messages := s.messages - {r})
    case Purge(ids) => s.(receipts := s.receipts - ids)
  }

  ghost predicate ValidRun(states: seq<State>, events: seq<Event>) {
    && |states| == |events| + 1
    && forall i :: 0 <= i < |events| ==> states[i + 1] == Next(states[i], events[i])
  }

  /** What the web site and the jobs do: every confirmed reservation can be cancelled or marked there, a ban
      cancels the confirmed ones it names, and the two cleanups decide what nobody has decided, or retire. */
  lemma OthersDo(s: State, r: Id, ids: set<Id>)
    ensures Confirmed?(s, r) ==>
              Next(s, WebCancel(r)) == s.(reservations := s.reservations[r := Reservation(s.reservations[r].user, Cancelled)])
    ensures Confirmed?(s, r) ==>
              var t := Next(s, WebNoShow(r, ids));
              && (t.messages, t.receipts) == (s.messages, s.receipts) && t.reservations.Keys == s.reservations.Keys
              && forall x :: x in s.reservations ==>
                   t.reservations[x] == if x == r then Reservation(s.reservations[x].user, NoShow)
                                        else if x in ids && Confirmed?(s, x) then Reservation(s.reservations[x].user, Cancelled) else s.reservations[x]
    ensures !Confirmed?(s, r) ==> Next(s, WebCancel(r)) == s && Next(s, WebNoShow(r, ids)) == s
    ensures var t := Next(s, Sanction(ids));
            && (t.messages, t.receipts) == (s.messages, s.receipts) && t.reservations.Keys == s.reservations.Keys
            && forall x :: x in s.reservations ==>
                 t.reservations[x] == if x in ids && Confirmed?(s, x) then Reservation(s.reservations[x].user, Cancelled) else s.reservations[x]
    ensures r in s.messages && s.messages[r].decision == None ==>
              Next(s, Disable(r)) == s.(messages := s.messages[r := Message(Some(DisabledDecision), s.messages[r].source, s.messages[r].renderedEpoch)])
    ensures r in s.messages ==>
              Next(s, Retire(r)) == s.(messages := s.messages[r := Message(Some(RetentionDeleted), None, s.messages[r].renderedEpoch)])
    ensures r in s.messages && s.messages[r].source == None ==> Next(s, Forget(r)) == s.(messages := s.messages - {r})
    ensures Next(s, Purge(ids)) == s.(receipts := s.receipts - ids)
  {
  }

  /** A booking adds a confirmed reservation, with a blank message if it is announced; rendering a message
      gives it its place and epoch. */
  lemma BookingsAndRenderings(s: State, r: Id, user: UserId, announced: bool, source: Option<Source>, epoch: int)
    ensures r !in s.reservations && r !in s.messages ==>
              Next(s, Book(r, user, announced)) ==
              State(s.reservations[r := Reservation(user, Confirmed)],
                    if announced then s.messages[r := Message(None, None, 0)] else s.messages, s.receipts)
    ensures r in s.messages ==>
              Next(s, Render(r, source, epoch)) == s.(messages := s.messages[r := Message(s.messages[r].decision, source, epoch)])
  {
  }

  /** What one step can make of a decision. */
  predicate MayBecome(d: Option<Decision>, e: Option<Decision>) {
    || d == e
    || (d.None? && e in {Some(AcceptedDecision), Some(CancelledDecision), Some(DisabledDecision)})
    || (d == Some(AcceptedDecision) && e in {Some(CancelledDecision), Some(NoShowDecision)})
    || e == Some(RetentionDeleted)
  }

  /** What any number of steps can make of it. */
  predicate CanBecome(d: Option<Decision>, e: Option<Decision>) {
    d.None? || MayBecome(d, e)
  }

  /** One state follows the other in a single step: only a message that was never sent disappears. */
  ghost predicate OneStep(s: State, t: State) {
    && (forall r :: r in s.reservations ==>
          r in t.reservations && t.reservations[r].user == s.reservations[r].user
          && (t.reservations[r].status != s.reservations[r].status ==> s.reservations[r].status == Confirmed))
    && (forall r :: r in s.messages ==>
          if r in t.messages then MayBecome(s.messages[r].decision, t.messages[r].decision) else s.messages[r].source.None?)
    && (forall r :: r in t.reservations && r !in s.reservations ==> t.reservations[r].status == Confirmed)
    && (forall r :: r in t.messages && r !in s.messages ==> r !in s.reservations && t.messages[r].decision.None?)
  }

  /** One state is a later one of the same database. */
  ghost predicate Later(s: State, t: State) {
    && (forall r :: r in s.reservations ==>
          r in t.reservations && t.reservations[r].user == s.reservations[r].user
          && (s.reservations[r].status != Confirmed ==> t.reservations[r].status == s.reservations[r].status))
    && (forall r :: r in s.messages && r in t.messages ==> CanBecome(s.messages[r].decision, t.messages[r].decision))
    && (forall r :: r in t.messages && r !in s.messages ==> r !in s.reservations)
  }

  /** A message that says cancelled or no-show speaks the truth, and so does every stored receipt. */
  ghost predicate Inv(s: State) { DecisionsHold(s) && ReceiptsHold(s) }

  ghost predicate DecisionsHold(s: State) {
    forall r :: r in s.messages ==> r in s.reservations && DecisionHolds(s.messages[r].decision, s.reservations[r].status)
  }

  ghost predicate ReceiptsHold(s: State) {
    forall x :: x in s.receipts && s.receipts[x].body.Stored? ==> ReceiptHolds(s, s.receipts[x].reservation, s.receipts[x].body.terminal)
  }

  predicate DecisionHolds(d: Option<Decision>, status: Status) {
    (d == Some(CancelledDecision) ==> status == Cancelled) && (d == Some(NoShowDecision) ==> status == NoShow)
  }

  /** What a stored result still says later on: an accepted reservation's message was accepted, and what
      became of it since is a cancellation, a no-show or its retirement. */
  predicate ReceiptHolds(s: State, r: Id, terminal: Terminal) {
    match terminal
    case AcceptedResult =>
      r in s.reservations
      && (r in s.messages ==> s.messages[r].decision.Some? && s.messages[r].decision != Some(DisabledDecision))
    case CancelledResult => r in s.reservations && s.reservations[r].status == Cancelled
    case NoShowResult => r in s.reservations && s.reservations[r].status == NoShow
    case StaleResult => true
  }

  /** What a fresh result says of the reservation as it is: accepted means confirmed with an accepted
      message, and stale that the command's decision is not open. */
  predicate AnswerHolds(s: State, c: Command, terminal: Terminal) {
    match terminal
    case AcceptedResult => Confirmed?(s, c.reservation) && c.reservation in s.messages
                           && s.messages[c.reservation].decision == Some(AcceptedDecision)
    case StaleResult => !(Confirmed?(s, c.reservation) && c.reservation in s.messages
                          && s.messages[c.reservation].decision == NeededDecision(c.kind))
    case CancelledResult => c.reservation in s.reservations && s.reservations[c.reservation].status == Cancelled
    case NoShowResult => c.reservation in s.reservations && s.reservations[c.reservation].status == NoShow
  }

  lemma LaterReceiptsHold(s: State, t: State)
    requires ReceiptsHold(s) && Later(s, t) && (forall x :: x in t.receipts ==> x in s.receipts && t.receipts[x] == s.receipts[x])
    ensures ReceiptsHold(t)
  {
  }

  /** A decision that follows from the expected one. */
  lemma DecideSteps(s0: State, s: State, c: Command, expected: Option<Decision>, decision: Decision, terminal: Terminal)
    requires OneStep(s0, s) && s.messages == s0.messages && MayBecome(expected, Some(decision))
    ensures var a := Decide(s, c, expected, decision, terminal); a.Done? ==> OneStep(s0, a.state)
  {
  }

  /** A status that the decision is true of. */
  lemma DecideHolds(s0: State, s: State, c: Command, expected: Option<Decision>, decision: Decision, terminal: Terminal)
    requires DecisionsHold(s0) && OneStep(s0, s) && s.messages == s0.messages
    requires c.reservation in s.reservations && DecisionHolds(Some(decision), s.reservations[c.reservation].status)
    ensures var a := Decide(s, c, expected, decision, terminal); a.Done? ==> DecisionsHold(a.state)
  {
  }

  lemma DecideKeeps(s0: State, s: State, c: Command, expected: Option<Decision>, decision: Decision, terminal: Terminal)
    requires Inv(s0) && OneStep(s0, s) && s.messages == s0.messages && s.receipts == s0.receipts
    requires MayBecome(expected, Some(decision)) && decision in {AcceptedDecision, CancelledDecision, NoShowDecision}
    requires c.reservation in s.reservations && DecisionHolds(Some(decision), s.reservations[c.reservation].status)
    requires terminal == TerminalOf(decision)
    ensures var a := Decide(s, c, expected, decision, terminal);
            a.Done? ==> Inv(a.state) && OneStep(s0, a.state)
  {
    var a := Decide(s, c, expected, decision, terminal);
    DecideSteps(s0, s, c, expected, decision, terminal);
    DecideHolds(s0, s, c, expected, decision, terminal);
    if a.Done? {
      StepIsLater(s0, a.state.(receipts := s0.receipts));
      LaterReceiptsHold(s0, a.state.(receipts := s0.receipts));
    }
  }

  lemma StepIsLater(s: State, t: State)
    requires OneStep(s, t)
    ensures Later(s, t)
  {
  }

  lemma StatusStep(s: State, r: Id, status: Status)
    requires Confirmed?(s, r)
    ensures OneStep(s, WithStatus(s, r, status))
  {
  }

  lemma NoShowStep(s: State, r: Id, cancellable: set<Id>)
    requires Confirmed?(s, r)
    ensures OneStep(s, AfterNoShow(s, r, cancellable)) && AfterNoShow(s, r, cancellable).reservations[r].status == NoShow
  {
  }

  lemma CancelKeeps(s: State, c: Command, expected: Option<Decision>)
    requires Inv(s) && Confirmed?(s, c.reservation) && expected in {None, Some(AcceptedDecision)}
    ensures var a := Decide(WithStatus(s, c.reservation, Cancelled), c, expected, CancelledDecision, CancelledResult);
            a.Done? ==> Inv(a.state) && OneStep(s, a.state)
  {
    StatusStep(s, c.reservation, Cancelled);
    DecideKeeps(s, WithStatus(s, c.reservation, Cancelled), c, expected, CancelledDecision, CancelledResult);
  }

  lemma NoShowKeeps(s: State, c: Command, cancellable: set<Id>)
    requires Inv(s) && Confirmed?(s, c.reservation)
    ensures var a := Decide(AfterNoShow(s, c.reservation, cancellable), c, Some(AcceptedDecision), NoShowDecision, NoShowResult);
            a.Done? ==> Inv(a.state) && OneStep(s, a.state)
  {
    NoShowStep(s, c.reservation, cancellable);
    DecideKeeps(s, AfterNoShow(s, c.reservation, cancellable), c, Some(AcceptedDecision), NoShowDecision, NoShowResult);
  }

  /** A stale receipt changes nothing else. */
  lemma StaleKeeps(s: State, c: Command)
    requires Inv(s)
    ensures var a := WriteReceipt(s, c, StaleResult); a.Done? ==> Inv(a.state) && OneStep(s, a.state)
  {
  }

  lemma OperateKeeps(s: State, c: Command, v: View)
    requires Inv(s) && Confirmed?(s, c.reservation) && c.reservation in s.messages
    ensures var a := Operate(s, c, v); a.Done? ==> Inv(a.state) && OneStep(s, a.state)
  {
    if s.messages[c.reservation].decision != Some(AcceptedDecision) { StaleKeeps(s, c); }
    match c.kind
    case Accept => DecideKeeps(s, s, c, None, AcceptedDecision, AcceptedResult);
    case Reject => CancelKeeps(s, c, None);
    case AdminCancel => CancelKeeps(s, c, Some(AcceptedDecision));
    case MarkNoShow => NoShowKeeps(s, c, v.cancellable);
  }

  /** The state an attempt leaves behind. */
  function Left(s: State, a: Attempt): State { if a.Thrown? then s else a.state }

  lemma NothingKeeps(s: State)
    ensures OneStep(s, s)
  {
  }

  lemma DiscordKeeps(s: State, c: Command, v: View)
    requires Inv(s)
    ensures Inv(Left(s, Process(s, c, v))) && OneStep(s, Left(s, Process(s, c, v)))
  {
    if Left(s, Process(s, c, v)) == s {
      NothingKeeps(s);
    } else if Confirmed?(s, c.reservation) {
      OperateKeeps(s, c, v);
    } else {
      StaleKeeps(s, c);
    }
  }

  lemma MessageStep(s: State, e: Event)
    requires DecisionsHold(s) && (e.Render? || e.Disable? || e.Retire? || e.Forget? || e.Purge?)
    ensures OneStep(s, Next(s, e)) && DecisionsHold(Next(s, e))
  {
  }

  lemma BookStep(s: State, r: Id, user: UserId, announced: bool)
    requires DecisionsHold(s)
    ensures OneStep(s, Next(s, Book(r, user, announced))) && DecisionsHold(Next(s, Book(r, user, announced)))
  {
  }

  lemma SanctionStep(s: State, ids: set<Id>)
    ensures OneStep(s, s.(reservations := CancelAll(s.reservations, ids)))
  {
  }

  /** A step that changes statuses only. */
  lemma StatusesHold(s: State, t: State)
    requires DecisionsHold(s) && OneStep(s, t) && t.messages == s.messages
    ensures DecisionsHold(t)
  {
  }

  lemma OtherStep(s: State, e: Event)
    requires DecisionsHold(s) && !e.Discord?
    ensures OneStep(s, Next(s, e)) && DecisionsHold(Next(s, e))
  {
    if e.WebNoShow? {
      if Confirmed?(s, e.reservation) { NoShowStep(s, e.reservation, e.cancellable); }
      StatusesHold(s, Next(s, e));
    } else if e.WebCancel? {
      if Confirmed?(s, e.reservation) { StatusStep(s, e.reservation, Cancelled); }
      StatusesHold(s, Next(s, e));
    } else if e.Sanction? {
      SanctionStep(s, e.cancelled);
      StatusesHold(s, Next(s, e));
    } else if e.Book? {
      BookStep(s, e.reservation, e.user, e.announced);
    } else {
      MessageStep(s, e);
    }
  }

  lemma StepKeeps(s: State, e: Event)
    requires Inv(s)
    ensures Inv(Next(s, e)) && OneStep(s, Next(s, e))
  {
    if e.Discord? {
      DiscordKeeps(s, e.command, e.view);
    } else {
      OtherStep(s, e);
      StepIsLater(s, Next(s, e));
      LaterReceiptsHold(s, Next(s, e));
    }
  }

  lemma {:induction false} InvAlways(states: seq<State>, events: seq<Event>, i: nat)
    requires ValidRun(states, events) && Inv(states[0]) && i < |states|
    ensures Inv(states[i])
  {
    if i > 0 {
      InvAlways(states, events, i - 1);
      assert states[i] == Next(states[i - 1], events[i - 1]);
      StepKeeps(states[i - 1], events[i - 1]);
    }
  }

  /** In each step of any run: a reservation's status only ever leaves CONFIRMED; a message's decision
      goes from nothing to accepted, cancelled or disabled, from accepted to cancelled or no-show, or
      is overwritten when the message is retired; only a message that was never sent disappears. */
  lemma EachStepDecides(states: seq<State>, events: seq<Event>, i: nat)
    requires ValidRun(states, events) && Inv(states[0]) && i < |events|
    ensures OneStep(states[i], states[i + 1])
  {
    InvAlways(states, events, i);
    assert states[i + 1] == Next(states[i], events[i]);
    StepKeeps(states[i], events[i]);
  }

  /** Over any stretch of any run: statuses that have left CONFIRMED stay, decisions never come back, and
      whatever says cancelled or no-show is right about it. */
  lemma {:induction false} DecisionsOnlyMoveForward(states: seq<State>, events: seq<Event>, i: nat, j: nat)
    requires ValidRun(states, events) && Inv(states[0]) && i <= j < |states|
    ensures Later(states[i], states[j]) && Inv(states[j])
  {
    InvAlways(states, events, j);
    if i < j {
      InvAlways(states, events, i);
      DecisionsOnlyMoveForward(states, events, i, j - 1);
      EachStepDecides(states, events, j - 1);
      StepIsLater(states[j - 1], states[j]);
      LaterTransitive(states[i], states[j - 1], states[j]);
    }
  }

  lemma LaterTransitive(s: State, t: State, u: State)
    requires Later(s, t) && Later(t, u) && DecisionsHold(s)
    ensures Later(s, u)
  {
  }

  /** The two cleanups are the only steps that decide DISABLED or RETENTION_DELETED, and only a
      Discord operation decides anything else. */
  lemma WhoDecides(s: State, e: Event, r: Id)
    requires r in s.messages && r in Next(s, e).messages && Next(s, e).messages[r].decision != s.messages[r].decision
    ensures match Next(s, e).messages[r].decision
            case None => false
            case Some(DisabledDecision) => e == Disable(r)
            case Some(RetentionDeleted) => e == Retire(r)
            case Some(decision) =>
              && e.Discord? && e.command.reservation == r && OfThisApplication(e.command, e.view)
              && e.view.actor == Some(Actor(true, e.command.studentNumber))
              && Confirmed?(s, r) && e.view.control == Some(Control(true, s.messages[r].renderedEpoch))
              && s.messages[r].source == Some(e.command.source) && s.messages[r].decision == NeededDecision(e.command.kind)
              && Process(s, e.command, e.view) == Done(Next(s, e), Settled(TerminalOf(decision)))
  {
  }

  function TerminalOf(d: Decision): Terminal {
    match d
    case AcceptedDecision => AcceptedResult
    case CancelledDecision => CancelledResult
    case NoShowDecision => NoShowResult
    case _ => StaleResult
  }

  lemma SettledAnswers(s: State, c: Command)
    requires DecisionsHold(s) && c.reservation in s.messages && (c.kind == Accept || c.kind == Reject)
    requires !Confirmed?(s, c.reservation) || s.messages[c.reservation].decision.Some?
    ensures AnswerHolds(s, c, SettledInitialDecision(s.reservations[c.reservation].status, s.messages[c.reservation].decision).terminal)
  {
  }

  lemma DecideAnswers(s: State, c: Command, expected: Option<Decision>, decision: Decision, terminal: Terminal)
    requires Replay(s.receipts, c.interaction, c.reservation).None? && terminal == TerminalOf(decision)
    requires c.reservation in s.reservations
    requires match decision
             case AcceptedDecision => s.reservations[c.reservation].status == Confirmed
             case CancelledDecision => s.reservations[c.reservation].status == Cancelled
             case NoShowDecision => s.reservations[c.reservation].status == NoShow
             case _ => false
    ensures match Decide(s, c, expected, decision, terminal)
            case Thrown => true
            case Done(t, answer) => answer == Settled(terminal) && AnswerHolds(t, c, terminal)
  {
  }

  lemma OperateAnswers(s: State, c: Command, v: View)
    requires DecisionsHold(s) && Replay(s.receipts, c.interaction, c.reservation).None?
    requires Confirmed?(s, c.reservation) && c.reservation in s.messages
    ensures match Operate(s, c, v)
            case Thrown => true
            case Done(t, Noop(_)) => t == s
            case Done(t, Settled(terminal)) => AnswerHolds(t, c, terminal)
  {
    var decision := s.messages[c.reservation].decision;
    if decision != NeededDecision(c.kind) {
      if c.kind == Accept || c.kind == Reject { SettledAnswers(s, c); }
    } else {
      match c.kind
      case Accept => DecideAnswers(s, c, None, AcceptedDecision, AcceptedResult);
      case Reject => DecideAnswers(WithStatus(s, c.reservation, Cancelled), c, None, CancelledDecision, CancelledResult);
      case AdminCancel =>
        DecideAnswers(WithStatus(s, c.reservation, Cancelled), c, Some(AcceptedDecision), CancelledDecision, CancelledResult);
      case MarkNoShow =>
        NoShowStep(s, c.reservation, v.cancellable);
        DecideAnswers(AfterNoShow(s, c.reservation, v.cancellable), c, Some(AcceptedDecision), NoShowDecision, NoShowResult);
    }
  }

  /** Whatever a command is answered is true of the reservation when the transaction ends: a stored
      result as what it still says, a fresh one to the letter; a refusal changes nothing. */
  lemma AnswersAreTrue(s: State, c: Command, v: View)
    requires Inv(s)
    ensures match Process(s, c, v)
            case Thrown => true
            case Done(t, Noop(_)) => t == s
            case Done(t, Settled(terminal)) =>
              if Replay(s.receipts, c.interaction, c.reservation).Some? then t == s && ReceiptHolds(t, c.reservation, terminal)
              else AnswerHolds(t, c, terminal)
  {
    if Replay(s.receipts, c.interaction, c.reservation).None? && c.reservation in s.messages {
      if Confirmed?(s, c.reservation) {
        OperateAnswers(s, c, v);
      } else if c.kind == Accept || c.kind == Reject {
        SettledAnswers(s, c);
      }
    }
  }

  function DecisionFor(k: Kind): Decision {
    match k case Accept => AcceptedDecision case Reject => CancelledDecision case AdminCancel => CancelledDecision case MarkNoShow => NoShowDecision
  }

  function StatusFor(k: Kind): Status {
    match k case Accept => Confirmed case Reject => Cancelled case AdminCancel => Cancelled case MarkNoShow => NoShow
  }

  /** The decision a command builds on: accept and reject need none, the others an acceptance. */
  function NeededDecision(k: Kind): Option<Decision> {
    if k == Accept || k == Reject then None else Some(AcceptedDecision)
  }

  /** The command comes from this application, and so does its job, if there is one or has to be. */
  predicate OfThisApplication(c: Command, v: View) {
    && c.application == Some(v.currentApplication)
    && (v.job == Some(c.application) || (v.job == None && !v.persistedJobRequired))
  }

  predicate UpToDate(s: State, c: Command, v: View) {
    && OfThisApplication(c, v) && v.actor == Some(Actor(true, c.studentNumber))
    && c.reservation in s.reservations && s.reservations[c.reservation] == Reservation(v.targetUser, Confirmed)
    && v.control == Some(Control(true, c.renderedEpoch))
    && c.reservation in s.messages && s.messages[c.reservation].renderedEpoch == c.renderedEpoch
    && s.messages[c.reservation].source == Some(c.source)
  }

  /** An interaction whose receipt is stored for this reservation is answered from it. */
  predicate Answered(s: State, c: Command) {
    c.interaction in s.receipts && s.receipts[c.interaction].reservation == c.reservation
    && s.receipts[c.interaction].body != Unreadable
  }

  /** Nothing is changed and no fresh result given except for a current administrator's command of this
      application, on the student's reservation, at the enabled epoch and from the message as it is. */
  lemma WhoMayOperate(s: State, c: Command, v: View)
    ensures match Process(s, c, v)
            case Thrown => true
            case Done(t, result) =>
              && (result.Settled? ==> OfThisApplication(c, v))
              && (t != s || (result.Settled? && !Answered(s, c)) ==>
                    && OfThisApplication(c, v) && v.actor == Some(Actor(true, c.studentNumber))
                    && c.reservation in s.reservations && s.reservations[c.reservation].user == v.targetUser
                    && v.control == Some(Control(true, c.renderedEpoch))
                    && c.reservation in s.messages && s.messages[c.reservation].renderedEpoch == c.renderedEpoch
                    && s.messages[c.reservation].source == Some(c.source))
  {
  }

  /** A first, up-to-date command whose decision is open takes effect: on its own message, on its own
      reservation (and, for a no-show, on the cancellable ones), and with a receipt. */
  lemma UpToDateCommandsTakeEffect(s: State, c: Command, v: View)
    requires UpToDate(s, c, v) && c.interaction !in s.receipts
    requires s.messages[c.reservation].decision == NeededDecision(c.kind) && (c.kind == MarkNoShow ==> v.noShow == Ready)
    ensures Process(s, c, v).Done?
    ensures var t := Process(s, c, v).state;
            var terminal := TerminalOf(DecisionFor(c.kind));
            && Process(s, c, v).result == Settled(terminal)
            && t.receipts == s.receipts[c.interaction := Receipt(c.reservation, Stored(terminal))]
            && t.messages == s.messages[c.reservation := s.messages[c.reservation].(decision := Some(DecisionFor(c.kind)))]
            && t.reservations.Keys == s.reservations.Keys
            && t.reservations[c.reservation].status == StatusFor(c.kind)
            && forall r :: r in s.reservations && r != c.reservation ==>
                 t.reservations[r] == if c.kind == MarkNoShow && r in v.cancellable && Confirmed?(s, r)
                                      then s.reservations[r].(status := Cancelled) else s.reservations[r]
  {
  }

  /** Everything up to the reservation's status is as the command says. */
  predicate Addressed(s: State, c: Command, v: View) {
    && OfThisApplication(c, v) && v.actor == Some(Actor(true, c.studentNumber))
    && c.reservation in s.reservations && s.reservations[c.reservation].user == v.targetUser
    && v.control == Some(Control(true, c.renderedEpoch))
    && c.reservation in s.messages && s.messages[c.reservation].renderedEpoch == c.renderedEpoch
    && s.messages[c.reservation].source == Some(c.source)
  }

  /** Why a command is refused: the first of these that is not in order. */
  lemma Refusals(s: State, c: Command, v: View)
    requires !Addressed(s, c, v) || Answered(s, c)
    ensures Process(s, c, v) == Done(s,
              if !OfThisApplication(c, v) then Noop("stale_application")
              else if Answered(s, c) then
                (match s.receipts[c.interaction].body case Stored(terminal) => Settled(terminal) case _ => Noop("stale_receipt"))
              else if v.actor != Some(Actor(true, c.studentNumber)) then Noop("stale_actor")
              else if c.reservation !in s.reservations || s.reservations[c.reservation].user != v.targetUser then Noop("stale_reservation")
              else if c.reservation !in s.messages then Noop("stale_message")
              else if v.control != Some(Control(true, c.renderedEpoch)) || s.messages[c.reservation].renderedEpoch != c.renderedEpoch
              then Noop("stale_control")
              else Noop("stale_message"))
  {
  }

  /** What a command is answered that comes too late: accept and reject what has become of the reservation,
      without a trace; the others that they are stale, with a receipt. */
  lemma LateCommandsAnswer(s: State, c: Command, v: View)
    requires Addressed(s, c, v) && !Answered(s, c)
    requires s.reservations[c.reservation].status != Confirmed || s.messages[c.reservation].decision != NeededDecision(c.kind)
    ensures var status, decision := s.reservations[c.reservation].status, s.messages[c.reservation].decision;
            if c.kind == Accept || c.kind == Reject then
              Process(s, c, v) == Done(s, Settled(
                if status == Cancelled then CancelledResult
                else if decision == Some(CancelledDecision) then CancelledResult
                else if status == Confirmed && decision == Some(AcceptedDecision) then AcceptedResult
                else StaleResult))
            else if c.interaction in s.receipts then Process(s, c, v).Thrown?
            else Process(s, c, v) ==
                 Done(s.(receipts := s.receipts[c.interaction := Receipt(c.reservation, Stored(StaleResult))]), Settled(StaleResult))
  {
  }

  /** A no-show that the web site's rules forbid changes nothing and says why. */
  lemma NoShowsAreChecked(s: State, c: Command, v: View)
    requires Addressed(s, c, v) && !Answered(s, c) && c.kind == MarkNoShow && v.noShow != Ready
    requires s.reservations[c.reservation].status == Confirmed && s.messages[c.reservation].decision == Some(AcceptedDecision)
    ensures Process(s, c, v) == Done(s, Noop(match v.noShow
              case TargetMissing => "reservation_not_found" case AdminTarget => "admin_target" case _ => "not_closed"))
  {
  }

  /** Delivering an interaction again changes nothing and answers with the stored result, and that
      result is still right about the reservation. */
  lemma RedeliveryReplays(states: seq<State>, events: seq<Event>, i: nat, c: Command, v: View)
    requires ValidRun(states, events) && Inv(states[0]) && i < |states|
    requires var x := c.interaction;
             x in states[i].receipts && states[i].receipts[x].reservation == c.reservation && states[i].receipts[x].body.Stored?
    requires OfThisApplication(c, v)
    ensures Process(states[i], c, v) == Done(states[i], Settled(states[i].receipts[c.interaction].body.terminal))
    ensures ReceiptHolds(states[i], c.reservation, states[i].receipts[c.interaction].body.terminal)
  {
    InvAlways(states, events, i);
  }

  // ---------------------------------------------------------------- one effect for each interaction

  /** The step in which an interaction decides something. */
  predicate Decides(s: State, e: Event, x: Id) {
    e.Discord? && e.command.interaction == x && Next(s, e).messages != s.messages
  }

  ghost predicate NeverPurged(events: seq<Event>, x: Id, i: nat, j: nat)
    requires j <= |events|
  {
    forall k :: i <= k < j ==> !(events[k].Purge? && x in events[k].interactions)
  }

  /** Receipts are written once: whatever is stored for an interaction stays as it is until it expires. */
  lemma {:induction false} ReceiptsAreWrittenOnce(states: seq<State>, events: seq<Event>, x: Id, i: nat, j: nat)
    requires ValidRun(states, events) && i <= j < |states| && NeverPurged(events, x, i, j)
    requires x in states[i].receipts
    ensures x in states[j].receipts && states[j].receipts[x] == states[i].receipts[x]
  {
    if i < j {
      ReceiptsAreWrittenOnce(states, events, x, i, j - 1);
      assert states[j] == Next(states[j - 1], events[j - 1]);
    }
  }

  lemma DecidingNeedsANewReceipt(s: State, e: Event, x: Id)
    requires Decides(s, e, x)
    ensures x !in s.receipts && x in Next(s, e).receipts
  {
  }

  /** An interaction decides at most once, however often it is delivered, as long as its receipt is kept. */
  lemma DecidesAtMostOnce(states: seq<State>, events: seq<Event>, x: Id, i: nat, j: nat)
    requires ValidRun(states, events) && i < j < |events| && NeverPurged(events, x, i, j)
    requires Decides(states[i], events[i], x)
    ensures !Decides(states[j], events[j], x)
  {
    assert states[i + 1] == Next(states[i], events[i]);
    DecidingNeedsANewReceipt(states[i], events[i], x);
    ReceiptsAreWrittenOnce(states, events, x, i + 1, j);
    if Decides(states[j], events[j], x) { DecidingNeedsANewReceipt(states[j], events[j], x); }
  }
}
