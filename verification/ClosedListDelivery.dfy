/** Sending the closed list of one study period. Calls overlap and can be cut off anywhere, and the
    repository can throw; the record of the delivery is changed by guarded updates only, each of which
    stamps it anew. */
module ClosedListDelivery {
  import opened Wrappers

  type CallId = nat

  /** Stamps are instants, and no two updates share one. */
  type Stamp = nat

  const STALE_AFTER: nat := 10 * 60_000

  datatype Status = Pending | PendingReview | Sending | Sent | Failed | Unknown | Abandoned

  datatype Delivery = Delivery(status: Status, updatedAt: Stamp)

  datatype Outcome = SentOutcome | FailedOutcome | UnknownOutcome

  datatype Resolution = ConfirmSent | Abandon

  predicate Reconcilable(s: Status) { s == Failed || s == PendingReview || s == Unknown }

  predicate Claimable(s: Status) { s == Failed || s == Pending }

  function StatusAfter(o: Outcome): Status {
    match o case SentOutcome => Sent case FailedOutcome => Failed case UnknownOutcome => Unknown
  }

  predicate StaleSending(d: Delivery, now: Stamp) { d.status == Sending && d.updatedAt + STALE_AFTER <= now }

  // ---------------------------------------------------------------- the guarded updates

  /** Claiming takes a delivery that failed or is pending, or creates one; forcing changes nothing. */
  function AfterClaim(d: Option<Delivery>, at: Stamp): (Option<Delivery>, bool) {
    if d.None? || Claimable(d.value.status) then (Some(Delivery(Sending, at)), true) else (d, false)
  }

  function AfterRetryClaim(d: Option<Delivery>, at: Stamp): (Option<Delivery>, bool) {
    if d.Some? && Reconcilable(d.value.status) then (Some(Delivery(Sending, at)), true) else (d, false)
  }

  function AfterResolve(d: Option<Delivery>, r: Resolution, at: Stamp): (Option<Delivery>, bool) {
    if d.Some? && Reconcilable(d.value.status) && (r == ConfirmSent ==> d.value.status == Unknown)
    then (Some(Delivery(if r == ConfirmSent then Sent else Abandoned, at)), true)
    else (d, false)
  }

  /** A result is saved only while the claim it belongs to is the current one. */
  function AfterSave(d: Option<Delivery>, claim: Stamp, o: Outcome, at: Stamp): (Option<Delivery>, bool) {
    if d == Some(Delivery(Sending, claim)) then (Some(Delivery(StatusAfter(o), at)), true) else (d, false)
  }

  function AfterSweep(d: Option<Delivery>, at: Stamp): Option<Delivery> {
    if d.Some? && StaleSending(d.value, at) then Some(Delivery(Unknown, at)) else d
  }

  function AfterMaterialize(d: Option<Delivery>, today: bool, at: Stamp): Option<Delivery> {
    if d.None? then Some(Delivery(if today then Pending else PendingReview, at)) else d
  }

  /** The period of the list: it must exist, be enabled and be over. */
  datatype PeriodState = Missing | Disabled | NotClosed | Closed

  /** Whether a call that has looked at the delivery goes on to claim it. */
  predicate GoesOn(d: Option<Delivery>, manual: bool) {
    d.None? || d.value.status == Pending || (d.value.status == Failed && !manual)
  }

  datatype SendResult = Delivered(outcome: Outcome) | Skipped(reason: string)

  /** How a save ends: normally, or with an exception, with or without the update in effect. The
      exception is classified like one of the sender. */
  datatype SaveFate = Returns | Throws(applied: bool, classified: Outcome)

  /** A result, or an exception for the caller. */
  datatype Ending = Ended(result: SendResult) | Threw

  /** The second save, of the error that the first part of the call ended with. */
  function AfterCaught(d: Option<Delivery>, claim: Stamp, o: Outcome, fate: SaveFate, at: Stamp): (Option<Delivery>, Ending) {
    var (saved, ok) := AfterSave(d, claim, o, at);
    match fate
    case Throws(applied, _) => (if applied then saved else d, Threw)
    case Returns => (saved, Ended(if ok then Delivered(o) else Skipped("already_sent")))
  }

  /** What an undisturbed call makes of its claim. An exception of the save after a successful post is
      caught in the same place as one of the post itself. */
  function AfterDelivery(d: Option<Delivery>, claim: Stamp, o: Outcome, first: SaveFate, second: SaveFate, at: Stamp, later: Stamp):
    (Option<Delivery>, Ending)
  {
    if o != SentOutcome then AfterCaught(d, claim, o, second, later)
    else
      var (saved, ok) := AfterSave(d, claim, SentOutcome, at);
      match first
      case Throws(applied, classified) => AfterCaught(if applied then saved else d, claim, classified, second, later)
      case Returns => (saved, Ended(if ok then Delivered(SentOutcome) else Skipped("already_sent")))
  }

  /** Which deliveries each guarded update takes, and what it makes of them. */
  lemma UpdatesTake(d: Option<Delivery>, at: Stamp)
    ensures AfterClaim(d, at) ==
            if d == None || d.value.status in {Failed, Pending} then (Some(Delivery(Sending, at)), true) else (d, false)
    ensures AfterRetryClaim(d, at) ==
            if d.Some? && d.value.status in {Failed, PendingReview, Unknown} then (Some(Delivery(Sending, at)), true) else (d, false)
    ensures AfterResolve(d, ConfirmSent, at) == if d.Some? && d.value.status == Unknown then (Some(Delivery(Sent, at)), true) else (d, false)
    ensures AfterResolve(d, Abandon, at) ==
            if d.Some? && d.value.status in {Failed, PendingReview, Unknown} then (Some(Delivery(Abandoned, at)), true) else (d, false)
    ensures AfterSweep(d, at) ==
            if d.Some? && d.value.status == Sending && d.value.updatedAt + 600_000 <= at then Some(Delivery(Unknown, at)) else d
    ensures AfterMaterialize(d, true, at) == if d == None then Some(Delivery(Pending, at)) else d
    ensures AfterMaterialize(d, false, at) == if d == None then Some(Delivery(PendingReview, at)) else d
    ensures GoesOn(d, false) <==> d == None || d.value.status in {Pending, Failed}
    ensures GoesOn(d, true) <==> d == None || d.value.status == Pending
  {
  }

  /** How a call ends that still holds the claim: with the outcome of its post, or of the save that threw, and
      with an exception only when the second save throws. */
  lemma DeliveriesEnd(claim: Stamp, o: Outcome, first: SaveFate, second: SaveFate, at: Stamp, later: Stamp)
    ensures var (after, ending) := AfterDelivery(Some(Delivery(Sending, claim)), claim, o, first, second, at, later);
            && (o == SentOutcome && first == Returns ==> after == Some(Delivery(Sent, at)) && ending == Ended(Delivered(SentOutcome)))
            && (o == FailedOutcome && second == Returns ==> after == Some(Delivery(Failed, later)) && ending == Ended(Delivered(FailedOutcome)))
            && (o == UnknownOutcome && second == Returns ==> after == Some(Delivery(Unknown, later)) && ending == Ended(Delivered(UnknownOutcome)))
            && (o == SentOutcome && first == Throws(false, FailedOutcome) && second == Returns ==>
                  after == Some(Delivery(Failed, later)) && ending == Ended(Delivered(FailedOutcome)))
            && (o == SentOutcome && first == Throws(true, FailedOutcome) && second == Returns ==>
                  after == Some(Delivery(Sent, at)) && ending == Ended(Skipped("already_sent")))
            && (ending == Threw <==> second.Throws? && !(o == SentOutcome && first == Returns))
  {
  }

  /** A call whose claim is no longer the current one changes nothing and says that the list is sent. */
  lemma LostClaimsSaveNothing(d: Option<Delivery>, claim: Stamp, o: Outcome, first: SaveFate, second: SaveFate, at: Stamp, later: Stamp)
    requires d != Some(Delivery(Sending, claim))
    ensures var (after, ending) := AfterDelivery(d, claim, o, first, second, at, later);
            after == d && ending in {Threw, Ended(Skipped("already_sent"))}
  {
  }

  class NotificationRepository {
    var delivery: Option<Delivery>

    constructor ()
      ensures delivery == None
    {
      delivery := None;
    }

    method ClaimDelivery(at: Stamp) returns (claim: Option<Stamp>)
      modifies this
      ensures (delivery, claim.Some?) == AfterClaim(old(delivery), at)
      ensures claim.Some? ==> claim == Some(at)
    {
      if delivery.Some? {
        if !Claimable(delivery.value.status) { return None; }
        delivery := Some(Delivery(Sending, at));
      } else {
        delivery := Some(Delivery(Sending, at));
      }
      return Some(at);
    }

    method ClaimDeliveryForReconciliation(at: Stamp) returns (claim: Option<Stamp>)
      modifies this
      ensures (delivery, claim.Some?) == AfterRetryClaim(old(delivery), at)
      ensures claim.Some? ==> claim == Some(at)
    {
      if delivery.None? || !Reconcilable(delivery.value.status) { return None; }
      delivery := Some(Delivery(Sending, at));
      return Some(at);
    }

    method ResolveDelivery(r: Resolution, at: Stamp) returns (resolved: bool)
      modifies this
      ensures (delivery, resolved) == AfterResolve(old(delivery), r, at)
    {
      if delivery.None? || !Reconcilable(delivery.value.status) { return false; }
      if r == ConfirmSent && delivery.value.status != Unknown { return false; }
      delivery := Some(Delivery(if r == ConfirmSent then Sent else Abandoned, at));
      return true;
    }

    method SaveDelivery(claim: Stamp, o: Outcome, at: Stamp) returns (saved: bool)
      modifies this
      ensures (delivery, saved) == AfterSave(old(delivery), claim, o, at)
    {
      if delivery != Some(Delivery(Sending, claim)) { return false; }
      delivery := Some(Delivery(StatusAfter(o), at));
      return true;
    }

    /** The part of a call after its claim, with its one place for exceptions. */
    method DeliverClaimedPeriod(claim: Stamp, o: Outcome, first: SaveFate, second: SaveFate, at: Stamp, later: Stamp)
      returns (ending: Ending)
      modifies this
      ensures (delivery, ending) == AfterDelivery(old(delivery), claim, o, first, second, at, later)
    {
      var caught := o;
      if o == SentOutcome {
        if first == Returns || first.applied {
          var saved := SaveDelivery(claim, SentOutcome, at);
          if first == Returns { return Ended(if saved then Delivered(SentOutcome) else Skipped("already_sent")); }
        }
        caught := first.classified;
      }
      if second == Returns || second.applied {
        var saved := SaveDelivery(claim, caught, later);
        if second == Returns { return Ended(if saved then Delivered(caught) else Skipped("already_sent")); }
      }
      return Threw;
    }

    /** The call from its look at the period and the delivery to its end, when nothing comes in between. */
    method SendClosedPeriod(period: PeriodState, manual: bool, now: Stamp, o: Outcome, first: SaveFate, second: SaveFate,
                            claimAt: Stamp, at: Stamp, later: Stamp)
      returns (ending: Ending)
      modifies this
      ensures period == Closed && GoesOn(old(delivery), manual) ==>
                (delivery, ending) == AfterDelivery(Some(Delivery(Sending, claimAt)), claimAt, o, first, second, at, later)
      ensures !(period == Closed && GoesOn(old(delivery), manual)) ==> delivery == old(delivery) && ending.Ended? && ending.result.Skipped?
      ensures period == Missing || period == Disabled ==> ending == Ended(Skipped("not_found"))
      ensures period == NotClosed ==> ending == Ended(Skipped("not_closed"))
      ensures period == Closed && !GoesOn(old(delivery), manual) ==>
                var d := old(delivery).value;
                ending == Ended(Skipped(if d.status == Sent || d.status == Abandoned || (d.status == Sending && !StaleSending(d, now))
                                        then "already_sent" else "needs_reconciliation"))
    {
      if period == Missing || period == Disabled { return Ended(Skipped("not_found")); }
      if period != Closed { return Ended(Skipped("not_closed")); }
      if delivery.Some? {
        var d := delivery.value;
        if (manual && d.status == Failed) || d.status == Unknown || d.status == PendingReview || StaleSending(d, now) {
          return Ended(Skipped("needs_reconciliation"));
        }
        if d.status == Sending || d.status == Sent || d.status == Abandoned { return Ended(Skipped("already_sent")); }
      }
      var claim := ClaimDelivery(claimAt);
      if claim.None? { return Ended(Skipped("already_sent")); }
      ending := DeliverClaimedPeriod(claim.value, o, first, second, at, later);
    }
  }

  // ---------------------------------------------------------------- overlapping calls

  /** A call that has claimed the delivery has not posted the list yet. One that has posted it
      successfully saves that; one that has caught an exception, of the post or of that save, saves the
      error instead, whether or not the list has arrived. */
  datatype Phase =
    | Ready
    | Looked
    | Claimed(claim: Stamp)
    | Posted(claim: Stamp)
    | Caught(claim: Stamp, outcome: Outcome, arrived: bool)
    | Over

  /** The record, the calls, the clock, and what happened so far: lists that reached the channel, records
      of a failure with the list not arrived and with the list arrived, claims of both kinds. */
  datatype World = World(delivery: Option<Delivery>, calls: map<CallId, Phase>, clock: Stamp,
                         reached: nat, failures: nat, misjudged: nat, claims: nat, retries: nat, confirmed: bool)

  datatype Event =
    | Look(call: CallId, period: PeriodState, manual: bool)
    | Claim(call: CallId)
    | Retry(call: CallId, period: PeriodState)
    | Post(call: CallId, outcome: Outcome, arrives: bool)
    | Save(call: CallId)
    | SaveThrows(call: CallId, applied: bool, classified: Outcome)
    | CutOff(call: CallId)
    | Resolve(resolution: Resolution)
    | Sweep
    | Materialize(today: bool)

  /** What the world around the service allows: that a post which is judged failed arrives all the same
      (an error status, or an answer that cannot be read, after the message was accepted), and that
      the save after a successful post is lost with an exception that counts as a failed post. */
  datatype Config = Config(failedPostsMayArrive: bool, lostSavesCountAsFailed: bool)

  function PhaseOf(w: World, c: CallId): Phase { if c in w.calls then w.calls[c] else Ready }

  predicate Possible(cfg: Config, w: World, e: Event) {
    match e
    case Look(c, _, _) => PhaseOf(w, c) == Ready
    case Claim(c) => PhaseOf(w, c) == Looked
    case Retry(c, _) => PhaseOf(w, c) == Ready
    case Post(c, o, arrives) =>
      && PhaseOf(w, c).Claimed?
      && (o == SentOutcome ==> arrives)
      && (o == FailedOutcome && arrives ==> cfg.failedPostsMayArrive)
    case Save(c) => PhaseOf(w, c).Posted? || PhaseOf(w, c).Caught?
    case SaveThrows(c, applied, classified) =>
      || PhaseOf(w, c).Caught?
      || (PhaseOf(w, c).Posted? && classified != SentOutcome
          && (classified == FailedOutcome && !applied ==> cfg.lostSavesCountAsFailed))
    case CutOff(_) => true
    case Resolve(_) => true
    case Sweep => true
    case Materialize(_) => true
  }

  function With(w: World, c: CallId, p: Phase): World { w.(calls := w.calls[c := p]) }

  /** The record after a save of the call, and the count it goes under. */
  function Saving(w: World, c: CallId, at: Stamp): World
    requires PhaseOf(w, c).Posted? || PhaseOf(w, c).Caught?
  {
    var p := PhaseOf(w, c);
    var (d, saved) := AfterSave(w.delivery, p.claim, if p.Posted? then SentOutcome else p.outcome, at);
    var failed := saved && p.Caught? && p.outcome == FailedOutcome;
    w.(delivery := d,
       failures := if failed && !p.arrived then w.failures + 1 else w.failures,
       misjudged := if failed && p.arrived then w.misjudged + 1 else w.misjudged)
  }

  /** One step, at an instant after all earlier ones. */
  function Next(cfg: Config, w: World, e: Event, at: Stamp): World
    requires Possible(cfg, w, e)
  {
    var v := w.(clock := at);
    match e
    case Look(c, period, manual) => With(v, c, if period == Closed && GoesOn(w.delivery, manual) then Looked else Over)
    case Claim(c) =>
      var (d, claimed) := AfterClaim(w.delivery, at);
      if claimed then With(v.(delivery := d, claims := w.claims + 1), c, Claimed(at)) else With(v, c, Over)
    case Retry(c, period) =>
      var (d, claimed) := AfterRetryClaim(w.delivery, at);
      if period == Closed && claimed then With(v.(delivery := d, retries := w.retries + 1), c, Claimed(at)) else With(v, c, Over)
    case Post(c, o, arrives) =>
      With(v.(reached := if arrives then w.reached + 1 else w.reached), c,
           if o == SentOutcome then Posted(PhaseOf(w, c).claim) else Caught(PhaseOf(w, c).claim, o, arrives))
    case Save(c) => With(Saving(v, c, at), c, Over)
    case SaveThrows(c, applied, classified) =>
      With(if applied then Saving(v, c, at) else v, c,
           if PhaseOf(w, c).Posted? then Caught(PhaseOf(w, c).claim, classified, true) else Over)
    case CutOff(c) => With(v, c, Over)
    case Resolve(r) =>
      var (d, resolved) := AfterResolve(w.delivery, r, at);
      v.(delivery := d, confirmed := w.confirmed || (resolved && r == ConfirmSent))
    case Sweep => v.(delivery := AfterSweep(w.delivery, at))
    case Materialize(today) => v.(delivery := AfterMaterialize(w.delivery, today, at))
  }

  /** A call looks once and goes on to claim exactly when the period is over and the record lets it; an explicit
      retry claims what is unknown, failed or under review; a call that was cut off does nothing more. */
  lemma StepsDo(cfg: Config, w: World, c: CallId, period: PeriodState, manual: bool, at: Stamp)
    requires c !in w.calls
    ensures Possible(cfg, w, Look(c, period, manual)) && Possible(cfg, w, Retry(c, period))
    ensures Next(cfg, w, Look(c, period, manual), at) ==
            w.(clock := at,
               calls := w.calls[c := if period == Closed
                                        && (w.delivery == None || w.delivery.value.status == Pending || (w.delivery.value.status == Failed && !manual))
                                     then Looked else Over])
    ensures Next(cfg, w, Retry(c, period), at) ==
            if period == Closed && w.delivery.Some? && w.delivery.value.status in {Failed, PendingReview, Unknown} then
              w.(clock := at, delivery := Some(Delivery(Sending, at)), retries := w.retries + 1, calls := w.calls[c := Claimed(at)])
            else w.(clock := at, calls := w.calls[c := Over])
  {
  }

  lemma OtherStepsDo(cfg: Config, w: World, c: CallId, at: Stamp)
    ensures Possible(cfg, w, CutOff(c)) && Next(cfg, w, CutOff(c), at) == w.(clock := at, calls := w.calls[c := Over])
    ensures Possible(cfg, w, Sweep) && Next(cfg, w, Sweep, at) == w.(clock := at, delivery := AfterSweep(w.delivery, at))
    ensures forall today :: Possible(cfg, w, Materialize(today)) &&
                            Next(cfg, w, Materialize(today), at) == w.(clock := at, delivery := AfterMaterialize(w.delivery, today, at))
    ensures forall r :: Possible(cfg, w, Resolve(r)) &&
                        Next(cfg, w, Resolve(r), at) ==
                        w.(clock := at, delivery := AfterResolve(w.delivery, r, at).0,
                           confirmed := w.confirmed || (r == ConfirmSent && AfterResolve(w.delivery, r, at).1))
    ensures PhaseOf(w, c) == Looked ==>
              Possible(cfg, w, Claim(c)) && Next(cfg, w, Claim(c), at) ==
              if AfterClaim(w.delivery, at).1
              then w.(clock := at, delivery := AfterClaim(w.delivery, at).0, claims := w.claims + 1, calls := w.calls[c := Claimed(at)])
              else w.(clock := at, calls := w.calls[c := Over])
  {
  }

  /** Every way a post can end is possible, except that a failed one arrives only where the world allows it; and
      every save can throw, except that after a successful post it counts as failed only where it allows that. */
  lemma PossibleEndings(cfg: Config, w: World, c: CallId, applied: bool, classified: Outcome)
    ensures PhaseOf(w, c).Claimed? ==>
              && Possible(cfg, w, Post(c, SentOutcome, true)) && Possible(cfg, w, Post(c, FailedOutcome, false))
              && Possible(cfg, w, Post(c, UnknownOutcome, true)) && Possible(cfg, w, Post(c, UnknownOutcome, false))
              && (Possible(cfg, w, Post(c, FailedOutcome, true)) <==> cfg.failedPostsMayArrive)
    ensures PhaseOf(w, c).Posted? || PhaseOf(w, c).Caught? ==> Possible(cfg, w, Save(c))
    ensures PhaseOf(w, c).Caught? ==> Possible(cfg, w, SaveThrows(c, applied, classified))
    ensures PhaseOf(w, c).Posted? ==>
              (Possible(cfg, w, SaveThrows(c, applied, classified)) <==>
               classified == UnknownOutcome || (classified == FailedOutcome && (applied || cfg.lostSavesCountAsFailed)))
  {
  }

  // ---------------------------------------------------------------- one call and its steps

  /** The step that a save with this fate is. */
  function SaveStep(c: CallId, fate: SaveFate): Event {
    match fate
    case Returns => Save(c)
    case Throws(applied, classified) => SaveThrows(c, applied, classified)
  }

  lemma CaughtIsSaved(cfg: Config, w: World, c: CallId, fate: SaveFate, at: Stamp)
    requires PhaseOf(w, c).Caught? && Possible(cfg, w, SaveStep(c, fate))
    ensures var p, v := PhaseOf(w, c), Next(cfg, w, SaveStep(c, fate), at);
            v.delivery == AfterCaught(w.delivery, p.claim, p.outcome, fate, at).0 && PhaseOf(v, c) == Over
  {
  }

  lemma PostedIsSaved(cfg: Config, w: World, c: CallId, fate: SaveFate, at: Stamp)
    requires PhaseOf(w, c).Posted? && Possible(cfg, w, SaveStep(c, fate))
    ensures var claim, v := PhaseOf(w, c).claim, Next(cfg, w, SaveStep(c, fate), at);
            && v.delivery == (if fate == Returns || fate.applied then AfterSave(w.delivery, claim, SentOutcome, at).0 else w.delivery)
            && PhaseOf(v, c) == if fate == Returns then Over else Caught(claim, fate.classified, true)
  {
  }

  /** The run takes the method's way through a call: whenever its post and its saves are steps that follow
      one after the other, the record ends as the method leaves it, and the call is over. */
  lemma StepsDeliver(cfg: Config, w: World, c: CallId, o: Outcome, arrives: bool, first: SaveFate, second: SaveFate,
                     posted: Stamp, at: Stamp, later: Stamp)
    requires PhaseOf(w, c).Claimed? && Possible(cfg, w, Post(c, o, arrives))
    requires var p := Next(cfg, w, Post(c, o, arrives), posted);
             if o != SentOutcome then Possible(cfg, p, SaveStep(c, second))
             else Possible(cfg, p, SaveStep(c, first))
                  && (first.Throws? ==> Possible(cfg, Next(cfg, p, SaveStep(c, first), at), SaveStep(c, second)))
    ensures var p := Next(cfg, w, Post(c, o, arrives), posted);
            var s := if o != SentOutcome then p else Next(cfg, p, SaveStep(c, first), at);
            var v := if o == SentOutcome && first == Returns then s else Next(cfg, s, SaveStep(c, second), later);
            v.delivery == AfterDelivery(w.delivery, PhaseOf(w, c).claim, o, first, second, at, later).0 && PhaseOf(v, c) == Over
  {
    var p := Next(cfg, w, Post(c, o, arrives), posted);
    if o != SentOutcome {
      CaughtIsSaved(cfg, p, c, second, later);
    } else {
      PostedIsSaved(cfg, p, c, first, at);
      if first.Throws? { CaughtIsSaved(cfg, Next(cfg, p, SaveStep(c, first), at), c, second, later); }
    }
  }

  datatype Run = Run(worlds: seq<World>, events: seq<Event>, times: seq<Stamp>)

  const NOTHING_YET := World(None, map[], 0, 0, 0, 0, 0, 0, false)

  ghost predicate Valid(cfg: Config, r: Run) {
    && |r.worlds| == |r.events| + 1 == |r.times| + 1
    && r.worlds[0] == NOTHING_YET
    && (forall i :: 0 <= i < |r.events| ==> Happens(cfg, r, i))
  }

  ghost predicate Happens(cfg: Config, r: Run, i: nat)
    requires |r.worlds| == |r.events| + 1 == |r.times| + 1 && i < |r.events|
  {
    && Possible(cfg, r.worlds[i], r.events[i]) && r.worlds[i].clock < r.times[i]
    && r.worlds[i + 1] == Next(cfg, r.worlds[i], r.events[i], r.times[i])
  }

  // ---------------------------------------------------------------- what every step keeps

  /** The calls that may still post, and those whose list has not arrived and which are to save that. */
  function Flying(w: World): set<CallId> { set c | c in w.calls && w.calls[c].Claimed? }

  predicate IsMissed(p: Phase) { p.Caught? && !p.arrived }

  function Missed(w: World): set<CallId> { set c | c in w.calls && IsMissed(w.calls[c]) }

  /** Every claim leads to one post at most, which arrives or does not. */
  ghost predicate InvPosts(w: World) {
    w.reached + w.failures + |Missed(w)| + |Flying(w)| <= w.claims + w.retries
  }

  /** Claims without a retry start from nothing, once, or from a failure that was recorded. */
  ghost predicate InvClaims(w: World) {
    w.claims + (if w.delivery.None? || Claimable(w.delivery.value.status) then 1 else 0) <= 1 + w.failures + w.misjudged
  }

  predicate Holds(p: Phase, stamp: Stamp) { (p.Claimed? || p.Posted? || p.Caught?) && p.claim == stamp }

  /** Claims carry different stamps; the newest one is the record's while it says SENDING. */
  ghost predicate InvStamps(w: World) {
    && (w.delivery.Some? ==> w.delivery.value.updatedAt <= w.clock)
    && (forall c, s: Stamp :: c in w.calls && Holds(w.calls[c], s) ==> s <= w.clock)
    && (forall c, d, s: Stamp :: c in w.calls && d in w.calls && Holds(w.calls[c], s) && Holds(w.calls[d], s) ==> c == d)
  }

  /** What the record says was sent has arrived, unless an administrator said so. */
  ghost predicate InvSent(w: World) {
    && (forall c :: c in w.calls && w.calls[c].Posted? ==> w.reached > 0)
    && (forall c :: c in w.calls && w.calls[c].Caught? ==> w.calls[c].outcome != SentOutcome)
    && (w.delivery.Some? && w.delivery.value.status == Sent ==> w.reached > 0 || w.confirmed)
  }

  predicate Misjudges(p: Phase) { p.Caught? && p.arrived && p.outcome == FailedOutcome }

  /** Unless the world allows it, no call can still record that a list failed which had arrived. */
  ghost predicate InvJudged(cfg: Config, w: World) {
    cfg == Config(false, false) ==>
      && w.misjudged == 0
      && forall c :: c in w.calls && Misjudges(w.calls[c]) ==> w.delivery != Some(Delivery(Sending, w.calls[c].claim))
  }

  ghost predicate Inv(cfg: Config, w: World) {
    InvPosts(w) && InvClaims(w) && InvStamps(w) && InvSent(w) && InvJudged(cfg, w)
  }

  lemma SetsAfter(w: World, c: CallId, p: Phase)
    ensures |Flying(With(w, c, p))| == |Flying(w)| - (if PhaseOf(w, c).Claimed? then 1 else 0) + (if p.Claimed? then 1 else 0)
    ensures |Missed(With(w, c, p))| == |Missed(w)| - (if IsMissed(PhaseOf(w, c)) then 1 else 0) + (if IsMissed(p) then 1 else 0)
  {
    Swap(Flying(w), Flying(With(w, c, p)), c, PhaseOf(w, c).Claimed?, p.Claimed?);
    Swap(Missed(w), Missed(With(w, c, p)), c, IsMissed(PhaseOf(w, c)), IsMissed(p));
  }

  lemma Swap(before: set<CallId>, after: set<CallId>, c: CallId, was: bool, will: bool)
    requires (c in before <==> was) && (c in after <==> will)
    requires forall d :: d != c ==> (d in before <==> d in after)
    ensures |after| == |before| - (if was then 1 else 0) + (if will then 1 else 0)
  {
    assert before - {c} == after - {c};
    assert |before - {c}| == |before| - (if was then 1 else 0);
    assert |after - {c}| == |after| - (if will then 1 else 0);
  }

  /** The call whose phase a step changes. */
  function Mover(e: Event): Option<CallId> {
    if e.Resolve? || e.Sweep? || e.Materialize? then None else Some(e.call)
  }

  lemma InvPostsStep(cfg: Config, w: World, e: Event, at: Stamp)
    requires Possible(cfg, w, e) && InvPosts(w)
    ensures InvPosts(Next(cfg, w, e, at))
  {
    var v := Next(cfg, w, e, at);
    match Mover(e)
    case Some(c) =>
      SetsAfter(w, c, v.calls[c]);
      assert Flying(With(w, c, v.calls[c])) == Flying(v) && Missed(With(w, c, v.calls[c])) == Missed(v);
    case None =>
      assert Flying(v) == Flying(w) && Missed(v) == Missed(w);
  }

  lemma InvClaimsStep(cfg: Config, w: World, e: Event, at: Stamp)
    requires Possible(cfg, w, e) && InvClaims(w) && InvSent(w)
    ensures InvClaims(Next(cfg, w, e, at))
  {
  }

  lemma InvStampsStep(cfg: Config, w: World, e: Event, at: Stamp)
    requires Possible(cfg, w, e) && InvStamps(w) && w.clock < at
    ensures InvStamps(Next(cfg, w, e, at))
  {
    var v := Next(cfg, w, e, at);
    forall c, s: Stamp | c in v.calls && Holds(v.calls[c], s) && !(c in w.calls && Holds(w.calls[c], s))
      ensures s == at && Mover(e) == Some(c)
    {
    }
  }

  lemma InvSentStep(cfg: Config, w: World, e: Event, at: Stamp)
    requires Possible(cfg, w, e) && InvSent(w)
    ensures InvSent(Next(cfg, w, e, at))
  {
  }

  lemma InvJudgedStep(cfg: Config, w: World, e: Event, at: Stamp)
    requires Possible(cfg, w, e) && InvJudged(cfg, w) && InvStamps(w) && w.clock < at
    ensures InvJudged(cfg, Next(cfg, w, e, at))
  {
    var v := Next(cfg, w, e, at);
    if cfg == Config(false, false) {
      forall c | c in v.calls && Misjudges(v.calls[c]) ensures v.delivery != Some(Delivery(Sending, v.calls[c].claim)) {
        if c in w.calls && v.calls[c] == w.calls[c] {
          assert Holds(w.calls[c], w.calls[c].claim);
        } else {
          assert e.SaveThrows? && e.call == c && e.applied && Holds(w.calls[c], w.calls[c].claim);
        }
      }
    }
  }

  lemma {:induction false} InvAlways(cfg: Config, r: Run, i: nat)
    requires Valid(cfg, r) && i < |r.worlds|
    ensures Inv(cfg, r.worlds[i])
  {
    if i == 0 {
      assert Flying(r.worlds[0]) == {} && Missed(r.worlds[0]) == {};
    } else {
      InvAlways(cfg, r, i - 1);
      assert Happens(cfg, r, i - 1);
      InvPostsStep(cfg, r.worlds[i - 1], r.events[i - 1], r.times[i - 1]);
      InvClaimsStep(cfg, r.worlds[i - 1], r.events[i - 1], r.times[i - 1]);
      InvStampsStep(cfg, r.worlds[i - 1], r.events[i - 1], r.times[i - 1]);
      InvSentStep(cfg, r.worlds[i - 1], r.events[i - 1], r.times[i - 1]);
      InvJudgedStep(cfg, r.worlds[i - 1], r.events[i - 1], r.times[i - 1]);
    }
  }

  // ---------------------------------------------------------------- how often the list arrives

  /** However calls overlap and wherever they are cut off or throw: the list reaches the channel at most
      once, and once more for every explicit retry and for every time that a list which had arrived was
      recorded as failed; what is recorded as sent has reached it or was confirmed. */
  lemma ReachesTheChannelOnce(cfg: Config, r: Run, i: nat)
    requires Valid(cfg, r) && i < |r.worlds|
    ensures r.worlds[i].reached <= 1 + r.worlds[i].retries + r.worlds[i].misjudged
    ensures r.worlds[i].delivery.Some? && r.worlds[i].delivery.value.status == Sent ==> r.worlds[i].reached > 0 || r.worlds[i].confirmed
  {
    InvAlways(cfg, r, i);
  }

  /** Never twice without an explicit retry. */
  ghost predicate OnceUnlessRetried(cfg: Config) {
    forall r: Run, i: nat :: Valid(cfg, r) && i < |r.worlds| ==> r.worlds[i].reached <= 1 + r.worlds[i].retries
  }

  function Last(r: Run): World
    requires r.worlds != []
  {
    r.worlds[|r.worlds| - 1]
  }

  ghost function Then(cfg: Config, r: Run, e: Event): (t: Run)
    requires Valid(cfg, r) && Possible(cfg, Last(r), e)
    ensures Valid(cfg, t) && Last(t) == Next(cfg, Last(r), e, Last(r).clock + 1)
  {
    var t := Run(r.worlds + [Next(cfg, Last(r), e, Last(r).clock + 1)], r.events + [e], r.times + [Last(r).clock + 1]);
    assert forall i :: 0 <= i < |r.events| ==> Happens(cfg, r, i) ==> Happens(cfg, t, i);
    t
  }

  lemma FirstCallClaims(cfg: Config) returns (r: Run)
    ensures Valid(cfg, r)
    ensures Last(r) == World(Some(Delivery(Sending, 2)), map[1 := Claimed(2)], 2, 0, 0, 0, 1, 0, false)
  {
    r := Run([NOTHING_YET], [], []);
    r := Then(cfg, r, Look(1, Closed, false));
    r := Then(cfg, r, Claim(1));
  }

  /** The list has arrived, the record says that it failed, and the next automatic call posts it again. */
  lemma SecondCallPostsAgain(cfg: Config, r: Run)
    requires Valid(cfg, r) && Last(r).reached == 1 && Last(r).retries == 0 && 2 !in Last(r).calls
    requires Last(r).delivery.Some? && Last(r).delivery.value.status == Failed
    ensures !OnceUnlessRetried(cfg)
  {
    var t := Then(cfg, r, Look(2, Closed, false));
    t := Then(cfg, t, Claim(2));
    t := Then(cfg, t, Post(2, SentOutcome, true));
    assert t.worlds[|t.worlds| - 1].reached == 2;
  }

  /** The save after the post throws, its exception counts as a failed post, and that is saved. */
  lemma ALostSaveRepeatsTheList(cfg: Config)
    requires cfg.lostSavesCountAsFailed
    ensures !OnceUnlessRetried(cfg)
  {
    var r := FirstCallClaims(cfg);
    r := Then(cfg, r, Post(1, SentOutcome, true));
    r := Then(cfg, r, SaveThrows(1, false, FailedOutcome));
    r := Then(cfg, r, Save(1));
    SecondCallPostsAgain(cfg, r);
  }

  /** The post is answered with an error although the message was accepted. */
  lemma AnArrivedFailureRepeatsTheList(cfg: Config)
    requires cfg.failedPostsMayArrive
    ensures !OnceUnlessRetried(cfg)
  {
    var r := FirstCallClaims(cfg);
    r := Then(cfg, r, Post(1, FailedOutcome, true));
    r := Then(cfg, r, Save(1));
    SecondCallPostsAgain(cfg, r);
  }

  /** The list reaches the channel at most once and once more for every explicit retry, in every run,
      exactly when posts judged failed never arrive and no lost save after a successful post counts as failed. */
  lemma OnceUnlessRetriedIff(cfg: Config)
    ensures OnceUnlessRetried(cfg) <==> !cfg.failedPostsMayArrive && !cfg.lostSavesCountAsFailed
  {
    if cfg.lostSavesCountAsFailed {
      ALostSaveRepeatsTheList(cfg);
    } else if cfg.failedPostsMayArrive {
      AnArrivedFailureRepeatsTheList(cfg);
    } else {
      forall r: Run, i: nat | Valid(cfg, r) && i < |r.worlds| ensures r.worlds[i].reached <= 1 + r.worlds[i].retries {
        InvAlways(cfg, r, i);
      }
    }
  }

  // ---------------------------------------------------------------- the record

  /** What is sent or abandoned stays exactly as it is. */
  lemma {:induction false} SentAndAbandonedStay(cfg: Config, r: Run, i: nat, j: nat)
    requires Valid(cfg, r) && i <= j < |r.worlds|
    requires r.worlds[i].delivery.Some? && r.worlds[i].delivery.value.status in {Sent, Abandoned}
    ensures r.worlds[j].delivery == r.worlds[i].delivery
  {
    if i < j {
      SentAndAbandonedStay(cfg, r, i, j - 1);
      assert Happens(cfg, r, j - 1);
    }
  }

  /** A step in which a call saves, whether it then returns or throws. */
  predicate Saves(e: Event) { e.Save? || (e.SaveThrows? && e.applied) }

  /** The only ways out of each state of the record. */
  lemma WaysOut(cfg: Config, w: World, e: Event, at: Stamp)
    requires Possible(cfg, w, e) && w.delivery.Some? && Next(cfg, w, e, at).delivery != w.delivery
    ensures match w.delivery.value.status
            case Sent => false
            case Abandoned => false
            case Unknown => e.Retry? || e.Resolve?
            case PendingReview => e.Retry? || e == Resolve(Abandon)
            case Failed => e.Claim? || e.Retry? || e == Resolve(Abandon)
            case Pending => e.Claim?
            case Sending =>
              || (e == Sweep && w.delivery.value.updatedAt + 600_000 <= at)
              || (Saves(e) && Holds(PhaseOf(w, e.call), w.delivery.value.updatedAt))
  {
  }

  /** A result is saved only by the one call that holds the record's current claim. */
  lemma SavedOnlyUnderTheCurrentClaim(cfg: Config, r: Run, i: nat, other: CallId)
    requires Valid(cfg, r) && i < |r.events| && Saves(r.events[i])
    requires r.worlds[i + 1].delivery != r.worlds[i].delivery && other in r.worlds[i].calls
    ensures r.worlds[i].delivery.Some? && r.worlds[i].delivery.value.status == Sending
    ensures Holds(PhaseOf(r.worlds[i], r.events[i].call), r.worlds[i].delivery.value.updatedAt)
    ensures Holds(r.worlds[i].calls[other], r.worlds[i].delivery.value.updatedAt) ==> other == r.events[i].call
  {
    InvAlways(cfg, r, i);
    assert Happens(cfg, r, i);
  }

  /** The record waits for a call that is gone, or for an administrator, or is settled. */
  ghost predicate Stuck(w: World) {
    && w.delivery.Some?
    && (w.delivery.value.status in {Unknown, Sent, Abandoned}
        || (w.delivery.value.status == Sending && forall c :: c in w.calls ==> !Holds(w.calls[c], w.delivery.value.updatedAt)))
  }

  lemma StuckStays(cfg: Config, w: World, e: Event, at: Stamp)
    requires Possible(cfg, w, e) && w.clock < at && InvStamps(w) && Stuck(w)
    requires Next(cfg, w, e, at).retries == w.retries
    ensures Next(cfg, w, e, at).claims == w.claims && Stuck(Next(cfg, w, e, at))
  {
  }

  /** When the call that holds the claim is cut off, nothing is claimed again before an explicit retry. */
  lemma {:induction false} ACutOffClaimNeedsARetry(cfg: Config, r: Run, i: nat, j: nat)
    requires Valid(cfg, r) && i < j < |r.worlds|
    requires r.events[i].CutOff? && r.worlds[i].delivery.Some? && r.worlds[i].delivery.value.status == Sending
    requires Holds(PhaseOf(r.worlds[i], r.events[i].call), r.worlds[i].delivery.value.updatedAt)
    requires r.worlds[j].retries == r.worlds[i].retries
    ensures r.worlds[j].claims == r.worlds[i].claims && Stuck(r.worlds[j])
  {
    InvAlways(cfg, r, j - 1);
    assert Happens(cfg, r, j - 1);
    if i < j - 1 {
      RetriesGrow(cfg, r, i, j - 1);
      ACutOffClaimNeedsARetry(cfg, r, i, j - 1);
      StuckStays(cfg, r.worlds[j - 1], r.events[j - 1], r.times[j - 1]);
    }
  }

  lemma {:induction false} RetriesGrow(cfg: Config, r: Run, i: nat, j: nat)
    requires Valid(cfg, r) && i <= j < |r.worlds|
    ensures r.worlds[i].retries <= r.worlds[j].retries
  {
    if i < j {
      RetriesGrow(cfg, r, i, j - 1);
      assert Happens(cfg, r, j - 1);
    }
  }
}
