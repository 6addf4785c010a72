/** The retention cleanup of one expired reservation message: a local row, a message with a known
    identifier, or a message whose sending had an unknown outcome and that has to be searched for in
    the channel, one page a call, before it may be deleted and its row turned into a tombstone. */
module RetentionScan {
  import opened Wrappers
  import opened History
  import Remote = RemoteVerification

  const PAGE_SIZE: nat := 100
  const SCAN_PAGE_CAP: nat := 10

  const LEDGER_CONFLICT := "discord_retention_ledger_conflict"
  const LOOKUP_INCOMPLETE := "discord_retention_lookup_incomplete"
  const SCAN_CAP := "discord_retention_scan_cap"
  const SCAN_PARTIAL := "discord_retention_scan_partial"
  const ZERO_MATCH := "discord_retention_zero_match"

  datatype Continuation = Continuation(
    attemptBoundary: Option<MessageId>,
    before: Option<MessageId>,
    complete: bool,
    lastErrorCode: Option<string>,
    matched: seq<MessageId>,
    pagesScanned: nat,
    status: Status)

  datatype Kind = Local | Known | Unknown

  /** The parts of the candidate that the cleanup never changes. */
  datatype Target = Target(kind: Kind, channelKnown: bool, known: Option<MessageId>,
                           boundary: Option<MessageId>, nonce: string)

  datatype Outcome = KnownMessage | UniqueMessage | MultipleMessages

  datatype Row = Live | Tombstone(outcome: Outcome, matchCount: nat) | Gone

  /** The channel, the row and its cursor, and every identifier whose deletion was requested so far. */
  datatype State = State(channel: seq<Message>, row: Row, cursor: Option<Continuation>, requested: set<MessageId>)

  /** A failed deletion may or may not have taken effect. */
  datatype Failure = Failure(code: string, applied: bool)

  /** What the outside world decides in one call. A call that is cut short acts like one whose
      last write to the row is lost. */
  datatype Call = Call(config: bool, pageError: Option<string>, failures: map<MessageId, Failure>, saves: bool)

  datatype Retained = Retained(state: State, code: Option<string>)

  function Initial(boundary: Option<MessageId>): Continuation {
    Continuation(boundary, None, false, None, [], 0, ZeroPartial)
  }

  function Without(h: seq<Message>, id: MessageId): seq<Message> {
    if h == [] then [] else (if h[0].id == id then [] else [h[0]]) + Without(h[1..], id)
  }

  datatype Deletion = Deletion(channel: seq<Message>, requested: set<MessageId>, error: Option<string>)

  /** Deletes one message after the other, up to the first failure. */
  function DeleteEach(h: seq<Message>, requested: set<MessageId>, ids: seq<MessageId>,
                      failures: map<MessageId, Failure>): Deletion
    decreases |ids|
  {
    if ids == [] then Deletion(h, requested, None)
    else if ids[0] in failures then
      Deletion(if failures[ids[0]].applied then Without(h, ids[0]) else h, requested + {ids[0]}, Some(failures[ids[0]].code))
    else DeleteEach(Without(h, ids[0]), requested + {ids[0]}, ids[1..], failures)
  }

  function Save(s: State, next: Continuation, saves: bool, code: string): Retained {
    if saves then Retained(s.(cursor := Some(next)), Some(code)) else Retained(s, Some(LEDGER_CONFLICT))
  }

  function DeleteAndReduce(s: State, continuation: Option<Continuation>, ids: seq<MessageId>, outcome: Outcome,
                           c: Call): Retained
  {
    var d := DeleteEach(s.channel, s.requested, ids, c.failures);
    var after := s.(channel := d.channel, requested := d.requested);
    if d.error.Some? then
      if continuation.Some? then Save(after, continuation.value.(lastErrorCode := d.error), c.saves, d.error.value)
      else Retained(after, d.error)
    else if c.saves then Retained(after.(row := Tombstone(outcome, |ids|), cursor := None), None)
    else Retained(after, Some(LEDGER_CONFLICT))
  }

  /** The messages before the boundary message, or all of them. */
  function BeforeBoundary(page: seq<Message>, boundary: Option<MessageId>): seq<Message> {
    if page == [] || Some(page[0].id) == boundary then []
    else [page[0]] + BeforeBoundary(page[1..], boundary)
  }

  function AfterPage(t: Target, h: seq<Message>, previous: Continuation): Continuation {
    var page := Page(h, previous.before, PAGE_SIZE);
    var relevant := BeforeBoundary(page, previous.attemptBoundary);
    var matched := Distinct(previous.matched + Carriers(relevant, t.nonce));
    var complete := |relevant| < |page| || |page| < PAGE_SIZE;
    Continuation(previous.attemptBoundary, if relevant == [] then previous.before else Some(relevant[|relevant| - 1].id),
                 complete, None, matched, previous.pagesScanned + 1, StatusOf(complete, |matched|))
  }

  function OutcomeOf(matched: seq<MessageId>): Outcome {
    if |matched| == 1 then UniqueMessage else MultipleMessages
  }

  function Previous(t: Target, s: State): Continuation {
    if s.cursor.Some? then s.cursor.value else Initial(t.boundary)
  }

  function ScanPage(t: Target, s: State, previous: Continuation, c: Call): Retained {
    match c.pageError
    case Some(code) =>
      Save(s, previous.(complete := false, lastErrorCode := Some(code), status := Error), c.saves, code)
    case None =>
      var next := AfterPage(t, s.channel, previous);
      if !next.complete || next.matched == [] then
        Save(s, next, c.saves,
             if !next.complete && next.pagesScanned >= SCAN_PAGE_CAP then SCAN_CAP
             else if next.complete then ZERO_MATCH else SCAN_PARTIAL)
      else DeleteAndReduce(s, Some(next), next.matched, OutcomeOf(next.matched), c)
  }

  function ScanUnknown(t: Target, s: State, c: Call): Retained {
    var previous := Previous(t, s);
    if !c.config || !t.channelKnown || t.boundary.None? then
      Save(s, previous.(complete := false, lastErrorCode := Some(LOOKUP_INCOMPLETE), status := Error), c.saves, LOOKUP_INCOMPLETE)
    else if previous.complete then
      if previous.matched == [] then Retained(s, Some(ZERO_MATCH))
      else DeleteAndReduce(s, Some(previous), previous.matched, OutcomeOf(previous.matched), c)
    else if previous.pagesScanned >= SCAN_PAGE_CAP then Retained(s, Some(SCAN_CAP))
    else ScanPage(t, s, previous, c)
  }

  function Retain(t: Target, s: State, c: Call): Retained {
    if s.row != Live then Retained(s, None)
    else match t.kind
      case Local =>
        if c.saves then Retained(s.(row := Gone), None) else Retained(s, Some(LEDGER_CONFLICT))
      case Known =>
        if !c.config || !t.channelKnown || t.known.None? then Retained(s, Some(LOOKUP_INCOMPLETE))
        else DeleteAndReduce(s, None, [t.known.value], KnownMessage, c)
      case Unknown => ScanUnknown(t, s, c)
  }

  /** The cleanup as it works: the channel, the row and the cursor change step by step. */
  class Cleanup {
    const target: Target
    var channel: seq<Message>
    var row: Row
    var cursor: Option<Continuation>
    ghost var requested: set<MessageId>

    ghost function Now(): State
      reads this
    {
      State(channel, row, cursor, requested)
    }

    constructor (target: Target, channel: seq<Message>, cursor: Option<Continuation>)
      ensures this.target == target && Now() == State(channel, Live, cursor, {})
    {
      this.target, this.channel, this.row, this.cursor, this.requested := target, channel, Live, cursor, {};
    }

    method SaveScanProgress(next: Continuation, saves: bool) returns (saved: bool)
      modifies this
      ensures saved == saves
      ensures Now() == if saves then old(Now()).(cursor := Some(next)) else old(Now())
    {
      if saves { cursor := Some(next); }
      saved := saves;
    }

    method DeleteMatchesAndReduce(continuation: Option<Continuation>, ids: seq<MessageId>, outcome: Outcome, c: Call)
      returns (code: Option<string>)
      modifies this
      ensures Retained(Now(), code) == DeleteAndReduce(old(Now()), continuation, ids, outcome, c)
    {
      for i := 0 to |ids|
        invariant row == old(row) && cursor == old(cursor)
        invariant DeleteEach(channel, requested, ids[i..], c.failures) ==
                  DeleteEach(old(channel), old(requested), ids, c.failures)
      {
        requested := requested + {ids[i]};
        if ids[i] in c.failures {
          var failure := c.failures[ids[i]];
          if failure.applied { channel := Without(channel, ids[i]); }
          if continuation.Some? {
            var saved := SaveScanProgress(continuation.value.(lastErrorCode := Some(failure.code)), c.saves);
            if !saved { return Some(LEDGER_CONFLICT); }
          }
          return Some(failure.code);
        }
        channel := Without(channel, ids[i]);
      }
      if !c.saves { return Some(LEDGER_CONFLICT); }
      row, cursor := Tombstone(outcome, |ids|), None;
      return None;
    }

    method ProcessHistoryPage(previous: Continuation, c: Call) returns (code: Option<string>)
      modifies this
      ensures Retained(Now(), code) == ScanPage(target, old(Now()), previous, c)
    {
      match c.pageError {
        case Some(error) =>
          var saved := SaveScanProgress(previous.(complete := false, lastErrorCode := Some(error), status := Error), c.saves);
          return Some(if saved then error else LEDGER_CONFLICT);
        case None =>
          var next := AfterPage(target, channel, previous);
          if !next.complete || |next.matched| == 0 {
            var saved := SaveScanProgress(next, c.saves);
            if !saved { return Some(LEDGER_CONFLICT); }
            return Some(if !next.complete && next.pagesScanned >= SCAN_PAGE_CAP then SCAN_CAP
                        else if next.complete then ZERO_MATCH else SCAN_PARTIAL);
          }
          code := DeleteMatchesAndReduce(Some(next), next.matched, OutcomeOf(next.matched), c);
      }
    }

    method ScanUnknownCandidate(c: Call) returns (code: Option<string>)
      modifies this
      ensures Retained(Now(), code) == ScanUnknown(target, old(Now()), c)
    {
      var previous := if cursor.Some? then cursor.value else Initial(target.boundary);
      if !c.config || !target.channelKnown || target.boundary.None? {
        var saved := SaveScanProgress(previous.(complete := false, lastErrorCode := Some(LOOKUP_INCOMPLETE), status := Error),
                                      c.saves);
        return Some(if saved then LOOKUP_INCOMPLETE else LEDGER_CONFLICT);
      }
      if previous.complete {
        if |previous.matched| == 0 { return Some(ZERO_MATCH); }
        code := DeleteMatchesAndReduce(Some(previous), previous.matched, OutcomeOf(previous.matched), c);
        return;
      }
      if previous.pagesScanned >= SCAN_PAGE_CAP { return Some(SCAN_CAP); }
      code := ProcessHistoryPage(previous, c);
    }

    method RetainCandidate(c: Call) returns (code: Option<string>)
      requires row == Live
      modifies this
      ensures Retained(Now(), code) == Retain(target, old(Now()), c)
    {
      match target.kind {
        case Local =>
          if !c.saves { return Some(LEDGER_CONFLICT); }
          row := Gone;
          return None;
        case Known =>
          if !c.config || !target.channelKnown || target.known.None? { return Some(LOOKUP_INCOMPLETE); }
          code := DeleteMatchesAndReduce(None, [target.known.value], KnownMessage, c);
        case Unknown =>
          code := ScanUnknownCandidate(c);
      }
    }
  }

  // ---------------------------------------------------------------- what one page shows

  ghost predicate Has(h: seq<Message>, id: MessageId) {
    exists m :: m in h && m.id == id
  }

  lemma {:induction false} OlderMembers(h: seq<Message>, before: Option<MessageId>)
    requires Decreasing(h)
    ensures Decreasing(Older(h, before))
    ensures forall m :: m in Older(h, before) <==> m in h && (before.None? || m.id < before.value)
  {
    if h != [] && before.Some? {
      if h[0].id < before.value {
        assert forall m :: m in h ==> m.id <= h[0].id;
      } else {
        OlderMembers(h[1..], before);
        assert h == [h[0]] + h[1..];
      }
    }
  }

  lemma PageMembers(h: seq<Message>, before: Option<MessageId>)
    requires Decreasing(h)
    ensures var page := Page(h, before, PAGE_SIZE);
            && Decreasing(page) && |page| <= PAGE_SIZE
            && (forall m :: m in page ==> m in h && (before.None? || m.id < before.value))
            && (forall m :: m in h && (before.None? || m.id < before.value) && m !in page ==>
                              |page| == PAGE_SIZE && m.id < page[|page| - 1].id)
  {
    OlderMembers(h, before);
    var older := Older(h, before);
    var n := Min(PAGE_SIZE, |older|);
    assert forall i :: 0 <= i < n ==> older[i] == older[..n][i];
    forall m | m in older && m !in older[..n]
      ensures |older| > PAGE_SIZE && m.id < older[PAGE_SIZE - 1].id
    {
      var i :| 0 <= i < |older| && older[i] == m;
    }
  }

  lemma {:induction false} BoundaryCuts(page: seq<Message>, boundary: Option<MessageId>)
    ensures var relevant := BeforeBoundary(page, boundary);
            && relevant <= page
            && (|relevant| < |page| ==> Some(page[|relevant|].id) == boundary)
            && (forall m :: m in relevant ==> Some(m.id) != boundary)
  {
    if page != [] && Some(page[0].id) != boundary {
      BoundaryCuts(page[1..], boundary);
      var rest := BeforeBoundary(page[1..], boundary);
      assert page == [page[0]] + page[1..];
    }
  }

  lemma {:induction false} WithoutMembers(h: seq<Message>, id: MessageId)
    requires Decreasing(h)
    ensures Decreasing(Without(h, id))
    ensures forall m :: m in Without(h, id) <==> m in h && m.id != id
  {
    if h != [] {
      WithoutMembers(h[1..], id);
      assert h == [h[0]] + h[1..];
      var rest := Without(h[1..], id);
      assert forall m :: m in rest ==> m.id < h[0].id;
    }
  }

  /** Deleting asks only for the given identifiers; unless it fails all of them are gone. */
  lemma {:induction false} DeleteEachDeletes(h: seq<Message>, requested: set<MessageId>, ids: seq<MessageId>,
                                             failures: map<MessageId, Failure>)
    requires Decreasing(h)
    ensures var d := DeleteEach(h, requested, ids, failures);
            && Decreasing(d.channel)
            && requested <= d.requested
            && (forall m :: m in d.channel ==> m in h)
            && (forall id :: id in d.requested ==> id in requested || id in ids)
            && (forall m :: m in h && m !in d.channel ==> m.id in d.requested && m.id in ids)
            && (d.error.None? ==> forall m :: m in d.channel ==> m.id !in ids)
            && (d.error.None? ==> forall id :: id in ids ==> id in d.requested && id !in failures)
    decreases |ids|
  {
    if ids != [] {
      WithoutMembers(h, ids[0]);
      assert ids == [ids[0]] + ids[1..];
      if ids[0] !in failures {
        DeleteEachDeletes(Without(h, ids[0]), requested + {ids[0]}, ids[1..], failures);
      }
    }
  }

  lemma MatchedMembers(previous: seq<MessageId>, relevant: seq<Message>, nonce: string)
    ensures forall id :: id in Distinct(previous + Carriers(relevant, nonce)) <==>
                         id in previous || Message(id, Some(nonce)) in relevant
  {
    forall id
      ensures id in Distinct(previous + Carriers(relevant, nonce)) <==> id in previous || Message(id, Some(nonce)) in relevant
    {
      DistinctKeepsMembers(previous + Carriers(relevant, nonce), id);
      CarriersAre(relevant, nonce, id);
    }
  }

  // ---------------------------------------------------------------- over any run

  ghost predicate Newer(t: Target, id: MessageId) {
    t.boundary.Some? && t.boundary.value < id
  }

  /** Every newer message with the nonce that the scan has gone past is among the matches. */
  ghost predicate Covered(t: Target, h: seq<Message>, c: Continuation) {
    forall m :: m in h && m.nonce == Some(t.nonce) && Newer(t, m.id) && Passed(c, m.id) ==> m.id in c.matched
  }

  ghost predicate Passed(c: Continuation, id: MessageId) {
    c.complete || (c.before.Some? && c.before.value <= id)
  }

  ghost predicate SoundCursor(t: Target, h0: seq<Message>, h: seq<Message>, c: Continuation) {
    && c.attemptBoundary == t.boundary
    && c.pagesScanned <= 10
    && (forall id :: id in c.matched ==> Message(id, Some(t.nonce)) in h0)
    && Covered(t, h, c)
  }

  ghost predicate Sound(t: Target, h0: seq<Message>, s: State) {
    && Decreasing(s.channel)
    && (forall m :: m in s.channel && m.nonce == Some(t.nonce) ==> m in h0)
    && (forall id :: id in s.requested ==> Message(id, Some(t.nonce)) in h0)
    && (s.cursor.Some? ==> SoundCursor(t, h0, s.channel, s.cursor.value))
    && (s.row.Tombstone? ==> forall m :: m in s.channel && m.nonce == Some(t.nonce) ==> !Newer(t, m.id))
  }

  lemma {:induction false} NewerIsInFront(page: seq<Message>, boundary: Option<MessageId>, m: Message)
    requires Decreasing(page) && m in page && (boundary.Some? ==> boundary.value < m.id)
    ensures m in BeforeBoundary(page, boundary)
  {
    if page[0] != m {
      TailDecreases(page);
      NewerIsInFront(page[1..], boundary, m);
    }
  }

  lemma PageCovers(t: Target, h: seq<Message>, previous: Continuation, m: Message)
    requires Decreasing(h) && Covered(t, h, previous) && previous.attemptBoundary == t.boundary
    requires m in h && m.nonce == Some(t.nonce) && Newer(t, m.id) && Passed(AfterPage(t, h, previous), m.id)
    ensures m.id in previous.matched || m in BeforeBoundary(Page(h, previous.before, PAGE_SIZE), previous.attemptBoundary)
  {
    var page := Page(h, previous.before, PAGE_SIZE);
    var relevant := BeforeBoundary(page, previous.attemptBoundary);
    PageMembers(h, previous.before);
    BoundaryCuts(page, previous.attemptBoundary);
    if m in page { NewerIsInFront(page, t.boundary, m); }
  }

  lemma PageIsSound(t: Target, h0: seq<Message>, h: seq<Message>, previous: Continuation)
    requires Decreasing(h) && SoundCursor(t, h0, h, previous) && previous.pagesScanned < SCAN_PAGE_CAP
    requires forall m :: m in h && m.nonce == Some(t.nonce) ==> m in h0
    ensures SoundCursor(t, h0, h, AfterPage(t, h, previous))
  {
    var page := Page(h, previous.before, PAGE_SIZE);
    var relevant := BeforeBoundary(page, previous.attemptBoundary);
    var next := AfterPage(t, h, previous);
    MatchedMembers(previous.matched, relevant, t.nonce);
    PageMembers(h, previous.before);
    BoundaryCuts(page, previous.attemptBoundary);
    assert forall m :: m in relevant ==> m in page;
    forall m | m in h && m.nonce == Some(t.nonce) && Newer(t, m.id) && Passed(next, m.id)
      ensures m.id in next.matched
    {
      PageCovers(t, h, previous, m);
      assert m == Message(m.id, Some(t.nonce));
    }
  }

  lemma DeletionIsSound(t: Target, h0: seq<Message>, s: State, c: Continuation, call: Call)
    requires Sound(t, h0, s) && SoundCursor(t, h0, s.channel, c) && c.complete
    ensures Sound(t, h0, DeleteAndReduce(s, Some(c), c.matched, OutcomeOf(c.matched), call).state)
  {
    DeleteEachDeletes(s.channel, s.requested, c.matched, call.failures);
    var d := DeleteEach(s.channel, s.requested, c.matched, call.failures);
    assert forall m :: m in d.channel && m.nonce == Some(t.nonce) && Newer(t, m.id) ==> m.id in c.matched;
  }

  lemma ErrorIsSound(t: Target, h0: seq<Message>, h: seq<Message>, previous: Continuation, code: string)
    requires SoundCursor(t, h0, h, previous)
    ensures SoundCursor(t, h0, h, previous.(complete := false, lastErrorCode := Some(code), status := Error))
  {
  }

  lemma RetainIsSound(t: Target, h0: seq<Message>, s: State, c: Call)
    requires Sound(t, h0, s) && t.kind == Unknown
    ensures Sound(t, h0, Retain(t, s, c).state)
  {
    if s.row == Live {
      var previous := Previous(t, s);
      assert SoundCursor(t, h0, s.channel, previous);
      if !c.config || !t.channelKnown || t.boundary.None? {
        ErrorIsSound(t, h0, s.channel, previous, LOOKUP_INCOMPLETE);
      } else if previous.complete {
        DeletionIsSound(t, h0, s, previous, c);
      } else if previous.pagesScanned < SCAN_PAGE_CAP {
        if c.pageError.Some? {
          ErrorIsSound(t, h0, s.channel, previous, c.pageError.value);
        } else {
          PageIsSound(t, h0, s.channel, previous);
          var next := AfterPage(t, s.channel, previous);
          if next.complete && next.matched != [] { DeletionIsSound(t, h0, s, next, c); }
        }
      }
    }
  }

  /** Between two calls others may post and remove messages in the channel. */
  datatype Event = Run(call: Call) | Post(message: Message) | Vanish(id: MessageId)

  function Step(t: Target, s: State, e: Event): State {
    match e
    case Run(call) => Retain(t, s, call).state
    case Post(message) => s.(channel := [message] + s.channel)
    case Vanish(id) => s.(channel := Without(s.channel, id))
  }

  /** New messages get new, larger identifiers, and nobody else uses the nonce. */
  ghost predicate Allowed(t: Target, s: State, e: Event) {
    e.Post? ==>
      && (forall m :: m in s.channel ==> m.id < e.message.id)
      && e.message.nonce != Some(t.nonce) && Some(e.message.id) != t.known
  }

  function After(t: Target, s0: State, events: seq<Event>): State {
    if events == [] then s0 else Step(t, After(t, s0, events[..|events| - 1]), events[|events| - 1])
  }

  ghost predicate ValidRun(t: Target, s0: State, events: seq<Event>) {
    events != [] ==>
      && ValidRun(t, s0, events[..|events| - 1])
      && Allowed(t, After(t, s0, events[..|events| - 1]), events[|events| - 1])
  }

  lemma StepIsSound(t: Target, h0: seq<Message>, s: State, e: Event)
    requires Sound(t, h0, s) && t.kind == Unknown && Allowed(t, s, e)
    ensures Sound(t, h0, Step(t, s, e))
  {
    match e
    case Run(call) => RetainIsSound(t, h0, s, call);
    case Post(message) => assert forall m :: m in [message] + s.channel ==> m == message || m in s.channel;
    case Vanish(id) => WithoutMembers(s.channel, id);
  }

  function Start(h0: seq<Message>, cursor: Option<Continuation>): State { State(h0, Live, cursor, {}) }

  /** Whatever fails and whenever a call is cut short: deletion is only ever requested for messages
      that carry the reservation's nonce, no scan gets past ten pages, and once the row is a
      tombstone no message with the nonce newer than the boundary is left in the channel. */
  lemma {:induction false} TombstonesLeaveNothingBehind(t: Target, h0: seq<Message>, cursor: Option<Continuation>,
                                                        events: seq<Event>)
    requires Decreasing(h0) && t.kind == Unknown && ValidRun(t, Start(h0, cursor), events)
    requires cursor.Some? ==> SoundCursor(t, h0, h0, cursor.value)
    ensures var s := After(t, Start(h0, cursor), events);
            && Sound(t, h0, s)
            && (forall id :: id in s.requested ==> Message(id, Some(t.nonce)) in h0)
            && (s.cursor.Some? ==> s.cursor.value.pagesScanned <= 10)
            && (s.row.Tombstone? ==> forall m :: m in s.channel && m.nonce == Some(t.nonce) ==> !Newer(t, m.id))
  {
    if events != [] {
      TombstonesLeaveNothingBehind(t, h0, cursor, events[..|events| - 1]);
      StepIsSound(t, h0, After(t, Start(h0, cursor), events[..|events| - 1]), events[|events| - 1]);
    }
  }

  /** A cursor that remote verification left behind is a sound place to go on from. */
  lemma RemoteVerificationLeavesASoundCursor(t: Target, h: seq<Message>, calls: seq<Remote.Call>)
    requires Decreasing(h)
    requires var left := Remote.After(h, t.nonce, calls).continuation;
             left.Some? && left.value.pagesScanned <= SCAN_PAGE_CAP
    ensures SoundCursor(t, h, h, Inherited(t, Remote.After(h, t.nonce, calls).continuation.value))
  {
    var left := Remote.After(h, t.nonce, calls).continuation.value;
    Remote.InvAlways(h, t.nonce, calls);
    var k: nat :| Remote.ReadUpTo(h, t.nonce, left, k);
    ReadUpToIsSound(t, h, left, k);
  }

  function Inherited(t: Target, c: Remote.Continuation): Continuation {
    Continuation(t.boundary, c.before, c.complete, c.lastErrorCode, c.matched, c.pagesScanned, c.status)
  }

  lemma ReadUpToIsSound(t: Target, h: seq<Message>, left: Remote.Continuation, k: nat)
    requires Decreasing(h) && Remote.ReadUpTo(h, t.nonce, left, k) && left.pagesScanned <= SCAN_PAGE_CAP
    ensures SoundCursor(t, h, h, Inherited(t, left))
  {
    forall id ensures id in left.matched <==> Message(id, Some(t.nonce)) in h[..k] {
      CarriersAre(h[..k], t.nonce, id);
    }
    assert h[..k] <= h;
    forall m | m in h && m.nonce == Some(t.nonce) && Newer(t, m.id) && Passed(Inherited(t, left), m.id)
      ensures m.id in left.matched
    {
      var i :| 0 <= i < |h| && h[i] == m;
      assert i < k;
      assert h[..k][i] == m == Message(m.id, Some(t.nonce));
    }
  }

  // ---------------------------------------------------------------- the boundary

  /** The boundary message is in the channel whenever something happens. */
  ghost predicate BoundaryStays(t: Target, s0: State, events: seq<Event>) {
    && t.boundary.Some?
    && (events != [] ==>
          && Has(After(t, s0, events[..|events| - 1]).channel, t.boundary.value)
          && BoundaryStays(t, s0, events[..|events| - 1]))
  }

  ghost predicate AllNewer(t: Target, c: Continuation) { forall id :: id in c.matched ==> Newer(t, id) }

  ghost predicate NewerCursor(t: Target, c: Continuation) {
    && AllNewer(t, c)
    && (c.before.Some? ==> Newer(t, c.before.value))
  }

  ghost predicate NoneOlder(t: Target, h: seq<Message>, c: Continuation) {
    c.before.Some? && forall m :: m in h && m.nonce == Some(t.nonce) ==> c.before.value <= m.id
  }

  /** Going on from the cursor never leads to a deletion at or past the boundary: the channel is not
      known; or the scan has used up its pages; or every match so far is newer, and the scan is not yet
      past the boundary, or has no page left, or has nothing left to find. */
  ghost predicate SafeCursor(t: Target, h: seq<Message>, c: Continuation) {
    || !t.channelKnown
    || (!c.complete && c.pagesScanned >= SCAN_PAGE_CAP)
    || (AllNewer(t, c)
        && (c.pagesScanned >= SCAN_PAGE_CAP || c.before.None? || Newer(t, c.before.value) || NoneOlder(t, h, c)))
  }

  ghost predicate SafeState(t: Target, s: State) {
    && Decreasing(s.channel)
    && (forall id :: id in s.requested ==> Newer(t, id))
    && (s.cursor.Some? ==> s.cursor.value.attemptBoundary == t.boundary && SafeCursor(t, s.channel, s.cursor.value))
  }

  lemma {:induction false} InFrontOfTheBoundary(page: seq<Message>, b: Message)
    requires Decreasing(page) && b in page
    ensures forall m :: m in BeforeBoundary(page, Some(b.id)) ==> b.id < m.id
  {
    TailDecreases(page);
    if page[0].id != b.id { InFrontOfTheBoundary(page[1..], b); }
  }

  /** A page that does not get to the boundary message has only newer ones. */
  lemma {:induction false} ShortOfTheBoundary(page: seq<Message>, b: Message)
    requires Decreasing(page) && (page != [] ==> b.id < page[|page| - 1].id)
    ensures forall m :: m in BeforeBoundary(page, Some(b.id)) ==> b.id < m.id
  {
    if page != [] {
      TailDecreases(page);
      ShortOfTheBoundary(page[1..], b);
    }
  }

  /** A page from before the boundary message shows only newer ones in front of it. */
  lemma RelevantAreNewer(t: Target, h: seq<Message>, before: Option<MessageId>)
    requires Decreasing(h) && t.boundary.Some? && Has(h, t.boundary.value)
    requires before.Some? ==> Newer(t, before.value)
    ensures forall m :: m in BeforeBoundary(Page(h, before, PAGE_SIZE), t.boundary) ==> Newer(t, m.id)
  {
    var page := Page(h, before, PAGE_SIZE);
    PageMembers(h, before);
    var b :| b in h && b.id == t.boundary.value;
    if b in page { InFrontOfTheBoundary(page, b); } else { ShortOfTheBoundary(page, b); }
  }

  lemma PageStaysNewer(t: Target, h: seq<Message>, previous: Continuation)
    requires Decreasing(h) && t.boundary.Some? && Has(h, t.boundary.value)
    requires previous.attemptBoundary == t.boundary && NewerCursor(t, previous)
    ensures NewerCursor(t, AfterPage(t, h, previous))
  {
    var relevant := BeforeBoundary(Page(h, previous.before, PAGE_SIZE), t.boundary);
    RelevantAreNewer(t, h, previous.before);
    MatchedMembers(previous.matched, relevant, t.nonce);
    if relevant != [] { assert relevant[|relevant| - 1] in relevant; }
  }

  /** A scan that is past the boundary with nothing left to find finds nothing. */
  lemma PageFindsNothing(t: Target, h: seq<Message>, previous: Continuation)
    requires Decreasing(h) && NoneOlder(t, h, previous)
    ensures NoneOlder(t, h, AfterPage(t, h, previous))
    ensures forall id :: id in AfterPage(t, h, previous).matched <==> id in previous.matched
  {
    var page := Page(h, previous.before, PAGE_SIZE);
    var relevant := BeforeBoundary(page, previous.attemptBoundary);
    PageMembers(h, previous.before);
    BoundaryCuts(page, previous.attemptBoundary);
    MatchedMembers(previous.matched, relevant, t.nonce);
    assert forall k :: 0 <= k < |relevant| ==> relevant[k] == page[k] && relevant[k] in page;
  }

  lemma PageStaysSafe(t: Target, h: seq<Message>, previous: Continuation)
    requires Decreasing(h) && t.boundary.Some? && Has(h, t.boundary.value) && t.channelKnown
    requires previous.attemptBoundary == t.boundary && SafeCursor(t, h, previous)
    requires !previous.complete && previous.pagesScanned < SCAN_PAGE_CAP
    ensures SafeCursor(t, h, AfterPage(t, h, previous)) && AllNewer(t, AfterPage(t, h, previous))
  {
    if NoneOlder(t, h, previous) {
      PageFindsNothing(t, h, previous);
    } else {
      PageStaysNewer(t, h, previous);
    }
  }

  lemma DeletionStaysSafe(t: Target, s: State, c: Continuation, call: Call)
    requires SafeState(t, s) && c.attemptBoundary == t.boundary && SafeCursor(t, s.channel, c) && AllNewer(t, c)
    ensures SafeState(t, DeleteAndReduce(s, Some(c), c.matched, OutcomeOf(c.matched), call).state)
  {
    DeleteEachDeletes(s.channel, s.requested, c.matched, call.failures);
  }

  lemma RetainStaysSafe(t: Target, s: State, c: Call)
    requires SafeState(t, s) && t.kind == Unknown && t.boundary.Some? && Has(s.channel, t.boundary.value)
    ensures SafeState(t, Retain(t, s, c).state)
  {
    if s.row == Live && c.config && t.channelKnown {
      var previous := Previous(t, s);
      if previous.complete {
        DeletionStaysSafe(t, s, previous, c);
      } else if previous.pagesScanned < SCAN_PAGE_CAP && c.pageError.None? {
        PageStaysSafe(t, s.channel, previous);
        DeletionStaysSafe(t, s, AfterPage(t, s.channel, previous), c);
      }
    }
  }

  lemma StepStaysSafe(t: Target, s: State, e: Event)
    requires SafeState(t, s) && t.kind == Unknown && Allowed(t, s, e) && t.boundary.Some? && Has(s.channel, t.boundary.value)
    ensures SafeState(t, Step(t, s, e))
  {
    match e
    case Run(call) => RetainStaysSafe(t, s, call);
    case Post(message) => assert forall m :: m in [message] + s.channel ==> m == message || m in s.channel;
    case Vanish(id) => WithoutMembers(s.channel, id);
  }

  lemma {:induction false} SafeCursorsStaySafe(t: Target, h0: seq<Message>, cursor: Option<Continuation>, events: seq<Event>)
    requires Decreasing(h0) && t.kind == Unknown
    requires cursor.Some? ==> cursor.value.attemptBoundary == t.boundary && SafeCursor(t, h0, cursor.value)
    requires ValidRun(t, Start(h0, cursor), events) && BoundaryStays(t, Start(h0, cursor), events)
    ensures SafeState(t, After(t, Start(h0, cursor), events))
  {
    if events != [] {
      SafeCursorsStaySafe(t, h0, cursor, events[..|events| - 1]);
      StepStaysSafe(t, After(t, Start(h0, cursor), events[..|events| - 1]), events[|events| - 1]);
    }
  }

  // ---------------------------------------------------------------- unsafe cursors

  /** Everybody else's messages, and all others but two, can disappear from the channel. */
  function Others(h: seq<Message>, b: MessageId, x: MessageId): seq<MessageId> {
    if h == [] then []
    else Others(h[..|h| - 1], b, x) + (if h[|h| - 1].id == b || h[|h| - 1].id == x then [] else [h[|h| - 1].id])
  }

  lemma {:induction false} OthersMembers(h: seq<Message>, b: MessageId, x: MessageId)
    ensures forall m :: m in h ==> (m.id in Others(h, b, x) <==> m.id != b && m.id != x)
    ensures b !in Others(h, b, x) && x !in Others(h, b, x)
  {
    if h != [] {
      OthersMembers(h[..|h| - 1], b, x);
      assert h == h[..|h| - 1] + [h[|h| - 1]];
    }
  }

  function Vanishing(ids: seq<MessageId>): (events: seq<Event>)
    ensures |events| == |ids|
  {
    if ids == [] then [] else Vanishing(ids[..|ids| - 1]) + [Vanish(ids[|ids| - 1])]
  }

  lemma OneMoreEvent(t: Target, s0: State, events: seq<Event>, e: Event)
    requires ValidRun(t, s0, events) && BoundaryStays(t, s0, events) && Allowed(t, After(t, s0, events), e)
    requires Has(After(t, s0, events).channel, t.boundary.value)
    ensures After(t, s0, events + [e]) == Step(t, After(t, s0, events), e)
    ensures ValidRun(t, s0, events + [e]) && BoundaryStays(t, s0, events + [e])
  {
    assert (events + [e])[..|events|] == events;
  }

  lemma {:induction false} AfterVanishing(t: Target, s0: State, ids: seq<MessageId>)
    requires Decreasing(s0.channel)
    ensures var s := After(t, s0, Vanishing(ids));
            && s == s0.(channel := s.channel) && Decreasing(s.channel)
            && (forall m :: m in s.channel <==> m in s0.channel && m.id !in ids)
  {
    if ids != [] {
      var before, id := ids[..|ids| - 1], ids[|ids| - 1];
      assert ids == before + [id];
      AfterVanishing(t, s0, before);
      WithoutMembers(After(t, s0, Vanishing(before)).channel, id);
      assert Vanishing(ids)[..|ids| - 1] == Vanishing(before);
    }
  }

  lemma {:induction false} VanishingIsARun(t: Target, s0: State, ids: seq<MessageId>)
    requires Decreasing(s0.channel) && t.boundary.Some? && Has(s0.channel, t.boundary.value) && t.boundary.value !in ids
    ensures ValidRun(t, s0, Vanishing(ids)) && BoundaryStays(t, s0, Vanishing(ids))
  {
    if ids != [] {
      var before := ids[..|ids| - 1];
      VanishingIsARun(t, s0, before);
      AfterVanishing(t, s0, before);
      var b :| b in s0.channel && b.id == t.boundary.value;
      assert b in After(t, s0, Vanishing(before)).channel;
      OneMoreEvent(t, s0, Vanishing(before), Vanish(ids[|ids| - 1]));
    }
  }

  const OUT_OF_ORDER := Call(false, None, map[], true)
  const IN_ORDER := Call(true, None, map[], true)

  /** What an unsafe cursor has: the scan can go on to delete, and a match at or past the boundary is
      there already or is still to be found. */
  lemma UnsafeCursor(t: Target, h: seq<Message>, c: Continuation)
    requires t.boundary.Some? && !SafeCursor(t, h, c)
    ensures t.channelKnown && (c.complete || c.pagesScanned < SCAN_PAGE_CAP)
    ensures || !AllNewer(t, c)
            || (c.pagesScanned < SCAN_PAGE_CAP && c.before.Some? && c.before.value <= t.boundary.value
                && exists m :: m in h && m.nonce == Some(t.nonce) && m.id < c.before.value)
  {
  }

  /** A complete cursor with such a match deletes it at once. */
  lemma CompleteCursorDeletes(t: Target, s: State, c: Continuation)
    requires Decreasing(s.channel) && t.kind == Unknown && t.channelKnown && t.boundary.Some? && s.row == Live
    requires s.cursor == Some(c) && c.complete && !AllNewer(t, c)
    ensures exists id :: id in Retain(t, s, IN_ORDER).state.requested && !Newer(t, id)
  {
    DeleteEachDeletes(s.channel, s.requested, c.matched, map[]);
    NoFailureMeansNoError(s.channel, s.requested, c.matched, map[]);
    var id :| id in c.matched && !Newer(t, id);
    assert id in Retain(t, s, IN_ORDER).state.requested;
  }

  /** In a short channel the next page ends the scan; it finds what is older than the cursor. */
  lemma ShortPageFinds(t: Target, h: seq<Message>, c: Continuation, id: MessageId)
    requires Decreasing(h) && t.boundary.Some? && c.attemptBoundary == t.boundary && |h| < PAGE_SIZE
    requires id in c.matched || (Message(id, Some(t.nonce)) in h && c.before.Some? && id < c.before.value <= t.boundary.value)
    ensures AfterPage(t, h, c).complete && id in AfterPage(t, h, c).matched
  {
    var page := Page(h, c.before, PAGE_SIZE);
    var relevant := BeforeBoundary(page, c.attemptBoundary);
    OlderIsShorter(h, c.before);
    PageMembers(h, c.before);
    BoundaryCuts(page, c.attemptBoundary);
    MatchedMembers(c.matched, relevant, t.nonce);
    if id !in c.matched {
      assert forall k :: 0 <= k < |page| ==> page[k] in page;
      assert relevant == page;
    }
  }

  /** All matches of that page are deleted. */
  lemma ShortPageDeletes(t: Target, s: State, c: Continuation, id: MessageId)
    requires Decreasing(s.channel) && t.kind == Unknown && t.channelKnown && t.boundary.Some? && s.row == Live
    requires s.cursor == Some(c) && !c.complete && c.pagesScanned < SCAN_PAGE_CAP && c.attemptBoundary == t.boundary
    requires |s.channel| < PAGE_SIZE
    requires id in c.matched ||
             (Message(id, Some(t.nonce)) in s.channel && c.before.Some? && id < c.before.value <= t.boundary.value)
    ensures id in Retain(t, s, IN_ORDER).state.requested
  {
    var next := AfterPage(t, s.channel, c);
    ShortPageFinds(t, s.channel, c, id);
    DeleteEachDeletes(s.channel, s.requested, next.matched, map[]);
    NoFailureMeansNoError(s.channel, s.requested, next.matched, map[]);
  }

  lemma {:induction false} OlderIsShorter(h: seq<Message>, before: Option<MessageId>)
    ensures |Older(h, before)| <= |h|
  {
    if h != [] && before.Some? && h[0].id >= before.value { OlderIsShorter(h[1..], before); }
  }

  /** A channel has no more messages than identifiers. */
  lemma {:induction false} AsManyAsIdentifiers(h: seq<Message>, ids: set<MessageId>)
    requires Decreasing(h) && forall i :: 0 <= i < |h| ==> h[i].id in ids
    ensures |h| <= |ids|
  {
    if h != [] {
      AsManyAsIdentifiers(h[1..], ids - {h[0].id});
      assert |ids - {h[0].id}| == |ids| - 1;
    }
  }

  lemma TwoMessages(h: seq<Message>, b: MessageId, x: MessageId)
    requires Decreasing(h) && forall m :: m in h ==> m.id == b || m.id == x
    ensures |h| < PAGE_SIZE
  {
    assert forall i :: 0 <= i < |h| ==> h[i] in h;
    AsManyAsIdentifiers(h, {b, x});
    assert |{b, x}| <= 2;
  }

  /** No run from this cursor, with the boundary message in the channel all the time, ever asks for the
      deletion of a message at or past it. */
  ghost predicate BoundaryHolds(t: Target, h0: seq<Message>, cursor: Option<Continuation>) {
    forall events ::
      ValidRun(t, Start(h0, cursor), events) && BoundaryStays(t, Start(h0, cursor), events)
      ==> forall id :: id in After(t, Start(h0, cursor), events).requested ==> Newer(t, id)
  }

  lemma BrokenBoundary(t: Target, h0: seq<Message>, cursor: Option<Continuation>, events: seq<Event>, call: Call)
    requires ValidRun(t, Start(h0, cursor), events) && BoundaryStays(t, Start(h0, cursor), events)
    requires Has(After(t, Start(h0, cursor), events).channel, t.boundary.value)
    requires exists id :: id in Retain(t, After(t, Start(h0, cursor), events), call).state.requested && !Newer(t, id)
    ensures !BoundaryHolds(t, h0, cursor)
  {
    OneMoreEvent(t, Start(h0, cursor), events, Run(call));
    var id :| id in After(t, Start(h0, cursor), events + [Run(call)]).requested && !Newer(t, id);
  }

  lemma SafeCursorsHold(t: Target, h0: seq<Message>, cursor: Option<Continuation>)
    requires Decreasing(h0) && t.kind == Unknown && t.boundary.Some? && Has(h0, t.boundary.value)
    requires cursor.Some? ==> cursor.value.attemptBoundary == t.boundary && SafeCursor(t, h0, cursor.value)
    ensures BoundaryHolds(t, h0, cursor)
  {
    forall events | ValidRun(t, Start(h0, cursor), events) && BoundaryStays(t, Start(h0, cursor), events)
      ensures forall id :: id in After(t, Start(h0, cursor), events).requested ==> Newer(t, id)
    {
      SafeCursorsStaySafe(t, h0, cursor, events);
    }
  }

  /** All other messages disappear, one call finds the configuration missing and so makes the scan
      incomplete, and the next one reads the short page that is left. */
  lemma UnsafeScanBreaks(t: Target, h0: seq<Message>, c: Continuation, id: MessageId)
    requires Decreasing(h0) && t.kind == Unknown && t.channelKnown && t.boundary.Some? && Has(h0, t.boundary.value)
    requires c.attemptBoundary == t.boundary && c.pagesScanned < SCAN_PAGE_CAP && !Newer(t, id)
    requires id in c.matched ||
             (Message(id, Some(t.nonce)) in h0 && c.before.Some? && id < c.before.value <= t.boundary.value)
    ensures !BoundaryHolds(t, h0, Some(c))
  {
    var s0 := Start(h0, Some(c));
    var ids := Others(h0, t.boundary.value, id);
    OthersMembers(h0, t.boundary.value, id);
    AfterVanishing(t, s0, ids);
    VanishingIsARun(t, s0, ids);
    var vanished := After(t, s0, Vanishing(ids));
    var b :| b in h0 && b.id == t.boundary.value;
    assert b in vanished.channel;
    OneMoreEvent(t, s0, Vanishing(ids), Run(OUT_OF_ORDER));
    var reset := Step(t, vanished, Run(OUT_OF_ORDER));
    assert reset == vanished.(cursor := Some(c.(complete := false, lastErrorCode := Some(LOOKUP_INCOMPLETE), status := Error)));
    TwoMessages(reset.channel, t.boundary.value, id);
    ShortPageDeletes(t, reset, reset.cursor.value, id);
    BrokenBoundary(t, h0, Some(c), Vanishing(ids) + [Run(OUT_OF_ORDER)], IN_ORDER);
  }

  /** For every cursor and whatever happens around the cleanup: as long as the boundary message is in the
      channel, no message at or past it is ever asked to be deleted, exactly when the cursor is safe. */
  lemma BoundaryHoldsIffCursorIsSafe(t: Target, h0: seq<Message>, cursor: Option<Continuation>)
    requires Decreasing(h0) && t.kind == Unknown && t.boundary.Some? && Has(h0, t.boundary.value)
    requires cursor.Some? ==> cursor.value.attemptBoundary == t.boundary
    ensures BoundaryHolds(t, h0, cursor) <==> (cursor.Some? ==> SafeCursor(t, h0, cursor.value))
  {
    if cursor.None? || SafeCursor(t, h0, cursor.value) {
      SafeCursorsHold(t, h0, cursor);
    } else {
      var c := cursor.value;
      UnsafeCursor(t, h0, c);
      if c.complete && !AllNewer(t, c) {
        assert After(t, Start(h0, cursor), []) == Start(h0, cursor);
        CompleteCursorDeletes(t, Start(h0, cursor), c);
        BrokenBoundary(t, h0, cursor, [], IN_ORDER);
      } else if !AllNewer(t, c) {
        var id :| id in c.matched && !Newer(t, id);
        UnsafeScanBreaks(t, h0, c, id);
      } else {
        var m :| m in h0 && m.nonce == Some(t.nonce) && m.id < c.before.value;
        assert m == Message(m.id, Some(t.nonce));
        UnsafeScanBreaks(t, h0, c, m.id);
      }
    }
  }

  /** Remote verification reads past the boundary, so a cursor inherited from it can make the
      cleanup delete a message older than the boundary although the boundary message is there. */
  lemma InheritedCursorDeletesPastTheBoundary() returns (t: Target, h0: seq<Message>, calls: seq<Remote.Call>, call: Call)
    ensures Decreasing(h0) && t.kind == Unknown && t.boundary.Some? && Has(h0, t.boundary.value)
    ensures var left := Remote.After(h0, t.nonce, calls).continuation;
            && left.Some?
            && exists id :: id in Retain(t, Start(h0, Some(Inherited(t, left.value))), call).state.requested && !Newer(t, id)
  {
    t := Target(Unknown, true, None, Some(3), "n");
    h0 := [Message(5, Some("n")), Message(3, None), Message(1, Some("n"))];
    calls := [Remote.Call(None, Remote.Ready, None, true)];
    call := IN_ORDER;
    VerificationReadsAll(h0, calls[0]);
    assert h0[1] in h0 && h0[1].id == 3;
    var c := Inherited(t, Remote.After(h0, "n", calls).continuation.value);
    assert c.matched[1] == 1 && !Newer(t, 1);
    CompleteCursorDeletes(t, Start(h0, Some(c)), c);
  }

  lemma VerificationReadsAll(h: seq<Message>, call: Remote.Call)
    requires h == [Message(5, Some("n")), Message(3, None), Message(1, Some("n"))]
    requires call == Remote.Call(None, Remote.Ready, None, true)
    ensures var left := Remote.After(h, "n", [call]).continuation;
            left.Some? && left.value.complete && left.value.matched == [5, 1]
  {
    assert [call][..0] == [];
    var previous := Remote.FRESH_CONTINUATION;
    assert Remote.After(h, "n", []) == Remote.Stored(None, None);
    assert h[..0] == [];
    assert Remote.ReadUpTo(h, "n", previous, 0);
    Remote.PageReads(h, "n", previous, call, 0);
    assert h[..3] == h;
    assert h[1..] == [Message(3, None), Message(1, Some("n"))];
    assert h[1..][1..] == [Message(1, Some("n"))];
    assert Carriers(h[1..][1..], "n") == [1];
    assert Carriers(h[1..], "n") == [1];
    assert Carriers(h, "n") == [5] + [1];
  }

  // ---------------------------------------------------------------- what one call may delete

  /** The matches a call acts on, when it has a complete scan with at least one match. */
  function CompleteMatches(t: Target, s: State, c: Call): Option<seq<MessageId>> {
    var previous := Previous(t, s);
    if !c.config || !t.channelKnown || t.boundary.None? then None
    else
      var seen := if previous.complete || previous.pagesScanned >= SCAN_PAGE_CAP || c.pageError.Some? then previous
                  else AfterPage(t, s.channel, previous);
      if seen.complete && seen.matched != [] then Some(seen.matched) else None
  }

  /** Only a complete scan with matches deletes anything, only its matches, and the row becomes a
      tombstone exactly when all of them were deleted and the write succeeds. */
  lemma OnlyACompleteScanDeletes(t: Target, s: State, c: Call)
    requires Decreasing(s.channel) && t.kind == Unknown && s.row == Live
    ensures var after := Retain(t, s, c).state;
            var matches := CompleteMatches(t, s, c);
            && (matches.None? ==> after.channel == s.channel && after.requested == s.requested)
            && (matches.Some? ==> forall m :: m in s.channel && m !in after.channel ==> m.id in matches.value)
            && (after.row.Tombstone? <==> matches.Some? && c.saves && forall id :: id in matches.value ==> id !in c.failures)
            && (after.row.Tombstone? ==> after.row.matchCount == |matches.value| > 0
                                         && forall m :: m in after.channel ==> m.id !in matches.value)
  {
    var matches := CompleteMatches(t, s, c);
    if matches.Some? {
      DeleteEachDeletes(s.channel, s.requested, matches.value, c.failures);
      if forall id :: id in matches.value ==> id !in c.failures {
        NoFailureMeansNoError(s.channel, s.requested, matches.value, c.failures);
      }
    }
  }

  /** A call reports success exactly when it has settled the row. */
  lemma SuccessMeansSettled(t: Target, s: State, c: Call)
    requires s.row == Live
    ensures Retain(t, s, c).code == None <==> Retain(t, s, c).state.row != Live
  {
    if t.kind == Unknown { ScanSettlesOrReports(t, s, c); }
  }

  lemma ScanSettlesOrReports(t: Target, s: State, c: Call)
    requires s.row == Live
    ensures ScanUnknown(t, s, c).code == None <==> ScanUnknown(t, s, c).state.row != Live
  {
    var previous := Previous(t, s);
    DeletionSettlesOrReports(s, Some(previous), previous.matched, OutcomeOf(previous.matched), c);
    PageSettlesOrReports(t, s, previous, c);
  }

  lemma PageSettlesOrReports(t: Target, s: State, previous: Continuation, c: Call)
    requires s.row == Live
    ensures ScanPage(t, s, previous, c).code == None <==> ScanPage(t, s, previous, c).state.row != Live
  {
  }

  lemma DeletionSettlesOrReports(s: State, continuation: Option<Continuation>, ids: seq<MessageId>, outcome: Outcome, c: Call)
    requires s.row == Live
    ensures var r := DeleteAndReduce(s, continuation, ids, outcome, c); r.code == None <==> r.state.row != Live
  {
  }

  lemma {:induction false} NoFailureMeansNoError(h: seq<Message>, requested: set<MessageId>, ids: seq<MessageId>,
                                                 failures: map<MessageId, Failure>)
    requires forall id :: id in ids ==> id !in failures
    ensures DeleteEach(h, requested, ids, failures).error.None?
    decreases |ids|
  {
    if ids != [] {
      NoFailureMeansNoError(Without(h, ids[0]), requested + {ids[0]}, ids[1..], failures);
    }
  }

  // ---------------------------------------------------------------- a known message

  /** With a known identifier only that message is deleted, and it is gone once the row is a tombstone. */
  ghost predicate KnownSound(t: Target, s: State) {
    && Decreasing(s.channel)
    && (forall id :: id in s.requested ==> Some(id) == t.known)
    && (s.row.Tombstone? ==> t.known.Some? && !Has(s.channel, t.known.value))
  }

  lemma KnownStepIsSound(t: Target, s: State, e: Event)
    requires t.kind == Known && KnownSound(t, s) && Allowed(t, s, e)
    ensures KnownSound(t, Step(t, s, e))
  {
    match e
    case Run(call) => if t.known.Some? { DeleteEachDeletes(s.channel, s.requested, [t.known.value], call.failures); }
    case Post(message) => assert forall m :: m in [message] + s.channel ==> m == message || m in s.channel;
    case Vanish(id) => WithoutMembers(s.channel, id);
  }

  lemma {:induction false} KnownMessageIsGone(t: Target, h0: seq<Message>, events: seq<Event>)
    requires Decreasing(h0) && t.kind == Known && ValidRun(t, Start(h0, None), events)
    ensures var s := After(t, Start(h0, None), events);
            && KnownSound(t, s)
            && (forall id :: id in s.requested ==> Some(id) == t.known)
            && (s.row.Tombstone? ==> t.known.Some? && forall m :: m in s.channel ==> m.id != t.known.value)
  {
    if events != [] {
      KnownMessageIsGone(t, h0, events[..|events| - 1]);
      KnownStepIsSound(t, After(t, Start(h0, None), events[..|events| - 1]), events[|events| - 1]);
    }
  }
}
