/** What the retention cleanup comes to: when a scan that nothing disturbs settles its row, and what a call
    that is disturbed leaves behind. */
module RetentionOutcome {
  import opened Wrappers
  import opened History
  import opened RetentionScan
  import Remote = RemoteVerification

  // ---------------------------------------------------------------- an undisturbed scan

  /** The first f messages are in front of the boundary message, or it is not there and they are all. */
  ghost predicate InFront(h: seq<Message>, boundary: Option<MessageId>, f: nat) {
    && f <= |h|
    && (forall i :: 0 <= i < f ==> Some(h[i].id) != boundary)
    && (f < |h| ==> Some(h[f].id) == boundary)
  }

  /** The scan has read n pages of a hundred, as far as they are in front of the boundary message. */
  ghost predicate Scanned(t: Target, h: seq<Message>, f: nat, c: Continuation, n: nat)
    requires f <= |h|
  {
    var k := Min(100 * n, f);
    && c.attemptBoundary == t.boundary && c.pagesScanned == n
    && c.before == (if k == 0 then None else Some(h[k - 1].id))
    && c.matched == Carriers(h[..k], t.nonce)
    && (c.complete <==> f < 100 * n)
  }

  lemma {:induction false} CutAtTheBoundary(page: seq<Message>, boundary: Option<MessageId>, f: nat)
    requires InFront(page, boundary, f)
    ensures BeforeBoundary(page, boundary) == page[..f]
  {
    if f > 0 {
      assert forall i :: 0 <= i < |page[1..]| ==> page[1..][i] == page[i + 1];
      CutAtTheBoundary(page[1..], boundary, f - 1);
    }
  }

  lemma NextPageIs(h: seq<Message>, before: Option<MessageId>, k: nat)
    requires Decreasing(h) && k <= |h| && before == (if k == 0 then None else Some(h[k - 1].id))
    ensures Page(h, before, 100) == h[k..Min(k + 100, |h|)]
  {
    if k > 0 { OlderThan(h, k); }
    assert Older(h, before) == h[k..];
  }

  lemma RelevantAre(h: seq<Message>, boundary: Option<MessageId>, f: nat, k: nat)
    requires InFront(h, boundary, f) && k <= f
    ensures BeforeBoundary(h[k..Min(k + 100, |h|)], boundary) == h[k..Min(k + 100, f)]
  {
    var page := h[k..Min(k + 100, |h|)];
    assert forall i :: 0 <= i < |page| ==> page[i] == h[k + i];
    CutAtTheBoundary(page, boundary, Min(100, f - k));
  }

  lemma MatchesAre(h: seq<Message>, nonce: string, k: nat, n: nat, matched: seq<MessageId>)
    requires Decreasing(h) && k <= n <= |h| && matched == Carriers(h[..k], nonce)
    ensures Distinct(matched + Carriers(h[k..n], nonce)) == Carriers(h[..n], nonce)
  {
    Remote.MatchedAre(h, nonce, k, n);
  }

  lemma PageEnds(h: seq<Message>, f: nat, before: Option<MessageId>, k: nat)
    requires k <= f <= |h| && before == (if k == 0 then None else Some(h[k - 1].id))
    ensures var page, relevant, k' := h[k..Min(k + 100, |h|)], h[k..Min(k + 100, f)], Min(k + 100, f);
            && (|relevant| < |page| || |page| < 100 <==> f < k + 100)
            && (if relevant == [] then before else Some(relevant[|relevant| - 1].id)) == (if k' == 0 then None else Some(h[k' - 1].id))
  {
  }

  /** The next page is read up to the boundary message, and the scan has then gone as far as it has. */
  lemma AfterPageIs(t: Target, h: seq<Message>, f: nat, c: Continuation, k: nat)
    requires k <= f <= |h| && c.attemptBoundary == t.boundary && c.before == (if k == 0 then None else Some(h[k - 1].id))
    requires Page(h, c.before, 100) == h[k..Min(k + 100, |h|)]
    requires BeforeBoundary(h[k..Min(k + 100, |h|)], t.boundary) == h[k..Min(k + 100, f)]
    requires Distinct(c.matched + Carriers(h[k..Min(k + 100, f)], t.nonce)) == Carriers(h[..Min(k + 100, f)], t.nonce)
    ensures var next, k' := AfterPage(t, h, c), Min(k + 100, f);
            && next.attemptBoundary == t.boundary && next.pagesScanned == c.pagesScanned + 1
            && next.before == (if k' == 0 then None else Some(h[k' - 1].id))
            && next.matched == Carriers(h[..k'], t.nonce) && (next.complete <==> f < k + 100)
  {
    PageEnds(h, f, c.before, k);
  }

  lemma ReadsPage(t: Target, h: seq<Message>, f: nat, c: Continuation, k: nat)
    requires Decreasing(h) && InFront(h, t.boundary, f) && k <= f && c.attemptBoundary == t.boundary
    requires c.before == (if k == 0 then None else Some(h[k - 1].id)) && c.matched == Carriers(h[..k], t.nonce)
    ensures var next, k' := AfterPage(t, h, c), Min(k + 100, f);
            && next.attemptBoundary == t.boundary && next.pagesScanned == c.pagesScanned + 1
            && next.before == (if k' == 0 then None else Some(h[k' - 1].id))
            && next.matched == Carriers(h[..k'], t.nonce) && (next.complete <==> f < k + 100)
  {
    assert Page(h, c.before, 100) == h[k..Min(k + 100, |h|)] by { NextPageIs(h, c.before, k); }
    assert BeforeBoundary(h[k..Min(k + 100, |h|)], t.boundary) == h[k..Min(k + 100, f)] by { RelevantAre(h, t.boundary, f, k); }
    assert Distinct(c.matched + Carriers(h[k..Min(k + 100, f)], t.nonce)) == Carriers(h[..Min(k + 100, f)], t.nonce) by {
      MatchesAre(h, t.nonce, k, Min(k + 100, f), c.matched);
    }
    AfterPageIs(t, h, f, c, k);
  }

  lemma PageScans(t: Target, h: seq<Message>, f: nat, c: Continuation, n: nat)
    requires Decreasing(h) && InFront(h, t.boundary, f) && Scanned(t, h, f, c, n) && !c.complete
    ensures Scanned(t, h, f, AfterPage(t, h, c), n + 1)
  {
    ReadsPage(t, h, f, c, 100 * n);
  }

  function Calls(n: nat): seq<Event> { seq(n, i => Run(IN_ORDER)) }

  ghost predicate Settled(h: seq<Message>, found: seq<MessageId>, s: State) {
    && s.row == Tombstone(if |found| == 1 then UniqueMessage else MultipleMessages, |found|)
    && s.cursor == None
    && forall m :: m in s.channel <==> m in h && m.id !in found
  }

  /** What n calls leave behind. */
  ghost predicate Undisturbed(t: Target, h: seq<Message>, f: nat, n: nat, s: State)
    requires f <= |h|
  {
    var found := Carriers(h[..f], t.nonce);
    if f < 100 * n && f < 1000 && found != [] then Settled(h, found, s)
    else
      && s == Start(h, s.cursor)
      && if n == 0 then s.cursor == None
         else s.cursor.Some? && Scanned(t, h, f, s.cursor.value, Min(n, Min(10, f / 100 + 1)))
  }

  ghost predicate Scannable(t: Target, h: seq<Message>, f: nat) {
    Decreasing(h) && t.kind == Unknown && t.channelKnown && t.boundary.Some? && InFront(h, t.boundary, f)
  }

  lemma AllAreDeleted(s: State, ids: seq<MessageId>)
    requires Decreasing(s.channel)
    ensures var d := DeleteEach(s.channel, s.requested, ids, map[]);
            d.error.None? && forall m :: m in d.channel <==> m in s.channel && m.id !in ids
  {
    DeleteEachDeletes(s.channel, s.requested, ids, map[]);
    NoFailureMeansNoError(s.channel, s.requested, ids, map[]);
  }

  lemma ScanSettles(h: seq<Message>, s: State, c: Continuation)
    requires Decreasing(h) && s == Start(h, s.cursor)
    ensures var r := DeleteAndReduce(s, Some(c), c.matched, OutcomeOf(c.matched), IN_ORDER);
            Settled(h, c.matched, r.state) && r.code == None
  {
    AllAreDeleted(s, c.matched);
  }

  /** A call that reads a page. */
  lemma OnePageMore(t: Target, h: seq<Message>, f: nat, n: nat, s: State)
    requires Scannable(t, h, f) && s == Start(h, s.cursor)
    requires Scanned(t, h, f, Previous(t, s), n) && 100 * n <= f && n < 10
    ensures Undisturbed(t, h, f, n + 1, Retain(t, s, IN_ORDER).state)
    ensures Retain(t, s, IN_ORDER).code == Answer(f, n + 1, Carriers(h[..f], t.nonce) == [])
  {
    var next := AfterPage(t, h, Previous(t, s));
    assert Retain(t, s, IN_ORDER) == ScanPage(t, s, Previous(t, s), IN_ORDER);
    assert Scanned(t, h, f, next, n + 1) by { PageScans(t, h, f, Previous(t, s), n); }
    if f < 100 * (n + 1) && next.matched != [] {
      ScanSettles(h, s, next);
    }
  }

  /** How the n-th call answers, with f messages in front of the boundary. */
  function Answer(f: nat, n: nat, nothing: bool): Option<string> {
    if f < 100 * n && f < 1000 then (if nothing then Some("discord_retention_zero_match") else None)
    else if n < 10 then Some("discord_retention_scan_partial") else Some("discord_retention_scan_cap")
  }

  /** One more call, and how it answers. */
  lemma OneMoreCall(t: Target, h: seq<Message>, f: nat, n: nat, s: State)
    requires Scannable(t, h, f) && Undisturbed(t, h, f, n, s)
    ensures Undisturbed(t, h, f, n + 1, Retain(t, s, IN_ORDER).state)
    ensures Retain(t, s, IN_ORDER).code == Answer(f, n + 1, Carriers(h[..f], t.nonce) == [])
  {
    if s.row == Live && 100 * n <= f && n < 10 {
      if n == 0 { assert h[..0] == []; }
      OnePageMore(t, h, f, n, s);
    }
  }

  lemma {:induction false} ScanGetsOn(t: Target, h: seq<Message>, f: nat, n: nat)
    requires Scannable(t, h, f)
    ensures Undisturbed(t, h, f, n, After(t, Start(h, None), Calls(n)))
  {
    if n > 0 {
      ScanGetsOn(t, h, f, n - 1);
      assert Calls(n)[..n - 1] == Calls(n - 1);
      OneMoreCall(t, h, f, n - 1, After(t, Start(h, None), Calls(n - 1)));
    }
  }

  /** With f messages in front of the boundary, n undisturbed calls turn the row into a tombstone exactly if
      fewer than a hundred times n and fewer than a thousand are in front and one of those carries the nonce;
      then exactly the carriers among them are gone. Otherwise the channel is as it was. */
  lemma UndisturbedScanSettlesIff(t: Target, h: seq<Message>, f: nat, n: nat)
    requires Scannable(t, h, f)
    ensures var s := After(t, Start(h, None), Calls(n));
            && (s.row.Tombstone? <==> f < 100 * n && f < 1000 && exists m :: m in h[..f] && m.nonce == Some(t.nonce))
            && (s.row.Tombstone? ==> s.row.outcome == (if s.row.matchCount == 1 then UniqueMessage else MultipleMessages))
            && (s.row.Tombstone? ==> forall m :: m in s.channel <==> m in h && !(m in h[..f] && m.nonce == Some(t.nonce)))
            && (!s.row.Tombstone? ==> s.row == Live && s.channel == h && s.requested == {})
  {
    ScanGetsOn(t, h, f, n);
    FoundAreCarriers(h, f, t.nonce);
  }

  /** What the call after those answers. */
  lemma UndisturbedScanAnswers(t: Target, h: seq<Message>, f: nat, n: nat)
    requires Scannable(t, h, f)
    ensures var code := Retain(t, After(t, Start(h, None), Calls(n)), IN_ORDER).code;
            code == if f < 100 * (n + 1) && f < 1000 then
                      (if exists m :: m in h[..f] && m.nonce == Some(t.nonce) then None else Some("discord_retention_zero_match"))
                    else if n < 9 then Some("discord_retention_scan_partial") else Some("discord_retention_scan_cap")
  {
    ScanGetsOn(t, h, f, n);
    OneMoreCall(t, h, f, n, After(t, Start(h, None), Calls(n)));
    FoundAreCarriers(h, f, t.nonce);
  }

  lemma FoundAreCarriers(h: seq<Message>, f: nat, nonce: string)
    requires Decreasing(h) && f <= |h|
    ensures Carriers(h[..f], nonce) == [] <==> !exists m :: m in h[..f] && m.nonce == Some(nonce)
    ensures forall m :: m in h ==> (m.id in Carriers(h[..f], nonce) <==> m in h[..f] && m.nonce == Some(nonce))
  {
    forall m | m in h ensures m.id in Carriers(h[..f], nonce) <==> m in h[..f] && m.nonce == Some(nonce) {
      CarriersAre(h[..f], nonce, m.id);
    }
    if Carriers(h[..f], nonce) != [] { CarriersAre(h[..f], nonce, Carriers(h[..f], nonce)[0]); }
    assert forall m :: m in h[..f] ==> m in h;
  }

  // ---------------------------------------------------------------- calls that are disturbed

  /** Everything before the first failure is gone; the failed one may be; nothing after it was asked for. */
  lemma {:induction false} DeletionStopsAtTheFirstFailure(h: seq<Message>, requested: set<MessageId>, gone: seq<MessageId>,
                                                          failed: MessageId, rest: seq<MessageId>, failures: map<MessageId, Failure>)
    requires Decreasing(h) && failed in failures && forall id :: id in gone ==> id !in failures
    ensures var d := DeleteEach(h, requested, gone + [failed] + rest, failures);
            && d.error == Some(failures[failed].code)
            && d.requested == requested + (set id | id in gone) + {failed}
            && forall m :: m in d.channel <==> m in h && m.id !in gone && !(m.id == failed && failures[failed].applied)
    decreases |gone|
  {
    WithoutMembers(h, failed);
    var ids := gone + [failed] + rest;
    if gone != [] {
      WithoutMembers(h, gone[0]);
      assert ids[1..] == gone[1..] + [failed] + rest;
      assert gone == [gone[0]] + gone[1..];
      DeletionStopsAtTheFirstFailure(Without(h, gone[0]), requested + {gone[0]}, gone[1..], failed, rest, failures);
    }
  }

  /** A failed deletion leaves the row live and the matches where the next call finds them. */
  lemma FailedDeletionIsKept(s: State, continuation: Option<Continuation>, gone: seq<MessageId>, failed: MessageId,
                             rest: seq<MessageId>, outcome: Outcome, c: Call)
    requires Decreasing(s.channel) && failed in c.failures && forall id :: id in gone ==> id !in c.failures
    ensures var r := DeleteAndReduce(s, continuation, gone + [failed] + rest, outcome, c);
            && r.state.row == s.row
            && r.code == Some(if continuation.Some? && !c.saves then "discord_retention_ledger_conflict" else c.failures[failed].code)
            && r.state.cursor == if continuation.Some? && c.saves
                                 then Some(continuation.value.(lastErrorCode := Some(c.failures[failed].code))) else s.cursor
  {
    DeletionStopsAtTheFirstFailure(s.channel, s.requested, gone, failed, rest, c.failures);
  }

  /** A page that cannot be read costs no page and no match, but the scan is not complete any more. */
  lemma FailedPageIsKept(t: Target, s: State, c: Call, code: string)
    requires s.row == Live && t.kind == Unknown && c.config && t.channelKnown && t.boundary.Some? && c.pageError == Some(code)
    requires s.cursor.Some? ==> !s.cursor.value.complete && s.cursor.value.pagesScanned < 10
    ensures var r := Retain(t, s, c);
            if !c.saves then r == Retained(s, Some("discord_retention_ledger_conflict"))
            else r == Retained(s.(cursor := r.state.cursor), Some(code))
                 && r.state.cursor ==
                    match s.cursor
                    case None => Some(Continuation(t.boundary, None, false, Some(code), [], 0, Error))
                    case Some(kept) => Some(Continuation(kept.attemptBoundary, kept.before, false, Some(code), kept.matched, kept.pagesScanned, Error))
  {
  }

  /** So does a scan for which the configuration, the channel or the boundary is missing. */
  lemma MissingLookupIsKept(t: Target, s: State, c: Call)
    requires s.row == Live && t.kind == Unknown && (!c.config || !t.channelKnown || t.boundary.None?)
    ensures var r, code := Retain(t, s, c), "discord_retention_lookup_incomplete";
            if !c.saves then r == Retained(s, Some("discord_retention_ledger_conflict"))
            else r == Retained(s.(cursor := r.state.cursor), Some(code))
                 && r.state.cursor ==
                    match s.cursor
                    case None => Some(Continuation(t.boundary, None, false, Some(code), [], 0, Error))
                    case Some(kept) => Some(Continuation(kept.attemptBoundary, kept.before, false, Some(code), kept.matched, kept.pagesScanned, Error))
  {
  }

  /** A page whose progress cannot be saved is read again by the next call. */
  lemma LostProgressChangesNothing(t: Target, s: State, c: Call)
    requires s.row == Live && t.kind == Unknown && !c.saves && Retain(t, s, c).state.channel == s.channel
    requires Retain(t, s, c).state.requested == s.requested
    ensures Retain(t, s, c).state == s && Retain(t, s, c).code.Some?
  {
  }

  /** A local row goes with one write; a known message needs the channel and becomes a tombstone with one match. */
  lemma LocalAndKnownRowsSettle(t: Target, s: State, c: Call)
    requires s.row == Live && t.kind != Unknown
    ensures var r := Retain(t, s, c);
            if t.kind == Local then
              r == if c.saves then Retained(s.(row := Gone), None) else Retained(s, Some("discord_retention_ledger_conflict"))
            else if !c.config || !t.channelKnown || t.known.None? then
              r == Retained(s, Some("discord_retention_lookup_incomplete"))
            else
              && r.state.requested == s.requested + {t.known.value} && r.state.cursor == (if r.code == None then None else s.cursor)
              && r.state.row == (if t.known.value !in c.failures && c.saves then Tombstone(KnownMessage, 1) else Live)
              && r.code == if t.known.value in c.failures then Some(c.failures[t.known.value].code)
                           else if c.saves then None else Some("discord_retention_ledger_conflict")
  {
    if t.known.Some? { OneDeletion(s.channel, s.requested, t.known.value, c.failures); }
  }

  lemma OneDeletion(h: seq<Message>, requested: set<MessageId>, id: MessageId, failures: map<MessageId, Failure>)
    ensures var d := DeleteEach(h, requested, [id], failures);
            && d.requested == requested + {id}
            && d.error == if id in failures then Some(failures[id].code) else None
  {
    assert DeleteEach(Without(h, id), requested + {id}, [], failures) == Deletion(Without(h, id), requested + {id}, None);
    assert [id][1..] == [];
  }
}
