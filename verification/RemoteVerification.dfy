/** The resumable search for a reservation message whose sending had an unknown outcome. Every call
    reads one page of the channel's history and stores how far it got; pages can fail, and so can
    saving. The history does not change while the search goes on. */
module RemoteVerification {
  import opened Wrappers
  import opened History

  const PAGE_SIZE: nat := 100

  datatype Continuation = Continuation(
    before: Option<MessageId>,
    complete: bool,
    lastErrorCode: Option<string>,
    matched: seq<MessageId>,
    pagesScanned: nat,
    status: Status)

  const FRESH_CONTINUATION := Continuation(None, false, None, [], 0, ZeroPartial)

  /** What is stored about one reservation; a bound message ends the search. */
  datatype Stored = Stored(continuation: Option<Continuation>, bound: Option<MessageId>)

  /** What the repository answers when the target is looked up; a bound row is refused in any case. */
  datatype Lookup = Absent | Refused | Ready

  /** One call: the page size asked for, the answer to the lookup, how the page request ends, and
      whether the progress can be saved. */
  datatype Call = Call(pageSize: Option<int>, lookup: Lookup, pageError: Option<string>, saves: bool)

  datatype Result = Bound(id: MessageId) | Conflict | NotFound | Unresolved(status: Status)

  function EffectivePageSize(c: Call): (p: nat)
    ensures 1 <= p <= PAGE_SIZE
  {
    match c.pageSize
    case None => PAGE_SIZE
    case Some(n) => if n < 1 then 1 else if n > PAGE_SIZE then PAGE_SIZE else n
  }

  /** The progress after a page that was asked for with the given size. */
  function WithPage(previous: Continuation, page: seq<Message>, size: nat, nonce: string): Continuation {
    var matched := Distinct(previous.matched + Carriers(page, nonce));
    var complete := |page| < size;
    Continuation(if page == [] then previous.before else Some(page[|page| - 1].id), complete, None, matched,
                 previous.pagesScanned + 1, StatusOf(complete, |matched|))
  }

  /** A page has as many messages as asked for, but at least one and at most a hundred. */
  lemma PageSizes(c: Call)
    ensures c.pageSize == None ==> EffectivePageSize(c) == 100
    ensures c.pageSize.Some? ==>
              EffectivePageSize(c) == if c.pageSize.value <= 1 then 1 else if c.pageSize.value >= 100 then 100 else c.pageSize.value
  {
  }

  function AfterPage(h: seq<Message>, nonce: string, previous: Continuation, c: Call): Continuation {
    WithPage(previous, Page(h, previous.before, EffectivePageSize(c)), EffectivePageSize(c), nonce)
  }

  function AfterError(previous: Continuation, code: string): Continuation {
    previous.(complete := false, lastErrorCode := Some(code), status := Error)
  }

  function Previous(s: Stored): Continuation {
    if s.continuation.Some? then s.continuation.value else FRESH_CONTINUATION
  }

  function AfterCall(h: seq<Message>, nonce: string, s: Stored, c: Call): Stored {
    if !c.lookup.Ready? || s.bound.Some? || !c.saves then s
    else
      var previous := Previous(s);
      match c.pageError
      case Some(code) => Stored(Some(AfterError(previous, code)), None)
      case None =>
        var next := AfterPage(h, nonce, previous, c);
        Stored(Some(next), if next.status == Unique then Some(next.matched[0]) else None)
  }

  /** The row of the ledger, changed in place by every call. */
  class VerificationLedger {
    var continuation: Option<Continuation>
    var bound: Option<MessageId>

    function Now(): Stored
      reads this
    {
      Stored(continuation, bound)
    }

    constructor ()
      ensures Now() == Stored(None, None)
    {
      continuation, bound := None, None;
    }

    method SaveProgress(boundMessage: Option<MessageId>, next: Continuation, saves: bool) returns (saved: bool)
      modifies this
      ensures saved == saves
      ensures Now() == if !saves then old(Now()) else Stored(Some(next), if boundMessage.Some? then boundMessage else old(bound))
    {
      if saves {
        continuation := Some(next);
        if boundMessage.Some? { bound := boundMessage; }
      }
      saved := saves;
    }

    method VerifyRemoteMessage(h: seq<Message>, nonce: string, c: Call) returns (r: Result)
      modifies this
      ensures Now() == AfterCall(h, nonce, old(Now()), c)
      ensures r.Bound? <==> old(bound).None? && bound.Some?
      ensures r.Bound? ==> bound == Some(r.id)
      ensures r.NotFound? <==> c.lookup.Absent?
      ensures r.Conflict? <==> !c.lookup.Absent? && (c.lookup.Refused? || old(bound).Some? || !c.saves)
      ensures r.Unresolved? ==> Some(r.status) == if continuation.Some? then Some(continuation.value.status) else None
    {
      if c.lookup.Absent? { return NotFound; }
      if c.lookup.Refused? || bound.Some? { return Conflict; }
      var previous := if continuation.Some? then continuation.value else FRESH_CONTINUATION;
      match c.pageError {
        case None =>
          var next := AfterPage(h, nonce, previous, c);
          var boundMessage := if next.status == Unique then Some(next.matched[0]) else None;
          var saved := SaveProgress(boundMessage, next, c.saves);
          if !saved { return Conflict; }
          return if boundMessage.None? then Unresolved(next.status) else Bound(boundMessage.value);
        case Some(code) =>
          var saved := SaveProgress(None, AfterError(previous, code), c.saves);
          return if saved then Unresolved(Error) else Conflict;
      }
    }
  }

  // ---------------------------------------------------------------- over any run of calls

  function After(h: seq<Message>, nonce: string, calls: seq<Call>): Stored {
    if calls == [] then Stored(None, None)
    else AfterCall(h, nonce, After(h, nonce, calls[..|calls| - 1]), calls[|calls| - 1])
  }

  /** The search has read exactly the newest k messages. */
  ghost predicate ReadUpTo(h: seq<Message>, nonce: string, c: Continuation, k: nat) {
    && k <= |h|
    && c.before == (if k == 0 then None else Some(h[k - 1].id))
    && c.matched == Carriers(h[..k], nonce)
    && (c.complete ==> k == |h|)
    && (c.complete ==> c.status == StatusOf(true, |c.matched|))
  }

  ghost predicate Inv(h: seq<Message>, nonce: string, s: Stored) {
    && (s.continuation.Some? ==> exists k: nat :: ReadUpTo(h, nonce, s.continuation.value, k))
    && (s.bound.Some? <==> s.continuation.Some? && s.continuation.value.complete && s.continuation.value.status == Unique)
    && (s.bound.Some? ==> s.continuation.value.matched == [s.bound.value])
  }

  lemma PageIs(h: seq<Message>, nonce: string, previous: Continuation, limit: nat, k: nat)
    requires Decreasing(h) && ReadUpTo(h, nonce, previous, k)
    ensures Page(h, previous.before, limit) == h[k..Min(k + limit, |h|)]
  {
    if k > 0 { OlderThan(h, k); }
    assert Older(h, previous.before) == h[k..];
  }

  lemma MatchedAre(h: seq<Message>, nonce: string, k: nat, n: nat)
    requires Decreasing(h) && k <= n <= |h|
    ensures Distinct(Carriers(h[..k], nonce) + Carriers(h[k..n], nonce)) == Carriers(h[..n], nonce)
  {
    assert h[..k] + h[k..n] == h[..n];
    CarriersOfConcat(h[..k], h[k..n], nonce);
    CarriersDecrease(h[..n], nonce);
    DistinctOfDistinct(Carriers(h[..n], nonce));
  }

  lemma ReadsOn(h: seq<Message>, nonce: string, previous: Continuation, size: nat, k: nat)
    requires Decreasing(h) && ReadUpTo(h, nonce, previous, k)
    ensures var n := Min(k + size, |h|);
            var next := WithPage(previous, h[k..n], size, nonce);
            ReadUpTo(h, nonce, next, n) && (next.complete <==> |h| - k < size)
  {
    var n := Min(k + size, |h|);
    MatchedAre(h, nonce, k, n);
    if k < n { assert h[k..n][n - k - 1] == h[n - 1]; }
  }

  /** One successful page moves the search on by the page size, or to the end. */
  lemma PageReads(h: seq<Message>, nonce: string, previous: Continuation, c: Call, k: nat)
    requires Decreasing(h) && ReadUpTo(h, nonce, previous, k)
    ensures var next := AfterPage(h, nonce, previous, c);
            && ReadUpTo(h, nonce, next, Min(k + EffectivePageSize(c), |h|))
            && (next.complete <==> |h| - k < EffectivePageSize(c))
  {
    PageIs(h, nonce, previous, EffectivePageSize(c), k);
    ReadsOn(h, nonce, previous, EffectivePageSize(c), k);
  }

  lemma ErrorKeepsPlace(h: seq<Message>, nonce: string, previous: Continuation, code: string, k: nat)
    requires ReadUpTo(h, nonce, previous, k)
    ensures ReadUpTo(h, nonce, AfterError(previous, code), k)
  {
  }

  lemma InvAfterPage(h: seq<Message>, nonce: string, previous: Continuation, c: Call, k: nat)
    requires Decreasing(h) && ReadUpTo(h, nonce, previous, k)
    ensures var next := AfterPage(h, nonce, previous, c);
            Inv(h, nonce, Stored(Some(next), if next.status == Unique then Some(next.matched[0]) else None))
  {
    PageReads(h, nonce, previous, c, k);
    var next := AfterPage(h, nonce, previous, c);
    if next.status == Unique { assert next.matched == [next.matched[0]]; }
  }

  lemma InvAfterError(h: seq<Message>, nonce: string, previous: Continuation, code: string, k: nat)
    requires ReadUpTo(h, nonce, previous, k)
    ensures Inv(h, nonce, Stored(Some(AfterError(previous, code)), None))
  {
    ErrorKeepsPlace(h, nonce, previous, code, k);
  }

  lemma InvAfterCall(h: seq<Message>, nonce: string, s: Stored, c: Call)
    requires Decreasing(h) && Inv(h, nonce, s)
    ensures Inv(h, nonce, AfterCall(h, nonce, s, c))
  {
    if c.lookup.Ready? && s.bound.None? && c.saves {
      var previous := Previous(s);
      assert ReadUpTo(h, nonce, FRESH_CONTINUATION, 0);
      var k: nat :| ReadUpTo(h, nonce, previous, k);
      match c.pageError
      case None => InvAfterPage(h, nonce, previous, c, k);
      case Some(code) => InvAfterError(h, nonce, previous, code, k);
    }
  }

  lemma {:induction false} InvAlways(h: seq<Message>, nonce: string, calls: seq<Call>)
    requires Decreasing(h)
    ensures Inv(h, nonce, After(h, nonce, calls))
  {
    if calls != [] {
      InvAlways(h, nonce, calls[..|calls| - 1]);
      InvAfterCall(h, nonce, After(h, nonce, calls[..|calls| - 1]), calls[|calls| - 1]);
    }
  }

  /** Whenever the search reports complete, its matches are exactly the messages that carry the
      nonce, each once; it binds a message exactly when it is complete and there is just one. */
  lemma CompleteFindsAllCarriers(h: seq<Message>, nonce: string, calls: seq<Call>)
    requires Decreasing(h)
    ensures var s := After(h, nonce, calls);
            && (s.continuation.Some? && s.continuation.value.complete ==> s.continuation.value.matched == Carriers(h, nonce))
            && (s.bound.Some? <==> s.continuation.Some? && s.continuation.value.complete && |Carriers(h, nonce)| == 1)
            && (s.bound.Some? ==> Carriers(h, nonce) == [s.bound.value])
  {
    InvAlways(h, nonce, calls);
    assert h[..|h|] == h;
  }

  /** A call that finds its target and reads and saves its page. */
  predicate GoesWell(c: Call) { c.lookup == Ready && c.pageError == None && c.saves }

  /** Unless the message is bound, such a call reads on from where the last one stopped. */
  lemma GoodCallReadsOn(h: seq<Message>, nonce: string, s: Stored, c: Call, k: nat)
    requires Decreasing(h) && s.bound == None && GoesWell(c)
    requires if s.continuation.Some? then ReadUpTo(h, nonce, s.continuation.value, k) else k == 0
    ensures var t := AfterCall(h, nonce, s, c);
            && t.continuation.Some? && ReadUpTo(h, nonce, t.continuation.value, Min(k + EffectivePageSize(c), |h|))
            && t.continuation.value.pagesScanned == (if s.continuation.Some? then s.continuation.value.pagesScanned else 0) + 1
            && t.continuation.value.lastErrorCode == None
  {
    if s.continuation.None? { assert h[..0] == []; }
    PageReads(h, nonce, Previous(s), c, k);
  }

  /** A call that is refused or cannot save changes nothing; one whose page fails keeps its place and says so. */
  lemma OtherCallsKeepTheirPlace(h: seq<Message>, nonce: string, s: Stored, c: Call)
    ensures c.lookup != Ready || s.bound.Some? || !c.saves ==> AfterCall(h, nonce, s, c) == s
    ensures c.lookup == Ready && s.bound == None && c.saves && c.pageError.Some? ==>
              var t, p := AfterCall(h, nonce, s, c), if s.continuation.Some? then s.continuation.value else Continuation(None, false, None, [], 0, ZeroPartial);
              t == Stored(Some(Continuation(p.before, false, c.pageError, p.matched, p.pagesScanned, Error)), None)
  {
  }

  /** With pages of size p over n messages, the search has ended after n / p + 1 calls that go well. */
  lemma {:induction false} EnoughCallsEnd(h: seq<Message>, nonce: string, calls: seq<Call>, p: nat)
    requires Decreasing(h) && p > 0 && forall c :: c in calls ==> GoesWell(c) && EffectivePageSize(c) == p
    ensures var s := After(h, nonce, calls);
            && (s.bound.None? && calls != [] ==> s.continuation.Some? && s.continuation.value.pagesScanned == |calls|)
            && (|calls| >= |h| / p + 1 ==> s.continuation.Some? && s.continuation.value.complete)
  {
    CompleteAfterEnoughPages(h, nonce, calls, p);
    InvAlways(h, nonce, calls);
    if calls != [] {
      var front := calls[..|calls| - 1];
      EnoughCallsEnd(h, nonce, front, p);
      InvAlways(h, nonce, front);
      var s, c := After(h, nonce, front), calls[|calls| - 1];
      if s.bound.None? {
        var k: nat :| if s.continuation.Some? then ReadUpTo(h, nonce, s.continuation.value, k) else k == 0;
        GoodCallReadsOn(h, nonce, s, c, k);
      }
    }
  }

  ghost predicate PagesTell(h: seq<Message>, nonce: string, s: Stored, p: nat)
    requires p > 0
  {
    s.continuation.Some? ==>
      && ReadUpTo(h, nonce, s.continuation.value, Min(s.continuation.value.pagesScanned * p, |h|))
      && (s.continuation.value.status != Error ==> (s.continuation.value.complete <==> s.continuation.value.pagesScanned >= |h| / p + 1))
  }

  lemma FreshTells(h: seq<Message>, nonce: string, p: nat)
    ensures ReadUpTo(h, nonce, FRESH_CONTINUATION, Min(FRESH_CONTINUATION.pagesScanned * p, |h|))
  {
    assert h[..0] == [];
  }

  lemma PagesTellAfterPage(h: seq<Message>, nonce: string, previous: Continuation, c: Call, p: nat)
    requires Decreasing(h) && p > 0 && EffectivePageSize(c) == p
    requires ReadUpTo(h, nonce, previous, Min(previous.pagesScanned * p, |h|))
    ensures var next := AfterPage(h, nonce, previous, c);
            && ReadUpTo(h, nonce, next, Min(next.pagesScanned * p, |h|))
            && (next.complete <==> next.pagesScanned >= |h| / p + 1)
  {
    PageReads(h, nonce, previous, c, Min(previous.pagesScanned * p, |h|));
    NextPage(previous.pagesScanned, p, |h|);
  }

  lemma PagesTellAfterCall(h: seq<Message>, nonce: string, s: Stored, c: Call, p: nat)
    requires Decreasing(h) && p > 0 && EffectivePageSize(c) == p && PagesTell(h, nonce, s, p)
    ensures PagesTell(h, nonce, AfterCall(h, nonce, s, c), p)
  {
    var previous := Previous(s);
    if s.continuation.None? { FreshTells(h, nonce, p); }
    match c.pageError
    case None => PagesTellAfterPage(h, nonce, previous, c, p);
    case Some(code) => ErrorKeepsPlace(h, nonce, previous, code, Min(previous.pagesScanned * p, |h|));
  }

  /** With one page size p over n messages, the pages read so far determine how far the search got,
      and after a successful page it is complete exactly from page n / p + 1 on. */
  lemma {:induction false} CompleteAfterEnoughPages(h: seq<Message>, nonce: string, calls: seq<Call>, p: nat)
    requires Decreasing(h) && p > 0 && forall c :: c in calls ==> EffectivePageSize(c) == p
    ensures PagesTell(h, nonce, After(h, nonce, calls), p)
  {
    if calls != [] {
      CompleteAfterEnoughPages(h, nonce, calls[..|calls| - 1], p);
      PagesTellAfterCall(h, nonce, After(h, nonce, calls[..|calls| - 1]), calls[|calls| - 1], p);
    }
  }

  lemma NextPage(j: nat, p: nat, n: nat)
    requires p > 0
    ensures Min(Min(j * p, n) + p, n) == Min((j + 1) * p, n)
    ensures n - Min(j * p, n) < p <==> j >= n / p
  {
    assert (j + 1) * p == j * p + p;
    LastPage(j, p, n);
  }

  lemma LastPage(j: nat, p: nat, n: nat)
    requires p > 0
    ensures n - j * p < p <==> j >= n / p
  {
    var q := n / p;
    assert n == q * p + n % p;
    if j >= q {
      assert (j - q) * p >= 0;
    } else {
      assert (q - j - 1) * p >= 0;
    }
  }
}
