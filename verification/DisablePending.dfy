/** Disabling Discord operations: raise the fence, wait for the drain, clean up the messages whose
    controls are still live. What other parties do between two awaits arrives as parameters: what each
    drain check sees, the fate of each edit, and which of these calls throw. */
module DisablePending {
  import opened OperationsFence
  import opened Wrappers

  const MAX_BATCHES: nat := 10
  const MESSAGE_CLAIM_BATCH: nat := 20

  type MessageId = string

  /** What happens to one claimed message: its reservation is gone, the remote edit fails, the row
      changed meanwhile, the controls are gone for good, or one of the calls throws. */
  datatype Fate = SnapshotMissing | EditFailed | ClaimLost | Disabled | Throws

  datatype DisableResult = DisableResult(claimed: nat, disabled: nat, failed: nat, hasMore: bool)

  /** A count of the mutations that are still going on, or an exception. */
  datatype Count = Seen(active: nat) | CountThrows

  /** How a write to the control row ends. */
  datatype Write = Returns | WriteThrows(applied: bool)

  datatype FencedResult =
    | Drained(cleanup: DisableResult, drainedMutations: nat, epoch: nat, pendingRemoteCleanup: bool)
    | DrainTimeout
    | Threw

  /** The single control row, changed in place. */
  class OperationsControl {
    var enabled: bool
    var epoch: nat
    var pendingRemoteCleanup: bool

    function Row(): Control
      reads this
    {
      Control(enabled, epoch, pendingRemoteCleanup)
    }

    constructor (row: Control)
      ensures Row() == row
    {
      enabled, epoch, pendingRemoteCleanup := row.enabled, row.epoch, row.pendingRemoteCleanup;
    }

    method BeginDisable() returns (fence: nat)
      modifies this
      ensures Row() == BeginDisableOf(old(Row())) && fence == epoch
      ensures !enabled && epoch == old(epoch) + 1 && pendingRemoteCleanup == old(pendingRemoteCleanup)
    {
      enabled := false;
      epoch := epoch + 1;
      fence := epoch;
    }

    method SetPendingRemoteCleanup(pending: bool)
      modifies this
      ensures Row() == old(Row()).(pendingRemoteCleanup := pending)
    {
      pendingRemoteCleanup := pending;
    }

    /** ok is false when the residual controls were not acknowledged; then nothing changes. */
    method Reenable(acknowledged: bool) returns (ok: bool)
      modifies this
      ensures Row() == ReenableOf(old(Row()), acknowledged)
      ensures ok == (acknowledged || !old(pendingRemoteCleanup))
      ensures ok ==> enabled && epoch == old(epoch) + 1 && !pendingRemoteCleanup
      ensures !ok ==> Row() == old(Row())
    {
      if pendingRemoteCleanup && !acknowledged { return false; }
      enabled, epoch, pendingRemoteCleanup := true, epoch + 1, false;
      return true;
    }
  }

  /** Whether a message still has working controls, is claimed by a clean-up, or is inert. */
  datatype Controls = Live | Syncing | Inert

  type Rows = map<MessageId, Controls>

  function In(rows: Rows, c: Controls): set<MessageId> {
    set m | m in rows && rows[m] == c
  }

  /** Between two states of the ledger only live messages changed: those whose clean-up succeeded became
      inert, and those whose clean-up threw stayed claimed. */
  ghost predicate CleanedUp(before: Rows, after: Rows, fates: map<MessageId, Fate>) {
    && before.Keys == after.Keys
    && forall m :: m in before && after[m] != before[m] ==>
         before[m] == Live && m in fates
         && ((after[m] == Inert && fates[m].Disabled?) || (after[m] == Syncing && fates[m].Throws?))
  }

  /** What a message becomes when its claim is processed. */
  function Processed(fate: Fate): Controls {
    match fate
    case Disabled => Inert
    case Throws => Syncing
    case _ => Live
  }

  /** The rows after the claims have been processed. */
  function AllProcessed(rows: Rows, claims: set<MessageId>, fates: map<MessageId, Fate>): Rows
    requires claims <= fates.Keys
  {
    map m | m in rows :: if m in claims then Processed(fates[m]) else rows[m]
  }

  /** The claims with one fate. */
  function With(claims: set<MessageId>, fates: map<MessageId, Fate>, fate: Fate): set<MessageId>
    requires claims <= fates.Keys
  {
    set m | m in claims && fates[m] == fate
  }

  lemma OneMoreWith(claims: set<MessageId>, m: MessageId, fates: map<MessageId, Fate>, fate: Fate)
    requires claims <= fates.Keys && m in fates && m !in claims
    ensures |With(claims + {m}, fates, fate)| == |With(claims, fates, fate)| + (if fates[m] == fate then 1 else 0)
  {
    assert With(claims + {m}, fates, fate) == With(claims, fates, fate) + (if fates[m] == fate then {m} else {});
  }

  lemma OneMoreProcessed(rows: Rows, claims: set<MessageId>, m: MessageId, fates: map<MessageId, Fate>)
    requires claims <= fates.Keys && m in fates && m in rows
    ensures AllProcessed(rows, claims + {m}, fates) == AllProcessed(rows, claims, fates)[m := Processed(fates[m])]
  {
  }

  lemma MoreInert(before: Rows, after: Rows, claims: set<MessageId>, fates: map<MessageId, Fate>)
    requires claims <= In(before, Live) && claims <= fates.Keys && before.Keys == after.Keys
    requires forall m :: m in before ==> after[m] == if m in claims then Processed(fates[m]) else before[m]
    ensures |In(after, Inert)| == |In(before, Inert)| + |With(claims, fates, Disabled)|
  {
    assert In(after, Inert) == In(before, Inert) + With(claims, fates, Disabled);
  }

  lemma SameSyncing(before: Rows, after: Rows, claims: set<MessageId>, fates: map<MessageId, Fate>)
    requires claims <= In(before, Live) && claims <= fates.Keys && before.Keys == after.Keys
    requires forall m :: m in before ==> after[m] == if m in claims then Processed(fates[m]) else before[m]
    requires |With(claims, fates, Throws)| == 0
    ensures In(after, Syncing) == In(before, Syncing)
  {
    forall m ensures m in In(after, Syncing) <==> m in In(before, Syncing) {
      if m in claims { assert m !in With(claims, fates, Throws); }
    }
  }

  class MessageLedger {
    var rows: Rows

    /** Up to a batch of live messages become claimed ones. */
    method ClaimActive() returns (claims: set<MessageId>)
      modifies this
      ensures claims <= In(old(rows), Live)
      ensures |claims| == if |In(old(rows), Live)| < 20 then |In(old(rows), Live)| else 20
      ensures rows == map m | m in old(rows) :: if m in claims then Syncing else old(rows)[m]
    {
      var live := In(rows, Live);
      claims := {};
      while |claims| < MESSAGE_CLAIM_BATCH && live - claims != {}
        invariant claims <= live && |claims| <= MESSAGE_CLAIM_BATCH
        decreases live - claims
      {
        var m :| m in live - claims;
        claims := claims + {m};
      }
      if live - claims == {} { assert claims == live; }
      SubsetSize(claims, live);
      rows := map m | m in rows :: if m in claims then Syncing else rows[m];
    }

    /** A claimed message ends up inert or, whatever went wrong, live again; an exception leaves it claimed. */
    method ProcessClaim(m: MessageId, fate: Fate) returns (ok: bool, thrown: bool)
      requires m in rows && rows[m] == Syncing
      modifies this
      ensures ok == fate.Disabled? && thrown == fate.Throws?
      ensures rows == old(rows)[m := Processed(fate)]
      ensures rows[m] == if fate == Disabled then Inert else if fate == Throws then Syncing else Live
    {
      ok, thrown := false, false;
      match fate {
        case Disabled => rows := rows[m := Inert]; ok := true;
        case Throws => thrown := true;
        case _ => rows := rows[m := Live];
      }
    }

    /** Every claimed message is processed, in any order, before the outcomes are counted. */
    method ProcessBatch(claims: set<MessageId>, fates: map<MessageId, Fate>) returns (succeeded: nat, thrown: nat)
      requires claims <= In(rows, Syncing) && claims <= fates.Keys
      modifies this
      ensures rows == AllProcessed(old(rows), claims, fates)
      ensures succeeded == |With(claims, fates, Disabled)| && thrown == |With(claims, fates, Throws)|
    {
      ghost var before := rows;
      var todo := claims;
      ghost var done: set<MessageId> := {};
      succeeded, thrown := 0, 0;
      assert rows == AllProcessed(before, done, fates);
      while todo != {}
        invariant todo !! done && todo + done == claims
        invariant rows == AllProcessed(before, done, fates)
        invariant succeeded == |With(done, fates, Disabled)| && thrown == |With(done, fates, Throws)|
        decreases todo
      {
        var m :| m in todo;
        OneMoreProcessed(before, done, m, fates);
        OneMoreWith(done, m, fates, Disabled);
        OneMoreWith(done, m, fates, Throws);
        assert m in before && m !in done;
        var ok, threw := ProcessClaim(m, fates[m]);
        if ok { succeeded := succeeded + 1; }
        if threw { thrown := thrown + 1; }
        todo, done := todo - {m}, done + {m};
      }
    }

    method RunBatch(fates: map<MessageId, Fate>) returns (claimed: nat, succeeded: nat, thrown: bool)
      requires In(rows, Live) <= fates.Keys
      modifies this
      ensures CleanedUp(old(rows), rows, fates)
      ensures succeeded <= claimed && |In(rows, Inert)| == |In(old(rows), Inert)| + succeeded
      ensures claimed == 0 <==> In(old(rows), Live) == {}
      ensures !thrown ==> In(rows, Syncing) == In(old(rows), Syncing)
      ensures thrown ==> exists m :: m in In(old(rows), Live) && fates[m].Throws?
    {
      ghost var before := rows;
      var claims := ClaimActive();
      claimed := |claims|;
      var exceptions;
      succeeded, exceptions := ProcessBatch(claims, fates);
      thrown := exceptions > 0;
      MoreInert(before, rows, claims, fates);
      SubsetSize(With(claims, fates, Disabled), claims);
      if !thrown {
        SameSyncing(before, rows, claims, fates);
      } else {
        var m :| m in With(claims, fates, Throws);
      }
    }

    /** The batch loop; None stands for an exception. When it reports nothing left over, exactly the
        messages that had live controls have become inert. */
    method DisableAll(fates: map<MessageId, Fate>) returns (result: Option<DisableResult>)
      requires In(rows, Live) <= fates.Keys
      modifies this
      ensures CleanedUp(old(rows), rows, fates)
      ensures result.None? ==> exists m :: m in In(old(rows), Live) && fates[m].Throws?
      ensures result.Some? ==>
                var r := result.value;
                && r.claimed == r.disabled + r.failed && |In(rows, Inert)| == |In(old(rows), Inert)| + r.disabled
                && In(rows, Syncing) == In(old(rows), Syncing)
                && (r.failed > 0 ==> r.hasMore)
                && (r.hasMore ==> r.failed > 0 || r.claimed >= 10)
                && (!r.hasMore ==> forall m :: m in rows ==> rows[m] == if old(rows)[m] == Live then Inert else old(rows)[m])
    {
      var claimed, disabled, failed, hasMore := 0, 0, 0, false;
      var batch := 0;
      while batch < MAX_BATCHES
        invariant batch <= MAX_BATCHES && CleanedUp(old(rows), rows, fates)
        invariant In(rows, Live) <= In(old(rows), Live) && In(rows, Syncing) == In(old(rows), Syncing)
        invariant failed == 0 && claimed == disabled && claimed >= batch
        invariant |In(rows, Inert)| == |In(old(rows), Inert)| + disabled
        invariant hasMore == (batch == MAX_BATCHES)
      {
        var batchClaims, succeeded, thrown := RunBatch(fates);
        if thrown { return None; }
        if batchClaims == 0 {
          NoneLeft(old(rows), rows, fates);
          hasMore := false;
          break;
        }
        claimed := claimed + batchClaims;
        var batchFailures := batchClaims - succeeded;
        disabled := disabled + succeeded;
        failed := failed + batchFailures;
        if batchFailures > 0 {
          hasMore := true;
          break;
        }
        hasMore := batch == MAX_BATCHES - 1;
        batch := batch + 1;
      }
      return Some(DisableResult(claimed, disabled, failed, hasMore));
    }
  }

  lemma NoneLeft(before: Rows, after: Rows, fates: map<MessageId, Fate>)
    requires CleanedUp(before, after, fates) && In(after, Live) == {} && In(after, Syncing) == In(before, Syncing)
    ensures forall m :: m in after ==> after[m] == if before[m] == Live then Inert else before[m]
  {
    forall m | m in after ensures after[m] == if before[m] == Live then Inert else before[m] {
      assert m !in In(after, Live);
      assert m in In(after, Syncing) <==> m in In(before, Syncing);
    }
  }

  lemma SubsetSize<T>(a: set<T>, b: set<T>)
    requires a <= b
    ensures |a| <= |b| && (|a| == |b| <==> a == b)
  {
    assert a + (b - a) == b;
  }

  function MaxOf(counts: seq<nat>): (r: nat)
    ensures forall c :: c in counts ==> c <= r
    ensures r > 0 ==> r in counts
  {
    if counts == [] then 0
    else
      var rest := MaxOf(counts[..|counts| - 1]);
      var last := counts[|counts| - 1];
      assert counts == counts[..|counts| - 1] + [last];
      if last > rest then last else rest
  }

  /** What the drain checks have seen. */
  function Seens(counts: seq<Count>): seq<nat> {
    if counts == [] then []
    else
      var last := counts[|counts| - 1];
      Seens(counts[..|counts| - 1]) + if last.Seen? then [last.active] else []
  }

  /** counts[i] is what drain check i sees. The clean-up runs only after a check that saw zero, and
      the pending flag is cleared only when no transport was in flight at the fence and no message
      has live controls any more; after a timeout or an exception, whatever threw, the flag is raised
      (if that last write succeeds) and the operations stay disabled at the new epoch. An exception of
      that write takes the place of the timeout. */
  method FencedDisable(
    control: OperationsControl, ledger: MessageLedger,
    preFenceTransports: nat, counts: seq<Count>, fates: map<MessageId, Fate>, save: Write, raise: Write)
    returns (r: FencedResult)
    requires In(ledger.rows, Live) <= fates.Keys
    modifies control, ledger
    ensures CleanedUp(old(ledger.rows), ledger.rows, fates)
    ensures control.Row() == BeginDisableOf(old(control.Row())).(pendingRemoteCleanup := control.pendingRemoteCleanup)
    ensures !r.Drained? && raise == Returns ==> control.pendingRemoteCleanup
    ensures r.DrainTimeout? <==> Seen(0) !in counts && CountThrows !in counts && raise == Returns
    ensures (forall n :: 0 <= n < |counts| && counts[n] == Seen(0) ==> CountThrows in counts[..n]) ==> ledger.rows == old(ledger.rows)
    ensures r.Drained? ==>
              && save == Returns && r.epoch == control.epoch && r.pendingRemoteCleanup == control.pendingRemoteCleanup
              && exists n :: DrainedAt(counts, n, r.drainedMutations)
    ensures r.Drained? && !control.pendingRemoteCleanup ==>
              preFenceTransports == 0
              && forall m :: m in ledger.rows ==> ledger.rows[m] == if old(ledger.rows)[m] == Live then Inert else old(ledger.rows)[m]
    ensures r.Drained? && control.pendingRemoteCleanup ==> preFenceTransports > 0 || r.cleanup.hasMore
  {
    var fence := control.BeginDisable();
    var drainedMutations := 0;
    var thrown := false;
    for check := 0 to |counts|
      invariant !thrown && Seen(0) !in counts[..check] && CountThrows !in counts[..check]
      invariant drainedMutations == MaxOf(Seens(counts[..check]))
      invariant control.Row() == BeginDisableOf(old(control.Row())) && fence == control.epoch
      invariant ledger.rows == old(ledger.rows)
    {
      assert counts[..check + 1][..check] == counts[..check] && counts[..check + 1][check] == counts[check];
      if counts[check].CountThrows? {
        thrown := true;
        break;
      }
      var activeMutations := counts[check].active;
      LastSeen(counts, check);
      drainedMutations := if activeMutations > drainedMutations then activeMutations else drainedMutations;
      if activeMutations == 0 {
        assert DrainedAt(counts, check, drainedMutations);
        var cleanup := ledger.DisableAll(fates);
        thrown := true;
        if cleanup.Some? {
          var pending := preFenceTransports > 0 || cleanup.value.failed > 0 || cleanup.value.hasMore;
          if save == Returns || save.applied { control.SetPendingRemoteCleanup(pending); }
          if save == Returns { return Drained(cleanup.value, drainedMutations, fence, pending); }
        }
        break;
      }
    }
    if raise == Returns || raise.applied { control.SetPendingRemoteCleanup(true); }
    assert counts[..|counts|] == counts;
    return if thrown || raise != Returns then Threw else DrainTimeout;
  }

  /** Check n is the first to see zero, none before it threw, and this is the most that was seen. */
  ghost predicate DrainedAt(counts: seq<Count>, n: nat, most: nat) {
    && n < |counts| && counts[n] == Seen(0) && Seen(0) !in counts[..n] && CountThrows !in counts[..n]
    && most == MaxOf(Seens(counts[..n + 1]))
  }

  lemma LastSeen(counts: seq<Count>, n: nat)
    requires n < |counts| && counts[n].Seen?
    ensures MaxOf(Seens(counts[..n + 1])) ==
            if counts[n].active > MaxOf(Seens(counts[..n])) then counts[n].active else MaxOf(Seens(counts[..n]))
  {
    assert counts[..n + 1][..n] == counts[..n];
    var seen := Seens(counts[..n]);
    assert (seen + [counts[n].active])[..|seen|] == seen;
  }
}
