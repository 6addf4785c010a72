/** The runner that brings the administrators' search indexes into the database while it is in use.
    It can be cut off at any statement, and building or dropping an index can be cut off half-way. */
module OnlineIndexes {
  import opened Wrappers

  /** What an index is on: table, columns, operator classes and so on, taken as one value. */
  type Definition = nat

  datatype Index = Index(definition: Definition, valid: bool, ready: bool)

  datatype Target = Target(name: string, definition: Definition)

  datatype LedgerState = Applying | Applied

  datatype Ledger = Ledger(checksum: string, state: LedgerState)

  /** How a statement ends: it completes, or the run is cut off with the statement not begun,
      half-way or already in effect. A cut-off while only reading is one before the next write. */
  datatype Fault = Fine | CutOff(extent: Extent)

  datatype Extent = NotBegun | HalfWay(ready: bool) | InEffect

  datatype Outcome = Done | Crashed | Failed(code: string)

  datatype Inspection = Missing | Found(index: Index, public: bool) | Ambiguous

  ghost predicate DistinctNames(manifest: seq<Target>) {
    forall i, k :: 0 <= i < k < |manifest| ==> manifest[i].name != manifest[k].name
  }

  predicate Good(indexes: map<string, Index>, t: Target) {
    t.name in indexes && indexes[t.name] == Index(t.definition, true, true)
  }

  /** No valid index is changed or dropped. */
  ghost predicate ValidUntouched(before: map<string, Index>, after: map<string, Index>) {
    forall n :: n in before && before[n].valid ==> n in after && after[n] == before[n]
  }

  predicate Same(before: map<string, Index>, after: map<string, Index>, name: string) {
    (name in after <==> name in before) && (name in before ==> after[name] == before[name])
  }

  lemma SameTransitive(a: map<string, Index>, b: map<string, Index>, c: map<string, Index>, names: iset<string>)
    requires forall n :: n !in names ==> Same(a, b, n) && Same(b, c, n)
    ensures forall n :: n !in names ==> Same(a, c, n)
  {
    forall n | n !in names ensures Same(a, c, n) { assert Same(a, b, n) && Same(b, c, n); }
  }

  predicate Named(manifest: seq<Target>, name: string) {
    exists i :: 0 <= i < |manifest| && manifest[i].name == name
  }

  /** Placing one index of the manifest leaves the others as they are. */
  lemma OthersStay(manifest: seq<Target>, i: nat, start: map<string, Index>, before: map<string, Index>, after: map<string, Index>)
    requires i < |manifest| && DistinctNames(manifest) && forall n :: n != manifest[i].name ==> Same(before, after, n)
    requires forall n :: !Named(manifest, n) ==> Same(start, before, n)
    requires forall k :: i <= k < |manifest| ==> Same(start, before, manifest[k].name)
    ensures forall n :: !Named(manifest, n) ==> Same(start, after, n)
    ensures forall k :: i < k < |manifest| ==> Same(start, after, manifest[k].name)
    ensures forall k :: 0 <= k < i && Good(before, manifest[k]) ==> Good(after, manifest[k])
  {
    SameTransitive(start, before, after, iset n | Named(manifest, n));
    forall k | 0 <= k < |manifest| && k != i ensures Same(before, after, manifest[k].name) {}
  }

  class Database {
    const manifest: seq<Target>
    const checksum: string
    /** Indexes in other schemas that carry the same names. */
    const elsewhere: map<string, seq<Index>>
    var indexes: map<string, Index>
    var ledger: Option<Ledger>

    constructor (manifest: seq<Target>, checksum: string, elsewhere: map<string, seq<Index>>, indexes: map<string, Index>)
      ensures this.manifest == manifest && this.checksum == checksum && this.elsewhere == elsewhere
      ensures this.indexes == indexes && ledger == None && Safe()
    {
      this.manifest, this.checksum, this.elsewhere, this.indexes, this.ledger := manifest, checksum, elsewhere, indexes, None;
    }

    /** The ledger says APPLIED only when every index of the manifest is there, valid, ready and as defined. */
    ghost predicate Safe()
      reads this
    {
      ledger == Some(Ledger(checksum, Applied)) ==> forall t :: t in manifest ==> Good(indexes, t)
    }

    function Elsewhere(name: string): (s: seq<Index>) {
      if name in elsewhere then elsewhere[name] else []
    }

    /** The index can be brought into place: it is missing, invalid or already right, and its name is
        not taken in another schema. */
    ghost predicate Placeable(current: map<string, Index>, t: Target) {
      Elsewhere(t.name) == [] && (t.name in current && current[t.name].valid ==> Good(current, t))
    }

    ghost predicate Recoverable()
      reads this
    {
      && (ledger.Some? ==> ledger.value.checksum == checksum)
      && (forall t :: t in manifest ==> Placeable(indexes, t))
    }

    /** Looks an index up by name alone, in whatever schema. */
    function Inspect(name: string): Inspection
      reads this
    {
      var others := Elsewhere(name);
      if name in indexes then (if others == [] then Found(indexes[name], true) else Ambiguous)
      else if others == [] then Missing
      else if |others| == 1 then Found(others[0], false) else Ambiguous
    }

    /** An index of another schema never matches the manifest. */
    predicate Matches(t: Target, found: Inspection)
      requires found.Found?
    {
      found.public && found.index.definition == t.definition
    }

    method Drop(name: string, fault: Fault) returns (alive: bool)
      requires name in indexes ==> !indexes[name].valid
      modifies this`indexes
      ensures alive == fault.Fine?
      ensures ValidUntouched(old(indexes), indexes) && (forall n :: n != name ==> Same(old(indexes), indexes, n))
      ensures alive ==> name !in indexes
      ensures name in indexes ==> !indexes[name].valid
    {
      if fault.Fine? || fault.extent.InEffect? {
        indexes := indexes - {name};
      }
      alive := fault.Fine?;
    }

    method Create(t: Target, fault: Fault) returns (alive: bool)
      requires t.name !in indexes
      modifies this`indexes
      ensures alive == fault.Fine?
      ensures ValidUntouched(old(indexes), indexes) && (forall n :: n != t.name ==> Same(old(indexes), indexes, n))
      ensures alive ==> Good(indexes, t)
      ensures t.name in indexes && indexes[t.name].valid ==> Good(indexes, t)
    {
      if fault.Fine? || fault.extent.InEffect? {
        indexes := indexes[t.name := Index(t.definition, true, true)];
      } else if fault.extent.HalfWay? {
        indexes := indexes[t.name := Index(t.definition, false, fault.extent.ready)];
      }
      alive := fault.Fine?;
    }

    /** One round of the loop over the manifest. */
    method PlaceIndex(t: Target, dropFault: Fault, createFault: Fault) returns (outcome: Outcome)
      modifies this`indexes
      ensures ValidUntouched(old(indexes), indexes) && (forall n :: n != t.name ==> Same(old(indexes), indexes, n))
      ensures outcome.Done? ==> Good(indexes, t) && Elsewhere(t.name) == []
      ensures Placeable(old(indexes), t) ==> Placeable(indexes, t) && !outcome.Failed?
      ensures dropFault.Fine? && createFault.Fine? ==> !outcome.Crashed? && (outcome.Done? <==> Placeable(old(indexes), t))
      ensures outcome.Failed? ==> indexes == old(indexes) || Elsewhere(t.name) != []
      ensures (t.name in elsewhere && |elsewhere[t.name]| > 1) || (t.name in old(indexes) && t.name in elsewhere && elsewhere[t.name] != []) ==>
                outcome == Failed("UNKNOWN_TARGET") && indexes == old(indexes)
      ensures t.name in old(indexes) && old(indexes)[t.name].valid && (t.name in elsewhere ==> elsewhere[t.name] == [])
              && old(indexes)[t.name] != Index(t.definition, true, true) ==>
                outcome == Failed("INDEX_DEFINITION_MISMATCH") && indexes == old(indexes)
      ensures t.name !in old(indexes) && t.name in elsewhere && |elsewhere[t.name]| == 1 && elsewhere[t.name][0].valid ==>
                outcome == Failed("INDEX_DEFINITION_MISMATCH") && indexes == old(indexes)
    {
      var current := Inspect(t.name);
      if current.Ambiguous? { return Failed("UNKNOWN_TARGET"); }
      if current.Found? && current.index.valid && (!current.index.ready || !Matches(t, current)) {
        return Failed("INDEX_DEFINITION_MISMATCH");
      }
      if current.Found? && !current.index.valid {
        var alive := Drop(t.name, dropFault);
        if !alive { return Crashed; }
      }
      if current.Missing? || !current.index.valid {
        ghost var dropped := indexes;
        var alive := Create(t, createFault);
        SameTransitive(old(indexes), dropped, indexes, iset{t.name});
        if !alive { return Crashed; }
      }
      var applied := Inspect(t.name);
      if applied.Ambiguous? { return Failed("UNKNOWN_TARGET"); }
      if applied.Missing? || !Matches(t, applied) || !applied.index.valid || !applied.index.ready {
        return Failed("INDEX_DEFINITION_MISMATCH");
      }
      return Done;
    }

    method PlaceAll(faults: nat -> Fault) returns (outcome: Outcome)
      requires DistinctNames(manifest)
      modifies this`indexes
      ensures ValidUntouched(old(indexes), indexes)
      ensures forall n :: !Named(manifest, n) ==> Same(old(indexes), indexes, n)
      ensures outcome.Done? ==> forall k :: 0 <= k < |manifest| ==> Good(indexes, manifest[k]) && Elsewhere(manifest[k].name) == []
      ensures forall k :: 0 <= k < |manifest| && Placeable(old(indexes), manifest[k]) ==> Placeable(indexes, manifest[k])
      ensures (forall n :: faults(n) == Fine) ==>
                !outcome.Crashed? && (outcome.Done? <==> forall k :: 0 <= k < |manifest| ==> Placeable(old(indexes), manifest[k]))
      ensures outcome.Failed? ==> exists k :: 0 <= k < |manifest| && !Placeable(old(indexes), manifest[k])
    {
      ghost var start := indexes;
      var i := 0;
      while i < |manifest|
        invariant i <= |manifest|
        invariant ValidUntouched(start, indexes)
        invariant forall n :: !Named(manifest, n) ==> Same(start, indexes, n)
        invariant forall k :: i <= k < |manifest| ==> Same(start, indexes, manifest[k].name)
        invariant forall k :: 0 <= k < i ==> Good(indexes, manifest[k]) && Elsewhere(manifest[k].name) == []
        invariant (forall n :: faults(n) == Fine) ==> forall k :: 0 <= k < i ==> Placeable(start, manifest[k])
      {
        ghost var before := indexes;
        outcome := PlaceIndex(manifest[i], faults(2 * i), faults(2 * i + 1));
        OthersStay(manifest, i, start, before, indexes);
        if !outcome.Done? { return; }
        i := i + 1;
      }
      return Done;
    }

    /** The last look at every index before the ledger is marked. */
    method VerifyAll() returns (outcome: Outcome)
      ensures outcome.Done? ==> forall k :: 0 <= k < |manifest| ==> Good(indexes, manifest[k])
      ensures (forall k :: 0 <= k < |manifest| ==> Good(indexes, manifest[k]) && Elsewhere(manifest[k].name) == []) ==> outcome.Done?
      ensures !outcome.Crashed?
    {
      for i := 0 to |manifest|
        invariant forall k :: 0 <= k < i ==> Good(indexes, manifest[k])
      {
        var verified := Inspect(manifest[i].name);
        if verified.Ambiguous? { return Failed("UNKNOWN_TARGET"); }
        if verified.Missing? || !verified.index.valid || !verified.index.ready || !Matches(manifest[i], verified) {
          return Failed("INDEX_DEFINITION_MISMATCH");
        }
      }
      return Done;
    }

    /** Marks the ledger in a transaction of its own. */
    method MarkApplied(fault: Fault) returns (outcome: Outcome)
      requires forall t :: t in manifest ==> Good(indexes, t)
      modifies this`ledger
      ensures Safe()
      ensures fault.Fine? ==> !outcome.Crashed?
      ensures outcome.Done? ==> ledger == Some(Ledger(checksum, Applied))
      ensures outcome.Failed? ==> old(ledger) != Some(Ledger(checksum, Applying))
      ensures ledger == old(ledger) || (old(ledger) == Some(Ledger(checksum, Applying)) && ledger == Some(Ledger(checksum, Applied)))
    {
      if fault.CutOff? && !fault.extent.InEffect? { return Crashed; }
      if ledger != Some(Ledger(checksum, Applying)) { return if fault.Fine? then Failed("CHECKSUM_MISMATCH") else Crashed; }
      ledger := Some(Ledger(checksum, Applied));
      return if fault.Fine? then Done else Crashed;
    }

    /** One run of the runner. Cut off anywhere, it leaves the ledger truthful, every valid index as it
        was and every state it can recover from recoverable; run to its end, it succeeds exactly when
        the state was recoverable. */
    method ApplyIndexes(insertFault: Fault, faults: nat -> Fault, markFault: Fault) returns (outcome: Outcome)
      requires DistinctNames(manifest) && Safe()
      modifies this
      ensures Safe()
      ensures ValidUntouched(old(indexes), indexes)
      ensures forall n :: !Named(manifest, n) ==> Same(old(indexes), indexes, n)
      ensures old(Recoverable()) ==> Recoverable() && !outcome.Failed?
      ensures outcome.Done? ==> ledger == Some(Ledger(checksum, Applied))
      ensures old(ledger).Some? && old(ledger).value.checksum != checksum ==>
                outcome == Failed("CHECKSUM_MISMATCH") && ledger == old(ledger) && indexes == old(indexes)
      ensures old(ledger).Some? ==> ledger.Some? && ledger.value.checksum == old(ledger).value.checksum
      ensures ledger.Some? && old(ledger).None? ==> ledger.value.checksum == checksum
      ensures !outcome.Done? && ledger != old(ledger) ==>
                ledger == Some(Ledger(checksum, Applying)) || (markFault.CutOff? && ledger == Some(Ledger(checksum, Applied)))
      ensures insertFault.Fine? && markFault.Fine? && (forall n :: faults(n) == Fine) ==>
                !outcome.Crashed? && (outcome.Done? <==> old(Recoverable()))
    {
      if ledger.Some? && ledger.value.checksum != checksum { return Failed("CHECKSUM_MISMATCH"); }
      if insertFault.CutOff? && !insertFault.extent.InEffect? { return Crashed; }
      ledger := Some(Ledger(checksum, Applying));
      if insertFault.CutOff? { return Crashed; }
      outcome := PlaceAll(faults);
      if !outcome.Done? { return; }
      outcome := VerifyAll();
      if !outcome.Done? { return; }
      outcome := MarkApplied(markFault);
    }

    /** Any number of runs: a ledger of another checksum is never touched, and neither is what it stands for. */
    method RunAgainAndAgain(runs: seq<(Fault, nat -> Fault, Fault)>)
      requires DistinctNames(manifest) && Safe()
      modifies this
      ensures Safe() && ValidUntouched(old(indexes), indexes)
      ensures old(ledger).Some? ==> ledger.Some? && ledger.value.checksum == old(ledger).value.checksum
      ensures old(ledger).Some? && old(ledger).value.checksum != checksum ==> ledger == old(ledger) && indexes == old(indexes)
    {
      for i := 0 to |runs|
        invariant Safe() && ValidUntouched(old(indexes), indexes)
        invariant old(ledger).Some? ==> ledger.Some? && ledger.value.checksum == old(ledger).value.checksum
        invariant old(ledger).Some? && old(ledger).value.checksum != checksum ==> ledger == old(ledger) && indexes == old(indexes)
      {
        var _ := ApplyIndexes(runs[i].0, runs[i].1, runs[i].2);
      }
    }

    /** Any number of runs, each cut off somewhere or not, and then one that is not: from a recoverable
        state the indexes are always all in place in the end. */
    method RecoverAfterCrashes(crashes: seq<(Fault, nat -> Fault, Fault)>)
      requires DistinctNames(manifest) && Safe() && Recoverable()
      modifies this
      ensures ledger == Some(Ledger(checksum, Applied))
      ensures forall t :: t in manifest ==> Good(indexes, t)
      ensures ValidUntouched(old(indexes), indexes)
    {
      for i := 0 to |crashes|
        invariant Safe() && Recoverable() && ValidUntouched(old(indexes), indexes)
      {
        var _ := ApplyIndexes(crashes[i].0, crashes[i].1, crashes[i].2);
      }
      var outcome := ApplyIndexes(Fine, (n: nat) => Fine, Fine);
    }
  }
}
