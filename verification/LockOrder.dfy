/** Advisory locks of mutation transactions. Every transaction takes the locks of its distinct keys
    in sorted order and gives all of them up at its end. The database locks a hash of the key and
    lets one transaction take the same hash twice. */
module LockOrder {
  import opened Text

  type Hash = string -> int
  type Calls = seq<seq<string>>

  /** How many locks each transaction has taken; one more than its number of keys when it is over. */
  type Positions = seq<nat>

  function Keys(calls: Calls, t: nat): seq<string>
    requires t < |calls|
  {
    SortedDistinct(calls[t])
  }

  ghost predicate Shaped(calls: Calls, pos: Positions) {
    |pos| == |calls| && forall t :: 0 <= t < |pos| ==> pos[t] <= |Keys(calls, t)| + 1
  }

  ghost predicate Finished(calls: Calls, pos: Positions, t: nat)
    requires Shaped(calls, pos) && t < |calls|
  {
    pos[t] == |Keys(calls, t)| + 1
  }

  ghost predicate HoldsAt(h: Hash, calls: Calls, pos: Positions, t: nat, i: nat, lock: int)
    requires Shaped(calls, pos)
  {
    t < |calls| && !Finished(calls, pos, t) && i < pos[t] && h(Keys(calls, t)[i]) == lock
  }

  /** The next lock is free, or there is none left to take and the transaction can end. */
  ghost predicate CanAdvance(h: Hash, calls: Calls, pos: Positions, t: nat)
    requires Shaped(calls, pos)
  {
    && t < |calls|
    && !Finished(calls, pos, t)
    && (pos[t] < |Keys(calls, t)| ==> forall u, i :: u != t ==> !HoldsAt(h, calls, pos, u, i, h(Keys(calls, t)[pos[t]])))
  }

  /** A transaction advances, or fails and loses all its locks. */
  ghost predicate Step(h: Hash, calls: Calls, pos: Positions, next: Positions) {
    && Shaped(calls, pos)
    && exists t: nat :: t < |calls| && !Finished(calls, pos, t) &&
         ((CanAdvance(h, calls, pos, t) && next == pos[t := pos[t] + 1]) || next == pos[t := |Keys(calls, t)| + 1])
  }

  ghost predicate Run(h: Hash, calls: Calls, states: seq<Positions>) {
    && |states| > 0
    && |states[0]| == |calls| && (forall t :: 0 <= t < |calls| ==> states[0][t] == 0)
    && forall i :: 0 <= i < |states| - 1 ==> Step(h, calls, states[i], states[i + 1])
  }

  ghost predicate AllFinished(calls: Calls, pos: Positions)
    requires Shaped(calls, pos)
  {
    forall t: nat :: t < |calls| ==> Finished(calls, pos, t)
  }

  ghost predicate MutualExclusion(h: Hash, calls: Calls, pos: Positions)
    requires Shaped(calls, pos)
  {
    forall t: nat, i: nat, u: nat, k: nat, lock :: HoldsAt(h, calls, pos, t, i, lock) && HoldsAt(h, calls, pos, u, k, lock) ==> t == u
  }

  lemma MutualExclusionAfterStep(h: Hash, calls: Calls, pos: Positions, next: Positions)
    requires Step(h, calls, pos, next) && MutualExclusion(h, calls, pos)
    ensures Shaped(calls, next) && MutualExclusion(h, calls, next)
  {
    var t: nat :| t < |calls| && !Finished(calls, pos, t) &&
      ((CanAdvance(h, calls, pos, t) && next == pos[t := pos[t] + 1]) || next == pos[t := |Keys(calls, t)| + 1]);
    forall a: nat, i: nat, b: nat, k: nat, lock | HoldsAt(h, calls, next, a, i, lock) && HoldsAt(h, calls, next, b, k, lock)
      ensures a == b
    {
      if a != t { assert HoldsAt(h, calls, pos, a, i, lock); }
      if b != t { assert HoldsAt(h, calls, pos, b, k, lock); }
      if a == t && i < pos[t] { assert HoldsAt(h, calls, pos, a, i, lock); }
      if b == t && k < pos[t] { assert HoldsAt(h, calls, pos, b, k, lock); }
    }
  }

  lemma {:induction false} RunKeepsMutualExclusion(h: Hash, calls: Calls, states: seq<Positions>, n: nat)
    requires Run(h, calls, states) && n < |states|
    ensures Shaped(calls, states[n]) && MutualExclusion(h, calls, states[n])
  {
    if n > 0 {
      RunKeepsMutualExclusion(h, calls, states, n - 1);
      MutualExclusionAfterStep(h, calls, states[n - 1], states[n]);
    }
  }

  // ---------------------------------------------------------------- deadlock

  /** Among the keys in use, those that share a lock have no other lock between them in key order. */
  ghost predicate Contiguous(h: Hash, used: iset<string>) {
    forall x, y, z :: x in used && y in used && z in used && Less(x, y) && Less(y, z) && h(x) == h(z) ==> h(y) == h(x)
  }

  /** It is enough that no two keys in use have the same hash, whatever other strings do. */
  lemma InjectiveIsContiguous(h: Hash, used: iset<string>)
    requires forall x, y :: x in used && y in used && h(x) == h(y) ==> x == y
    ensures Contiguous(h, used)
  {
    forall x, y, z | x in used && y in used && z in used && Less(x, y) && Less(y, z) ensures h(x) != h(z) {
      LessTransitive(x, y, z);
      LessAsymmetric(x, z);
    }
  }

  ghost predicate Within(calls: Calls, used: iset<string>) {
    forall t, k :: 0 <= t < |calls| && k in calls[t] ==> k in used
  }

  ghost predicate Waits(calls: Calls, pos: Positions, t: nat)
    requires Shaped(calls, pos)
  {
    t < |calls| && pos[t] < |Keys(calls, t)|
  }

  /** Among the first n transactions, one waits for a key no other waiting one is beyond. */
  lemma {:induction false} FurthestWaiting(calls: Calls, pos: Positions, n: nat) returns (t: nat)
    requires Shaped(calls, pos) && n <= |calls|
    requires exists u: nat :: u < n && Waits(calls, pos, u)
    ensures t < n && Waits(calls, pos, t)
    ensures forall u: nat :: u < n && Waits(calls, pos, u) ==> !Less(Keys(calls, t)[pos[t]], Keys(calls, u)[pos[u]])
  {
    if exists u: nat :: u < n - 1 && Waits(calls, pos, u) {
      t := FurthestWaiting(calls, pos, n - 1);
      if Waits(calls, pos, n - 1) {
        var a, b := Keys(calls, t)[pos[t]], Keys(calls, n - 1)[pos[n - 1]];
        if Less(a, b) {
          LessIrreflexive(b);
          forall u: nat | u < n - 1 && Waits(calls, pos, u) ensures !Less(b, Keys(calls, u)[pos[u]]) {
            if Less(b, Keys(calls, u)[pos[u]]) { LessTransitive(a, b, Keys(calls, u)[pos[u]]); }
          }
          t := n - 1;
        }
      }
    } else {
      t := n - 1;
      LessIrreflexive(Keys(calls, t)[pos[t]]);
    }
  }

  /** With such locks, some transaction can always advance: the one waiting furthest along is
      blocked only by one that waits between two keys of the same lock. */
  lemma SomeoneAdvances(h: Hash, used: iset<string>, calls: Calls, pos: Positions) returns (t: nat)
    requires Contiguous(h, used) && Within(calls, used)
    requires Shaped(calls, pos) && MutualExclusion(h, calls, pos) && !AllFinished(calls, pos)
    ensures CanAdvance(h, calls, pos, t)
  {
    if u: nat :| u < |calls| && pos[u] == |Keys(calls, u)| {
      return u;
    }
    var v: nat :| v < |calls| && !Finished(calls, pos, v);
    assert Waits(calls, pos, v);
    t := FurthestWaiting(calls, pos, |calls|);
    var z := Keys(calls, t)[pos[t]];
    if !CanAdvance(h, calls, pos, t) {
      var u: nat, i: nat :| u != t && HoldsAt(h, calls, pos, u, i, h(z));
      assert Waits(calls, pos, u);
      var x, y := Keys(calls, u)[i], Keys(calls, u)[pos[u]];
      assert Less(x, y) && x in calls[u] && y in calls[u] && z in calls[t];
      LessTotal(y, z);
      assert h(y) == h(z);
      assert forall w: nat, k: nat :: HoldsAt(h, calls, pos, w, k, h(y)) ==> w == u;
      t := u;
    }
  }

  /** Either everything is over or some transaction that is not can take its next lock or end well. */
  ghost predicate Live(h: Hash, calls: Calls, pos: Positions) {
    Shaped(calls, pos) &&
    (AllFinished(calls, pos) || exists t: nat :: t < |calls| && pos[t] <= |Keys(calls, t)| && CanAdvance(h, calls, pos, t))
  }

  /** No run of any transactions with these keys gets stuck. */
  ghost predicate NeverStuck(h: Hash, used: iset<string>) {
    forall calls: Calls, states: seq<Positions> :: Within(calls, used) && Run(h, calls, states) ==> Live(h, calls, states[|states| - 1])
  }

  lemma SortedPair(x: string, y: string)
    requires Less(x, y)
    ensures SortedDistinct([x, y]) == [x, y]
  {
    LessAsymmetric(x, y);
    assert [y] == [y] + [] && [x, y] == [x] + [y];
    assert SortedDistinct([y]) == Insert(SortedDistinct([]), y) == [y];
  }

  lemma FirstTakesItsFirst(h: Hash, calls: Calls)
    requires |calls| == 2 && |Keys(calls, 0)| == 2 && |Keys(calls, 1)| == 2
    ensures Step(h, calls, [0, 0], [1, 0])
  {
    var s: Positions := [0, 0];
    assert CanAdvance(h, calls, s, 0) && s[0 := s[0] + 1] == [1, 0];
  }

  lemma SecondTakesItsFirst(h: Hash, calls: Calls)
    requires |calls| == 2 && |Keys(calls, 0)| == 2 && |Keys(calls, 1)| == 2
    requires h(Keys(calls, 0)[0]) != h(Keys(calls, 1)[0])
    ensures Step(h, calls, [1, 0], [1, 1])
  {
    var s: Positions := [1, 0];
    assert forall i: nat :: HoldsAt(h, calls, s, 0, i, h(Keys(calls, 1)[0])) ==> i == 0;
    assert CanAdvance(h, calls, s, 1) && s[1 := s[1] + 1] == [1, 1];
  }

  lemma CrossingRun(h: Hash, calls: Calls)
    requires |calls| == 2 && |Keys(calls, 0)| == 2 && |Keys(calls, 1)| == 2
    requires h(Keys(calls, 0)[0]) != h(Keys(calls, 1)[0])
    ensures Run(h, calls, [[0, 0], [1, 0], [1, 1]])
  {
    FirstTakesItsFirst(h, calls);
    SecondTakesItsFirst(h, calls);
  }

  lemma CrossingIsStuck(h: Hash, calls: Calls)
    requires |calls| == 2 && |Keys(calls, 0)| == 2 && |Keys(calls, 1)| == 2
    requires h(Keys(calls, 0)[1]) == h(Keys(calls, 1)[0]) && h(Keys(calls, 1)[1]) == h(Keys(calls, 0)[0])
    ensures !Live(h, calls, [1, 1])
  {
    var s: Positions := [1, 1];
    assert Shaped(calls, s) && !Finished(calls, s, 0);
    assert HoldsAt(h, calls, s, 0, 0, h(Keys(calls, 1)[1])) && HoldsAt(h, calls, s, 1, 0, h(Keys(calls, 0)[1]));
  }

  /** Two transactions that lock x before y and y before z, where x and z share a lock. */
  lemma InterleavedHashDeadlocks(h: Hash, x: string, y: string, z: string)
    requires Less(x, y) && Less(y, z) && h(x) == h(z) && h(y) != h(x)
    ensures !NeverStuck(h, iset{x, y, z})
  {
    var calls := [[x, y], [y, z]];
    SortedPair(x, y);
    SortedPair(y, z);
    CrossingRun(h, calls);
    CrossingIsStuck(h, calls);
    var states: seq<Positions> := [[0, 0], [1, 0], [1, 1]];
    assert states[|states| - 1] == [1, 1];
  }

  lemma FewerKeys(h: Hash, few: iset<string>, many: iset<string>)
    requires few <= many && NeverStuck(h, many)
    ensures NeverStuck(h, few)
  {
    forall calls: Calls, states: seq<Positions> | Within(calls, few) && Run(h, calls, states)
      ensures Live(h, calls, states[|states| - 1])
    {
      assert Within(calls, many);
    }
  }

  /** Whatever keys are in use: sorted locking is deadlock free, for all transactions with such keys and
      every run, exactly when the hash keeps equal locks together in the order of these keys. */
  lemma NeverStuckIffContiguous(h: Hash, used: iset<string>)
    ensures NeverStuck(h, used) <==> Contiguous(h, used)
  {
    if Contiguous(h, used) {
      forall calls: Calls, states: seq<Positions> | Within(calls, used) && Run(h, calls, states)
        ensures Live(h, calls, states[|states| - 1])
      {
        RunKeepsMutualExclusion(h, calls, states, |states| - 1);
        if !AllFinished(calls, states[|states| - 1]) {
          var t := SomeoneAdvances(h, used, calls, states[|states| - 1]);
        }
      }
    } else {
      var x, y, z :| x in used && y in used && z in used && Less(x, y) && Less(y, z) && h(x) == h(z) && h(y) != h(x);
      InterleavedHashDeadlocks(h, x, y, z);
      if NeverStuck(h, used) { FewerKeys(h, iset{x, y, z}, used); }
    }
  }

  // ---------------------------------------------------------------- every run ends

  ghost function WorkLeft(calls: Calls, pos: Positions): nat
    requires Shaped(calls, pos)
  {
    if calls == [] then 0
    else
      var n := |calls| - 1;
      assert forall t: nat :: t < n ==> Keys(calls[..n], t) == Keys(calls, t);
      |Keys(calls, n)| + 1 - pos[n] + WorkLeft(calls[..n], pos[..n])
  }

  lemma {:induction false} LessWorkLeft(calls: Calls, pos: Positions, next: Positions, t: nat)
    requires Shaped(calls, pos) && Shaped(calls, next) && t < |calls|
    requires pos[t] < next[t] && forall u: nat :: u < |calls| && u != t ==> next[u] == pos[u]
    ensures WorkLeft(calls, next) < WorkLeft(calls, pos)
  {
    var n := |calls| - 1;
    assert forall u: nat :: u < n ==> Keys(calls[..n], u) == Keys(calls, u);
    if t == n {
      assert next[..n] == pos[..n];
    } else {
      LessWorkLeft(calls[..n], pos[..n], next[..n], t);
    }
  }

  /** No run takes more steps than there are locks to take and transactions to end, so that a run
      which cannot be continued has ended every transaction. */
  lemma {:induction false} RunsEnd(h: Hash, used: iset<string>, calls: Calls, states: seq<Positions>)
    requires Contiguous(h, used) && Within(calls, used) && Run(h, calls, states)
    ensures Shaped(calls, states[0]) && |states| - 1 <= WorkLeft(calls, states[0])
    ensures Live(h, calls, states[|states| - 1])
  {
    forall n: nat | n < |states| ensures Shaped(calls, states[n]) && MutualExclusion(h, calls, states[n]) {
      RunKeepsMutualExclusion(h, calls, states, n);
    }
    var last := states[|states| - 1];
    if !AllFinished(calls, last) {
      var t := SomeoneAdvances(h, used, calls, last);
    }
    StepsAreBounded(h, calls, states, |states| - 1);
  }

  lemma {:induction false} StepsAreBounded(h: Hash, calls: Calls, states: seq<Positions>, n: nat)
    requires Run(h, calls, states) && n < |states|
    requires forall k :: 0 <= k < |states| ==> Shaped(calls, states[k])
    ensures n + WorkLeft(calls, states[n]) <= WorkLeft(calls, states[0])
  {
    if n > 0 {
      StepsAreBounded(h, calls, states, n - 1);
      StepLeavesLessWork(h, calls, states[n - 1], states[n]);
    }
  }

  lemma StepLeavesLessWork(h: Hash, calls: Calls, pos: Positions, next: Positions)
    requires Step(h, calls, pos, next) && Shaped(calls, next)
    ensures WorkLeft(calls, next) < WorkLeft(calls, pos)
  {
    var t: nat :| t < |calls| && !Finished(calls, pos, t) &&
      ((CanAdvance(h, calls, pos, t) && next == pos[t := pos[t] + 1]) || next == pos[t := |Keys(calls, t)| + 1]);
    LessWorkLeft(calls, pos, next, t);
  }

  /** One transaction's side: the loop that takes its locks one after the other. */
  class LockSession {
    var taken: seq<string>

    constructor ()
      ensures taken == []
    {
      taken := [];
    }

    method AcquireDatabaseMutationLocks(lockKeys: seq<string>)
      modifies this
      ensures old(taken) <= taken && Ascending(taken[|old(taken)|..])
      ensures forall k :: k in taken[|old(taken)|..] <==> k in lockKeys
    {
      var keys := SortedDistinct(lockKeys);
      for i := 0 to |keys|
        invariant taken == old(taken) + keys[..i]
      {
        taken := taken + [keys[i]];
      }
      assert keys[..|keys|] == keys;
      assert taken[|old(taken)|..] == keys;
    }
  }
}
