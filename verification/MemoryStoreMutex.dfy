/** The in-memory reservation store and its first-come, first-served lock. A transaction is an
    asynchronous call: it asks for the lock, may have to wait, is granted the lock by the one before
    it, resumes some time later, reads, writes and hands the lock on. */
module MemoryStoreMutex {
  import opened Wrappers

  type Task = nat

  datatype Slot = Slot(date: string, period: string)

  datatype Request = Request(user: string, slot: Slot)

  datatype Reservation = Reservation(number: nat, user: string, slot: Slot)

  datatype Lock = Lock(locked: bool, queue: seq<Task>)

  /** Who may go on after the lock was asked for or handed back. */
  function AfterAcquire(l: Lock, t: Task): (Lock, Option<Task>) {
    if l.locked then (l.(queue := l.queue + [t]), None) else (l.(locked := true), Some(t))
  }

  function AfterRelease(l: Lock): (Lock, Option<Task>) {
    if l.queue != [] then (l.(queue := l.queue[1..]), Some(l.queue[0])) else (l.(locked := false), None)
  }

  function Count(reservations: seq<Reservation>, slot: Slot): nat {
    if reservations == [] then 0
    else Count(reservations[..|reservations| - 1], slot) + (if reservations[|reservations| - 1].slot == slot then 1 else 0)
  }

  predicate Booked(reservations: seq<Reservation>, r: Request) {
    exists i :: 0 <= i < |reservations| && reservations[i].user == r.user && reservations[i].slot == r.slot
  }

  /** What booking does with the list it sees: a place for the user, unless there is one already or
      the slot is full. */
  function Book(reservations: seq<Reservation>, r: Request, capacity: nat): seq<Reservation> {
    if Booked(reservations, r) || Count(reservations, r.slot) >= capacity then reservations
    else reservations + [Reservation(|reservations| + 1, r.user, r.slot)]
  }

  lemma {:induction false} CountCounts(reservations: seq<Reservation>, slot: Slot)
    ensures Count(reservations, slot) == |set i | 0 <= i < |reservations| && reservations[i].slot == slot|
  {
    var all := set i | 0 <= i < |reservations| && reservations[i].slot == slot;
    if reservations == [] {
      assert all == {};
    } else {
      var n := |reservations| - 1;
      var before := reservations[..n];
      CountCounts(before, slot);
      var fewer := set i | 0 <= i < |before| && before[i].slot == slot;
      assert all == fewer + (if reservations[n].slot == slot then {n} else {});
    }
  }

  /** A request gets a place exactly when its user has none in the slot and fewer than its capacity are
      taken; the place has the next number and comes last. */
  lemma BookingGives(reservations: seq<Reservation>, r: Request, capacity: nat)
    ensures var taken := set i | 0 <= i < |reservations| && reservations[i].slot == r.slot;
            Book(reservations, r, capacity) ==
            if |taken| < capacity && forall x :: x in reservations && x.slot == r.slot ==> x.user != r.user
            then reservations + [Reservation(|reservations| + 1, r.user, r.slot)] else reservations
  {
    CountCounts(reservations, r.slot);
    assert forall i :: 0 <= i < |reservations| ==> reservations[i] in reservations;
  }

  class MemoryReservationStore {
    var locked: bool
    var queue: seq<Task>
    var reservations: seq<Reservation>

    function State(): Lock
      reads this
    {
      Lock(locked, queue)
    }

    constructor ()
      ensures State() == Lock(false, []) && reservations == []
    {
      locked, queue, reservations := false, [], [];
    }

    method Acquire(t: Task) returns (granted: Option<Task>)
      modifies this`locked, this`queue
      ensures (State(), granted) == AfterAcquire(old(State()), t)
    {
      if !locked {
        locked := true;
        return Some(t);
      }
      queue := queue + [t];
      return None;
    }

    method Release() returns (granted: Option<Task>)
      modifies this`locked, this`queue
      ensures (State(), granted) == AfterRelease(old(State()))
    {
      if |queue| > 0 {
        granted := Some(queue[0]);
        queue := queue[1..];
        return;
      }
      locked := false;
      return None;
    }

    method CountConfirmedReservations(slot: Slot) returns (count: nat)
      ensures count == Count(reservations, slot)
    {
      count := 0;
      for i := 0 to |reservations|
        invariant count == Count(reservations[..i], slot)
      {
        assert reservations[..i + 1][..i] == reservations[..i];
        if reservations[i].slot == slot { count := count + 1; }
      }
      assert reservations[..|reservations|] == reservations;
    }

    method FindReservation(r: Request) returns (found: bool)
      ensures found <==> Booked(reservations, r)
    {
      for i := 0 to |reservations|
        invariant forall k :: 0 <= k < i ==> !(reservations[k].user == r.user && reservations[k].slot == r.slot)
      {
        if reservations[i].user == r.user && reservations[i].slot == r.slot { return true; }
      }
      return false;
    }

    method CreateReservation(r: Request)
      modifies this`reservations
      ensures reservations == old(reservations) + [Reservation(|old(reservations)| + 1, r.user, r.slot)]
    {
      reservations := reservations + [Reservation(|reservations| + 1, r.user, r.slot)];
    }

    /** A booking from its check to its insertion, when nothing comes in between. */
    method Reserve(r: Request, capacity: nat)
      modifies this`reservations
      ensures reservations == Book(old(reservations), r, capacity)
    {
      var found := FindReservation(r);
      if found { return; }
      var count := CountConfirmedReservations(r.slot);
      if count >= capacity { return; }
      CreateReservation(r);
    }
  }

  // ---------------------------------------------------------------- transactions interleaved

  /** A granted task still has to resume; a running one may have read the list. */
  datatype Phase = NotStarted | Waiting | Granted | Running(seen: Option<seq<Reservation>>) | Finished

  /** The logs say who asked, who was granted the lock and who wrote, in order. */
  datatype World = World(lock: Lock, phases: seq<Phase>, reservations: seq<Reservation>,
                         arrivals: seq<Task>, grants: seq<Task>, writes: seq<Task>)

  datatype Event = Arrive(task: Task) | Resume(task: Task) | Read(task: Task) | Write(task: Task) | Finish(task: Task)

  function WithGrant(w: World, granted: Option<Task>): World
    requires granted.Some? ==> granted.value < |w.phases|
  {
    if granted.None? then w
    else w.(phases := w.phases[granted.value := Granted], grants := w.grants + [granted.value])
  }

  predicate Possible(w: World, e: Event) {
    && e.task < |w.phases|
    && (e.Arrive? ==> w.phases[e.task] == NotStarted)
    && (e.Resume? ==> w.phases[e.task] == Granted)
    && (e.Read? ==> w.phases[e.task] == Running(None))
    && (e.Write? ==> w.phases[e.task].Running? && w.phases[e.task].seen.Some?)
    && (e.Finish? ==> w.phases[e.task].Running?)
    && (w.lock.queue != [] ==> w.lock.queue[0] < |w.phases|)
  }

  /** Between reading and writing a task lets others go on; it writes what follows from what it read. */
  function Next(w: World, e: Event, requests: seq<Request>, capacity: nat): (v: World)
    requires Possible(w, e) && |w.phases| == |requests|
    ensures |v.phases| == |requests|
  {
    match e
    case Arrive(t) =>
      var (lock, granted) := AfterAcquire(w.lock, t);
      WithGrant(w.(lock := lock, phases := w.phases[t := Waiting], arrivals := w.arrivals + [t]), granted)
    case Resume(t) => w.(phases := w.phases[t := Running(None)])
    case Read(t) => w.(phases := w.phases[t := Running(Some(w.reservations))])
    case Write(t) =>
      w.(phases := w.phases[t := Running(None)], reservations := Book(w.phases[t].seen.value, requests[t], capacity),
         writes := w.writes + [t])
    case Finish(t) =>
      var (lock, granted) := AfterRelease(w.lock);
      WithGrant(w.(lock := lock, phases := w.phases[t := Finished]), granted)
  }

  function Start(n: nat): World {
    World(Lock(false, []), seq(n, _ => NotStarted), [], [], [], [])
  }

  ghost predicate ValidRun(worlds: seq<World>, events: seq<Event>, requests: seq<Request>, capacity: nat) {
    && |worlds| == |events| + 1 && worlds[0] == Start(|requests|)
    && (forall i :: 0 <= i < |worlds| ==> |worlds[i].phases| == |requests|)
    && (forall i :: 0 <= i < |events| ==> Possible(worlds[i], events[i]))
    && (forall i :: 0 <= i < |events| ==> worlds[i + 1] == Next(worlds[i], events[i], requests, capacity))
  }

  /** From being granted the lock until it hands it on, a task holds it. */
  predicate Holds(p: Phase) { p.Granted? || p.Running? }

  /** The list that results when the bookings run one after the other, each from its check to its insertion. */
  function Serial(writes: seq<Task>, requests: seq<Request>, capacity: nat): seq<Reservation>
    requires forall i :: 0 <= i < |writes| ==> writes[i] < |requests|
  {
    if writes == [] then []
    else Book(Serial(writes[..|writes| - 1], requests, capacity), requests[writes[|writes| - 1]], capacity)
  }

  ghost predicate Inv(w: World, requests: seq<Request>, capacity: nat)
    requires |w.phases| == |requests|
  {
    InvLock(w) && InvQueue(w) && InvOrder(w) && InvSerial(w, requests, capacity)
  }

  ghost predicate InvSerial(w: World, requests: seq<Request>, capacity: nat)
    requires |w.phases| == |requests|
  {
    && (forall t :: 0 <= t < |w.phases| && w.phases[t].Running? && w.phases[t].seen.Some? ==> w.phases[t].seen.value == w.reservations)
    && (forall i :: 0 <= i < |w.writes| ==> w.writes[i] < |requests|)
    && w.reservations == Serial(w.writes, requests, capacity)
  }

  /** Exactly one task holds a locked lock, none an unlocked one, and only a locked one is waited for. */
  ghost predicate InvLock(w: World) {
    && (forall t, u :: 0 <= t < u < |w.phases| ==> !(Holds(w.phases[t]) && Holds(w.phases[u])))
    && (w.lock.locked <==> exists t :: 0 <= t < |w.phases| && Holds(w.phases[t]))
    && (w.lock.queue != [] ==> w.lock.locked)
  }

  /** The waiting tasks are exactly those in the queue, and the lock is granted in the order of arrival. */
  ghost predicate InvQueue(w: World) {
    && (forall i :: 0 <= i < |w.lock.queue| ==> w.lock.queue[i] < |w.phases| && w.phases[w.lock.queue[i]] == Waiting)
    && (forall t :: 0 <= t < |w.phases| && w.phases[t] == Waiting ==> t in w.lock.queue)
    && (forall i, k :: 0 <= i < k < |w.lock.queue| ==> w.lock.queue[i] != w.lock.queue[k])
    && w.arrivals == w.grants + w.lock.queue
  }

  lemma InvLockStep(w: World, e: Event, requests: seq<Request>, capacity: nat)
    requires |w.phases| == |requests| && Possible(w, e) && InvLock(w) && InvQueue(w)
    ensures InvLock(Next(w, e, requests, capacity))
  {
    var v := Next(w, e, requests, capacity);
    if e.Arrive? {
      if w.lock.locked {
        var h :| 0 <= h < |w.phases| && Holds(w.phases[h]);
        assert Holds(v.phases[h]);
      } else {
        assert Holds(v.phases[e.task]);
      }
    } else {
      assert Holds(w.phases[e.task]);
      if !e.Finish? {
        assert Holds(v.phases[e.task]);
      } else if w.lock.queue != [] {
        assert Holds(v.phases[w.lock.queue[0]]);
      }
    }
  }

  lemma InvQueueArrive(w: World, t: Task, requests: seq<Request>, capacity: nat)
    requires |w.phases| == |requests| && Possible(w, Arrive(t)) && InvLock(w) && InvQueue(w)
    ensures InvQueue(Next(w, Arrive(t), requests, capacity))
  {
    var v := Next(w, Arrive(t), requests, capacity);
    if w.lock.locked {
      assert v.lock.queue[|w.lock.queue|] == t;
      assert v.arrivals == w.grants + v.lock.queue;
    } else {
      assert v.lock.queue == [] && v.arrivals == v.grants;
    }
  }

  lemma TailMembers(queue: seq<Task>)
    requires queue != [] && forall i, k :: 0 <= i < k < |queue| ==> queue[i] != queue[k]
    ensures queue == [queue[0]] + queue[1..]
    ensures forall u :: u in queue[1..] <==> u in queue && u != queue[0]
  {
    assert forall i :: 0 <= i < |queue| - 1 ==> queue[1..][i] == queue[i + 1];
    forall u ensures u in queue[1..] <==> u in queue && u != queue[0] {
      if u in queue && u != queue[0] {
        var i :| 0 <= i < |queue| && queue[i] == u;
        assert queue[1..][i - 1] == u;
      }
    }
  }

  lemma HandedOn(w: World, t: Task)
    requires InvQueue(w) && t < |w.phases| && w.phases[t].Running? && w.lock.queue != []
    ensures var queue := w.lock.queue;
            var phases := w.phases[t := Finished][queue[0] := Granted];
            && w.arrivals == w.grants + [queue[0]] + queue[1..]
            && (forall u :: 0 <= u < |phases| ==> (phases[u] == Waiting <==> u in queue[1..]))
  {
    var queue := w.lock.queue;
    TailMembers(queue);
    forall u | 0 <= u < |w.phases| ensures w.phases[u] == Waiting <==> u in queue {
      if u in queue { var i :| 0 <= i < |queue| && queue[i] == u; }
    }
  }

  lemma InvQueueFinish(w: World, t: Task, requests: seq<Request>, capacity: nat)
    requires |w.phases| == |requests| && Possible(w, Finish(t)) && InvLock(w) && InvQueue(w)
    ensures InvQueue(Next(w, Finish(t), requests, capacity))
  {
    if w.lock.queue != [] {
      HandedOn(w, t);
      assert forall i :: 0 <= i < |w.lock.queue| - 1 ==> w.lock.queue[1..][i] == w.lock.queue[i + 1];
      assert forall i :: 0 <= i < |w.lock.queue| - 1 ==> w.lock.queue[1..][i] in w.lock.queue[1..];
    }
  }

  lemma InvQueueStep(w: World, e: Event, requests: seq<Request>, capacity: nat)
    requires |w.phases| == |requests| && Possible(w, e) && InvLock(w) && InvQueue(w)
    ensures InvQueue(Next(w, e, requests, capacity))
  {
    if e.Arrive? {
      InvQueueArrive(w, e.task, requests, capacity);
    } else if e.Finish? {
      InvQueueFinish(w, e.task, requests, capacity);
    }
  }

  /** Tasks arrive once, the holder is the last one granted, and the writes follow the grants. */
  ghost predicate InvOrder(w: World) {
    && (forall i, k :: 0 <= i < k < |w.arrivals| ==> w.arrivals[i] != w.arrivals[k])
    && (forall i :: 0 <= i < |w.arrivals| ==> w.arrivals[i] < |w.phases| && w.phases[w.arrivals[i]] != NotStarted)
    && (forall t :: 0 <= t < |w.phases| && Holds(w.phases[t]) ==> w.grants != [] && w.grants[|w.grants| - 1] == t)
    && (forall i :: 0 <= i < |w.writes| ==> w.writes[i] in w.grants)
    && InOrder(w.writes, w.grants)
  }

  ghost predicate InOrder(writes: seq<Task>, grants: seq<Task>) {
    forall i, k, a, b ::
      (0 <= i < k < |writes| && 0 <= a < |grants| && 0 <= b < |grants| && grants[a] == writes[i] && grants[b] == writes[k])
      ==> a <= b
  }

  lemma InOrderGrant(writes: seq<Task>, grants: seq<Task>, t: Task)
    requires InOrder(writes, grants) && t !in grants && forall i :: 0 <= i < |writes| ==> writes[i] in grants
    ensures InOrder(writes, grants + [t])
  {
    assert forall i :: 0 <= i < |writes| ==> writes[i] != t;
  }

  lemma InvOrderGrant(w: World, v: World, t: Task)
    requires InvOrder(w) && InvQueue(w) && InvQueue(v) && v.writes == w.writes && v.grants == w.grants + [t]
    requires |v.phases| == |w.phases| && t < |w.phases|
    requires v.arrivals == w.arrivals || (v.arrivals == w.arrivals + [t] && w.phases[t] == NotStarted)
    requires forall u :: 0 <= u < |w.phases| ==> (Holds(v.phases[u]) <==> u == t)
    requires forall u :: 0 <= u < |w.phases| ==> (v.phases[u] != NotStarted <==> w.phases[u] != NotStarted || u == t)
    ensures InvOrder(v)
  {
    assert v.arrivals[|w.grants|] == t;
    forall i | 0 <= i < |w.grants| ensures w.grants[i] != t { assert v.arrivals[i] == w.grants[i]; }
    InOrderGrant(w.writes, w.grants, t);
  }

  lemma InvOrderWrite(w: World, t: Task)
    requires InvQueue(w) && InvOrder(w) && t < |w.phases| && Holds(w.phases[t])
    ensures t in w.grants && InOrder(w.writes + [t], w.grants)
  {
    var last := |w.grants| - 1;
    assert w.grants[last] == t;
    forall b | 0 <= b < |w.grants| && w.grants[b] == t ensures b == last {
      assert w.arrivals[b] == t && w.arrivals[last] == t;
    }
  }

  lemma InvOrderArrive(w: World, t: Task, requests: seq<Request>, capacity: nat)
    requires |w.phases| == |requests| && Possible(w, Arrive(t)) && InvLock(w) && InvQueue(w) && InvOrder(w)
    ensures InvOrder(Next(w, Arrive(t), requests, capacity))
  {
    InvQueueArrive(w, t, requests, capacity);
    if !w.lock.locked { InvOrderGrant(w, Next(w, Arrive(t), requests, capacity), t); }
  }

  lemma InvOrderFinish(w: World, t: Task, requests: seq<Request>, capacity: nat)
    requires |w.phases| == |requests| && Possible(w, Finish(t)) && InvLock(w) && InvQueue(w) && InvOrder(w)
    ensures InvOrder(Next(w, Finish(t), requests, capacity))
  {
    assert Holds(w.phases[t]);
    InvQueueFinish(w, t, requests, capacity);
    if w.lock.queue != [] { InvOrderGrant(w, Next(w, Finish(t), requests, capacity), w.lock.queue[0]); }
  }

  lemma InvOrderStep(w: World, e: Event, requests: seq<Request>, capacity: nat)
    requires |w.phases| == |requests| && Possible(w, e) && InvLock(w) && InvQueue(w) && InvOrder(w)
    ensures InvOrder(Next(w, e, requests, capacity))
  {
    if e.Arrive? {
      InvOrderArrive(w, e.task, requests, capacity);
    } else if e.Finish? {
      InvOrderFinish(w, e.task, requests, capacity);
    } else {
      assert Holds(w.phases[e.task]);
      InvOrderWrite(w, e.task);
    }
  }

  lemma SerialAfterWrite(w: World, t: Task, requests: seq<Request>, capacity: nat)
    requires |w.phases| == |requests| && Possible(w, Write(t)) && InvLock(w) && InvSerial(w, requests, capacity)
    ensures InvSerial(Next(w, Write(t), requests, capacity), requests, capacity)
  {
    var v := Next(w, Write(t), requests, capacity);
    assert v.writes[..|w.writes|] == w.writes;
    assert Holds(w.phases[t]);
    assert forall u :: 0 <= u < |w.phases| && u != t ==> !Holds(w.phases[u]);
  }

  lemma OnlyWritesChangeTheList(w: World, e: Event, requests: seq<Request>, capacity: nat)
    requires |w.phases| == |requests| && Possible(w, e) && !e.Write?
    ensures var v := Next(w, e, requests, capacity);
            && v.reservations == w.reservations && v.writes == w.writes
            && forall u :: 0 <= u < |v.phases| && v.phases[u].Running? && v.phases[u].seen.Some? ==>
                 v.phases[u] == w.phases[u] || v.phases[u].seen == Some(w.reservations)
  {
  }

  lemma InvSerialStep(w: World, e: Event, requests: seq<Request>, capacity: nat)
    requires |w.phases| == |requests| && Possible(w, e) && InvLock(w) && InvSerial(w, requests, capacity)
    ensures InvSerial(Next(w, e, requests, capacity), requests, capacity)
  {
    if e.Write? {
      SerialAfterWrite(w, e.task, requests, capacity);
    } else {
      OnlyWritesChangeTheList(w, e, requests, capacity);
    }
  }

  lemma InvStep(w: World, e: Event, requests: seq<Request>, capacity: nat)
    requires |w.phases| == |requests| && Possible(w, e) && Inv(w, requests, capacity)
    ensures Inv(Next(w, e, requests, capacity), requests, capacity)
  {
    InvLockStep(w, e, requests, capacity);
    InvQueueStep(w, e, requests, capacity);
    InvOrderStep(w, e, requests, capacity);
    InvSerialStep(w, e, requests, capacity);
  }

  lemma LockAtTheStart(w: World)
    requires w.lock == Lock(false, []) && forall t :: 0 <= t < |w.phases| ==> w.phases[t] == NotStarted
    ensures InvLock(w)
  {
  }

  lemma QueueAtTheStart(w: World)
    requires w.lock == Lock(false, []) && w.arrivals == [] && w.grants == []
    requires forall t :: 0 <= t < |w.phases| ==> w.phases[t] == NotStarted
    ensures InvQueue(w)
  {
  }

  lemma OrderAtTheStart(w: World)
    requires w == World(Lock(false, []), w.phases, [], [], [], [])
    requires forall t :: 0 <= t < |w.phases| ==> w.phases[t] == NotStarted
    ensures InvOrder(w)
  {
  }

  lemma InvAtTheStart(w: World, requests: seq<Request>, capacity: nat)
    requires |w.phases| == |requests| && w == World(Lock(false, []), w.phases, [], [], [], [])
    requires forall t :: 0 <= t < |w.phases| ==> w.phases[t] == NotStarted
    ensures Inv(w, requests, capacity)
  {
    LockAtTheStart(w);
    QueueAtTheStart(w);
    OrderAtTheStart(w);
  }

  lemma {:induction false} InvAlways(worlds: seq<World>, events: seq<Event>, requests: seq<Request>, capacity: nat, i: nat)
    requires ValidRun(worlds, events, requests, capacity) && i < |worlds|
    ensures Inv(worlds[i], requests, capacity)
  {
    if i == 0 {
      InvAtTheStart(worlds[0], requests, capacity);
    } else {
      InvAlways(worlds, events, requests, capacity, i - 1);
      assert Possible(worlds[i - 1], events[i - 1]);
      InvStep(worlds[i - 1], events[i - 1], requests, capacity);
      assert worlds[i - 1 + 1] == Next(worlds[i - 1], events[i - 1], requests, capacity);
    }
  }

  /** Whenever a transaction has not finished, some transaction can go on. */
  lemma NeverStuck(worlds: seq<World>, events: seq<Event>, requests: seq<Request>, capacity: nat, i: nat, t: Task)
    requires ValidRun(worlds, events, requests, capacity) && i < |worlds|
    requires t < |requests| && worlds[i].phases[t] != Finished
    ensures exists e :: Possible(worlds[i], e)
  {
    InvAlways(worlds, events, requests, capacity, i);
    var w := worlds[i];
    if w.phases[t] == NotStarted {
      assert Possible(w, Arrive(t));
    } else {
      if w.phases[t] == Waiting { assert t in w.lock.queue; }
      var h: nat :| h < |w.phases| && Holds(w.phases[h]);
      if w.phases[h].Granted? { assert Possible(w, Resume(h)); } else { assert Possible(w, Finish(h)); }
    }
  }

  /** When all have finished, the lock is free, nobody waits, and everybody was served in the order of arrival. */
  lemma AllFinishedMeansFree(worlds: seq<World>, events: seq<Event>, requests: seq<Request>, capacity: nat, i: nat)
    requires ValidRun(worlds, events, requests, capacity) && i < |worlds|
    requires forall t :: 0 <= t < |requests| ==> worlds[i].phases[t] == Finished
    ensures worlds[i].lock == Lock(false, []) && worlds[i].grants == worlds[i].arrivals
  {
    InvAlways(worlds, events, requests, capacity, i);
  }

  // ---------------------------------------------------------------- what the lock is for

  ghost predicate WithinCapacity(reservations: seq<Reservation>, capacity: nat) {
    && (forall slot :: Count(reservations, slot) <= capacity)
    && (forall i, k :: 0 <= i < k < |reservations| ==>
          reservations[i].number != reservations[k].number
          && !(reservations[i].user == reservations[k].user && reservations[i].slot == reservations[k].slot))
    && (forall i :: 0 <= i < |reservations| ==> reservations[i].number == i + 1)
  }

  lemma {:induction false} SerialStaysWithinCapacity(writes: seq<Task>, requests: seq<Request>, capacity: nat)
    requires forall i :: 0 <= i < |writes| ==> writes[i] < |requests|
    ensures WithinCapacity(Serial(writes, requests, capacity), capacity)
  {
    if writes != [] {
      SerialStaysWithinCapacity(writes[..|writes| - 1], requests, capacity);
      var before := Serial(writes[..|writes| - 1], requests, capacity);
      var r := requests[writes[|writes| - 1]];
      var after := Book(before, r, capacity);
      if after != before {
        assert after[..|before|] == before;
        forall slot ensures Count(after, slot) <= capacity { assert Count(before, slot) <= capacity; }
      }
    }
  }

  /** However the transactions interleave: the list is the one that results when they run one after
      the other in the order in which they were granted the lock, so no slot is overbooked, nobody is booked twice
      and no number is used twice. */
  lemma InterleavingsAreSerial(worlds: seq<World>, events: seq<Event>, requests: seq<Request>, capacity: nat, i: nat)
    requires ValidRun(worlds, events, requests, capacity) && i < |worlds|
    ensures forall k :: 0 <= k < |worlds[i].writes| ==> worlds[i].writes[k] < |requests|
    ensures worlds[i].reservations == Serial(worlds[i].writes, requests, capacity)
    ensures InOrder(worlds[i].writes, worlds[i].grants) && worlds[i].grants <= worlds[i].arrivals
    ensures WithinCapacity(worlds[i].reservations, capacity)
  {
    InvAlways(worlds, events, requests, capacity, i);
    SerialStaysWithinCapacity(worlds[i].writes, requests, capacity);
  }
}
