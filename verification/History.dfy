/** A channel's messages, newest first, and the pages a client reads of them. */
module History {
  import opened Wrappers

  type MessageId = nat

  datatype Message = Message(id: MessageId, nonce: Option<string>)

  /** How a search through the pages for the carriers of a nonce stands. */
  datatype Status = Error | Multiple | Partial | Unique | ZeroComplete | ZeroPartial

  function StatusOf(complete: bool, matchCount: nat): Status {
    if !complete then (if matchCount == 0 then ZeroPartial else Partial)
    else if matchCount == 0 then ZeroComplete
    else if matchCount == 1 then Unique else Multiple
  }

  lemma StatusIs(complete: bool, matchCount: nat)
    ensures StatusOf(complete, matchCount) ==
            match (complete, matchCount)
            case (false, 0) => ZeroPartial
            case (false, _) => Partial
            case (true, 0) => ZeroComplete
            case (true, 1) => Unique
            case (true, _) => Multiple
  {
  }

  /** Newest first: identifiers strictly decrease. */
  ghost predicate Decreasing(h: seq<Message>) {
    forall i, k :: 0 <= i < k < |h| ==> h[k].id < h[i].id
  }

  /** Everything older than the cursor. */
  function Older(h: seq<Message>, before: Option<MessageId>): seq<Message> {
    if h == [] || before.None? || h[0].id < before.value then h else Older(h[1..], before)
  }

  function Page(h: seq<Message>, before: Option<MessageId>, limit: nat): seq<Message> {
    var older := Older(h, before);
    older[..Min(limit, |older|)]
  }

  /** The identifiers of the messages that carry the nonce, newest first. */
  function Carriers(messages: seq<Message>, nonce: string): seq<MessageId> {
    if messages == [] then []
    else (if messages[0].nonce == Some(nonce) then [messages[0].id] else []) + Carriers(messages[1..], nonce)
  }

  /** The first occurrence of every element, in order. */
  function Distinct(ids: seq<MessageId>): seq<MessageId> {
    if ids == [] then []
    else
      var rest := Distinct(ids[..|ids| - 1]);
      if ids[|ids| - 1] in rest then rest else rest + [ids[|ids| - 1]]
  }

  lemma {:induction false} OlderThan(h: seq<Message>, k: nat)
    requires Decreasing(h) && 0 < k <= |h|
    ensures Older(h, Some(h[k - 1].id)) == h[k..]
  {
    if k == 1 {
      if |h| > 1 { assert h[1..][0] == h[1]; }
    } else {
      OlderThan(h[1..], k - 1);
      assert h[1..][k - 1..] == h[k..];
    }
  }

  lemma {:induction false} CarriersOfConcat(a: seq<Message>, b: seq<Message>, nonce: string)
    ensures Carriers(a + b, nonce) == Carriers(a, nonce) + Carriers(b, nonce)
  {
    if a == [] {
      assert a + b == b;
    } else {
      var first := if a[0].nonce == Some(nonce) then [a[0].id] else [];
      assert Carriers(a + b, nonce) == first + Carriers(a[1..] + b, nonce) by { assert (a + b)[1..] == a[1..] + b; }
      assert Carriers(a, nonce) == first + Carriers(a[1..], nonce);
      CarriersOfConcat(a[1..], b, nonce);
    }
  }

  lemma {:induction false} CarriersAre(messages: seq<Message>, nonce: string, id: MessageId)
    ensures id in Carriers(messages, nonce) <==> exists m :: m in messages && m.id == id && m.nonce == Some(nonce)
  {
    if messages != [] {
      CarriersAre(messages[1..], nonce, id);
      assert messages == [messages[0]] + messages[1..];
    }
  }

  lemma TailDecreases(h: seq<Message>)
    requires Decreasing(h) && h != []
    ensures Decreasing(h[1..]) && h == [h[0]] + h[1..]
    ensures forall m :: m in h[1..] ==> m.id < h[0].id
  {
    assert forall i :: 0 <= i < |h[1..]| ==> h[1..][i] == h[i + 1];
  }

  lemma PutInFront(id: MessageId, rest: seq<MessageId>)
    requires (forall r :: r in rest ==> r < id) && forall i, k :: 0 <= i < k < |rest| ==> rest[k] < rest[i]
    ensures var all := [id] + rest; forall i, k :: 0 <= i < k < |all| ==> all[k] < all[i]
  {
    assert forall k :: 0 <= k < |rest| ==> rest[k] in rest;
  }

  lemma {:induction false} CarriersDecrease(h: seq<Message>, nonce: string)
    requires Decreasing(h)
    ensures forall i, k :: 0 <= i < k < |Carriers(h, nonce)| ==> Carriers(h, nonce)[k] < Carriers(h, nonce)[i]
  {
    if h != [] {
      TailDecreases(h);
      CarriersDecrease(h[1..], nonce);
      var rest := Carriers(h[1..], nonce);
      forall id | id in rest ensures id < h[0].id { CarriersAre(h[1..], nonce, id); }
      if h[0].nonce == Some(nonce) {
        assert Carriers(h, nonce) == [h[0].id] + rest;
        PutInFront(h[0].id, rest);
      } else {
        assert Carriers(h, nonce) == rest;
      }
    }
  }

  lemma {:induction false} DistinctOfDistinct(ids: seq<MessageId>)
    requires forall i, k :: 0 <= i < k < |ids| ==> ids[i] != ids[k]
    ensures Distinct(ids) == ids
  {
    if ids != [] {
      DistinctOfDistinct(ids[..|ids| - 1]);
      assert ids == ids[..|ids| - 1] + [ids[|ids| - 1]];
    }
  }

  lemma {:induction false} DistinctIsDistinct(ids: seq<MessageId>)
    ensures forall i, k :: 0 <= i < k < |Distinct(ids)| ==> Distinct(ids)[i] != Distinct(ids)[k]
  {
    if ids != [] {
      DistinctIsDistinct(ids[..|ids| - 1]);
      var rest := Distinct(ids[..|ids| - 1]);
      assert forall i :: 0 <= i < |rest| ==> rest[i] in rest;
    }
  }

  lemma {:induction false} DistinctKeepsMembers(ids: seq<MessageId>, id: MessageId)
    ensures id in Distinct(ids) <==> id in ids
  {
    if ids != [] {
      DistinctKeepsMembers(ids[..|ids| - 1], id);
      assert ids == ids[..|ids| - 1] + [ids[|ids| - 1]];
    }
  }
}
