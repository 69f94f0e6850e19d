/**
 * The event store's update rule (`addEvent`): look the identifier up with a
 * linear search; overwrite the event found at that position, or append the
 * event when the identifier is new.
 */
module EventStore {
  import opened Events

  /** The collection after adding `e`, defined element by element from the front. */
  function Upsert(s: seq<Event>, e: Event): (r: seq<Event>)
    ensures |r| == if HasId(s, e.id) then |s| else |s| + 1
    ensures e in r
  {
    if s == [] then [e]
    else if s[0].id == e.id then [e] + s[1..]
    else [s[0]] + Upsert(s[1..], e)
  }

  /** `findIndex` on `id`: the first position holding that identifier, or -1. */
  method FindIndex(s: seq<Event>, id: string) returns (k: int)
    ensures k == -1 <==> !HasId(s, id)
    ensures k != -1 ==> IsFirstIndex(s, id, k)
  {
    k := 0;
    while k < |s|
      invariant 0 <= k <= |s|
      invariant forall j :: 0 <= j < k ==> s[j].id != id
    {
      if s[k].id == id {
        return;
      }
      k := k + 1;
    }
    k := -1;
  }

  /** A new identifier is appended: one more element, the new one last, the rest untouched. */
  lemma {:induction false} UpsertAbsent(s: seq<Event>, e: Event)
    requires !HasId(s, e.id)
    ensures Upsert(s, e) == s + [e]
  {
    if s != [] {
      assert s[0].id != e.id;
      assert !HasId(s[1..], e.id) by {
        forall i | 0 <= i < |s[1..]| ensures s[1..][i].id != e.id {
          assert s[1..][i] == s[i + 1];
        }
      }
      UpsertAbsent(s[1..], e);
      assert s == [s[0]] + s[1..];
    }
  }

  /** A known identifier is overwritten where `findIndex` finds it; every other position is untouched. */
  lemma {:induction false} UpsertPresent(s: seq<Event>, e: Event, k: int)
    requires IsFirstIndex(s, e.id, k)
    ensures Upsert(s, e) == s[k := e]
  {
    if k > 0 {
      assert s[0].id != e.id;
      assert IsFirstIndex(s[1..], e.id, k - 1);
      UpsertPresent(s[1..], e, k - 1);
      assert s[k := e] == [s[0]] + s[1..][k - 1 := e];
    }
  }

  /** Adding keeps identifiers unique, and the added event is then the only one with its identifier. */
  lemma {:induction false} UpsertKeepsUnique(s: seq<Event>, e: Event)
    requires UniqueIds(s)
    ensures UniqueIds(Upsert(s, e))
    ensures forall i :: 0 <= i < |Upsert(s, e)| && Upsert(s, e)[i].id == e.id ==> Upsert(s, e)[i] == e
  {
    if HasId(s, e.id) {
      var k :| 0 <= k < |s| && s[k].id == e.id;
      assert IsFirstIndex(s, e.id, k);
      UpsertPresent(s, e, k);
    } else {
      UpsertAbsent(s, e);
    }
  }

  /** Adding `e` and then `e2` with the same identifier is the same as adding `e2` alone. */
  lemma {:induction false} UpsertTwice(s: seq<Event>, e: Event, e2: Event)
    requires e2.id == e.id
    ensures Upsert(Upsert(s, e), e2) == Upsert(s, e2)
  {
    if s != [] && s[0].id != e.id {
      UpsertTwice(s[1..], e, e2);
    }
  }

  /** Adding the same event twice changes nothing the second time. */
  lemma UpsertIdempotent(s: seq<Event>, e: Event)
    ensures Upsert(Upsert(s, e), e) == Upsert(s, e)
  {
    UpsertTwice(s, e, e);
  }

  /** Adding never loses an event that has another identifier. */
  lemma {:induction false} UpsertKeepsOthers(s: seq<Event>, e: Event, x: Event)
    requires x in s && x.id != e.id
    ensures x in Upsert(s, e)
  {
    if s[0] != x {
      UpsertKeepsOthers(s[1..], e, x);
    }
  }
}
