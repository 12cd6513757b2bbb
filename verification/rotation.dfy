/** What happens to the items a page shows: `updateRandom` builds one
    `Random` record per item (a fresh sort key and the view counter plus
    one) and the store applies them, and `rand.Shuffle` permutes the page.
    The random numbers are inputs here. */
module Rotation {
  import opened Types

  /** `rand.Intn(1000)` draws from `[0, RandomBound)`. */
  const RandomBound: int := 1000

  /** The record `updateRandom` sends for one item (Random). */
  datatype RandomRecord = RandomRecord(uid: string, random: int, viewCount: int64)

  /** Every draw is a value `rand.Intn(1000)` can return. */
  predicate ValidRandoms(randoms: seq<int>)
  {
    forall i :: 0 <= i < |randoms| ==> 0 <= randoms[i] < RandomBound
  }

  /** `updateRandom`'s record list: `randoms[i]` is the draw made for
      `items[i]`. Go's `int` is 64 bits, so the view counter wraps. */
  function UpdateRandom(items: seq<Item>, randoms: seq<int>): (r: seq<RandomRecord>)
    requires |randoms| == |items| && ValidRandoms(randoms)
    ensures |r| == |items|
    ensures forall i :: 0 <= i < |r| ==> r[i].uid == items[i].uid
    ensures forall i :: 0 <= i < |r| ==> 0 <= r[i].random < RandomBound && r[i].random == randoms[i]
    ensures forall i :: 0 <= i < |r| ==> r[i].viewCount == Inc64(items[i].viewCount)
    decreases |items|
  {
    if |items| == 0 then []
    else
      [RandomRecord(items[0].uid, randoms[0], Inc64(items[0].viewCount))]
        + UpdateRandom(items[1..], randoms[1..])
  }

  /** The append loop of `updateRandom`. */
  method BuildUpdate(items: seq<Item>, randoms: seq<int>) returns (update: seq<RandomRecord>)
    requires |randoms| == |items| && ValidRandoms(randoms)
    ensures update == UpdateRandom(items, randoms)
  {
    update := [];
    for i := 0 to |items|
      invariant |update| == i
      invariant forall k :: 0 <= k < i ==> update[k] == RandomRecord(items[k].uid, randoms[k], Inc64(items[k].viewCount))
    {
      update := update + [RandomRecord(items[i].uid, randoms[i], Inc64(items[i].viewCount))];
    }
    RecordsDetermined(items, randoms, update);
  }

  /** The records are fixed by the items and the draws. */
  lemma RecordsDetermined(items: seq<Item>, randoms: seq<int>, recs: seq<RandomRecord>)
    requires |randoms| == |items| && ValidRandoms(randoms)
    requires |recs| == |items|
    requires forall k :: 0 <= k < |recs| ==> recs[k] == RandomRecord(items[k].uid, randoms[k], Inc64(items[k].viewCount))
    ensures recs == UpdateRandom(items, randoms)
  {
  }

  // ---------------------------------------------------------------------
  // The store side of the mutation.

  /** The two predicates `updateRandom` sets on a content node. */
  datatype Node = Node(random: int, viewCount: int64)

  /** Content nodes by uid, as far as `random` and `view_count` go. */
  type Store = map<string, Node>

  /** The nodes a record list touches. */
  function RecordUids(recs: seq<RandomRecord>): set<string>
  {
    set k | 0 <= k < |recs| :: recs[k].uid
  }

  lemma RecordUidsCons(recs: seq<RandomRecord>)
    requires |recs| > 0
    ensures RecordUids(recs) == {recs[0].uid} + RecordUids(recs[1..])
  {
    forall x | x in RecordUids(recs) ensures x in {recs[0].uid} + RecordUids(recs[1..]) {
      var k :| 0 <= k < |recs| && recs[k].uid == x;
      if k > 0 {
        assert recs[1..][k - 1].uid == x;
      }
    }
    forall x | x in RecordUids(recs[1..]) ensures x in RecordUids(recs) {
      var k :| 0 <= k < |recs[1..]| && recs[1..][k].uid == x;
      assert recs[k + 1].uid == x;
    }
  }

  /** A JSON set mutation: each record overwrites its node's two values,
      creating the entry when the uid is new. */
  function ApplyRecords(store: Store, recs: seq<RandomRecord>): (r: Store)
    ensures r.Keys == store.Keys + RecordUids(recs)
    decreases |recs|
  {
    if |recs| == 0 then store
    else
      RecordUidsCons(recs);
      ApplyRecords(store[recs[0].uid := Node(recs[0].random, recs[0].viewCount)], recs[1..])
  }

  /** No two records name the same node. */
  predicate DistinctRecords(recs: seq<RandomRecord>)
  {
    forall i, j :: 0 <= i < j < |recs| ==> recs[i].uid != recs[j].uid
  }

  /** Applying records for distinct nodes sets each of them to its record
      and leaves every other node as it was. */
  lemma {:induction false} ApplyRecordsEffect(store: Store, recs: seq<RandomRecord>)
    requires DistinctRecords(recs)
    ensures forall i :: 0 <= i < |recs| ==>
      ApplyRecords(store, recs)[recs[i].uid] == Node(recs[i].random, recs[i].viewCount)
    ensures forall x :: x in store && (forall i :: 0 <= i < |recs| ==> recs[i].uid != x) ==>
      ApplyRecords(store, recs)[x] == store[x]
    decreases |recs|
  {
    if |recs| > 0 {
      var next := store[recs[0].uid := Node(recs[0].random, recs[0].viewCount)];
      var tail := recs[1..];
      ApplyRecordsEffect(next, tail);
      assert forall i :: 0 <= i < |tail| ==> tail[i] == recs[i + 1];
      assert forall i :: 0 <= i < |tail| ==> tail[i].uid != recs[0].uid;
    }
  }

  /** After `updateRandom` over a duplicate-free page, every shown item has
      its draw as sort key and one more than the `view_count` the query
      returned as its counter, and no other node changed. */
  lemma UpdateRandomEffect(store: Store, items: seq<Item>, randoms: seq<int>)
    requires |randoms| == |items| && ValidRandoms(randoms)
    requires DistinctUids(items)
    ensures var s := ApplyRecords(store, UpdateRandom(items, randoms));
      && (forall i :: 0 <= i < |items| ==>
            items[i].uid in s && s[items[i].uid] == Node(randoms[i], Inc64(items[i].viewCount)))
      && (forall x :: x in store && !HasUid(items, x) ==> x in s && s[x] == store[x])
  {
    var recs := UpdateRandom(items, randoms);
    ApplyRecordsEffect(store, recs);
    var s := ApplyRecords(store, recs);
    forall i | 0 <= i < |items| ensures items[i].uid in s {
      assert recs[i].uid in RecordUids(recs);
    }
  }

  /** The selection queries do not fetch `view_count`, so every item
      arrives with 0. `updateRandom` then sets each node's counter to 1,
      whatever the store held before: the counter is reset, not
      incremented. */
  lemma UnfetchedCountsReset(store: Store, items: seq<Item>, randoms: seq<int>)
    requires |randoms| == |items| && ValidRandoms(randoms)
    requires DistinctUids(items)
    requires forall i :: 0 <= i < |items| ==> items[i].viewCount == 0
    ensures var s := ApplyRecords(store, UpdateRandom(items, randoms));
      forall i :: 0 <= i < |items| ==> items[i].uid in s && s[items[i].uid].viewCount == 1
  {
    UpdateRandomEffect(store, items, randoms);
  }

  /** Had the items carried the stored `view_count`, the same write would
      have counted one more view for each of them. */
  lemma FetchedCountsIncrement(store: Store, items: seq<Item>, randoms: seq<int>)
    requires |randoms| == |items| && ValidRandoms(randoms)
    requires DistinctUids(items)
    requires forall i :: 0 <= i < |items| ==> items[i].uid in store && items[i].viewCount == store[items[i].uid].viewCount
    ensures var s := ApplyRecords(store, UpdateRandom(items, randoms));
      forall i :: 0 <= i < |items| ==> s[items[i].uid].viewCount == Inc64(store[items[i].uid].viewCount)
  {
    UpdateRandomEffect(store, items, randoms);
  }

  // ---------------------------------------------------------------------
  // rand.Shuffle

  /** The `swap` callback both pages pass to `rand.Shuffle`. */
  function Swap(s: seq<Item>, i: nat, j: nat): (r: seq<Item>)
    requires i < |s| && j < |s|
    ensures |r| == |s|
    ensures r[i] == s[j] && r[j] == s[i]
    ensures forall k :: 0 <= k < |s| && k != i && k != j ==> r[k] == s[k]
  {
    s[i := s[j]][j := s[i]]
  }

  lemma SwapPermutes(s: seq<Item>, i: nat, j: nat)
    requires i < |s| && j < |s|
    ensures multiset(Swap(s, i, j)) == multiset(s)
    ensures DistinctUids(s) ==> DistinctUids(Swap(s, i, j))
  {
    var r := Swap(s, i, j);
    if DistinctUids(s) {
      forall a, b | 0 <= a < b < |r| ensures r[a].uid != r[b].uid {
        var a' := if a == i then j else if a == j then i else a;
        var b' := if b == i then j else if b == j then i else b;
        assert r[a] == s[a'] && r[b] == s[b'];
      }
    }
  }

  /** The draws `rand.Shuffle` makes: for position `i` an index in `[0, i]`. */
  predicate ValidDraws(draws: seq<int>)
  {
    forall i :: 0 <= i < |draws| ==> 0 <= draws[i] <= i
  }

  /** Go's `rand.Shuffle(n, swap)`: for `i` from `n - 1` down to 1, swap
      position `i` with the drawn position `draws[i]`. Positions `i` and up
      are already settled. */
  function ShuffleFrom(s: seq<Item>, draws: seq<int>, i: nat): (r: seq<Item>)
    requires |s| <= |draws| && ValidDraws(draws) && i < |s|
    ensures |r| == |s|
    decreases i
  {
    if i == 0 then s
    else ShuffleFrom(Swap(s, i, draws[i]), draws, i - 1)
  }

  function Shuffle(s: seq<Item>, draws: seq<int>): (r: seq<Item>)
    requires |s| <= |draws| && ValidDraws(draws)
    ensures |r| == |s|
    ensures multiset(r) == multiset(s)
  {
    if |s| == 0 then s
    else
      ShuffleFromPermutes(s, draws, |s| - 1);
      ShuffleFrom(s, draws, |s| - 1)
  }

  /** The shuffle only permutes: the same items, the same number of times,
      and still no repeated uid. */
  lemma {:induction false} ShuffleFromPermutes(s: seq<Item>, draws: seq<int>, i: nat)
    requires |s| <= |draws| && ValidDraws(draws) && i < |s|
    ensures multiset(ShuffleFrom(s, draws, i)) == multiset(s)
    decreases i
  {
    if i > 0 {
      var t := Swap(s, i, draws[i]);
      SwapPermutes(s, i, draws[i]);
      ShuffleFromPermutes(t, draws, i - 1);
      calc {
        multiset(ShuffleFrom(s, draws, i));
        multiset(ShuffleFrom(t, draws, i - 1));
        multiset(t);
        multiset(s);
      }
    }
  }

  lemma {:induction false} ShuffleFromDistinct(s: seq<Item>, draws: seq<int>, i: nat)
    requires |s| <= |draws| && ValidDraws(draws) && i < |s|
    requires DistinctUids(s)
    ensures DistinctUids(ShuffleFrom(s, draws, i))
    decreases i
  {
    if i > 0 {
      var t := Swap(s, i, draws[i]);
      assert ShuffleFrom(s, draws, i) == ShuffleFrom(t, draws, i - 1);
      SwapPermutes(s, i, draws[i]);
      ShuffleFromDistinct(t, draws, i - 1);
    }
  }

  lemma ShufflePermutes(s: seq<Item>, draws: seq<int>)
    requires |s| <= |draws| && ValidDraws(draws)
    ensures multiset(Shuffle(s, draws)) == multiset(s)
    ensures DistinctUids(s) ==> DistinctUids(Shuffle(s, draws))
  {
    if |s| > 0 {
      ShuffleFromPermutes(s, draws, |s| - 1);
      if DistinctUids(s) {
        ShuffleFromDistinct(s, draws, |s| - 1);
      }
    }
  }

  /** A uid is on the shuffled page exactly when it was on the page. */
  lemma ShuffleKeepsUids(s: seq<Item>, draws: seq<int>, x: string)
    requires |s| <= |draws| && ValidDraws(draws)
    ensures HasUid(Shuffle(s, draws), x) <==> HasUid(s, x)
  {
    ShufflePermutes(s, draws);
    var r := Shuffle(s, draws);
    if HasUid(s, x) {
      var i :| 0 <= i < |s| && s[i].uid == x;
      assert s[i] in multiset(r);
      var j :| 0 <= j < |r| && r[j] == s[i];
    }
    if HasUid(r, x) {
      var i :| 0 <= i < |r| && r[i].uid == x;
      assert r[i] in multiset(s);
      var j :| 0 <= j < |s| && s[j] == r[i];
    }
  }
}
