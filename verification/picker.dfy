/** The duplicate-skipping quota picker (`hasContent` / `pickContent`).

    `pickContent` computes its room `num = wanted - len(existing)` once and
    then walks only the first `num` candidates. A candidate that is the
    focal item or is already in the accumulator is skipped, but its index
    still uses up one of the `num` slots, so the accumulator can end short
    of `wanted` even when later candidates would qualify. */
module Picker {
  import opened Types

  /** One pass of the loop body: skip the focal uid, skip a uid already
      present, otherwise append. */
  function Step(current: string, acc: seq<Item>, c: Item): (r: seq<Item>)
    ensures r == acc || r == acc + [c]
    ensures r == acc + [c] <==> c.uid != current && !HasUid(acc, c.uid)
  {
    if c.uid == current || HasUid(acc, c.uid) then acc else acc + [c]
  }

  /** The loop body run over every candidate of `window`, in order. */
  function Scan(current: string, acc: seq<Item>, window: seq<Item>): (r: seq<Item>)
    decreases |window|
    ensures acc <= r
    ensures |r| <= |acc| + |window|
    ensures forall k :: |acc| <= k < |r| ==> r[k].uid != current
    ensures forall k :: |acc| <= k < |r| ==> !HasUid(acc, r[k].uid)
    ensures forall k :: |acc| <= k < |r| ==> r[k] in window
    ensures DistinctUids(acc) ==> DistinctUids(r)
  {
    if |window| == 0 then acc
    else
      var n := |window| - 1;
      var prev := Scan(current, acc, window[..n]);
      assert forall k :: |acc| <= k < |prev| ==> prev[k] in window by {
        forall k | |acc| <= k < |prev| ensures prev[k] in window {
          assert prev[k] in window[..n];
        }
      }
      Step(current, prev, window[n])
  }

  /** The candidates `pickContent` looks at: the first
      `min(wanted - len(existing), len(candidates))` of them, or none. */
  function Window(existing: seq<Item>, candidates: seq<Item>, wanted: int): (w: seq<Item>)
    ensures w <= candidates
    ensures |existing| >= wanted ==> w == []
    ensures |existing| < wanted ==> |w| == Min(wanted - |existing|, |candidates|)
  {
    var num := wanted - |existing|;
    if num <= 0 then [] else candidates[..Min(num, |candidates|)]
  }

  /** `pickContent(current, &existing, candidates, wanted)`, returning the
      new accumulator. */
  function PickContent(current: string, existing: seq<Item>, candidates: seq<Item>, wanted: int): (r: seq<Item>)
    ensures |existing| >= wanted ==> r == existing
    ensures existing <= r
    ensures |existing| < wanted ==> |r| <= wanted
    ensures |r| <= |existing| + |candidates|
    ensures forall k :: |existing| <= k < |r| ==> r[k].uid != current && !HasUid(existing, r[k].uid)
    ensures forall k :: |existing| <= k < |r| ==> r[k] in candidates
    ensures DistinctUids(existing) ==> DistinctUids(r)
  {
    var w := Window(existing, candidates, wanted);
    var r := Scan(current, existing, w);
    assert forall k :: |existing| <= k < |r| ==> r[k] in candidates by {
      forall k | |existing| <= k < |r| ensures r[k] in candidates {
        assert r[k] in w;
        var j :| 0 <= j < |w| && w[j] == r[k];
        assert candidates[j] == w[j];
      }
    }
    r
  }

  /** `hasContent`: a linear search of the accumulator for a uid. */
  method Contains(haystack: seq<Item>, needle: string) returns (b: bool)
    ensures b <==> HasUid(haystack, needle)
  {
    for i := 0 to |haystack|
      invariant forall k :: 0 <= k < i ==> haystack[k].uid != needle
    {
      if haystack[i].uid == needle {
        return true;
      }
    }
    return false;
  }

  /** `pickContent` with the index loop of the source. */
  method PickInto(current: string, existing: seq<Item>, candidates: seq<Item>, wanted: int)
    returns (r: seq<Item>)
    ensures r == PickContent(current, existing, candidates, wanted)
  {
    r := existing;
    var num := wanted - |existing|;
    var i := 0;
    while i < num && i < |candidates|
      invariant 0 <= i <= |candidates|
      invariant num <= 0 ==> i == 0
      invariant num > 0 ==> i <= num
      invariant r == Scan(current, existing, candidates[..i])
    {
      var c := candidates[i];
      if c.uid != current {
        var present := Contains(r, c.uid);
        if !present {
          r := r + [c];
        }
      }
      assert candidates[..i + 1][..i] == candidates[..i];
      i := i + 1;
    }
    assert num > 0 ==> candidates[..i] == Window(existing, candidates, wanted);
  }

  // ---------------------------------------------------------------------
  // An independent description of what gets appended.

  /** Candidate `j` of the window is appended exactly when it is not the
      focal uid, its uid is not in the original accumulator, and no earlier
      window entry has the same uid. */
  predicate Admissible(current: string, existing: seq<Item>, window: seq<Item>, j: int)
    requires 0 <= j < |window|
  {
    && window[j].uid != current
    && !HasUid(existing, window[j].uid)
    && !HasUid(window[..j], window[j].uid)
  }

  /** The admissible window entries, in window order. */
  function Admitted(current: string, existing: seq<Item>, window: seq<Item>): seq<Item>
    decreases |window|
  {
    if |window| == 0 then []
    else
      var n := |window| - 1;
      Admitted(current, existing, window[..n])
        + (if Admissible(current, existing, window, n) then [window[n]] else [])
  }

  lemma HasUidConcat(a: seq<Item>, b: seq<Item>, x: string)
    ensures HasUid(a + b, x) <==> HasUid(a, x) || HasUid(b, x)
  {
    if HasUid(a + b, x) {
      var i :| 0 <= i < |a + b| && (a + b)[i].uid == x;
      if i >= |a| {
        assert b[i - |a|].uid == x;
      }
    }
    if HasUid(b, x) {
      var i :| 0 <= i < |b| && b[i].uid == x;
      assert (a + b)[|a| + i].uid == x;
    }
    if HasUid(a, x) {
      var i :| 0 <= i < |a| && a[i].uid == x;
      assert (a + b)[i].uid == x;
    }
  }

  /** A uid that is neither focal nor already present is among the admitted
      entries exactly when it is anywhere in the window. */
  lemma {:induction false} AdmittedUids(current: string, existing: seq<Item>, window: seq<Item>, x: string)
    requires x != current && !HasUid(existing, x)
    ensures HasUid(Admitted(current, existing, window), x) <==> HasUid(window, x)
    decreases |window|
  {
    if |window| > 0 {
      var n := |window| - 1;
      var prefix := window[..n];
      assert window == prefix + [window[n]];
      AdmittedUids(current, existing, prefix, x);
      var tail := if Admissible(current, existing, window, n) then [window[n]] else [];
      HasUidConcat(Admitted(current, existing, prefix), tail, x);
      HasUidConcat(prefix, [window[n]], x);
      if window[n].uid == x && !Admissible(current, existing, window, n) {
        assert HasUid(prefix, x);
      }
      if HasUid(tail, x) {
        assert window[n].uid == x;
      }
    }
  }

  /** Scanning a window appends exactly its admitted entries. */
  lemma {:induction false} ScanAppendsAdmitted(current: string, existing: seq<Item>, window: seq<Item>)
    ensures Scan(current, existing, window) == existing + Admitted(current, existing, window)
    decreases |window|
  {
    if |window| > 0 {
      var n := |window| - 1;
      var prefix := window[..n];
      ScanAppendsAdmitted(current, existing, prefix);
      var a := Admitted(current, existing, prefix);
      var x := window[n].uid;
      HasUidConcat(existing, a, x);
      if x != current && !HasUid(existing, x) {
        AdmittedUids(current, existing, prefix, x);
      }
      assert (existing + a) + [window[n]] == existing + (a + [window[n]]);
    }
  }

  /** What `pickContent` appends, independently of its loop: the candidates
      among the first `min(wanted - len(existing), len(candidates))` that
      pass the two skip tests, in order. */
  lemma PickContentAppendsAdmitted(current: string, existing: seq<Item>, candidates: seq<Item>, wanted: int)
    ensures PickContent(current, existing, candidates, wanted)
      == existing + Admitted(current, existing, Window(existing, candidates, wanted))
  {
    ScanAppendsAdmitted(current, existing, Window(existing, candidates, wanted));
  }

  /** When nothing in the window is skipped, the whole window is appended:
      the accumulator reaches `wanted` or takes every candidate. */
  lemma {:induction false} NoSkipTakesWindow(current: string, existing: seq<Item>, window: seq<Item>)
    requires DistinctUids(window)
    requires forall j :: 0 <= j < |window| ==> window[j].uid != current && !HasUid(existing, window[j].uid)
    ensures Scan(current, existing, window) == existing + window
    decreases |window|
  {
    if |window| > 0 {
      var n := |window| - 1;
      var prefix := window[..n];
      NoSkipTakesWindow(current, existing, prefix);
      HasUidConcat(existing, prefix, window[n].uid);
      assert forall i :: 0 <= i < |prefix| ==> prefix[i].uid != window[n].uid by {
        forall i | 0 <= i < |prefix| ensures prefix[i].uid != window[n].uid {
          assert prefix[i] == window[i];
        }
      }
      assert prefix + [window[n]] == window;
    }
  }

  lemma PickContentFillsWithoutSkips(current: string, existing: seq<Item>, candidates: seq<Item>, wanted: int)
    requires |existing| < wanted
    requires DistinctUids(candidates)
    requires forall j :: 0 <= j < |candidates| ==> candidates[j].uid != current && !HasUid(existing, candidates[j].uid)
    ensures |PickContent(current, existing, candidates, wanted)| == Min(wanted, |existing| + |candidates|)
  {
    var w := Window(existing, candidates, wanted);
    NoSkipTakesWindow(current, existing, w);
  }

  /** The quota is not always reached: accumulator [A], candidates [A, B]
      and wanted 2 give [A], because A's index uses the only slot. */
  lemma ShortfallExample(a: Item, b: Item)
    requires a.uid == "A" && b.uid == "B"
    ensures PickContent("", [a], [a, b], 2) == [a]
  {
    assert [a, b][..1] == [a];
    assert [a][..0] == [];
    assert HasUid([a], "A") by { assert [a][0].uid == "A"; }
  }
}
