/** The quota ladders that fill a page: a sequence of `pickContent` calls
    over (source list, cumulative quota) rungs, all into one accumulator
    and all skipping the same focal uid. */
module Ladder {
  import opened Types
  import opened Picker

  /** The cumulative quotas of the detail page (`printContent`). */
  const LabelQuota: int := 6
  const ArtistQuota: int := 10
  const WriterQuota: int := 14
  const DetailQuota: int := 16

  /** The cumulative quotas of the front page (`printStart`). */
  const FrontExtraQuota: int := 16
  const FrontQuota: int := 24

  /** One `pickContent(current, &acc, source, quota)` call. */
  datatype Rung = Rung(source: seq<Item>, quota: int)

  /** The calls in order, threading the accumulator. */
  function RunLadder(current: string, acc: seq<Item>, rungs: seq<Rung>): (r: seq<Item>)
    ensures acc <= r
    ensures forall k :: |acc| <= k < |r| ==> r[k].uid != current
    ensures DistinctUids(acc) ==> DistinctUids(r)
    decreases |rungs|
  {
    if |rungs| == 0 then acc
    else RunLadder(current, PickContent(current, acc, rungs[0].source, rungs[0].quota), rungs[1..])
  }

  /** `x` is in the source list of some rung. */
  predicate InSources(rungs: seq<Rung>, x: Item)
  {
    exists i :: 0 <= i < |rungs| && x in rungs[i].source
  }

  /** Everything a ladder adds comes from one of its sources and was not
      already in the accumulator. */
  lemma {:induction false} LadderDrawsFromSources(current: string, acc: seq<Item>, rungs: seq<Rung>, k: int)
    requires |acc| <= k < |RunLadder(current, acc, rungs)|
    ensures InSources(rungs, RunLadder(current, acc, rungs)[k])
    ensures !HasUid(acc, RunLadder(current, acc, rungs)[k].uid)
    decreases |rungs|
  {
    var r := RunLadder(current, acc, rungs);
    assert |rungs| > 0;
    var next := PickContent(current, acc, rungs[0].source, rungs[0].quota);
    assert r == RunLadder(current, next, rungs[1..]);
    if k < |next| {
      assert r[k] == next[k];
      assert r[k] in rungs[0].source;
    } else {
      LadderDrawsFromSources(current, next, rungs[1..], k);
      assert InSources(rungs[1..], r[k]);
      var i :| 0 <= i < |rungs[1..]| && r[k] in rungs[1..][i].source;
      assert r[k] in rungs[i + 1].source;
    }
  }

  /** Every rung's quota is at most `q`. */
  predicate QuotasAtMost(rungs: seq<Rung>, q: int)
  {
    forall i :: 0 <= i < |rungs| ==> rungs[i].quota <= q
  }

  /** A ladder never takes the accumulator past its largest quota. */
  lemma {:induction false} LadderBound(current: string, acc: seq<Item>, rungs: seq<Rung>, q: int)
    requires |acc| <= q && QuotasAtMost(rungs, q)
    ensures |RunLadder(current, acc, rungs)| <= q
    decreases |rungs|
  {
    if |rungs| > 0 {
      var next := PickContent(current, acc, rungs[0].source, rungs[0].quota);
      assert QuotasAtMost(rungs[1..], q) by {
        forall i | 0 <= i < |rungs[1..]| ensures rungs[1..][i].quota <= q {
          assert rungs[1..][i] == rungs[i + 1];
        }
      }
      LadderBound(current, next, rungs[1..], q);
    }
  }

  /** One rung per relation node, each reading that node's content list. */
  function Rungs(rels: seq<Relation>, quota: int): (r: seq<Rung>)
    ensures |r| == |rels|
    ensures QuotasAtMost(r, quota)
  {
    seq(|rels|, i requires 0 <= i < |rels| => Rung(rels[i].content, quota))
  }

  /** The detail page's ladder: every label to 6, every artist to 10,
      every writer to 14, then the extra pool to 16. */
  function DetailRungs(node: ContentNode, extra: seq<Item>): (r: seq<Rung>)
    ensures QuotasAtMost(r, DetailQuota)
    ensures |r| == |node.labels| + |node.artists| + |node.writtenBy| + 1
  {
    Rungs(node.labels, LabelQuota) + Rungs(node.artists, ArtistQuota)
      + Rungs(node.writtenBy, WriterQuota) + [Rung(extra, DetailQuota)]
  }

  /** What `printContent` selects before the shuffle. The focal node's own
      `Content` list, the accumulator, starts empty: the content query
      fetches no `content` edge for it. */
  function DetailSelection(node: ContentNode, extra: seq<Item>): (r: seq<Item>)
    ensures |r| <= DetailQuota
    ensures DistinctUids(r)
    ensures forall k :: 0 <= k < |r| ==> r[k].uid != node.uid
  {
    LadderBound(node.uid, [], DetailRungs(node, extra), DetailQuota);
    RunLadder(node.uid, [], DetailRungs(node, extra))
  }

  /** The front page's ladder: the extra pool to 16, then the "rootsy"
      label's list to 24. */
  function FrontRungs(extra: seq<Item>, rootsy: Relation): (r: seq<Rung>)
    ensures QuotasAtMost(r, FrontQuota)
  {
    [Rung(extra, FrontExtraQuota), Rung(rootsy.content, FrontQuota)]
  }

  /** What `printStart` selects before the shuffle; no uid is focal. */
  function FrontSelection(extra: seq<Item>, rootsy: Relation): (r: seq<Item>)
    ensures |r| <= FrontQuota
    ensures DistinctUids(r)
  {
    LadderBound("", [], FrontRungs(extra, rootsy), FrontQuota);
    RunLadder("", [], FrontRungs(extra, rootsy))
  }

  /** Rung `i` of the detail ladder reads a label's, an artist's or a
      writer's list, or the extra pool. */
  lemma DetailRungSource(node: ContentNode, extra: seq<Item>, i: int)
    requires 0 <= i < |DetailRungs(node, extra)|
    ensures var src := DetailRungs(node, extra)[i].source;
      || src == extra
      || (exists n :: 0 <= n < |node.labels| && src == node.labels[n].content)
      || (exists n :: 0 <= n < |node.artists| && src == node.artists[n].content)
      || (exists n :: 0 <= n < |node.writtenBy| && src == node.writtenBy[n].content)
  {
    var l := Rungs(node.labels, LabelQuota);
    var a := Rungs(node.artists, ArtistQuota);
    var w := Rungs(node.writtenBy, WriterQuota);
    var rungs := DetailRungs(node, extra);
    assert rungs == l + (a + (w + [Rung(extra, DetailQuota)]));
    if i < |l| {
      assert rungs[i] == l[i];
    } else if i < |l| + |a| {
      assert rungs[i] == a[i - |l|];
    } else if i < |l| + |a| + |w| {
      assert rungs[i] == w[i - |l| - |a|];
    } else {
      assert rungs[i] == Rung(extra, DetailQuota);
    }
  }

  /** Every item on a detail page comes from one of the focal item's
      labels, artists or writers, or from the extra pool. */
  lemma DetailSources(node: ContentNode, extra: seq<Item>, x: Item)
    requires x in DetailSelection(node, extra)
    ensures || x in extra
      || (exists n :: 0 <= n < |node.labels| && x in node.labels[n].content)
      || (exists n :: 0 <= n < |node.artists| && x in node.artists[n].content)
      || (exists n :: 0 <= n < |node.writtenBy| && x in node.writtenBy[n].content)
  {
    var rungs := DetailRungs(node, extra);
    var r := DetailSelection(node, extra);
    var k :| 0 <= k < |r| && r[k] == x;
    LadderDrawsFromSources(node.uid, [], rungs, k);
    var i :| 0 <= i < |rungs| && x in rungs[i].source;
    DetailRungSource(node, extra, i);
  }

  /** The front page draws only from the extra pool and the rootsy list. */
  lemma FrontSources(extra: seq<Item>, rootsy: Relation, x: Item)
    requires x in FrontSelection(extra, rootsy)
    ensures x in extra || x in rootsy.content
  {
    var rungs := FrontRungs(extra, rootsy);
    var r := FrontSelection(extra, rootsy);
    var k :| 0 <= k < |r| && r[k] == x;
    LadderDrawsFromSources("", [], rungs, k);
    var i :| 0 <= i < |rungs| && x in rungs[i].source;
  }

  /** A ladder runs its first rung, then the rest. */
  lemma LadderCons(current: string, acc: seq<Item>, r: Rung, rest: seq<Rung>)
    ensures RunLadder(current, acc, [r] + rest)
      == RunLadder(current, PickContent(current, acc, r.source, r.quota), rest)
  {
    assert ([r] + rest)[1..] == rest;
  }

  /** The two halves of a duplicate-free concatenation are duplicate-free
      and share no uid. */
  lemma DistinctSplit(a: seq<Item>, b: seq<Item>)
    requires DistinctUids(a + b)
    ensures DistinctUids(a) && DistinctUids(b)
    ensures forall j :: 0 <= j < |b| ==> !HasUid(a, b[j].uid)
  {
    var all := a + b;
    forall i, j | 0 <= i < j < |a| ensures a[i].uid != a[j].uid {
      assert all[i] == a[i] && all[j] == a[j];
    }
    forall i, j | 0 <= i < j < |b| ensures b[i].uid != b[j].uid {
      assert all[|a| + i] == b[i] && all[|a| + j] == b[j];
    }
    forall i, j | 0 <= i < |a| && 0 <= j < |b| ensures a[i].uid != b[j].uid {
      assert all[i] == a[i] && all[|a| + j] == b[j];
    }
  }

  /** With no repeats and no empty uid, the front page is as full as its
      sources allow: up to 16 from the extra pool, then the rootsy list up
      to 24 in all. */
  lemma FrontFills(extra: seq<Item>, rootsy: Relation)
    requires DistinctUids(extra + rootsy.content)
    requires forall i :: 0 <= i < |extra| ==> extra[i].uid != ""
    requires forall i :: 0 <= i < |rootsy.content| ==> rootsy.content[i].uid != ""
    ensures |FrontSelection(extra, rootsy)|
      == Min(FrontQuota, Min(FrontExtraQuota, |extra|) + |rootsy.content|)
  {
    var rest := rootsy.content;
    DistinctSplit(extra, rest);
    PickContentFillsWithoutSkips("", [], extra, FrontExtraQuota);
    var first := PickContent("", [], extra, FrontExtraQuota);
    forall j, k | 0 <= j < |rest| && 0 <= k < |first| ensures first[k].uid != rest[j].uid {
      var i :| 0 <= i < |extra| && extra[i] == first[k];
    }
    PickContentFillsWithoutSkips("", first, rest, FrontQuota);
    LadderCons("", [], Rung(extra, FrontExtraQuota), [Rung(rest, FrontQuota)]);
    LadderCons("", first, Rung(rest, FrontQuota), []);
    assert FrontRungs(extra, rootsy) == [Rung(extra, FrontExtraQuota)] + [Rung(rest, FrontQuota)];
    assert [Rung(rest, FrontQuota)] == [Rung(rest, FrontQuota)] + [];
  }

  /** The front page's first rung takes the pool's first 16 items as they
      are. */
  lemma PoolRung(extra: seq<Item>)
    requires DistinctUids(extra)
    requires forall i :: 0 <= i < |extra| ==> extra[i].uid != ""
    ensures PickContent("", [], extra, FrontExtraQuota) == extra[..Min(FrontExtraQuota, |extra|)]
  {
    var w := Window([], extra, FrontExtraQuota);
    forall i, j | 0 <= i < j < |w| ensures w[i].uid != w[j].uid {
      assert w[i] == extra[i] && w[j] == extra[j];
    }
    TakesWindow("", [], extra, FrontExtraQuota);
    assert [] + w == w;
  }

  /** With no repeated and no empty uid in the pool, the front page opens
      with the pool's first 16 items, in pool order; the rootsy list only
      follows them. */
  lemma FrontPoolLeads(extra: seq<Item>, rootsy: Relation)
    requires DistinctUids(extra)
    requires forall i :: 0 <= i < |extra| ==> extra[i].uid != ""
    ensures extra[..Min(FrontExtraQuota, |extra|)] <= FrontSelection(extra, rootsy)
  {
    PoolRung(extra);
    LadderCons("", [], Rung(extra, FrontExtraQuota), [Rung(rootsy.content, FrontQuota)]);
    assert FrontRungs(extra, rootsy) == [Rung(extra, FrontExtraQuota)] + [Rung(rootsy.content, FrontQuota)];
  }

  /** Under the no-skip conditions `pickContent` appends its whole window. */
  lemma TakesWindow(current: string, existing: seq<Item>, candidates: seq<Item>, wanted: int)
    requires DistinctUids(Window(existing, candidates, wanted))
    requires forall j :: 0 <= j < |candidates| ==> candidates[j].uid != current && !HasUid(existing, candidates[j].uid)
    ensures PickContent(current, existing, candidates, wanted) == existing + Window(existing, candidates, wanted)
  {
    var w := Window(existing, candidates, wanted);
    forall j | 0 <= j < |w| ensures w[j].uid != current && !HasUid(existing, w[j].uid) {
      assert w[j] == candidates[j];
    }
    NoSkipTakesWindow(current, existing, w);
  }

  lemma ExampleLabels(a: Item, b: Item)
    requires a.uid == "A" && b.uid == "B"
    ensures PickContent("X", [], [a, b], LabelQuota) == [a, b]
  {
    assert [a, b][..2] == [a, b];
    TakesWindow("X", [], [a, b], LabelQuota);
  }

  lemma ExampleArtists(a: Item, b: Item, c: Item, d: Item)
    requires a.uid == "A" && b.uid == "B" && c.uid == "C" && d.uid == "D"
    ensures PickContent("X", [a, b], [b, c, d], ArtistQuota) == [a, b, c, d]
  {
    var s1 := [a, b];
    var w := [b, c, d];
    assert w[..3] == w && w[..2] == [b, c] && w[..1] == [b];
    assert [b, c][..1] == [b] && [b][..0] == [];
    assert HasUid(s1, "B") by { assert s1[1].uid == "B"; }
    assert Scan("X", s1, [b]) == s1;
    assert !HasUid(s1, "C");
    assert Scan("X", s1, [b, c]) == [a, b, c];
    assert !HasUid([a, b, c], "D");
    assert Scan("X", s1, [b, c, d]) == [a, b, c, d];
  }

  lemma ExampleExtra(a: Item, b: Item, c: Item, d: Item, e: Item, f: Item)
    requires a.uid == "A" && b.uid == "B" && c.uid == "C"
    requires d.uid == "D" && e.uid == "E" && f.uid == "F"
    ensures PickContent("X", [a, b, c, d], [e, f], DetailQuota) == [a, b, c, d, e, f]
  {
    assert [e, f][..2] == [e, f];
    TakesWindow("X", [a, b, c, d], [e, f], DetailQuota);
  }

  /** The worked example of the detail ladder: label list [A, B], artist
      list [B, C, D], an empty writer list and extra pool [E, F] give
      [A, B, C, D, E, F]; B's second appearance is skipped. */
  lemma DetailExample(a: Item, b: Item, c: Item, d: Item, e: Item, f: Item)
    requires a.uid == "A" && b.uid == "B" && c.uid == "C"
    requires d.uid == "D" && e.uid == "E" && f.uid == "F"
    ensures DetailSelection(
      ContentNode("X", [Relation("label", [a, b])], [Relation("artist", [b, c, d])], [Relation("writer", [])]),
      [e, f]) == [a, b, c, d, e, f]
  {
    var node := ContentNode("X", [Relation("label", [a, b])], [Relation("artist", [b, c, d])], [Relation("writer", [])]);
    var r0, r1, r2, r3 := Rung([a, b], LabelQuota), Rung([b, c, d], ArtistQuota), Rung([], WriterQuota), Rung([e, f], DetailQuota);
    assert DetailRungs(node, [e, f]) == [r0] + ([r1] + ([r2] + ([r3] + [])));
    ExampleLabels(a, b);
    LadderCons("X", [], r0, [r1] + ([r2] + ([r3] + [])));
    ExampleArtists(a, b, c, d);
    LadderCons("X", [a, b], r1, [r2] + ([r3] + []));
    LadderCons("X", [a, b, c, d], r2, [r3] + []);
    ExampleExtra(a, b, c, d, e, f);
    LadderCons("X", [a, b, c, d], r3, []);
  }
}
