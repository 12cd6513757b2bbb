/** The three request paths that run the selection engine end to end:
    the detail page (`printContent`), the front page (`printStart`) and
    the extra-content API (`apiExtraContent`). Store answers, shuffle
    draws and random numbers are inputs; the template output is the list
    of items shown, and the mutations are the `Random` records issued. */
module Pages {
  import opened Types
  import opened Rotation
  import opened Ladder
  import Text
  import Routing

  /** The items a page shows, in display order, and the records
      `updateRandom` sends for them. */
  datatype Page = Page(shown: seq<Item>, writes: seq<RandomRecord>)

  /** A permutation keeps a property every original element has. */
  lemma PermutedMembers(a: seq<Item>, b: seq<Item>, k: int)
    requires multiset(a) == multiset(b) && 0 <= k < |b|
    ensures exists j :: 0 <= j < |a| && a[j] == b[k]
  {
    assert b[k] in multiset(a);
  }

  /** `printContent`: panics when the content query matched nothing;
      otherwise the ladder's pick is shuffled and `updateRandom` runs over
      the shuffled list. */
  function DetailPage(matches: seq<ContentNode>, extra: seq<Item>, draws: seq<int>, randoms: seq<int>): (r: Result<Page>)
    requires |draws| >= DetailQuota && ValidDraws(draws)
    requires |randoms| >= DetailQuota && ValidRandoms(randoms)
    ensures r.Err? <==> |matches| == 0
    ensures r.Ok? ==> multiset(r.value.shown) == multiset(DetailSelection(matches[0], extra))
    ensures r.Ok? ==> |r.value.shown| <= DetailQuota && DistinctUids(r.value.shown)
    ensures r.Ok? ==> |r.value.writes| == |r.value.shown|
    ensures r.Ok? ==> forall k :: 0 <= k < |r.value.shown| ==>
      r.value.writes[k].uid == r.value.shown[k].uid
      && r.value.writes[k].viewCount == Inc64(r.value.shown[k].viewCount)
  {
    if |matches| == 0 then Err(EmptyQueryResult("content"))
    else
      var picked := DetailSelection(matches[0], extra);
      var shown := Shuffle(picked, draws);
      ShufflePermutes(picked, draws);
      assert ValidRandoms(randoms[..|shown|]) by {
        forall i | 0 <= i < |shown| ensures 0 <= randoms[..|shown|][i] < RandomBound {
          assert randoms[..|shown|][i] == randoms[i];
        }
      }
      Ok(Page(shown, UpdateRandom(shown, randoms[..|shown|])))
  }

  /** The focal item never appears on its own detail page. */
  lemma DetailPageExcludesFocal(matches: seq<ContentNode>, extra: seq<Item>, draws: seq<int>, randoms: seq<int>)
    requires |draws| >= DetailQuota && ValidDraws(draws)
    requires |randoms| >= DetailQuota && ValidRandoms(randoms)
    requires |matches| > 0
    ensures !HasUid(DetailPage(matches, extra, draws, randoms).value.shown, matches[0].uid)
  {
    var shown := DetailPage(matches, extra, draws, randoms).value.shown;
    var picked := DetailSelection(matches[0], extra);
    forall k | 0 <= k < |shown| ensures shown[k].uid != matches[0].uid {
      PermutedMembers(picked, shown, k);
    }
  }

  /** `printStart`: panics when the "rootsy" label is missing; otherwise
      `updateRandom` runs over the ladder's pick in pick order and the
      list is shuffled afterwards. */
  function FrontPage(extra: seq<Item>, rootsy: seq<Relation>, draws: seq<int>, randoms: seq<int>): (r: Result<Page>)
    requires |draws| >= FrontQuota && ValidDraws(draws)
    requires |randoms| >= FrontQuota && ValidRandoms(randoms)
    ensures r.Err? <==> |rootsy| == 0
    ensures r.Ok? ==> multiset(r.value.shown) == multiset(FrontSelection(extra, rootsy[0]))
    ensures r.Ok? ==> |r.value.shown| == |FrontSelection(extra, rootsy[0])|
    ensures r.Ok? ==> |r.value.shown| <= FrontQuota && DistinctUids(r.value.shown)
    ensures r.Ok? ==> |r.value.writes| == |r.value.shown|
    ensures r.Ok? ==> forall k :: 0 <= k < |r.value.writes| ==>
      r.value.writes[k].uid == FrontSelection(extra, rootsy[0])[k].uid
  {
    if |rootsy| == 0 then Err(EmptyQueryResult("rootsy"))
    else
      var picked := FrontSelection(extra, rootsy[0]);
      assert ValidRandoms(randoms[..|picked|]) by {
        forall i | 0 <= i < |picked| ensures 0 <= randoms[..|picked|][i] < RandomBound {
          assert randoms[..|picked|][i] == randoms[i];
        }
      }
      var writes := UpdateRandom(picked, randoms[..|picked|]);
      ShufflePermutes(picked, draws);
      Ok(Page(Shuffle(picked, draws), writes))
  }

  /** Although the records are built before the shuffle, every item shown
      on the front page ends with its stored counter set to one more than
      the `view_count` the query returned and a fresh sort key in
      `[0, 1000)`, and no other node changes. */
  lemma FrontPageCountsShown(store: Store, extra: seq<Item>, rootsy: seq<Relation>, draws: seq<int>, randoms: seq<int>)
    requires |draws| >= FrontQuota && ValidDraws(draws)
    requires |randoms| >= FrontQuota && ValidRandoms(randoms)
    requires |rootsy| > 0
    ensures var page := FrontPage(extra, rootsy, draws, randoms).value;
      var s := ApplyRecords(store, page.writes);
      && (forall k :: 0 <= k < |page.shown| ==>
            page.shown[k].uid in s
            && s[page.shown[k].uid].viewCount == Inc64(page.shown[k].viewCount)
            && 0 <= s[page.shown[k].uid].random < RandomBound)
      && (forall x :: x in store && !HasUid(page.shown, x) ==> x in s && s[x] == store[x])
  {
    var page := FrontPage(extra, rootsy, draws, randoms).value;
    var picked := FrontSelection(extra, rootsy[0]);
    var rs := randoms[..|picked|];
    assert ValidRandoms(rs) by {
      forall i | 0 <= i < |picked| ensures 0 <= rs[i] < RandomBound {
        assert rs[i] == randoms[i];
      }
    }
    assert page.writes == UpdateRandom(picked, rs);
    UpdateRandomEffect(store, picked, rs);
    var s := ApplyRecords(store, page.writes);
    forall k | 0 <= k < |page.shown|
      ensures page.shown[k].uid in s
      ensures s[page.shown[k].uid].viewCount == Inc64(page.shown[k].viewCount)
      ensures 0 <= s[page.shown[k].uid].random < RandomBound
    {
      PermutedMembers(picked, page.shown, k);
    }
    forall x | x in store && !HasUid(page.shown, x) ensures x in s && s[x] == store[x] {
      ShuffleKeepsUids(picked, draws, x);
    }
  }

  /** The reply of `/api/content/extra`: the `Random` records are issued
      before the response is built, so they go out even when building the
      response panics. */
  datatype ApiReply = ApiReply(writes: seq<RandomRecord>, body: Result<seq<Text.ExtraContent>>)

  function ExtraApi(extra: seq<Item>, randoms: seq<int>): (r: ApiReply)
    requires |randoms| == |extra| && ValidRandoms(randoms)
    ensures |r.writes| == |extra|
    ensures forall k :: 0 <= k < |extra| ==> r.writes[k].uid == extra[k].uid
    ensures r.body.Ok? <==> forall i :: 0 <= i < |extra| ==> |extra[i].writers| > 0
    ensures r.body.Ok? ==> |r.body.value| == |extra|
    ensures r.body.Ok? ==> forall i :: 0 <= i < |extra| ==>
      r.body.value[i].uid == extra[i].uid && r.body.value[i].url == Text.ExtraUrl(extra[i].uid, extra[i].name)
  {
    ApiReply(UpdateRandom(extra, randoms), Text.ExtraEntries(extra))
  }

  /** Every link in the API reply leads back to the detail page of its
      entry, provided the uid is a single path segment. */
  lemma ExtraApiLinksRoute(extra: seq<Item>, randoms: seq<int>, i: int, terms: seq<string>)
    requires |randoms| == |extra| && ValidRandoms(randoms)
    requires ExtraApi(extra, randoms).body.Ok? && 0 <= i < |extra|
    requires '/' !in extra[i].uid
    ensures Routing.Handler(ExtraApi(extra, randoms).body.value[i].url, terms)
      == Routing.ContentPage(extra[i].uid)
  {
    Text.ExtraUrlRoutes(extra[i].uid, extra[i].name, terms);
  }
}
