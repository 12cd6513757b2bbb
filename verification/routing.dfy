/** Path dispatch: `handler` picks a page from `SplitN(path, "/", 4)` and
    `readCounter` takes the item and visitor ids from `SplitN(path, "/", 5)`. */
module Routing {
  import opened Types
  import opened Strs

  /** The piece limits the two handlers pass to `SplitN`. */
  const PagePieces: nat := 4
  const ReadPieces: nat := 5

  datatype Route =
    | ArtistPage(uid: string)
    | ContentPage(uid: string)
    | SearchPage(terms: string)
    | StartPage

  /** `handler`: dispatch on the second segment of the path; the third
      segment is the uid. `terms` are the values of the `terms` query
      parameter, which a search joins with single spaces. */
  function Handler(path: string, terms: seq<string>): (r: Route)
    ensures r.ArtistPage? || r.ContentPage? ==> '/' !in r.uid
  {
    var parts := SplitN(path, '/', PagePieces);
    if |parts| >= 3 then
      if parts[1] == "artist" then ArtistPage(parts[2])
      else if parts[1] == "content" then ContentPage(parts[2])
      else if parts[1] == "search" then SearchPage(JoinWith(terms, " "))
      else StartPage
    else StartPage
  }

  /** A path with fewer than two '/' is the start page; a routed uid is
      one whole segment; a search joins the `terms` values with spaces. */
  lemma HandlerBasics(path: string, terms: seq<string>)
    ensures multiset(path)['/'] < 2 ==> Handler(path, terms) == StartPage
    ensures Handler(path, terms).ArtistPage? ==> '/' !in Handler(path, terms).uid
    ensures Handler(path, terms).ContentPage? ==> '/' !in Handler(path, terms).uid
    ensures Handler(path, terms).SearchPage? ==> Handler(path, terms).terms == JoinWith(terms, " ")
  {
    SplitNCount(path, '/', PagePieces);
    SplitNPieces(path, '/', PagePieces);
  }

  /** `path` is `p/seg/x` followed by nothing or by a '/'-led tail. */
  predicate Shape(path: string, p: string, seg: string, x: string, rest: string)
  {
    && '/' !in p && '/' !in seg && '/' !in x
    && (rest == "" || rest[0] == '/')
    && path == p + "/" + (seg + "/" + (x + rest))
  }

  /** A segment followed by nothing or by a '/'-led tail is one piece. */
  lemma SplitLast(x: string, rest: string, n: nat)
    requires '/' !in x && (rest == "" || rest[0] == '/') && n >= 2
    ensures |SplitN(x + rest, '/', n)| >= 1
    ensures SplitN(x + rest, '/', n)[0] == x
    ensures rest == "" ==> SplitN(x + rest, '/', n) == [x]
    ensures rest != "" ==> SplitN(x + rest, '/', n) == [x] + SplitN(rest[1..], '/', n - 1)
  {
    if rest == "" {
      assert x + rest == x;
      SplitNNoSep(x, '/', n);
    } else {
      assert x + rest == x + ['/'] + rest[1..];
      SplitNCons(x, '/', rest[1..], n);
    }
  }

  lemma SplitPrefix(path: string, p: string, seg: string, tail: string)
    requires '/' !in p && '/' !in seg
    requires path == p + ['/'] + (seg + ['/'] + tail)
    ensures SplitN(path, '/', PagePieces) == [p] + ([seg] + SplitN(tail, '/', 2))
  {
    SplitNCons(p, '/', seg + ['/'] + tail, 4);
    SplitNCons(seg, '/', tail, 3);
  }

  lemma SplitShape(path: string, p: string, seg: string, x: string, rest: string)
    requires Shape(path, p, seg, x, rest)
    ensures |SplitN(path, '/', PagePieces)| >= 3
    ensures SplitN(path, '/', PagePieces)[0] == p
    ensures SplitN(path, '/', PagePieces)[1] == seg
    ensures SplitN(path, '/', PagePieces)[2] == x
  {
    SplitPrefix(path, p, seg, x + rest);
    SplitLast(x, rest, 2);
  }

  /** Every path of the right shape dispatches on its second segment. */
  lemma HandlerOnShape(path: string, terms: seq<string>, p: string, seg: string, x: string, rest: string)
    requires Shape(path, p, seg, x, rest)
    ensures seg == "artist" ==> Handler(path, terms) == ArtistPage(x)
    ensures seg == "content" ==> Handler(path, terms) == ContentPage(x)
    ensures seg == "search" ==> Handler(path, terms) == SearchPage(JoinWith(terms, " "))
    ensures seg != "artist" && seg != "content" && seg != "search" ==> Handler(path, terms) == StartPage
  {
    SplitShape(path, p, seg, x, rest);
    var parts := SplitN(path, '/', PagePieces);
    assert parts[1] == seg && parts[2] == x;
  }

  lemma ShapeOfThree(path: string, a: string, b: string, c: string)
    requires path == a + "/" + (b + "/" + c)
    requires '/' !in a && '/' !in b && '/' !in c
    ensures Shape(path, a, b, c, "")
  {
    assert c + "" == c;
  }

  lemma ShapeOfFour(path: string, a: string, b: string, c: string, d: string)
    requires path == a + "/" + (b + "/" + (c + "/" + d))
    requires '/' !in a && '/' !in b && '/' !in c
    ensures Shape(path, a, b, c, "/" + d)
  {
    assert c + "/" + d == c + ("/" + d);
  }

  /** Three or four '/'-joined pieces, all but a fourth free of '/',
      describe a path of the right shape. */
  lemma ShapeOfPieces(path: string, parts: seq<string>)
    requires 3 <= |parts| <= 4 && JoinWith(parts, "/") == path
    requires forall k :: 0 <= k < 3 ==> '/' !in parts[k]
    ensures Shape(path, parts[0], parts[1], parts[2], if |parts| == 4 then "/" + parts[3] else "")
  {
    var a, b, c := parts[0], parts[1], parts[2];
    assert '/' !in a && '/' !in b && '/' !in c;
    if |parts| == 3 {
      assert parts == [a, b, c];
      JoinThree(a, b, c, "/");
      ShapeOfThree(path, a, b, c);
    } else {
      var d := parts[3];
      assert parts == [a, b, c, d];
      JoinFour(a, b, c, d, "/");
      ShapeOfFour(path, a, b, c, d);
    }
  }

  lemma ShapeOfParts(path: string)
    requires |SplitN(path, '/', PagePieces)| >= 3
    ensures var parts := SplitN(path, '/', PagePieces);
      Shape(path, parts[0], parts[1], parts[2], if |parts| == 4 then "/" + parts[3] else "")
  {
    SplitNJoin(path, '/', PagePieces);
    SplitNPieces(path, '/', PagePieces);
    ShapeOfPieces(path, SplitN(path, '/', PagePieces));
  }

  /** What a non-start route says about the pieces of the path. */
  lemma RoutedParts(path: string, terms: seq<string>)
    requires Handler(path, terms) != StartPage
    ensures var parts := SplitN(path, '/', PagePieces);
      && |parts| >= 3
      && (Handler(path, terms).ArtistPage? ==> parts[1] == "artist" && Handler(path, terms).uid == parts[2])
      && (Handler(path, terms).ContentPage? ==> parts[1] == "content" && Handler(path, terms).uid == parts[2])
      && (Handler(path, terms).SearchPage? ==> parts[1] == "search")
  {
  }

  /** The pieces of a routed path, read back as a shape. */
  lemma RoutedShape(path: string, terms: seq<string>)
    requires Handler(path, terms) != StartPage
    ensures var parts := SplitN(path, '/', PagePieces);
      Shape(path, parts[0], parts[1], parts[2], if |parts| == 4 then "/" + parts[3] else "")
  {
    RoutedParts(path, terms);
    ShapeOfParts(path);
  }

  /** The shape read off the pieces of a routed path. */
  lemma RoutedWitness(path: string, terms: seq<string>)
    requires Handler(path, terms) != StartPage
    ensures var parts := SplitN(path, '/', PagePieces);
      exists p, rest :: Shape(path, p, parts[1], parts[2], rest)
  {
    RoutedShape(path, terms);
    var parts := SplitN(path, '/', PagePieces);
    var rest := if |parts| == 4 then "/" + parts[3] else "";
    assert Shape(path, parts[0], parts[1], parts[2], rest);
  }

  lemma HandlerArtistIff(path: string, terms: seq<string>, x: string)
    ensures Handler(path, terms) == ArtistPage(x)
      <==> exists p, rest :: Shape(path, p, "artist", x, rest)
  {
    if Handler(path, terms) == ArtistPage(x) {
      RoutedParts(path, terms);
      RoutedWitness(path, terms);
    }
    if exists p, rest :: Shape(path, p, "artist", x, rest) {
      var p, rest :| Shape(path, p, "artist", x, rest);
      HandlerOnShape(path, terms, p, "artist", x, rest);
    }
  }

  lemma HandlerContentIff(path: string, terms: seq<string>, x: string)
    ensures Handler(path, terms) == ContentPage(x)
      <==> exists p, rest :: Shape(path, p, "content", x, rest)
  {
    if Handler(path, terms) == ContentPage(x) {
      RoutedParts(path, terms);
      RoutedWitness(path, terms);
    }
    if exists p, rest :: Shape(path, p, "content", x, rest) {
      var p, rest :| Shape(path, p, "content", x, rest);
      HandlerOnShape(path, terms, p, "content", x, rest);
    }
  }

  lemma HandlerSearchIff(path: string, terms: seq<string>)
    ensures Handler(path, terms) == SearchPage(JoinWith(terms, " "))
      <==> exists p, x, rest :: Shape(path, p, "search", x, rest)
  {
    if Handler(path, terms) == SearchPage(JoinWith(terms, " ")) {
      RoutedParts(path, terms);
      RoutedWitness(path, terms);
      var parts := SplitN(path, '/', PagePieces);
      var p, rest :| Shape(path, p, parts[1], parts[2], rest);
      assert Shape(path, p, "search", parts[2], rest);
    }
    if exists p, x, rest :: Shape(path, p, "search", x, rest) {
      var p, x, rest :| Shape(path, p, "search", x, rest);
      HandlerOnShape(path, terms, p, "search", x, rest);
    }
  }

  /** The start page is served exactly when no reading of the path names
      one of the three known sections. */
  lemma HandlerStartIff(path: string, terms: seq<string>)
    ensures Handler(path, terms) == StartPage
      <==> forall p, seg, x, rest :: Shape(path, p, seg, x, rest) ==>
             seg != "artist" && seg != "content" && seg != "search"
  {
    if Handler(path, terms) == StartPage {
      forall p, seg, x, rest | Shape(path, p, seg, x, rest)
        ensures seg != "artist" && seg != "content" && seg != "search"
      {
        HandlerOnShape(path, terms, p, seg, x, rest);
      }
    } else {
      RoutedParts(path, terms);
      RoutedWitness(path, terms);
    }
  }

  /** `readCounter`: with at least four pieces of `SplitN(path, "/", 5)`,
      the third is the item uid and the fourth the visitor id; otherwise
      nothing happens. The first two segments are not inspected. */
  function ReadTarget(path: string): (r: Option<(string, string)>)
    ensures r.Some? ==> '/' !in r.value.0 && '/' !in r.value.1
  {
    var parts := SplitN(path, '/', ReadPieces);
    if |parts| < 4 then None else Some((parts[2], parts[3]))
  }

  /** The read handler acts exactly when the path holds at least three
      '/', and then both ids are whole segments. */
  lemma ReadTargetBasics(path: string)
    ensures ReadTarget(path).None? <==> multiset(path)['/'] < 3
    ensures ReadTarget(path).Some? ==> '/' !in ReadTarget(path).value.0 && '/' !in ReadTarget(path).value.1
  {
    SplitNCount(path, '/', ReadPieces);
    SplitNPieces(path, '/', ReadPieces);
  }

  /** `path` is `p/seg/u/v` followed by nothing or by a '/'-led tail. */
  predicate ReadShape(path: string, p: string, seg: string, u: string, v: string, rest: string)
  {
    && '/' !in p && '/' !in seg && '/' !in u && '/' !in v
    && (rest == "" || rest[0] == '/')
    && path == p + "/" + (seg + "/" + (u + "/" + (v + rest)))
  }

  lemma SplitReadPrefix(path: string, p: string, seg: string, u: string, tail: string)
    requires '/' !in p && '/' !in seg && '/' !in u
    requires path == p + ['/'] + (seg + ['/'] + (u + ['/'] + tail))
    ensures SplitN(path, '/', ReadPieces) == [p] + ([seg] + ([u] + SplitN(tail, '/', 2)))
  {
    SplitNCons(p, '/', seg + ['/'] + (u + ['/'] + tail), 5);
    SplitNCons(seg, '/', u + ['/'] + tail, 4);
    SplitNCons(u, '/', tail, 3);
  }

  lemma ReadTargetOnShape(path: string, p: string, seg: string, u: string, v: string, rest: string)
    requires ReadShape(path, p, seg, u, v, rest)
    ensures ReadTarget(path) == Some((u, v))
  {
    SplitReadPrefix(path, p, seg, u, v + rest);
    SplitLast(v, rest, 2);
  }

  lemma ReadShapeOfFour(path: string, a: string, b: string, c: string, d: string)
    requires path == a + "/" + (b + "/" + (c + "/" + d))
    requires '/' !in a && '/' !in b && '/' !in c && '/' !in d
    ensures ReadShape(path, a, b, c, d, "")
  {
    assert d + "" == d;
  }

  lemma ReadShapeOfFive(path: string, a: string, b: string, c: string, d: string, e: string)
    requires path == a + "/" + (b + "/" + (c + "/" + (d + "/" + e)))
    requires '/' !in a && '/' !in b && '/' !in c && '/' !in d
    ensures ReadShape(path, a, b, c, d, "/" + e)
  {
    assert d + "/" + e == d + ("/" + e);
  }

  /** Four or five '/'-joined pieces, all but a fifth free of '/',
      describe a read path. */
  lemma ReadShapeOfPieces(path: string, parts: seq<string>)
    requires 4 <= |parts| <= 5 && JoinWith(parts, "/") == path
    requires forall k :: 0 <= k < 4 ==> '/' !in parts[k]
    ensures ReadShape(path, parts[0], parts[1], parts[2], parts[3], if |parts| == 5 then "/" + parts[4] else "")
  {
    var a, b, c, d := parts[0], parts[1], parts[2], parts[3];
    assert '/' !in a && '/' !in b && '/' !in c && '/' !in d;
    if |parts| == 4 {
      assert parts == [a, b, c, d];
      JoinFour(a, b, c, d, "/");
      ReadShapeOfFour(path, a, b, c, d);
    } else {
      var e := parts[4];
      assert parts == [a, b, c, d, e];
      JoinFive(a, b, c, d, e, "/");
      ReadShapeOfFive(path, a, b, c, d, e);
    }
  }

  lemma ReadParts(path: string)
    requires ReadTarget(path).Some?
    ensures var parts := SplitN(path, '/', ReadPieces);
      && |parts| >= 4
      && ReadTarget(path).value == (parts[2], parts[3])
      && ReadShape(path, parts[0], parts[1], parts[2], parts[3], if |parts| == 5 then "/" + parts[4] else "")
  {
    SplitNJoin(path, '/', ReadPieces);
    SplitNPieces(path, '/', ReadPieces);
    ReadShapeOfPieces(path, SplitN(path, '/', ReadPieces));
  }

  lemma ReadWitness(path: string)
    requires ReadTarget(path).Some?
    ensures exists p, seg, rest :: ReadShape(path, p, seg, ReadTarget(path).value.0, ReadTarget(path).value.1, rest)
  {
    ReadParts(path);
    var parts := SplitN(path, '/', ReadPieces);
    var rest := if |parts| == 5 then "/" + parts[4] else "";
    assert ReadShape(path, parts[0], parts[1], parts[2], parts[3], rest);
  }

  lemma ReadTargetIff(path: string, u: string, v: string)
    ensures ReadTarget(path) == Some((u, v))
      <==> exists p, seg, rest :: ReadShape(path, p, seg, u, v, rest)
  {
    if ReadTarget(path) == Some((u, v)) {
      ReadWitness(path);
    }
    if exists p, seg, rest :: ReadShape(path, p, seg, u, v, rest) {
      var p, seg, rest :| ReadShape(path, p, seg, u, v, rest);
      ReadTargetOnShape(path, p, seg, u, v, rest);
    }
  }
}
