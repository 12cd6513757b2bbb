/** The pure string helpers the templates and the extra-content API use:
    `toUrl`, `typeText`, `artistNames` and the `/content/<uid>/<slug>` link. */
module Text {
  import opened Types
  import opened Strs
  import Routing

  predicate IsAlnum(c: char)
  {
    ('a' <= c <= 'z') || ('A' <= c <= 'Z') || ('0' <= c <= '9')
  }

  /** `toUrl`: every run of characters outside `[a-zA-Z0-9]` is replaced
      by nothing, so the slug keeps exactly the ASCII letters and digits. */
  function ToUrl(name: string): (r: string)
    ensures forall i :: 0 <= i < |r| ==> IsAlnum(r[i])
    ensures |r| <= |name|
    ensures (forall i :: 0 <= i < |name| ==> IsAlnum(name[i])) ==> r == name
    decreases |name|
  {
    if |name| == 0 then ""
    else
      var rest := ToUrl(name[1..]);
      if IsAlnum(name[0]) then [name[0]] + rest else rest
  }

  /** The slug of a concatenation is the concatenation of the slugs: the
      kept characters stay in input order. */
  lemma {:induction false} ToUrlConcat(a: string, b: string)
    ensures ToUrl(a + b) == ToUrl(a) + ToUrl(b)
    decreases |a|
  {
    if |a| > 0 {
      assert (a + b)[1..] == a[1..] + b;
      ToUrlConcat(a[1..], b);
    } else {
      assert a + b == b;
    }
  }

  /** Each letter or digit is kept as often as it occurs; nothing else
      survives. */
  lemma {:induction false} ToUrlCounts(name: string, c: char)
    ensures IsAlnum(c) ==> multiset(ToUrl(name))[c] == multiset(name)[c]
    ensures !IsAlnum(c) ==> multiset(ToUrl(name))[c] == 0
    decreases |name|
  {
    if |name| > 0 {
      ToUrlCounts(name[1..], c);
      assert name == [name[0]] + name[1..];
      assert multiset(name) == multiset{name[0]} + multiset(name[1..]);
    }
  }

  /** `typeText`: the Swedish label for the four known content types. */
  function TypeText(kind: string): (r: string)
    ensures kind in {"review", "article", "chart", "pitch"} ==> TypeKey(r) == Some(kind)
    ensures kind !in {"review", "article", "chart", "pitch"} ==> r == kind
  {
    if kind == "review" then "Recension"
    else if kind == "article" then "Artikel"
    else if kind == "chart" then "Toplista"
    else if kind == "pitch" then "Tips"
    else kind
  }

  /** The known content types, each with its display label. */
  function TypeKey(shown: string): Option<string>
  {
    if shown == "Recension" then Some("review")
    else if shown == "Artikel" then Some("article")
    else if shown == "Toplista" then Some("chart")
    else if shown == "Tips" then Some("pitch")
    else None
  }

  /** Exactly eight tags produce a label `TypeKey` can read back: the four
      known types and the four labels themselves, which pass through
      unchanged. */
  lemma TypeTextLabels(kind: string)
    ensures TypeKey(TypeText(kind)).Some? <==> kind in {"review", "article", "chart", "pitch", "Recension", "Artikel", "Toplista", "Tips"}
  {
  }

  /** `artistNames`: the artists' names joined with " & ". */
  function ArtistNames(names: seq<string>): (r: string)
    ensures |names| == 0 ==> r == ""
    ensures |names| == 1 ==> r == names[0]
  {
    JoinWith(names, " & ")
  }

  /** The pieces of a " & " join when split at '&': the spaces around each
      separator stay with the neighbouring names. */
  function Pad(names: seq<string>): (r: seq<string>)
    ensures |r| == |names|
  {
    seq(|names|, k requires 0 <= k < |names| =>
      (if k > 0 then " " else "") + names[k] + (if k + 1 < |names| then " " else ""))
  }

  /** Drops the one space `Pad` put before (if not first) and after (if
      not last) each piece. */
  function Unpad(pieces: seq<string>): (r: seq<string>)
    ensures |r| == |pieces|
  {
    seq(|pieces|, k requires 0 <= k < |pieces| =>
      var a := if k > 0 && |pieces[k]| > 0 then pieces[k][1..] else pieces[k];
      if k + 1 < |pieces| && |a| > 0 then a[..|a| - 1] else a)
  }

  /** Reads an `artistNames` string back into names. */
  function SplitNames(s: string): seq<string>
  {
    Unpad(Split(s, '&'))
  }

  lemma UnpadPad(names: seq<string>)
    ensures Unpad(Pad(names)) == names
  {
    var p := Pad(names);
    forall k | 0 <= k < |names| ensures Unpad(p)[k] == names[k] {
      var a := if k > 0 && |p[k]| > 0 then p[k][1..] else p[k];
      assert a == names[k] + (if k + 1 < |names| then " " else "");
    }
  }

  lemma {:induction false} JoinPad(names: seq<string>)
    requires |names| >= 1
    ensures JoinWith(names, " & ") == JoinWith(Pad(names), "&")
    decreases |names|
  {
    if |names| >= 2 {
      var rest := names[1..];
      JoinPad(rest);
      var p := Pad(names);
      var q := Pad(rest);
      assert p[0] == names[0] + " ";
      assert p[1] == " " + q[0];
      assert p[2..] == q[1..];
      calc {
        JoinWith(p, "&");
        p[0] + "&" + JoinWith(p[1..], "&");
        { JoinHeadSpace(q[0], q[1..]); assert p[1..] == [" " + q[0]] + q[1..]; assert q == [q[0]] + q[1..]; }
        names[0] + " " + "&" + (" " + JoinWith(q, "&"));
        names[0] + " & " + JoinWith(rest, " & ");
      }
    }
  }

  /** A space put before the first piece comes out in front of the join. */
  lemma JoinHeadSpace(h: string, t: seq<string>)
    ensures JoinWith([" " + h] + t, "&") == " " + JoinWith([h] + t, "&")
  {
    if |t| == 0 {
      assert [" " + h] + t == [" " + h];
      assert [h] + t == [h];
    } else {
      JoinCons(" " + h, t, "&");
      JoinCons(h, t, "&");
      var j := JoinWith(t, "&");
      assert " " + h + "&" + j == " " + (h + "&" + j);
    }
  }

  /** `artistNames` can be read back when no name holds '&'. */
  lemma ArtistNamesRoundTrip(names: seq<string>)
    requires |names| >= 1
    requires forall k :: 0 <= k < |names| ==> '&' !in names[k]
    ensures SplitNames(ArtistNames(names)) == names
  {
    JoinPad(names);
    var p := Pad(names);
    forall k | 0 <= k < |p| ensures '&' !in p[k] {
      assert p[k] == (if k > 0 then " " else "") + names[k] + (if k + 1 < |names| then " " else "");
    }
    SplitJoin(p, '&');
    UnpadPad(names);
  }

  /** The `Url` field of an extra-content entry: `/content/<uid>/<slug>`. */
  function ExtraUrl(uid: string, name: string): (r: string)
    ensures '/' !in uid ==> SplitN(r, '/', Routing.PagePieces) == ["", "content", uid, ToUrl(name)]
  {
    ToUrlCounts(name, '/');
    if '/' in uid then "/content/" + uid + "/" + ToUrl(name)
    else
      ContentLinkPieces(uid, ToUrl(name));
      "/content/" + uid + "/" + ToUrl(name)
  }

  /** A content link whose uid and slug hold no '/' splits into exactly
      its four parts. */
  lemma ContentLinkPieces(uid: string, slug: string)
    requires '/' !in uid && '/' !in slug
    ensures SplitN("/content/" + uid + "/" + slug, '/', Routing.PagePieces) == ["", "content", uid, slug]
  {
    var r := "/content/" + uid + "/" + slug;
    assert r == "" + ['/'] + ("content" + ['/'] + (uid + ['/'] + slug));
    Routing.SplitPrefix(r, "", "content", uid + ['/'] + slug);
    SplitNCons(uid, '/', slug, 2);
    SplitNNoSep(slug, '/', 1);
  }

  /** The link built for an entry routes back to that entry's page. */
  lemma ExtraUrlRoutes(uid: string, name: string, terms: seq<string>)
    requires '/' !in uid
    ensures Routing.Handler(ExtraUrl(uid, name), terms) == Routing.ContentPage(uid)
  {
  }

  /** One element of the `/api/content/extra` response (ExtraContent);
      the lead-in text and picture are passed through and not modelled. */
  datatype ExtraContent = ExtraContent(
    uid: string,
    name: string,
    url: string,
    kind: string,
    typeText: string,
    writtenBy: string)

  /** Builds the entry for one item; the first writer's name is read
      without a length check, which panics on an item with no writer. */
  function ExtraEntry(c: Item): (r: Result<ExtraContent>)
    ensures r.Ok? <==> |c.writers| > 0
    ensures r.Ok? ==> r.value.uid == c.uid && r.value.name == c.name && r.value.kind == c.kind
    ensures r.Ok? ==> r.value.writtenBy == c.writers[0]
    ensures r.Ok? ==> r.value.url == ExtraUrl(c.uid, c.name) && r.value.typeText == TypeText(c.kind)
  {
    if |c.writers| == 0 then Err(EmptyQueryResult("written_by"))
    else Ok(ExtraContent(c.uid, c.name, ExtraUrl(c.uid, c.name), c.kind, TypeText(c.kind), c.writers[0]))
  }

  /** The response list: one entry per item in order, or the panic of the
      first item without a writer. */
  function ExtraEntries(items: seq<Item>): (r: Result<seq<ExtraContent>>)
    ensures r.Ok? <==> forall i :: 0 <= i < |items| ==> |items[i].writers| > 0
    ensures r.Ok? ==> |r.value| == |items|
    ensures r.Ok? ==> forall i :: 0 <= i < |items| ==> ExtraEntry(items[i]) == Ok(r.value[i])
    decreases |items|
  {
    if |items| == 0 then Ok([])
    else
      match ExtraEntry(items[0])
      case Err(e) => Err(e)
      case Ok(entry) =>
        match ExtraEntries(items[1..])
        case Err(e) => Err(e)
        case Ok(rest) =>
          var r := [entry] + rest;
          assert forall i :: 1 <= i < |items| ==> items[i] == items[1..][i - 1];
          Ok(r)
  }
}
