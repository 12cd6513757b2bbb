/** The parts of Go's `strings` package the server leans on: `Index` of a
    one-character separator, `SplitN`, `Split` and `Join`. */
module Strs {
  import opened Types

  /** `strings.Join(parts, sep)`. */
  function JoinWith(parts: seq<string>, sep: string): (r: string)
    decreases |parts|
  {
    if |parts| == 0 then ""
    else if |parts| == 1 then parts[0]
    else parts[0] + sep + JoinWith(parts[1..], sep)
  }

  /** The summed lengths of the pieces. */
  function Lengths(parts: seq<string>): nat
    decreases |parts|
  {
    if |parts| == 0 then 0 else |parts[0]| + Lengths(parts[1..])
  }

  /** `strings.Join` starts with the first piece and adds one separator
      between neighbouring pieces and nothing else. */
  lemma {:induction false} JoinLength(parts: seq<string>, sep: string)
    requires |parts| > 0
    ensures parts[0] <= JoinWith(parts, sep)
    ensures |JoinWith(parts, sep)| == Lengths(parts) + (|parts| - 1) * |sep|
    decreases |parts|
  {
    if |parts| > 1 {
      JoinLength(parts[1..], sep);
    }
  }

  lemma JoinCons(a: string, rest: seq<string>, sep: string)
    requires |rest| >= 1
    ensures JoinWith([a] + rest, sep) == a + sep + JoinWith(rest, sep)
  {
    assert ([a] + rest)[1..] == rest;
  }

  /** Joins of three, four and five pieces, spelled out. */
  lemma JoinThree(a: string, b: string, c: string, sep: string)
    ensures JoinWith([a, b, c], sep) == a + sep + (b + sep + c)
  {
    JoinCons(a, [b, c], sep);
    assert [a] + [b, c] == [a, b, c];
    JoinCons(b, [c], sep);
    assert [b] + [c] == [b, c];
  }

  lemma JoinFour(a: string, b: string, c: string, d: string, sep: string)
    ensures JoinWith([a, b, c, d], sep) == a + sep + (b + sep + (c + sep + d))
  {
    JoinCons(a, [b, c, d], sep);
    assert [a] + [b, c, d] == [a, b, c, d];
    JoinThree(b, c, d, sep);
  }

  lemma JoinFive(a: string, b: string, c: string, d: string, e: string, sep: string)
    ensures JoinWith([a, b, c, d, e], sep) == a + sep + (b + sep + (c + sep + (d + sep + e)))
  {
    JoinCons(a, [b, c, d, e], sep);
    assert [a] + [b, c, d, e] == [a, b, c, d, e];
    JoinFour(b, c, d, e, sep);
  }

  /** `strings.Index(s, string(c))`, with `None` for Go's -1. */
  function IndexOf(s: string, c: char): (r: Option<nat>)
    ensures r.None? <==> c !in s
    ensures r.Some? ==> r.value < |s| && s[r.value] == c
    ensures r.Some? ==> forall i :: 0 <= i < r.value ==> s[i] != c
    decreases |s|
  {
    if |s| == 0 then None
    else if s[0] == c then Some(0)
    else
      match IndexOf(s[1..], c)
      case None => None
      case Some(m) => Some(m + 1)
  }

  /** The piece before the first separator holds none. */
  lemma HeadFree(s: string, c: char)
    requires IndexOf(s, c).Some?
    ensures c !in s[..IndexOf(s, c).value]
  {
    var m := IndexOf(s, c).value;
    assert forall i :: 0 <= i < m ==> s[..m][i] == s[i];
  }

  lemma CountAround(s: string, c: char, m: nat)
    requires m < |s| && s[m] == c && c !in s[..m]
    ensures multiset(s)[c] == multiset(s[m + 1..])[c] + 1
  {
    assert s == s[..m] + [c] + s[m + 1..];
    assert multiset(s) == multiset(s[..m]) + multiset{c} + multiset(s[m + 1..]);
  }

  lemma Around(s: string, m: nat)
    requires m < |s|
    ensures s == s[..m] + [s[m]] + s[m + 1..]
  {
  }

  /** Splitting at the first separator `m`: the head piece joined to the
      pieces of the remainder rebuilds `s` and accounts for one separator. */
  lemma SplitCons(s: string, sep: char, m: nat, rest: seq<string>)
    requires m < |s| && s[m] == sep
    requires |rest| >= 1 && JoinWith(rest, [sep]) == s[m + 1..]
    ensures JoinWith([s[..m]] + rest, [sep]) == s
  {
    JoinCons(s[..m], rest, [sep]);
    Around(s, m);
  }

  /** `strings.SplitN(s, string(sep), n)` for n >= 0: at most `n` pieces,
      the last one holding the unsplit remainder; `n == 0` gives none. */
  function SplitN(s: string, sep: char, n: nat): (r: seq<string>)
    ensures n == 0 ==> r == []
    ensures n > 0 ==> 1 <= |r| <= n
    decreases n
  {
    if n == 0 then []
    else if n == 1 then [s]
    else
      match IndexOf(s, sep)
      case None => [s]
      case Some(m) => [s[..m]] + SplitN(s[m + 1..], sep, n - 1)
  }

  /** Joining the pieces of `SplitN` with the separator gives back the
      input. */
  lemma {:induction false} SplitNJoin(s: string, sep: char, n: nat)
    requires n > 0
    ensures JoinWith(SplitN(s, sep, n), [sep]) == s
    decreases n
  {
    if n > 1 {
      match IndexOf(s, sep)
      case None =>
      case Some(m) =>
        var rest := SplitN(s[m + 1..], sep, n - 1);
        assert SplitN(s, sep, n) == [s[..m]] + rest;
        SplitNJoin(s[m + 1..], sep, n - 1);
        SplitCons(s, sep, m, rest);
    }
  }

  /** There is one piece per separator plus one, up to `n`. */
  lemma {:induction false} SplitNCount(s: string, sep: char, n: nat)
    requires n > 0
    ensures |SplitN(s, sep, n)| == Min(n, multiset(s)[sep] + 1)
    decreases n
  {
    if n > 1 {
      match IndexOf(s, sep)
      case None =>
      case Some(m) =>
        var rest := SplitN(s[m + 1..], sep, n - 1);
        assert SplitN(s, sep, n) == [s[..m]] + rest;
        SplitNCount(s[m + 1..], sep, n - 1);
        HeadFree(s, sep);
        CountAround(s, sep, m);
    }
  }

  /** Which pieces of a split are free of the separator: all but the
      last, and the last too when the split stopped short of `n`. */
  predicate FreePieces(r: seq<string>, sep: char, n: nat)
  {
    forall k :: 0 <= k < |r| && (k < |r| - 1 || |r| < n) ==> sep !in r[k]
  }

  /** Only the last piece of `SplitN` can hold a separator, and only when
      the piece limit was reached. */
  lemma {:induction false} SplitNPieces(s: string, sep: char, n: nat)
    ensures FreePieces(SplitN(s, sep, n), sep, n)
    decreases n
  {
    if n > 1 {
      match IndexOf(s, sep)
      case None =>
      case Some(m) =>
        var rest := SplitN(s[m + 1..], sep, n - 1);
        var r := SplitN(s, sep, n);
        assert r == [s[..m]] + rest;
        SplitNPieces(s[m + 1..], sep, n - 1);
        HeadFree(s, sep);
        forall k | 0 <= k < |r| && (k < |r| - 1 || |r| < n) ensures sep !in r[k] {
          if k > 0 {
            assert r[k] == rest[k - 1];
          }
        }
    }
  }

  /** `strings.Split(s, string(sep))`: every separator splits. */
  function Split(s: string, sep: char): (r: seq<string>)
    ensures |r| >= 1
    decreases |s|
  {
    match IndexOf(s, sep)
    case None => [s]
    case Some(m) => [s[..m]] + Split(s[m + 1..], sep)
  }

  /** In `a + [sep] + b` with no separator in `a`, the first separator
      sits right after `a`. */
  lemma IndexAfterHead(a: string, sep: char, b: string)
    requires sep !in a
    ensures IndexOf(a + [sep] + b, sep) == Some(|a|)
    ensures (a + [sep] + b)[..|a|] == a
    ensures (a + [sep] + b)[|a| + 1..] == b
  {
    var s := a + [sep] + b;
    assert s[..|a|] == a;
    assert s[|a|] == sep;
    assert s[|a| + 1..] == b;
  }

  /** A separator that follows a separator-free head splits there. */
  lemma SplitNCons(a: string, sep: char, b: string, n: nat)
    requires sep !in a && n >= 2
    ensures SplitN(a + [sep] + b, sep, n) == [a] + SplitN(b, sep, n - 1)
  {
    IndexAfterHead(a, sep, b);
  }

  lemma SplitNNoSep(a: string, sep: char, n: nat)
    requires sep !in a && n >= 1
    ensures SplitN(a, sep, n) == [a]
  {
  }

  /** `Split` undoes `Join` when no piece holds the separator. */
  lemma {:induction false} SplitJoin(parts: seq<string>, sep: char)
    requires |parts| >= 1
    requires forall k :: 0 <= k < |parts| ==> sep !in parts[k]
    ensures Split(JoinWith(parts, [sep]), sep) == parts
    decreases |parts|
  {
    if |parts| >= 2 {
      var tail := JoinWith(parts[1..], [sep]);
      JoinCons(parts[0], parts[1..], [sep]);
      assert [parts[0]] + parts[1..] == parts;
      IndexAfterHead(parts[0], sep, tail);
      SplitJoin(parts[1..], sep);
    }
  }
}
