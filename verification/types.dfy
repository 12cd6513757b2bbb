/** Records shared by the selection engine: the content items the store
    hands out, the relation nodes that carry their reverse-edge lists, and
    Go's 64-bit integer arithmetic where the server increments counters. */
module Types {

  /** Go's `int64` (and `int` on the 64-bit platforms the server runs on). */
  newtype int64 = x: int | -0x8000_0000_0000_0000 <= x < 0x8000_0000_0000_0000

  const MinInt64: int64 := -0x8000_0000_0000_0000
  const MaxInt64: int64 := 0x7fff_ffff_ffff_ffff

  function Min(a: int, b: int): int
  {
    if a <= b then a else b
  }

  /** `x + 1` (or `x++`) in Go: two's-complement wrap-around at the top. */
  function Inc64(x: int64): (r: int64)
    ensures (r as int - x as int - 1) % 0x1_0000_0000_0000_0000 == 0
    ensures x < MaxInt64 ==> r > x
  {
    if x == MaxInt64 then MinInt64 else x + 1
  }

  /** A content item as the selection queries return it (DGraphContent):
      identity, display name, type tag, view counter and the names of its
      artists and writers. */
  datatype Item = Item(
    uid: string,
    name: string,
    kind: string,
    viewCount: int64,
    artists: seq<string>,
    writers: seq<string>)

  /** A label, artist or contributor node together with its reverse-edge
      content list, already ordered by the store. */
  datatype Relation = Relation(name: string, content: seq<Item>)

  /** The focal content node of a detail page with its three relation kinds. */
  datatype ContentNode = ContentNode(
    uid: string,
    labels: seq<Relation>,
    artists: seq<Relation>,
    writtenBy: seq<Relation>)

  /** Why a request ends without a page: the Go code panics on an index
      into an empty query result. */
  datatype Failure = EmptyQueryResult(field: string)

  datatype Result<+T> = Ok(value: T) | Err(error: Failure)

  datatype Option<+T> = None | Some(value: T)

  /** The uid `needle` occurs in `s` (the source's `hasContent`). */
  predicate HasUid(s: seq<Item>, needle: string)
  {
    exists i :: 0 <= i < |s| && s[i].uid == needle
  }

  /** No two entries of `s` share a uid. */
  predicate DistinctUids(s: seq<Item>)
  {
    forall i, j :: 0 <= i < j < |s| ==> s[i].uid != s[j].uid
  }
}
