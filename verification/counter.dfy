/** `readCounter` / `updateCounter`: a read of `/read/<uid>/<uuid>` bumps
    the item's read counter and records that the visitor saw it. The
    store's answer to the counter query and the clock are inputs; the
    mutations become a list of writes. */
module Reads {
  import opened Types
  import Routing

  /** The counter query's row for one item (Counter). */
  datatype Counter = Counter(name: string, uid: string, readCount: int64)

  /** The two mutations `updateCounter` can issue, in issue order: the
      counter row written back, then the viewer upsert that links the
      visitor `uuid` to the content uid with the visit time as a facet. */
  datatype Write =
    | SetCounter(row: Counter)
    | UpsertViewer(uuid: string, content: string, time: string)

  /** `updateCounter(uid, uuid)` given the rows the counter query matched
      and the formatted time `ts`: nothing unless exactly one row matched. */
  function UpdateCounter(uid: string, uuid: string, ts: string, matches: seq<Counter>): (w: seq<Write>)
    ensures w == [] <==> |matches| != 1
    ensures |matches| == 1 ==> |w| == 2
    ensures |matches| == 1 ==> w[0].SetCounter? && w[0].row.uid == matches[0].uid && w[0].row.name == matches[0].name
    ensures |matches| == 1 ==> w[0].row.readCount == Inc64(matches[0].readCount)
    ensures |matches| == 1 ==> w[1] == UpsertViewer(uuid, uid, ts)
  {
    if |matches| != 1 then []
    else
      var item := matches[0];
      [SetCounter(item.(readCount := Inc64(item.readCount))), UpsertViewer(uuid, uid, ts)]
  }

  /** `readCounter`: the ids come from the path; a path with fewer than
      four pieces does nothing. */
  function ReadRequest(path: string, ts: string, matches: seq<Counter>): (w: seq<Write>)
    ensures w == [] || |w| == 2
    ensures w != [] ==> Routing.ReadTarget(path).Some? && |matches| == 1
    ensures w != [] ==> w[1] == UpsertViewer(Routing.ReadTarget(path).value.1, Routing.ReadTarget(path).value.0, ts)
  {
    match Routing.ReadTarget(path)
    case None => []
    case Some((u, v)) => UpdateCounter(u, v, ts, matches)
  }

  /** A read request writes something exactly when its path holds at
      least three '/' and the item uid matched one row; the visitor link
      then goes from the fourth piece to the third. */
  lemma ReadRequestWrites(path: string, ts: string, matches: seq<Counter>)
    ensures ReadRequest(path, ts, matches) != [] <==> multiset(path)['/'] >= 3 && |matches| == 1
    ensures ReadRequest(path, ts, matches) != [] ==>
      ReadRequest(path, ts, matches)[1]
        == UpsertViewer(Routing.ReadTarget(path).value.1, Routing.ReadTarget(path).value.0, ts)
  {
    Routing.ReadTargetBasics(path);
  }

  // ---------------------------------------------------------------------
  // The store side.

  /** The counter rows by uid, and for each visitor uuid the content uids
      it links to with their visit times. */
  datatype Store = Store(counters: map<string, Counter>, viewers: map<string, map<string, string>>)

  /** The edges a visitor node has, or none for a uuid not yet stored. */
  function Visits(store: Store, uuid: string): map<string, string>
  {
    if uuid in store.viewers then store.viewers[uuid] else map[]
  }

  /** One mutation: a counter row overwrites the row with its uid; a viewer
      upsert finds or creates the node for `uuid` and sets its edge to
      `content` with the given time. */
  function Apply(store: Store, w: Write): (r: Store)
    ensures w.SetCounter? ==> r.viewers == store.viewers
    ensures w.UpsertViewer? ==> r.counters == store.counters
  {
    match w
    case SetCounter(row) => store.(counters := store.counters[row.uid := row])
    case UpsertViewer(uuid, content, time) =>
      store.(viewers := store.viewers[uuid := Visits(store, uuid)[content := time]])
  }

  function ApplyAll(store: Store, ws: seq<Write>): Store
    decreases |ws|
  {
    if |ws| == 0 then store else ApplyAll(Apply(store, ws[0]), ws[1..])
  }

  /** With no match or several, `updateCounter` changes nothing: no read is
      counted and no visit is recorded. */
  lemma NoMatchNoVisit(store: Store, uid: string, uuid: string, ts: string, matches: seq<Counter>)
    requires |matches| != 1
    ensures ApplyAll(store, UpdateCounter(uid, uuid, ts, matches)) == store
  {
  }

  /** The viewer upsert pastes `uuid` between double quotes into N-Quad
      text without escaping it. A string literal there may not hold a bare
      double quote, backslash or line break: a quote ends the literal
      early, a backslash starts an escape, and a line break makes the
      mutation fail to parse. An id free of these stays the literal it
      reads as. */
  predicate NQuadSafe(uuid: string)
  {
    forall i :: 0 <= i < |uuid| ==> uuid[i] !in {'"', '\\', '\n', '\r'}
  }

  /** With exactly one match the row comes back with its read count one
      higher (64-bit) and its uid and name unchanged, and every other
      counter row is left as it was. The counter write does not involve
      the visitor id. */
  lemma SingleMatchCounts(store: Store, uid: string, uuid: string, ts: string, m: Counter)
    ensures var s := ApplyAll(store, UpdateCounter(uid, uuid, ts, [m]));
      && m.uid in s.counters
      && s.counters[m.uid] == Counter(m.name, m.uid, Inc64(m.readCount))
      && (forall x :: x in store.counters && x != m.uid ==> x in s.counters && s.counters[x] == store.counters[x])
  {
    var ws := UpdateCounter(uid, uuid, ts, [m]);
    ApplyPair(store, ws[0], ws[1]);
    assert ws == [ws[0], ws[1]];
  }

  /** With exactly one match and an id that stays a literal, the visitor is
      linked to `uid` at `ts`, its other links are kept, and no other
      visitor changes. The upsert pastes the path's item uid verbatim
      between angle brackets, while the counter query finds the node
      through the store's own reading of that uid; the link is keyed by
      the store's node only when the path spells the uid the way the query
      returns it. */
  lemma SingleMatchEffect(store: Store, uid: string, uuid: string, ts: string, m: Counter)
    requires NQuadSafe(uuid)
    requires uid == m.uid
    ensures var s := ApplyAll(store, UpdateCounter(uid, uuid, ts, [m]));
      && uuid in s.viewers && uid in s.viewers[uuid] && s.viewers[uuid][uid] == ts
      && (forall c :: c in Visits(store, uuid) && c != uid ==>
            c in s.viewers[uuid] && s.viewers[uuid][c] == Visits(store, uuid)[c])
      && (forall v :: v in store.viewers && v != uuid ==> v in s.viewers && s.viewers[v] == store.viewers[v])
  {
    var ws := UpdateCounter(uid, uuid, ts, [m]);
    ApplyPair(store, ws[0], ws[1]);
    assert ws == [ws[0], ws[1]];
  }

  lemma ApplyPair(store: Store, a: Write, b: Write)
    ensures ApplyAll(store, [a, b]) == Apply(Apply(store, a), b)
  {
    var s1 := Apply(store, a);
    assert [a, b][1..] == [b];
    assert ApplyAll(store, [a, b]) == ApplyAll(s1, [b]);
    assert [b][1..] == [];
    assert ApplyAll(s1, [b]) == ApplyAll(Apply(s1, b), []);
  }
}
