# Rootsy related-content selection, in Dafny

This project models the selection engine of the Rootsy music-journalism
server (`main.go`). The engine decides which content items a page shows
and what the server writes back to its Dgraph store when it shows them.
The model covers:

- **The duplicate-skipping quota picker.** `hasContent` and `pickContent`
  are in module `Picker`.
- **The two quota ladders.** The detail page (`printContent`) fills from
  every label to 6, every artist to 10, every writer to 14, then the
  extra pool to 16, always skipping the focal uid. The front page
  (`printStart`) fills from the extra pool to 16, then the "rootsy"
  label's list to 24. These are in module `Ladder`.
- **The page compositions.** Module `Pages` puts the ladder together with
  `rand.Shuffle` and `updateRandom`, and also models the extra-content
  JSON API.
- **Random records and shuffling.** `updateRandom`'s record list and its
  effect on the store are in module `Rotation`, together with Go's
  `rand.Shuffle` swap loop.
- **The read counter.** The decision logic of `updateCounter` and
  `readCounter` is in module `Reads`, with the effect of its writes on the
  store.
- **Path dispatch.** `handler` and `readCounter` split the path with
  `strings.SplitN`. This is in module `Routing`, with the `strings`
  functions in `Strs`.
- **String helpers.** `toUrl`, `typeText`, `artistNames` and the
  extra-content link are in module `Text`.

The store's query answers, the clock, `rand.Intn(1000)` and the shuffle's
draws all become inputs. Mutations become lists of records or writes.
Every Go panic on an index into an empty query result becomes an `Err`
value:

- `resp.Content[0]`
- `resp.Rootsy[0]`
- `c.WrittenBy[0]`

## Behaviour of the code as written

- **`pickContent` computes `num = wanted - len(existing)` once.** It then
  walks the first `num` candidates. A candidate that is skipped uses up a
  slot, because it is the focal uid or is already present. So the
  accumulator can end short of `wanted` while later candidates would have
  qualified. `Picker.ShortfallExample` shows this with accumulator [A],
  candidates [A, B] and quota 2. The model states the exact set that is
  appended (`Picker.PickContentAppendsAdmitted`). It also states that the
  quota is reached when nothing in the window is skipped
  (`Picker.PickContentFillsWithoutSkips`).
- **The detail ladder does not start with the extra pool.** The extra pool
  is its last rung.
- **The detail ladder's accumulator starts empty.** The accumulator is the
  focal node's own `Content` list, and the content query fetches no
  `content` edge for the focal node.
- **`updateCounter` returns early when the counter query did not match
  exactly one row.** This happens before both writes. So zero or several
  matches record no visit either.
- **The selection queries never fetch `view_count`.** The `view_count` an
  item carries is then 0, and `updateRandom` writes 1 over whatever the
  store held, so the counter is reset rather than incremented
  (`Rotation.UnfetchedCountsReset`). The model keeps `viewCount` as an
  input field and states every write as one more than the value the query
  returned. Only when that value is the stored one does the write count a
  view (`Rotation.FetchedCountsIncrement`).
- **The viewer upsert pastes the visitor id into N-Quad text unescaped.**
  The id is the fourth piece of the path. A double quote in it ends the
  string literal early, a backslash starts an escape, and a line break
  makes the mutation fail to parse; so the literal changes or the write
  fails.
  `Reads.SingleMatchEffect` is stated for ids without such characters
  (`Reads.NQuadSafe`). The item uid, the third piece of the path, is
  pasted verbatim between angle brackets too. The counter query finds the
  node through the store's own reading of that uid, so another spelling
  of the same node (`1` or `0x01` for `0x1`) is counted, but its visit is
  written under the spelling the path used. The lemma is stated for a
  path that spells the uid as the query returns it.
- **`printStart` runs `updateRandom` before the shuffle; `printContent`
  runs it after.** The records therefore follow pick order on the front
  page and display order on the detail page.
- **Go's `int` and `int64` are 64 bits wide here.** `ViewCount + 1` and
  `ReadCount++` wrap around at the top (`Types.Inc64`).

## Model

| member | source | states |
|---|---|---|
| Types.Inc64 | main.go:838 | the result equals the input plus one modulo 2^64, and is larger whenever the input is below the int64 maximum |
| Picker.Scan | main.go:649-657 | the loop over a window keeps the accumulator as a prefix, adds at most one item per candidate, adds only window items that are neither focal nor already present, and keeps a duplicate-free list duplicate-free |
| Picker.PickContent | main.go:646-659 | a saturated accumulator is unchanged; otherwise the old list is a prefix of the new one, the new length is at most `wanted`, and every added item is a non-focal candidate whose uid was not present; no duplicates are introduced |
| Picker.Contains | main.go:637-644 | the linear search returns true exactly when some element has the uid |
| Picker.PickInto | main.go:646-659 | the index loop with its early `continue`s computes exactly the functional picker |
| Picker.ScanAppendsAdmitted | main.go:649-657 | scanning a window appends exactly the admitted entries: neither focal, nor in the original accumulator, nor a repeat of an earlier window entry, in window order |
| Picker.AdmittedUids | main.go:651-656 | a uid that is neither focal nor present is among the admitted entries exactly when it occurs in the window |
| Picker.PickContentAppendsAdmitted | main.go:648-657 | `pickContent` appends exactly the admitted candidates of its first min(wanted - len(existing), len(candidates)) positions |
| Picker.NoSkipTakesWindow | main.go:649-657 | when no candidate of the window would be skipped, the whole window is appended |
| Picker.PickContentFillsWithoutSkips | main.go:646-657 | without skips the new length is min(wanted, len(existing) + len(candidates)) |
| Picker.ShortfallExample | main.go:648-657 | accumulator [A], candidates [A, B], quota 2 gives [A]: the skipped A uses the only slot |
| Strs.IndexOf | main.go:663 | the `strings.Index` the split relies on: none exactly when the separator is absent, otherwise the first position holding it |
| Strs.SplitN | main.go:663 | `strings.SplitN` with a positive limit gives between one and `n` pieces, and none for limit 0 |
| Strs.JoinLength | main.go:229 | `strings.Join` starts with the first piece, and its length is the pieces' lengths plus one separator between each neighbouring pair |
| Strs.SplitNJoin | main.go:663 | joining the pieces of `SplitN` with the separator rebuilds the path |
| Strs.SplitNCount | main.go:663-664 | `SplitN` gives min(n, number of separators + 1) pieces |
| Strs.SplitNPieces | main.go:663 | only the last piece can contain a separator, and only when the limit was reached |
| Routing.Handler | main.go:661-677 | the uid of an artist or content page is one whole path segment, never holding '/' |
| Routing.HandlerBasics | main.go:663-677 | a path with fewer than two '/' goes to the start page; a routed uid never contains '/'; a search joins the `terms` values with single spaces |
| Routing.HandlerOnShape | main.go:663-677 | a path `p/seg/x[/rest]` dispatches on `seg`: artist, content and search pages, anything else the start page |
| Routing.HandlerArtistIff | main.go:663-667 | the artist page for `x` is served exactly for paths `p/artist/x` optionally followed by `/` and anything |
| Routing.HandlerContentIff | main.go:663-669 | the content page for `x` is served exactly for paths `p/content/x` optionally followed by `/` and anything |
| Routing.HandlerSearchIff | main.go:663-671 | the search page is served exactly for paths whose second segment is `search` and that have a third piece |
| Routing.HandlerStartIff | main.go:663-677 | the start page is served exactly when no reading of the path has artist, content or search as its second segment |
| Routing.ReadTarget | main.go:694-699 | when the handler acts, the item uid and the visitor id are both whole path segments |
| Routing.ReadTargetBasics | main.go:694-697 | the read handler acts exactly when the path holds at least three '/', and both ids are whole segments |
| Routing.ReadTargetOnShape | main.go:694-699 | a path `p/seg/u/v[/rest]` reads item `u` for visitor `v` |
| Routing.ReadTargetIff | main.go:694-699 | the read handler acts on (u, v) exactly for paths `p/seg/u/v` optionally followed by `/` and anything |
| Text.ToUrl | main.go:231-233 | the slug holds only ASCII letters and digits, is no longer than the name, and an all-alphanumeric name is its own slug |
| Text.ToUrlConcat | main.go:231-233 | the slug of a concatenation is the concatenation of the slugs, so kept characters stay in order |
| Text.ToUrlCounts | main.go:231-233 | each letter or digit occurs in the slug as often as in the name; no other character occurs |
| Text.TypeText | main.go:235-248 | each of the four known types gets a label from which the type can be read back; any other tag is shown unchanged |
| Text.TypeTextLabels | main.go:235-248 | exactly eight tags give a label `TypeKey` can read back: the four known types and the four labels themselves, which pass through unchanged |
| Text.ArtistNames | main.go:221-230 | no artists give the empty string and one artist gives that name |
| Text.ArtistNamesRoundTrip | main.go:221-230 | when no name contains '&', splitting the joined string at '&' and trimming the single spaces gives the names back |
| Text.ExtraUrl | main.go:419 | for a uid without '/', the router's own `SplitN(link, "/", 4)` reads the link as the pieces "", `content`, the uid and the slug |
| Text.ExtraUrlRoutes | main.go:419 | the link `/content/<uid>/<slug>` routes back to the content page of that uid |
| Text.ExtraEntry | main.go:416-425 | an entry exists exactly when the item has a writer, and then carries the item's uid, name and type, the `/content/<uid>/<slug>` link, the type's display label and the first writer |
| Text.ExtraEntries | main.go:415-426 | the list is built exactly when every item has a writer, with one entry per item in order |
| Rotation.UpdateRandom | main.go:769-778 | one record per item, in order, with the item's uid, the draw in [0, 1000) and one more than the `view_count` the query returned |
| Rotation.BuildUpdate | main.go:770-778 | the append loop builds exactly that record list |
| Rotation.ApplyRecords | main.go:780-797 | afterwards the store holds exactly its old uids plus the records' uids |
| Rotation.ApplyRecordsEffect | main.go:789-797 | records for distinct nodes set each node to its record and leave every other node unchanged |
| Rotation.UpdateRandomEffect | main.go:769-797 | after `updateRandom` over a duplicate-free list, each item's node has its draw as sort key and one more than the `view_count` the query returned, and no other node changed |
| Rotation.UnfetchedCountsReset | main.go:769-797 | items that arrive with `view_count` 0, as the selection queries deliver them, leave each node's counter at 1 whatever it held before |
| Rotation.FetchedCountsIncrement | main.go:769-797 | when each item carries its stored `view_count`, the write raises the stored counter by one (64-bit) |
| Rotation.SwapPermutes | main.go:313-315 | a swap preserves the multiset of items and the absence of repeated uids |
| Rotation.Shuffle | main.go:313-315 | Go's descending swap loop with draws in [0, i] keeps the length and the multiset of items |
| Rotation.ShufflePermutes | main.go:565-567 | the shuffle yields a permutation of its input and keeps a duplicate-free list duplicate-free |
| Rotation.ShuffleKeepsUids | main.go:313-315 | a uid is on the shuffled list exactly when it was on the list |
| Reads.UpdateCounter | main.go:832-885 | no writes unless exactly one row matched; then the row is written back with the same uid and name and its read count one higher (64-bit), followed by a viewer upsert linking uuid to uid at the timestamp |
| Reads.ReadRequest | main.go:693-700 | a read request issues no writes or two; when it writes, the path had an item and a visitor id, exactly one row matched, and the visitor link goes from the visitor id to the item uid |
| Reads.ReadRequestWrites | main.go:693-699 | a read request writes something exactly when the path has at least three '/' and one row matched; the visitor link then goes from the fourth piece to the third |
| Reads.Apply | main.go:836-885 | a counter write leaves the visitor records alone and a viewer upsert leaves the counters alone |
| Reads.NoMatchNoVisit | main.go:832-834 | with zero or several matches the store is unchanged: no read counted and no visit recorded |
| Reads.SingleMatchCounts | main.go:836-854 | with one match, whatever the visitor id, the counter row comes back with its read count one higher (64-bit) and its uid and name unchanged, and every other counter row is unchanged |
| Reads.SingleMatchEffect | main.go:856-885 | with one match, a visitor id that stays one N-Quad string literal and a path that spells the item uid as the query returns it, the visitor is linked to the uid at the timestamp, its other links are kept and no other visitor changes |
| Ladder.RunLadder | main.go:534-563 | a ladder keeps the accumulator as a prefix, never adds the focal uid, and keeps a duplicate-free list duplicate-free |
| Ladder.LadderDrawsFromSources | main.go:534-563 | every added item comes from some rung's list and was not in the starting accumulator |
| Ladder.LadderBound | main.go:534-563 | a ladder never grows the accumulator beyond its largest quota |
| Ladder.DetailSelection | main.go:534-563 | the detail pick holds at most 16 items with distinct uids, none of them the focal uid |
| Ladder.FrontSelection | main.go:308-310 | the front pick holds at most 24 items with distinct uids |
| Ladder.DetailSources | main.go:534-563 | every item on a detail page comes from one of the focal item's label, artist or writer lists or from the extra pool |
| Ladder.FrontSources | main.go:308-310 | every item on the front page comes from the extra pool or the rootsy label's list |
| Ladder.FrontFills | main.go:308-310 | with no repeated and no empty uid the front pick has min(24, min(16, len(extra)) + len(rootsy list)) items |
| Ladder.PoolRung | main.go:308-309 | with no repeated and no empty uid in the pool, the first rung takes the pool's first min(16, len(extra)) items unchanged |
| Ladder.FrontPoolLeads | main.go:308-310 | under the same conditions the front pick starts with the pool's first min(16, len(extra)) items in pool order, so the rootsy items only follow them |
| Ladder.DetailExample | main.go:534-563 | label [A, B], artist [B, C, D], an empty writer list and extra [E, F] select [A, B, C, D, E, F] |
| Pages.DetailPage | main.go:534-569 | panics exactly when the content query matched nothing; otherwise shows a permutation of the detail pick (at most 16, distinct uids), with one record per shown item carrying one more than the `view_count` the query returned |
| Pages.DetailPageExcludesFocal | main.go:534-567 | the focal item never appears on its own page, shuffle included |
| Pages.FrontPage | main.go:308-317 | panics exactly when the rootsy label is missing; otherwise shows a permutation of the front pick (at most 24, distinct uids), with records in pick order |
| Pages.FrontPageCountsShown | main.go:308-315 | every item shown on the front page ends with its stored counter set to one more than the `view_count` the query returned and a sort key in [0, 1000), and no other node changes |
| Pages.ExtraApi | main.go:412-428 | the records for every pool item go out; the response exists exactly when every item has a writer, and then has one entry per item with the item's uid and link |
| Pages.ExtraApiLinksRoute | main.go:416-419 | every link in the API response routes to the content page of its entry |

## Left out

- Reads.SingleMatchEffect: the N-Quad text of the viewer upsert is abstracted to a structured write, so the lemma requires a visitor id with no double quote, backslash or line break. For other ids the source's literal changes or the mutation fails to parse, and the model does not say what happens. The lemma also requires the path's item uid to be spelled as the counter query returns it. The upsert pastes the path's spelling verbatim into `<...>`, and the model keys the visit by that string. So for another spelling the model does not say which node the store links, or whether the text parses at all. How the store reads uid spellings is not part of this model. The counter write involves neither string and is stated for every id (`Reads.SingleMatchCounts`).
- Dgraph queries, transactions and JSON encoding. Query answers are inputs. The store is reduced to the predicates the modelled writes touch.
- The store's `orderasc:read_count, orderasc:random` ordering and `first:` limits. These belong to the database, so candidate lists are arbitrary.
- `rand.Shuffle` and `rand.Intn` randomness. Draws are inputs with the ranges Go guarantees.
- The schema of the `content` edge of a Viewer node, which is not part of the repository. The model reads it as a list edge keyed by content uid with a `time` facet.
- HTTP serving and templates. This covers `executeTemplate`, the debug live-reload script, the SSE/fsnotify live reload and `main` configuration, which are plumbing and concurrency.
- `printArtist` and `printSearch`, which only run a query and render a template.
- `basicAuth`, `stats` and `favicon`. These are library calls and I/O.
- `escapeText` and `clearMarkers`. Their meaning rests on Go regexp replacement semantics. The lead-in text and picture of an `ExtraContent` entry are not modelled for the same reason.
- `saveSpotify`, `UpdateSpotifyUrl`, the spotify handler and spotify.go. These are file, store and REST I/O.
- `handleOldContent` and its redirects, which are driven by I/O.
- The `fmt.Println` logging and the `Spotify == "x"` template tweak, which do not affect the selection.
