# Bulk page operations of a Wiki.js command-line client, in Dafny

This project models the core of `src/lib.rs`: the logic a command-line client uses to run bulk
operations against a Wiki.js GraphQL backend. The network calls around that logic are replaced
by their awaited results, which become parameters. Everything is pure: functions and lemmas over
sequences and datatypes.

- **Listing** (`Wiki.ListPages`): the backend's page list may be missing at two levels, and each
  missing level is its own error. When the list is present, the model records how long it is,
  keeps the pages whose path starts with the prefix, and sorts them by path.
- **Privacy guard** (`Wiki.SafetyCheckPrivate`): a page counts as private when one of its tags is
  `Some("private")` or when its path contains `private` anywhere. The guard answers `None` when
  no page is private; otherwise it answers the private pages in input order.
- **Move planning** (`Wiki.PlanMoves`): builds one move mutation per page, in page order. Each
  mutation carries the page id and the path `destination + path[len(prefix)..]`.
- **Batch verdict** (`Wiki.Classify`): a three-way rule. When nothing failed, processing goes on.
  When everything failed, the error is "all failed". When some failed, the error is "partial".
  `move_pages` applies it to transport outcomes and then to JSON decoding outcomes.
- **Reconciliation** (`Wiki.Reconcile`): each decoded reply is walked down
  `data → pages → move_ → response_result`. Replies missing a level are dropped. The remaining
  statuses are split by `succeeded` into a `MoveSuccess`.
- **Whole move** (`Wiki.MovePages`): the move pipeline, run on the awaited outcomes.
- **Site title** (`Wiki.GetWikiTitle`): the title, or a distinct error naming the first missing
  level of the reply.

Modules:

- `Wrappers`: `Option` and `Result`.
- `Strings`: `starts_with`, `contains` and `Ord::cmp` on strings.
- `Seqs`: `filter`, `filter_map` and `partition`.
- `Types`: the GraphQL shapes and the result records.
- `Wiki`: the operations.
- `Scenarios`: worked examples on concrete values.

Strings are sequences of Unicode scalar values. For valid UTF-8, Rust's byte-level `starts_with`,
`contains` and byte ordering agree with the same operations on scalar values. So the only place
the byte/character difference shows is the cut `path[prefix.len()..]` on a path that does not
start with the prefix (see "Left out").

The doc comment on `safety_check_private` (src/lib.rs:359) speaks of `/private/` in the path.
The code tests for the substring `private` anywhere in the path. The model follows the code.

## Model

| member | source | states |
|---|---|---|
| `Wiki.GetWikiTitle` | src/lib.rs:229-241 | A missing `data`, `site`, `config` or `title` each gives its own `bail!` message, checked outermost first. A title comes back only from a reply where every level is present, and it is that reply's title. |
| `Wiki.TitleRoundTrip` | src/lib.rs:229-241 | A reply in which every level is present yields exactly the title it carries. |
| `Wiki.ListPages` | src/lib.rs:261-277 | No `data` gives the "No data in response" error. No `pages` gives the "No pages returned" error. Otherwise the result is `Ok`: `pages_returned` is the length of the unfiltered list and at least the number of kept pages. The kept pages are sorted by path, and every one starts with the prefix. Each page occurs as often as in the listing if its path starts with the prefix, and not at all otherwise, so no page is lost or duplicated. |
| `Wiki.ListPagesKeepsOrder` | src/lib.rs:271-277 | For every path, the listing holds the pages with that path in the order the backend listed them if the path starts with the prefix, and none otherwise. Pages that share a path keep their listing order. |
| `Wiki.WithPathFilter` | src/lib.rs:271-273 | A filter that decides alike for all pages with a given path keeps all of them, in order, or none. |
| `Wiki.SortByPath` | src/lib.rs:274 | The result is sorted ascending by path under `Ord::cmp` and is a permutation of the input. |
| `Wiki.InsertByPath` | src/lib.rs:274 | Inserting a page into a path-sorted sequence keeps it sorted and adds exactly that page. |
| `Wiki.InsertKeepsTies` | src/lib.rs:274 | The inserted page comes before every page that already has the same path. |
| `Wiki.SortByPathStable` | src/lib.rs:274 | For every path, the pages with that path leave the sort in the order they entered it. This is the stability of `sorted_by`. |
| `Wiki.PrivateIff` | src/lib.rs:362-372 | A page is private iff its tags are present and one of them is `Some("private")`, or `"private"` occurs in its path at some position. |
| `Wiki.SafetyCheckPrivate` | src/lib.rs:360-380 | The result is `None` iff no page is private. Otherwise it is non-empty, holds only private pages, and holds every private page as often as the input does. |
| `Wiki.SafetyCheckInOrder` | src/lib.rs:365-379 | The selection keeps input order: the pages selected from `a + b` are those selected from `a` followed by those selected from `b`. |
| `Wiki.PlanMoves` | src/lib.rs:287-300 | There is one operation per page, in page order. Operation i carries page i's id and the destination path `destination + path_i[len(prefix)..]`. |
| `Wiki.MoveRoundTrip` | src/lib.rs:296 | For a page whose path starts with the prefix, the new path starts with the destination. Cutting the destination off and putting the prefix back gives the original path. |
| `Wiki.PlanMovesDistinct` | src/lib.rs:287-300 | Pages under the prefix with distinct paths get distinct destination paths. |
| `Wiki.Classify` | src/lib.rs:311-332 | With no failure, processing goes on with every successful value, in order. When every outcome failed (and there is at least one), the result is the "all failed" error. When the outcomes are mixed, the result is the "partial" error. |
| `Wiki.ResponseResult` | src/lib.rs:337-348 | A status is found only in a reply where `data`, `pages`, `move_` and `response_result` are all present, and it is the status that reply carries. |
| `Wiki.StatusRoundTrip` | src/lib.rs:337-348 | A reply in which every level is present yields exactly its status. |
| `Wiki.Reconcile` | src/lib.rs:334-355 | `success_count` is the number of replies whose status says `succeeded`. The failures are the refused statuses, reply by reply, in order. `success_count` plus the number of failures equals the number of statuses the walk finds, which is at most the number of replies. Every listed failure has `succeeded = false`. `Some` is never empty, and `failures` is `None` iff no status present says `succeeded = false`. |
| `Wiki.ReconcileAppend` | src/lib.rs:334-355 | Reconciling `a + b` adds the success counts of `a` and `b`, and lists `a`'s failures before `b`'s. |
| `Wiki.DropsIncomplete` | src/lib.rs:336-350 | A reply missing any level of the walk changes neither the count nor the failures. |
| `Wiki.AllConfirmed` | src/lib.rs:350-355 | When every reply confirms its move, the report is `success_count = n` and `failures = None`. For no replies, that is `0` and `None`. |
| `Wiki.MovePages` | src/lib.rs:280-356 | Transport failures are judged first, then decoding failures, each with the three-way rule and its own messages. The result is `Ok` iff every request was delivered and decoded. It is then the reconciliation of the decoded replies in request order, and counts at most one outcome per page. |
| `Strings.StartsWith` | src/lib.rs:273 | `s.starts_with(prefix)` holds iff `s` is `prefix` followed by some rest. |
| `Strings.ContainsIffOccurs` | src/lib.rs:371 | The scan in `Contains` succeeds iff the needle occurs as a substring at some index. |
| `Strings.LexLeReflexive` | src/lib.rs:274 | The path ordering is reflexive. |
| `Strings.LexLeTotal` | src/lib.rs:274 | Any two paths are comparable. |
| `Strings.LexLeTransitive` | src/lib.rs:274 | The path ordering is transitive. |
| `Strings.LexLeAntisymmetric` | src/lib.rs:274 | Two paths that are each at most the other are equal. |
| `Seqs.Filter` | src/lib.rs:271-275 | `filter` keeps only elements that satisfy the predicate and never lengthens the sequence. |
| `Seqs.FilterCounts` | src/lib.rs:273 | `filter` keeps each accepted element exactly as often as the input has it, and drops the others. |
| `Seqs.FilterAppend` | src/lib.rs:366-373 | `filter` distributes over concatenation, so the kept elements stay in input order. |
| `Seqs.FilterAllIff` | src/lib.rs:271-273 | `filter` keeps as many elements as the input has iff every element satisfies the predicate, and then it returns the input. |
| `Seqs.PartitionSizes` | src/lib.rs:350 | The two sides of `partition` are together exactly as long as the input. |
| `Seqs.PartitionSplits` | src/lib.rs:350 | Together the two sides of `partition` hold every element of the input exactly as often as the input does. |
| `Seqs.FilterMap` | src/lib.rs:336-349 | `filter_map` never yields more values than the input has elements. The four lemmas below state what it yields. |
| `Seqs.FilterMapFrom` | src/lib.rs:336-349 | Every value `filter_map` yields is the picked value of some input element. |
| `Seqs.FilterMapShortIfMissed` | src/lib.rs:336-349 | When `filter_map` yields one value per element, every element was picked. |
| `Seqs.FilterMapEmptyIff` | src/lib.rs:336-349 | `filter_map` yields nothing iff no element is picked. |
| `Seqs.FilterMapAppend` | src/lib.rs:336-349 | `filter_map` distributes over concatenation, so the picked values stay in input order. |
| `Seqs.FilterOfFilterMap` | src/lib.rs:334-350 | Filtering the output of `filter_map` is one `filter_map` with the combined picker. |
| `Seqs.FilterMapAllPicked` | src/lib.rs:321-324 | When every element is picked, `filter_map` is a `map`: output i comes from input i. |
| `Scenarios.MoveDocsScenario` | src/lib.rs:287-300 | Moving `/docs/old` to `/docs/new` turns `/docs/old/a` and `/docs/old/b/c` into `/docs/new/a` and `/docs/new/b/c`. |
| `Scenarios.TwoOfFiveUndeliveredScenario` | src/lib.rs:311-319 | Five requests, two of them undelivered: the move fails with the "partially complete" error. |
| `Scenarios.OneRefusedOfThreeReconciled` | src/lib.rs:334-355 | Replies confirmed, refused with code 403, and confirmed give `success_count = 2` and `failures = Some([403])`. |
| `Scenarios.OneRefusedOfThreeScenario` | src/lib.rs:280-356 | Three moves all delivered and decoded, one refused with code 403: the move succeeds with `success_count = 2` and the 403 status as its one failure. |
| `Scenarios.PrivateTagScenario` | src/lib.rs:367-370 | A `Some("private")` tag next to a missing tag flags the page. |
| `Scenarios.PrivatePathScenario` | src/lib.rs:371 | `private` inside a longer word of the path flags the page. |

## Left out

- `src/main.rs` is not modelled. It holds command-line parsing, configuration loading, coloured
  output and the confirmation prompts, all of which are user interface.
- `Wiki::new` (building the HTTP client and its bearer header) is not modelled. It is transport
  setup in a foreign library.
- The network sends and `join_all` are not modelled. `Wiki.MovePages` takes the awaited outcomes
  as a sequence with one entry per planned request, in request order. `join_all` keeps that
  order. The concurrency itself is not modelled.
- Query building, `decode_response` and serde decoding are not modelled. Decoded replies are
  inputs, as nested `Option` datatypes.
- The `.expect`/`.unwrap` panics (src/lib.rs:223-227, 254-258, 337) are not modelled. A reply
  that would make them panic cannot be given to the model.
- `list_pages`' `tags` argument is only passed to the server as a filter. The model takes the
  listing the server returned.
- The GraphQL `errors` member of a reply is never read by the source and is not modelled.
- `safety_check_private` returns a lazy `Peekable` iterator. The model returns the sequence that
  iterator would yield.
- An `anyhow` error is reduced to its message (`Bail(message)`).
- `usize` counts are `nat`; a count cannot reach `usize::MAX` in practice.
- `Wiki.PlanMoves`: cuts each path after `|prefix|` characters, while Rust cuts after
  `prefix.len()` bytes. The two agree when the path starts with the prefix, which is always so
  for pages from `list_pages`. For any other path Rust may cut elsewhere, or panic off a
  character boundary. The model only requires the path to be at least as long as the prefix.
- `Wiki.MovePages`: the `zip` with the operations only picks the decoder for each reply. It
  never truncates, because there is one decoded reply per operation. The model pairs replies with
  requests by position.
- Safety-tag derivation and the tagging command are not modelled. Neither is part of
  `src/lib.rs`.
