/**
 * The bulk-operation logic of `Wiki` (src/lib.rs) with the network taken out:
 * what the backend returned is a parameter, and each operation is the pure
 * rule the source applies to it.
 *
 *  - ListPages:          keep the pages under a prefix, sorted by path
 *  - SafetyCheckPrivate: pick out the pages that look private
 *  - PlanMoves:          one move mutation per page, prefix replaced by destination
 *  - Classify:           the three-way verdict on a batch of outcomes
 *  - Reconcile:          fold the backend's per-page statuses into a MoveSuccess
 *  - MovePages:          the whole move pipeline from the awaited outcomes
 *  - GetWikiTitle:       the site title, or which level of the reply is missing
 */
module Wiki {
  import opened Wrappers
  import opened Strings
  import opened Seqs
  import opened Types

  // The messages of the errors raised with `bail!`

  const NoDataInTitle := "No data in response"
  const NoSiteReturned := "No site returned"
  const NoConfigReturned := "No config returned"
  const NoTitle := "No title"
  const NoDataInListing := "No data in response: GraphQlResponse{data: None}"
  const NoPagesReturned := "No pages returned: GraphQlResponse{data: Some(ListAllPages{pages: None}}"
  const AllRequestsFailed := "All the requests failed."
  const SomeRequestsFailed := "Some, but not all, requests failed. The move may be partially complete."
  const AllDecodesFailed := "Deserialising JSON from all responses failed."
  const SomeDecodesFailed := "Deserialising JSON from some responses failed. The move may be partially complete."

  /* ---------------------------------------------------------------------- */
  /* Site title                                                              */
  /* ---------------------------------------------------------------------- */

  /** The one reply shape that carries the title `title`. */
  function TitleResponse(title: string): GraphQlResponse<Types.GetWikiTitle> {
    GraphQlResponse(Some(Types.GetWikiTitle(Some(SiteQuery(Some(SiteConfig(Some(title))))))))
  }

  /**
   * `get_wiki_title` after decoding: walk `data → site → config → title`
   * and report the first level that is missing.
   */
  function GetWikiTitle(response: GraphQlResponse<Types.GetWikiTitle>): (r: Result<string, WikiError>)
    ensures r.Ok? ==> response == TitleResponse(r.value)
    ensures response.data.None? ==> r == Err(Bail(NoDataInTitle))
    ensures response.data.Some? && response.data.value.site.None? ==> r == Err(Bail(NoSiteReturned))
    ensures (response.data.Some? && response.data.value.site.Some? && response.data.value.site.value.config.None?)
            ==> r == Err(Bail(NoConfigReturned))
    ensures response == GraphQlResponse(Some(Types.GetWikiTitle(Some(SiteQuery(Some(SiteConfig(None)))))))
            ==> r == Err(Bail(NoTitle))
  {
    match response.data
    case None => Err(Bail(NoDataInTitle))
    case Some(gwt) =>
      match gwt.site
      case None => Err(Bail(NoSiteReturned))
      case Some(sq) =>
        match sq.config
        case None => Err(Bail(NoConfigReturned))
        case Some(sc) =>
          match sc.title
          case None => Err(Bail(NoTitle))
          case Some(t) => Ok(t)
  }

  /** A reply carrying a title yields exactly that title. */
  lemma TitleRoundTrip(title: string)
    ensures GetWikiTitle(TitleResponse(title)) == Ok(title)
  {
  }

  /* ---------------------------------------------------------------------- */
  /* Page listing                                                            */
  /* ---------------------------------------------------------------------- */

  /** Ascending by path under `Ord::cmp`. */
  predicate SortedByPath(pages: seq<PageListItem>) {
    forall i, j :: 0 <= i < j < |pages| ==> LexLe(pages[i].path, pages[j].path)
  }

  lemma SortedTail(pages: seq<PageListItem>)
    requires SortedByPath(pages) && pages != []
    ensures SortedByPath(pages[1..])
  {
    var tail := pages[1..];
    forall i, j | 0 <= i < j < |tail|
      ensures LexLe(tail[i].path, tail[j].path)
    {
      assert tail[i] == pages[i + 1] && tail[j] == pages[j + 1];
    }
  }

  lemma ConsSorted(first: PageListItem, rest: seq<PageListItem>)
    requires SortedByPath(rest)
    requires forall k :: 0 <= k < |rest| ==> LexLe(first.path, rest[k].path)
    ensures SortedByPath([first] + rest)
  {
    var pages := [first] + rest;
    forall i, j | 0 <= i < j < |pages|
      ensures LexLe(pages[i].path, pages[j].path)
    {
      assert pages[j] == rest[j - 1];
      if i > 0 {
        assert pages[i] == rest[i - 1];
      }
    }
  }

  /** A page not after the first of a sorted sequence is not after any of it. */
  lemma BelowSorted(page: PageListItem, sorted: seq<PageListItem>)
    requires SortedByPath(sorted) && sorted != [] && LexLe(page.path, sorted[0].path)
    ensures forall k :: 0 <= k < |sorted| ==> LexLe(page.path, sorted[k].path)
  {
    forall k | 0 < k < |sorted|
      ensures LexLe(page.path, sorted[k].path)
    {
      LexLeTransitive(page.path, sorted[0].path, sorted[k].path);
    }
  }

  /** The first of a sorted sequence is not after anything made of its tail and a larger page. */
  lemma HeadBelowRest(page: PageListItem, sorted: seq<PageListItem>, rest: seq<PageListItem>)
    requires SortedByPath(sorted) && sorted != [] && LexLe(sorted[0].path, page.path)
    requires multiset(rest) == multiset(sorted[1..]) + multiset{page}
    ensures forall k :: 0 <= k < |rest| ==> LexLe(sorted[0].path, rest[k].path)
  {
    forall k | 0 <= k < |rest|
      ensures LexLe(sorted[0].path, rest[k].path)
    {
      assert rest[k] in multiset(rest);
      if rest[k] != page {
        assert rest[k] in multiset(sorted[1..]);
        var j :| 0 <= j < |sorted[1..]| && sorted[1..][j] == rest[k];
        assert sorted[j + 1] == rest[k];
      }
    }
  }

  /** Put `page` before the first page whose path is not smaller than its own. */
  function InsertByPath(page: PageListItem, sorted: seq<PageListItem>): (r: seq<PageListItem>)
    ensures multiset(r) == multiset(sorted) + multiset{page}
    ensures SortedByPath(sorted) ==> SortedByPath(r)
  {
    if sorted == [] then [page]
    else if LexLe(page.path, sorted[0].path) then
      assert SortedByPath(sorted) ==> SortedByPath([page] + sorted) by {
        if SortedByPath(sorted) {
          BelowSorted(page, sorted);
          ConsSorted(page, sorted);
        }
      }
      [page] + sorted
    else
      var rest := InsertByPath(page, sorted[1..]);
      assert sorted == [sorted[0]] + sorted[1..];
      assert SortedByPath(sorted) ==> SortedByPath([sorted[0]] + rest) by {
        if SortedByPath(sorted) {
          LexLeTotal(page.path, sorted[0].path);
          SortedTail(sorted);
          HeadBelowRest(page, sorted, rest);
          ConsSorted(sorted[0], rest);
        }
      }
      [sorted[0]] + rest
  }

  /** `sorted_by(|a, b| Ord::cmp(&a.path, &b.path))`: a sort by path. */
  function SortByPath(pages: seq<PageListItem>): (r: seq<PageListItem>)
    ensures SortedByPath(r)
    ensures multiset(r) == multiset(pages)
  {
    if pages == [] then []
    else
      assert pages == [pages[0]] + pages[1..];
      InsertByPath(pages[0], SortByPath(pages[1..]))
  }

  /** The pages whose path is `path`, in their order in `pages`. */
  function WithPath(path: string, pages: seq<PageListItem>): seq<PageListItem> {
    if pages == [] then []
    else (if pages[0].path == path then [pages[0]] else []) + WithPath(path, pages[1..])
  }

  lemma WithPathCons(path: string, first: PageListItem, rest: seq<PageListItem>)
    ensures WithPath(path, [first] + rest) == (if first.path == path then [first] else []) + WithPath(path, rest)
  {
    assert ([first] + rest)[1..] == rest;
  }

  lemma {:induction false} InsertKeepsTies(path: string, page: PageListItem, sorted: seq<PageListItem>)
    ensures WithPath(path, InsertByPath(page, sorted))
         == (if page.path == path then [page] else []) + WithPath(path, sorted)
  {
    if sorted == [] {
      WithPathCons(path, page, []);
    } else if LexLe(page.path, sorted[0].path) {
      WithPathCons(path, page, sorted);
    } else {
      var first, tail := sorted[0], sorted[1..];
      var rest := InsertByPath(page, tail);
      var head := if first.path == path then [first] else [];
      var mine := if page.path == path then [page] else [];
      LexLeReflexive(page.path);
      assert head == [] || mine == [];
      calc {
        WithPath(path, InsertByPath(page, sorted));
        WithPath(path, [first] + rest);
        { WithPathCons(path, first, rest); }
        head + WithPath(path, rest);
        { InsertKeepsTies(path, page, tail); }
        head + (mine + WithPath(path, tail));
        { SwapEmpty(head, mine, WithPath(path, tail)); }
        mine + (head + WithPath(path, tail));
        mine + WithPath(path, sorted);
      }
    }
  }

  /**
   * The sort is stable: for every path, the pages with that path come out
   * in the order they went in.  With sortedness and the multiset equality
   * this pins the result down to the one `sorted_by` (a stable sort) gives.
   */
  lemma {:induction false} SortByPathStable(path: string, pages: seq<PageListItem>)
    ensures WithPath(path, SortByPath(pages)) == WithPath(path, pages)
  {
    if pages != [] {
      SortByPathStable(path, pages[1..]);
      InsertKeepsTies(path, pages[0], SortByPath(pages[1..]));
    }
  }

  /**
   * `list_pages` after the listing query has been answered: fail when the
   * reply has no `data` or no `pages`; otherwise count the whole listing, keep
   * the pages whose path starts with `prefix` and sort them by path.
   */
  function ListPages(response: GraphQlResponse<ListAllPages>, prefix: string): (r: Result<Types.ListPages, WikiError>)
    ensures response.data.None? ==> r == Err(Bail(NoDataInListing))
    ensures response.data.Some? && response.data.value.pages.None? ==> r == Err(Bail(NoPagesReturned))
    ensures r.Ok? <==> response.data.Some? && response.data.value.pages.Some?
    ensures r.Ok? ==>
      var listed := response.data.value.pages.value.list;
      && r.value.pagesReturned == |listed|
      && |r.value.pages| <= r.value.pagesReturned
      && SortedByPath(r.value.pages)
      && (forall i :: 0 <= i < |r.value.pages| ==> StartsWith(r.value.pages[i].path, prefix))
      && (forall p :: multiset(r.value.pages)[p] == if StartsWith(p.path, prefix) then multiset(listed)[p] else 0)
  {
    match response.data
    case None => Err(Bail(NoDataInListing))
    case Some(lap) =>
      match lap.pages
      case None => Err(Bail(NoPagesReturned))
      case Some(pq) =>
        var underPrefix := (p: PageListItem) => StartsWith(p.path, prefix);
        var filtered := Filter(underPrefix, pq.list);
        FilterCounts(underPrefix, pq.list);
        var sorted := SortByPath(filtered);
        assert forall i :: 0 <= i < |sorted| ==> StartsWith(sorted[i].path, prefix) by {
          forall i | 0 <= i < |sorted|
            ensures StartsWith(sorted[i].path, prefix)
          {
            assert sorted[i] in multiset(filtered);
          }
        }
        Ok(Types.ListPages(sorted, |pq.list|))
  }

  /**
   * A filter that treats every page with path `path` alike either keeps all
   * of them, in their order, or none.
   */
  lemma {:induction false} WithPathFilter(path: string, keep: PageListItem -> bool, kept: bool, pages: seq<PageListItem>)
    requires forall p: PageListItem :: p.path == path ==> keep(p) == kept
    ensures WithPath(path, Filter(keep, pages)) == if kept then WithPath(path, pages) else []
  {
    if pages != [] {
      var first, tail := pages[0], pages[1..];
      WithPathFilter(path, keep, kept, tail);
      assert pages == [first] + tail;
      WithPathCons(path, first, tail);
      if keep(first) {
        assert Filter(keep, pages) == [first] + Filter(keep, tail);
        WithPathCons(path, first, Filter(keep, tail));
      } else {
        assert Filter(keep, pages) == Filter(keep, tail);
      }
    }
  }

  /**
   * The listing keeps pages that share a path in the order the backend
   * listed them, and lists none for a path outside the prefix.
   */
  lemma ListPagesKeepsOrder(response: GraphQlResponse<ListAllPages>, prefix: string, path: string)
    requires ListPages(response, prefix).Ok?
    ensures WithPath(path, ListPages(response, prefix).value.pages)
         == if StartsWith(path, prefix) then WithPath(path, response.data.value.pages.value.list) else []
  {
    var listed := response.data.value.pages.value.list;
    var underPrefix := (p: PageListItem) => StartsWith(p.path, prefix);
    assert ListPages(response, prefix).value.pages == SortByPath(Filter(underPrefix, listed));
    SortByPathStable(path, Filter(underPrefix, listed));
    WithPathFilter(path, underPrefix, StartsWith(path, prefix), listed);
  }

  /* ---------------------------------------------------------------------- */
  /* Privacy guard                                                           */
  /* ---------------------------------------------------------------------- */

  const PrivateWord := "private"

  /** The page carries the tag `Some("private")` or its path contains "private". */
  predicate IsPrivate(page: PageListItem) {
    var privateTag := match page.tags
      case Some(tags) => Some(PrivateWord) in tags
      case None => false;
    var privatePath := Contains(page.path, PrivateWord);
    privateTag || privatePath
  }

  /** The private-page rule stated with plain quantifiers. */
  lemma PrivateIff(page: PageListItem)
    ensures IsPrivate(page) <==>
      || (page.tags.Some? && exists i :: 0 <= i < |page.tags.value| && page.tags.value[i] == Some(PrivateWord))
      || (exists i :: OccursAt(page.path, PrivateWord, i))
  {
    ContainsIffOccurs(page.path, PrivateWord);
  }

  /**
   * `safety_check_private`: `None` when no page is private, otherwise the
   * private pages (a non-empty selection).
   */
  function SafetyCheckPrivate(pages: seq<PageListItem>): (r: Option<seq<PageListItem>>)
    ensures r.None? <==> forall i :: 0 <= i < |pages| ==> !IsPrivate(pages[i])
    ensures r.Some? ==> r.value != []
    ensures r.Some? ==> forall i :: 0 <= i < |r.value| ==> IsPrivate(r.value[i])
    ensures r.Some? ==> forall p :: multiset(r.value)[p] == if IsPrivate(p) then multiset(pages)[p] else 0
  {
    var privatePages := Filter(IsPrivate, pages);
    FilterEmptyIff(IsPrivate, pages);
    FilterCounts(IsPrivate, pages);
    if privatePages != [] then Some(privatePages) else None
  }

  /** The pages a safety check flags; none when it answers `None`. */
  function Flagged(check: Option<seq<PageListItem>>): seq<PageListItem> {
    match check
    case None => []
    case Some(pages) => pages
  }

  /**
   * The flagged pages keep their input order: those of a first batch come
   * before those of the pages that follow it.
   */
  lemma {:induction false} SafetyCheckInOrder(first: seq<PageListItem>, rest: seq<PageListItem>)
    ensures Flagged(SafetyCheckPrivate(first + rest))
         == Flagged(SafetyCheckPrivate(first)) + Flagged(SafetyCheckPrivate(rest))
  {
    FilterAppend(IsPrivate, first, rest);
    FilterEmptyIff(IsPrivate, first);
    FilterEmptyIff(IsPrivate, rest);
    FilterEmptyIff(IsPrivate, first + rest);
  }

  /* ---------------------------------------------------------------------- */
  /* Move planning                                                           */
  /* ---------------------------------------------------------------------- */

  /**
   * The arguments of the move mutation built for each page, in page order:
   * the page's id, and its path with the first `|prefix|` characters replaced
   * by `destination`.
   */
  function PlanMoves(pages: seq<PageListItem>, prefix: string, destination: string): (ops: seq<MoveSinglePageArguments>)
    requires forall i :: 0 <= i < |pages| ==> |prefix| <= |pages[i].path|
    ensures |ops| == |pages|
    ensures forall i :: 0 <= i < |pages| ==>
      ops[i] == MoveSinglePageArguments(destination + pages[i].path[|prefix|..], pages[i].id)
  {
    seq(|pages|, i requires 0 <= i < |pages| =>
      MoveSinglePageArguments(destination + pages[i].path[|prefix|..], pages[i].id))
  }

  /**
   * For a page under the prefix, the new path starts with the destination,
   * and taking the destination off again and putting the prefix back gives
   * the original path.
   */
  lemma {:induction false} MoveRoundTrip(pages: seq<PageListItem>, prefix: string, destination: string, i: int)
    requires forall k :: 0 <= k < |pages| ==> |prefix| <= |pages[k].path|
    requires 0 <= i < |pages| && StartsWith(pages[i].path, prefix)
    ensures StartsWith(PlanMoves(pages, prefix, destination)[i].destinationPath, destination)
    ensures prefix + PlanMoves(pages, prefix, destination)[i].destinationPath[|destination|..] == pages[i].path
  {
    var path := pages[i].path;
    var moved := PlanMoves(pages, prefix, destination)[i].destinationPath;
    assert moved[|destination|..] == path[|prefix|..];
    assert path == path[..|prefix|] + path[|prefix|..];
  }

  /** Pages under the prefix with distinct paths are never moved onto the same path. */
  lemma {:induction false} PlanMovesDistinct(pages: seq<PageListItem>, prefix: string, destination: string)
    requires forall k :: 0 <= k < |pages| ==> |prefix| <= |pages[k].path|
    requires forall k :: 0 <= k < |pages| ==> StartsWith(pages[k].path, prefix)
    requires forall i, j :: 0 <= i < j < |pages| ==> pages[i].path != pages[j].path
    ensures forall i, j :: 0 <= i < j < |pages| ==>
      PlanMoves(pages, prefix, destination)[i].destinationPath != PlanMoves(pages, prefix, destination)[j].destinationPath
  {
    var ops := PlanMoves(pages, prefix, destination);
    forall i, j | 0 <= i < j < |pages|
      ensures ops[i].destinationPath != ops[j].destinationPath
    {
      MoveRoundTrip(pages, prefix, destination, i);
      MoveRoundTrip(pages, prefix, destination, j);
    }
  }

  /* ---------------------------------------------------------------------- */
  /* Batch outcome classification                                            */
  /* ---------------------------------------------------------------------- */

  function OkValue<T, E>(outcome: Result<T, E>): Option<T> {
    match outcome
    case Ok(v) => Some(v)
    case Err(_) => None
  }

  predicate IsErr<T, E>(outcome: Result<T, E>) {
    outcome.Err?
  }

  /**
   * Partition a batch into successes and failures and decide: no failure
   * lets the batch go on with the successful values in order; only failures
   * raises `allFailed`; a mixture raises `someFailed`.
   */
  function Classify<T(!new), E(!new)>(outcomes: seq<Result<T, E>>, allFailed: string, someFailed: string)
    : (r: Result<seq<T>, WikiError>)
    ensures r.Ok? <==> forall i :: 0 <= i < |outcomes| ==> outcomes[i].Ok?
    ensures r.Ok? ==> |r.value| == |outcomes| && forall i :: 0 <= i < |outcomes| ==> outcomes[i] == Ok(r.value[i])
    ensures |outcomes| > 0 && (forall i :: 0 <= i < |outcomes| ==> outcomes[i].Err?)
            ==> r == Err(Bail(allFailed))
    ensures (exists i :: 0 <= i < |outcomes| && outcomes[i].Ok?) && (exists i :: 0 <= i < |outcomes| && outcomes[i].Err?)
            ==> r == Err(Bail(someFailed))
  {
    var ok := FilterMap(OkValue, outcomes);
    var err := Filter(IsErr, outcomes);
    FilterEmptyIff(IsErr, outcomes);
    FilterMapEmptyIff(OkValue, outcomes);
    if |err| == 0 then
      FilterMapAllPicked(OkValue, outcomes);
      Ok(ok)
    else if |ok| == 0 then
      Err(Bail(allFailed))
    else
      Err(Bail(someFailed))
  }

  /* ---------------------------------------------------------------------- */
  /* Reconciliation                                                          */
  /* ---------------------------------------------------------------------- */

  /** The one reply shape that carries the status `status`. */
  function StatusResponse(status: ResponseStatus): GraphQlResponse<MoveSinglePage> {
    GraphQlResponse(Some(MoveSinglePage(Some(PageMutation(Some(DefaultResponse(Some(status))))))))
  }

  /** The walk `data → pages → move_ → response_result`, `None` at the first missing level. */
  function ResponseResult(response: GraphQlResponse<MoveSinglePage>): (r: Option<ResponseStatus>)
    ensures r.Some? ==> response == StatusResponse(r.value)
  {
    match response.data
    case None => None
    case Some(t) =>
      match t.pages
      case None => None
      case Some(ptm) =>
        match ptm.move
        case None => None
        case Some(dr) => dr.responseResult
  }

  /** A reply carrying a status yields exactly that status. */
  lemma StatusRoundTrip(status: ResponseStatus)
    ensures ResponseResult(StatusResponse(status)) == Some(status)
  {
  }

  /** The status of a reply whose backend confirmed the move; `None` for any other reply. */
  function ConfirmedStatus(response: GraphQlResponse<MoveSinglePage>): Option<ResponseStatus> {
    var status := ResponseResult(response);
    if status.Some? && status.value.succeeded then status else None
  }

  /** The status of a reply whose backend refused the move; `None` for any other reply. */
  function RefusedStatus(response: GraphQlResponse<MoveSinglePage>): Option<ResponseStatus> {
    var status := ResponseResult(response);
    if status.Some? && !status.value.succeeded then status else None
  }

  /** The failures a report lists; none when it says `None`. */
  function FailureList(report: MoveSuccess): seq<ResponseStatus> {
    match report.failures
    case None => []
    case Some(f) => f
  }

  /**
   * The final step of `move_pages`: take the status out of every decoded
   * reply (dropping the replies that miss a level) and split the statuses by
   * `succeeded`.
   */
  function Reconcile(responses: seq<GraphQlResponse<MoveSinglePage>>): (r: MoveSuccess)
    ensures r.successCount == |FilterMap(ConfirmedStatus, responses)|
    ensures FailureList(r) == FilterMap(RefusedStatus, responses)
    ensures r.successCount + |FailureList(r)| == |FilterMap(ResponseResult, responses)| <= |responses|
    ensures forall i :: 0 <= i < |FailureList(r)| ==> !FailureList(r)[i].succeeded
    ensures r.failures.Some? ==> r.failures.value != []
    ensures r.failures.None? <==>
      forall i :: 0 <= i < |responses| && ResponseResult(responses[i]).Some? ==> ResponseResult(responses[i]).value.succeeded
  {
    var statuses := FilterMap(ResponseResult, responses);
    var succeeded := (status: ResponseStatus) => status.succeeded;
    var refused := (status: ResponseStatus) => !status.succeeded;
    var ok := Filter(succeeded, statuses);
    var err := Filter(refused, statuses);
    PartitionSizes(succeeded, refused, statuses);
    FilterOfFilterMap(succeeded, ResponseResult, ConfirmedStatus, responses);
    FilterOfFilterMap(refused, ResponseResult, RefusedStatus, responses);
    FilterMapEmptyIff(RefusedStatus, responses);
    assert forall i :: 0 <= i < |responses| ==>
      (RefusedStatus(responses[i]).None? <==>
       (ResponseResult(responses[i]).Some? ==> ResponseResult(responses[i]).value.succeeded));
    MoveSuccess(|ok|, if |err| == 0 then None else Some(err))
  }

  /**
   * Reconciling two runs of replies together adds their counts and lists the
   * failures of the first run before those of the second.
   */
  lemma {:induction false} ReconcileAppend(first: seq<GraphQlResponse<MoveSinglePage>>, rest: seq<GraphQlResponse<MoveSinglePage>>)
    ensures Reconcile(first + rest).successCount == Reconcile(first).successCount + Reconcile(rest).successCount
    ensures FailureList(Reconcile(first + rest)) == FailureList(Reconcile(first)) + FailureList(Reconcile(rest))
  {
    FilterMapAppend(ConfirmedStatus, first, rest);
    FilterMapAppend(RefusedStatus, first, rest);
  }

  /** A reply that misses a level counts neither as a success nor as a failure. */
  lemma DropsIncomplete(responses: seq<GraphQlResponse<MoveSinglePage>>, incomplete: GraphQlResponse<MoveSinglePage>)
    requires ResponseResult(incomplete).None?
    ensures Reconcile(responses + [incomplete]) == Reconcile(responses)
  {
    ReconcileAppend(responses, [incomplete]);
    assert Reconcile([incomplete]) == MoveSuccess(0, None);
    var before := Reconcile(responses);
    assert FailureList(before) + [] == FailureList(before);
  }

  /** When every reply confirms its move, the report is `n` successes and no failures. */
  lemma {:induction false} AllConfirmed(responses: seq<GraphQlResponse<MoveSinglePage>>)
    requires forall i :: 0 <= i < |responses| ==>
      ResponseResult(responses[i]).Some? && ResponseResult(responses[i]).value.succeeded
    ensures Reconcile(responses) == MoveSuccess(|responses|, None)
  {
    FilterMapAllPicked(ConfirmedStatus, responses);
    FilterMapEmptyIff(RefusedStatus, responses);
  }

  /* ---------------------------------------------------------------------- */
  /* The move pipeline                                                       */
  /* ---------------------------------------------------------------------- */

  /** The decoded reply inside an outcome that was both delivered and decoded. */
  function DecodedResponse(outcome: Result<Result<GraphQlResponse<MoveSinglePage>, DecodeError>, TransportError>)
    : Option<GraphQlResponse<MoveSinglePage>>
  {
    match outcome
    case Ok(Ok(response)) => Some(response)
    case _ => None
  }

  /**
   * `move_pages` once the requests `PlanMoves(pages, prefix, destination)`
   * have been sent: `raw[i]` is what sending the i-th of them gave, and, when
   * it was delivered, what reading its body as JSON gave.  Transport failures
   * are judged first, then decoding failures; a batch clean on both levels is
   * reconciled into a report.
   */
  function MovePages(
    pages: seq<PageListItem>,
    prefix: string,
    destination: string,
    raw: seq<Result<Result<GraphQlResponse<MoveSinglePage>, DecodeError>, TransportError>>)
    : (r: Result<MoveSuccess, WikiError>)
    requires forall i :: 0 <= i < |pages| ==> |prefix| <= |pages[i].path|
    requires |raw| == |PlanMoves(pages, prefix, destination)|
    ensures |raw| > 0 && (forall i :: 0 <= i < |raw| ==> raw[i].Err?)
            ==> r == Err(Bail(AllRequestsFailed))
    ensures (exists i :: 0 <= i < |raw| && raw[i].Ok?) && (exists i :: 0 <= i < |raw| && raw[i].Err?)
            ==> r == Err(Bail(SomeRequestsFailed))
    ensures |raw| > 0 && (forall i :: 0 <= i < |raw| ==> raw[i].Ok? && raw[i].value.Err?)
            ==> r == Err(Bail(AllDecodesFailed))
    ensures (forall i :: 0 <= i < |raw| ==> raw[i].Ok?)
            && (exists i :: 0 <= i < |raw| && raw[i].Ok? && raw[i].value.Ok?)
            && (exists i :: 0 <= i < |raw| && raw[i].Ok? && raw[i].value.Err?)
            ==> r == Err(Bail(SomeDecodesFailed))
    ensures r.Ok? <==> forall i :: 0 <= i < |raw| ==> DecodedResponse(raw[i]).Some?
    ensures r.Ok? ==> r.value == Reconcile(FilterMap(DecodedResponse, raw))
    ensures r.Ok? ==> r.value.successCount + |FailureList(r.value)| <= |pages|
  {
    match Classify(raw, AllRequestsFailed, SomeRequestsFailed)
    case Err(e) => Err(e)
    case Ok(delivered) =>
      match Classify(delivered, AllDecodesFailed, SomeDecodesFailed)
      case Err(e) => Err(e)
      case Ok(decoded) =>
        FilterMapAllPicked(DecodedResponse, raw);
        assert decoded == FilterMap(DecodedResponse, raw);
        Ok(Reconcile(decoded))
  }
}
