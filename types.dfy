/**
 * The values the bulk-operation core works on: the decoded GraphQL shapes of
 * the `queries` module (list pages, move a page, fetch the site title) and
 * the two result records `ListPages` and `MoveSuccess`.  Every field the
 * backend schema leaves nullable is an `Option`, as in the generated code.
 */
module Types {
  import opened Wrappers

  /** Rust `i32`: page ids and backend error codes are carried, never computed with. */
  newtype i32 = x: int | -0x8000_0000 <= x < 0x8000_0000

  /** `cynic::GraphQlResponse<T>`: the core reads only its `data` member. */
  datatype GraphQlResponse<T> = GraphQlResponse(data: Option<T>)

  // List pages

  /** One page of the listing; `tags` may be absent, and so may each tag. */
  datatype PageListItem = PageListItem(
    id: i32,
    path: string,
    tags: Option<seq<Option<string>>>,
    title: Option<string>)

  datatype PageQuery = PageQuery(list: seq<PageListItem>)

  datatype ListAllPages = ListAllPages(pages: Option<PageQuery>)

  // Move a page

  /** The variables of one move mutation: where the page goes, and which page. */
  datatype MoveSinglePageArguments = MoveSinglePageArguments(destinationPath: string, id: i32)

  /** The backend's verdict on one mutation. */
  datatype ResponseStatus = ResponseStatus(
    errorCode: i32,
    message: Option<string>,
    slug: string,
    succeeded: bool)

  datatype DefaultResponse = DefaultResponse(responseResult: Option<ResponseStatus>)

  /** `move_` in the source (`move` in the schema). */
  datatype PageMutation = PageMutation(move: Option<DefaultResponse>)

  datatype MoveSinglePage = MoveSinglePage(pages: Option<PageMutation>)

  // Site title

  datatype SiteConfig = SiteConfig(title: Option<string>)

  datatype SiteQuery = SiteQuery(config: Option<SiteConfig>)

  datatype GetWikiTitle = GetWikiTitle(site: Option<SiteQuery>)

  // Results of the core

  /** The filtered, sorted working set and the size of the unfiltered listing. */
  datatype ListPages = ListPages(pages: seq<PageListItem>, pagesReturned: nat)

  /** Confirmed moves, and the statuses of the refused ones (`None` when there are none). */
  datatype MoveSuccess = MoveSuccess(successCount: nat, failures: Option<seq<ResponseStatus>>)

  /** An `anyhow` error raised with `bail!`: only its message distinguishes it. */
  datatype WikiError = Bail(message: string)

  /**
   * `send()` failed: the request was not delivered or no response came back
   * (connection, timeout or protocol error).  A reply with an HTTP error status
   * is not one of these: it counts as delivered.  The details are not modelled.
   */
  datatype TransportError = TransportError

  /** A failure of `json()` to read a response body; its details are not modelled. */
  datatype DecodeError = DecodeError
}
