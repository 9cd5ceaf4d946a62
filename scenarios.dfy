/**
 * Worked examples of the move and privacy rules on concrete pages and
 * replies, each an instance of a general lemma in module Wiki.
 */
module Scenarios {
  import opened Wrappers
  import opened Strings
  import opened Types
  import opened Seqs
  import opened Wiki

  function Page(id: i32, path: string, tags: Option<seq<Option<string>>>): PageListItem {
    PageListItem(id, path, tags, None)
  }

  function Status(code: i32, succeeded: bool): ResponseStatus {
    ResponseStatus(code, None, "slug", succeeded)
  }

  /** Moving `/docs/old` to `/docs/new` keeps the rest of each path. */
  lemma MoveDocsScenario()
    ensures PlanMoves([Page(1, "/docs/old/a", None), Page(2, "/docs/old/b/c", None)], "/docs/old", "/docs/new")
         == [MoveSinglePageArguments("/docs/new/a", 1), MoveSinglePageArguments("/docs/new/b/c", 2)]
  {
    var pages := [Page(1, "/docs/old/a", None), Page(2, "/docs/old/b/c", None)];
    var ops := PlanMoves(pages, "/docs/old", "/docs/new");
    assert pages[0].path[9..] == "/a" && "/docs/new" + "/a" == "/docs/new/a";
    assert pages[1].path[9..] == "/b/c" && "/docs/new" + "/b/c" == "/docs/new/b/c";
    assert ops[0] == MoveSinglePageArguments("/docs/new/a", 1);
    assert ops[1] == MoveSinglePageArguments("/docs/new/b/c", 2);
  }

  /** Five requests of which two never reached the backend: the batch fails as partial. */
  lemma TwoOfFiveUndeliveredScenario(pages: seq<PageListItem>, reply: GraphQlResponse<MoveSinglePage>)
    requires |pages| == 5
    ensures MovePages(pages, "", "/new",
                      [Ok(Ok(reply)), Err(TransportError), Ok(Ok(reply)), Err(TransportError), Ok(Ok(reply))])
         == Err(Bail(SomeRequestsFailed))
  {
    var raw: seq<Result<Result<GraphQlResponse<MoveSinglePage>, DecodeError>, TransportError>>
      := [Ok(Ok(reply)), Err(TransportError), Ok(Ok(reply)), Err(TransportError), Ok(Ok(reply))];
    assert raw[0].Ok? && raw[1].Err?;
  }

  /** One refused reply between two confirmed ones: two successes, one failure. */
  lemma OneRefusedOfThreeReconciled()
    ensures Reconcile([StatusResponse(Status(0, true)), StatusResponse(Status(403, false)), StatusResponse(Status(0, true))])
         == MoveSuccess(2, Some([Status(403, false)]))
  {
    var done, refused := StatusResponse(Status(0, true)), StatusResponse(Status(403, false));
    StatusRoundTrip(Status(0, true));
    StatusRoundTrip(Status(403, false));
    assert [done, refused, done] == [done] + ([refused] + [done]);
    ReconcileAppend([done], [refused] + [done]);
    ReconcileAppend([refused], [done]);
    assert Reconcile([done]) == MoveSuccess(1, None) by {
      assert FilterMap(ConfirmedStatus, [done]) == [Status(0, true)];
      assert FilterMap(RefusedStatus, [done]) == [];
    }
    assert Reconcile([refused]) == MoveSuccess(0, Some([Status(403, false)])) by {
      assert FilterMap(ConfirmedStatus, [refused]) == [];
      assert FilterMap(RefusedStatus, [refused]) == [Status(403, false)];
    }
    assert Reconcile([done]) == MoveSuccess(1, None);
    var whole := Reconcile([done, refused, done]);
    assert whole.successCount == 2;
    assert FailureList(whole) == [] + ([Status(403, false)] + []) == [Status(403, false)];
  }

  /**
   * Three replies delivered and decoded, one of them refused with code 403:
   * two moves are counted and the refusal is listed.
   */
  lemma OneRefusedOfThreeScenario(pages: seq<PageListItem>)
    requires |pages| == 3
    ensures MovePages(pages, "", "/new",
                      [Ok(Ok(StatusResponse(Status(0, true)))),
                       Ok(Ok(StatusResponse(Status(403, false)))),
                       Ok(Ok(StatusResponse(Status(0, true))))])
         == Ok(MoveSuccess(2, Some([Status(403, false)])))
  {
    var done, refused := StatusResponse(Status(0, true)), StatusResponse(Status(403, false));
    var raw: seq<Result<Result<GraphQlResponse<MoveSinglePage>, DecodeError>, TransportError>>
      := [Ok(Ok(done)), Ok(Ok(refused)), Ok(Ok(done))];
    FilterMapAllPicked(DecodedResponse, raw);
    assert FilterMap(DecodedResponse, raw) == [done, refused, done];
    OneRefusedOfThreeReconciled();
  }

  /** A `private` tag among the tags flags a page. */
  lemma PrivateTagScenario()
    ensures SafetyCheckPrivate([Page(1, "/team/notes", Some([None, Some("private")]))]).Some?
  {
    var tagged := Page(1, "/team/notes", Some([None, Some("private")]));
    assert tagged.tags.value[1] == Some(PrivateWord);
    assert IsPrivate(tagged);
  }

  /** "private" anywhere inside the path, even within a word, flags a page. */
  lemma PrivatePathScenario()
    ensures SafetyCheckPrivate([Page(2, "/team/" + PrivateWord + "eer/log", Some([]))]).Some?
  {
    var lead := "/team/";
    var page := Page(2, lead + PrivateWord + "eer/log", Some([]));
    assert page.path[|lead|..|lead| + |PrivateWord|] == PrivateWord;
    assert OccursAt(page.path, PrivateWord, |lead|);
    PrivateIff(page);
  }
}
