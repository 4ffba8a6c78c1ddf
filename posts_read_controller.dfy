/** src/controllers/postsReadController.js: the paginated listing and the single-post
    view. Both only read the collection. */
module PostsReadController {
  import opened Js
  import opened HttpResponses
  import opened PostsModel
  import opened PostUtils
  import opened PostControllerUtils

  const PageSize := 100

  /** Every post of a page in its response shape. */
  function NormalizeAll(posts: seq<Post>, req: ReqInfo): (r: seq<Json>)
    ensures |r| == |posts|
    ensures forall i :: 0 <= i < |posts| ==> r[i] == JObj(NormalizePostResponse(posts[i], req))
  {
    seq(|posts|, i requires 0 <= i < |posts| => JObj(NormalizePostResponse(posts[i], req)))
  }

  /** The outcome of `listarPosts` for the query parameters `page` and `limit`
      (`None` when absent). */
  function ListarPosts(docs: seq<Post>, page: Option<string>, limit: Option<string>, req: ReqInfo, down: bool): (r: Response)
    ensures r.status == 200 || r == HandleServerError("Falha ao buscar posts")
    ensures r.status == 200 <==> !down
  {
    var pg := ParsePagination(page, limit, PageSize, PageSize);
    match ListNewestFirst(docs, Some(pg.skip), Some(pg.limit), down)
    case Err(_) => HandleServerError("Falha ao buscar posts")
    case Ok(posts) =>
      SendSuccess(Some(200), JArr(NormalizeAll(posts, req)), JUndefined,
                  JObj(map["page" := JNum(pg.page), "limit" := JNum(pg.limit), "hasMore" := JBool(|posts| == pg.limit)]))
  }

  /** A listing replies with the requested page of the collection, newest first, each
      post normalised; at most 100 posts, and `hasMore` holds exactly when the page is
      full. */
  lemma ListarPage(docs: seq<Post>, page: Option<string>, limit: Option<string>, req: ReqInfo)
    ensures var pg := ParsePagination(page, limit, PageSize, PageSize);
            var posts := Page(SortNewestFirst(docs), pg.skip, pg.limit);
            var r := ListarPosts(docs, page, limit, req, false);
            r.status == 200 && "pagination" in r.body && "message" !in r.body
            && r.body["data"] == JArr(NormalizeAll(posts, req))
            && |posts| <= PageSize && NewestFirst(posts)
            && r.body["pagination"] == JObj(map["page" := JNum(pg.page), "limit" := JNum(pg.limit),
                                                "hasMore" := JBool(|posts| == pg.limit)])
  {
    var pg := ParsePagination(page, limit, PageSize, PageSize);
    var sorted := SortNewestFirst(docs);
    PageKeeps(sorted, pg.skip, pg.limit);
  }

  /** The outcome of `obterPostPorId` for `params.id`. A stored post is returned
      normalised; a valid id that matches nothing is a 404; an invalid id makes the
      store throw, so it is a 500 and not a 404. */
  function ObterPostPorId(docs: seq<Post>, id: string, req: ReqInfo, down: bool): (r: Response)
    ensures down || !IsValidObjectId(id) ==> r == HandleServerError("Falha ao buscar post")
    ensures !down && IsValidObjectId(id) && ObjectIdOf(id) !in IdsOf(docs) ==> r == HandleNotFound()
    ensures !down && IsValidObjectId(id) && ObjectIdOf(id) in IdsOf(docs) ==>
              r.status == 200 && r.body.Keys == {"success", "data"}
              && r.body["data"] == JObj(NormalizePostResponse(docs[IndexOf(docs, ObjectIdOf(id)).value], req))
  {
    match FindById(docs, id, down)
    case Err(_) => HandleServerError("Falha ao buscar post")
    case Ok(None) => HandleNotFound()
    case Ok(Some(post)) => SendSuccess(Some(200), JObj(NormalizePostResponse(post, req)), JUndefined, JUndefined)
  }
}
