/** src/utils/postUtils.js: share links, the response shape of a stored post and the
    `page`/`limit` query parameters. */
module PostUtils {
  import opened Js
  import opened Paths
  import opened PostsModel

  /** What a handler reads from the request: `req.protocol` and `req.get('host')`. */
  datatype ReqInfo = ReqInfo(protocol: string, host: string)

  /** The author stored when a request names none. */
  const DefaultAuthor := "Anônimo"

  /** The page of a listing: `page` and `limit` as parsed, and the documents to skip. */
  datatype Pagination = Pagination(page: int, limit: int, skip: int)

  /** `buildShareUrl(req, postId)`: the public link `<protocol>://<host>/posts/<id>`. */
  function BuildShareUrl(req: ReqInfo, postId: string): (r: string)
    ensures StartsWith(r, req.protocol + "://" + req.host + "/posts/")
    ensures |r| == |req.protocol| + |req.host| + 10 + |postId|
  {
    req.protocol + "://" + req.host + "/posts/" + postId
  }

  /** A share link names its post: the id is the link's last path segment, and the
      link is the posts directory of the host joined with the id. */
  lemma ShareUrlNamesPost(req: ReqInfo, postId: string)
    requires postId != "" && '/' !in postId
    ensures BuildShareUrl(req, postId) == Join(req.protocol + "://" + req.host + "/posts", postId)
    ensures LastSegment(BuildShareUrl(req, postId)) == postId
  {
    var dir := req.protocol + "://" + req.host + "/posts";
    assert dir[|dir| - 1] == 's';
    assert BuildShareUrl(req, postId) == dir + "/" + postId;
    JoinChild(dir, postId);
  }

  /** Different posts get different share links on the same host. */
  lemma ShareUrlInjective(req: ReqInfo, a: string, b: string)
    requires BuildShareUrl(req, a) == BuildShareUrl(req, b)
    ensures a == b
  {
    var p := req.protocol + "://" + req.host + "/posts/";
    assert BuildShareUrl(req, a)[|p|..] == a;
    assert BuildShareUrl(req, b)[|p|..] == b;
  }

  /** `normalizePostResponse(post, req)`: the stored document with `imgUrl` defaulted to
      `null` and `shareUrl` added. A stored document always carries both dates, so the
      `|| new Date()` fallbacks never apply. */
  function NormalizePostResponse(post: Post, req: ReqInfo): (r: map<string, Json>)
    ensures r.Keys == PostJson(post).Keys + {"shareUrl"}
    ensures r["imgUrl"] == (if Truthy(post.imgUrl) then post.imgUrl else JNull)
    ensures r["shareUrl"] == JStr(BuildShareUrl(req, post.id))
    ensures forall k :: k in PostJson(post) && k != "imgUrl" ==> r[k] == PostJson(post)[k]
  {
    PostJsonKeys(post);
    PostJson(post)["imgUrl" := Or(post.imgUrl, JNull)]["shareUrl" := JStr(BuildShareUrl(req, post.id))]
  }

  /** `parseInt(v, 10) || fallback` on a query parameter, `None` when it is absent
      (`parseInt(undefined)` is NaN). NaN and 0 give the fallback. */
  function IntOr(v: Option<string>, fallback: int): (r: int)
    ensures v.None? ==> r == fallback
    ensures v.Some? ==> r == (if ParseInt(v.value).Some? && ParseInt(v.value).value != 0
                              then ParseInt(v.value).value else fallback)
  {
    if v.None? then fallback
    else match ParseInt(v.value)
      case Some(n) => if n != 0 then n else fallback
      case None => fallback
  }

  function Max(a: int, b: int): int { if a >= b then a else b }
  function Min(a: int, b: int): int { if a <= b then a else b }

  /** `parsePagination(query, { defaultLimit, maxLimit })`. */
  function ParsePagination(page: Option<string>, limit: Option<string>, defaultLimit: int, maxLimit: int): (r: Pagination)
    ensures r.page >= 1
    ensures 1 <= maxLimit ==> 1 <= r.limit <= maxLimit && r.skip >= 0
    ensures r.skip == (r.page - 1) * r.limit
  {
    var p := Max(IntOr(page, 1), 1);
    var raw := IntOr(limit, defaultLimit);
    var l := Min(Max(raw, 1), maxLimit);
    Pagination(p, l, (p - 1) * l)
  }

  /** A page number that is a positive integer is taken as given; anything else that
      does not parse to a positive number is page 1. */
  lemma PageNumber(n: int, limit: Option<string>, defaultLimit: int, maxLimit: int)
    ensures ParsePagination(Some(IntToString(n)), limit, defaultLimit, maxLimit).page == (if n >= 1 then n else 1)
    ensures ParsePagination(None, limit, defaultLimit, maxLimit).page == 1
  {
    ParseIntRoundTrip(n);
  }

  /** A limit that does not parse, or parses to 0, falls back to the default; every
      limit is clamped into `[1, maxLimit]`. */
  lemma LimitClamp(page: Option<string>, n: int, defaultLimit: int, maxLimit: int)
    requires 1 <= maxLimit
    ensures ParsePagination(page, Some(IntToString(n)), defaultLimit, maxLimit).limit
            == Min(Max(if n != 0 then n else defaultLimit, 1), maxLimit)
  {
    ParseIntRoundTrip(n);
  }

  /** A page that is missing or does not parse is page 1, and a limit that is missing,
      does not parse or parses to 0 is the default, clamped. */
  lemma PaginationFallbacks(s: string, page: Option<string>, limit: Option<string>, defaultLimit: int, maxLimit: int)
    ensures ParseInt(s).None? || ParseInt(s) == Some(0) ==>
              ParsePagination(Some(s), limit, defaultLimit, maxLimit).page == 1
              && ParsePagination(page, Some(s), defaultLimit, maxLimit).limit == Min(Max(defaultLimit, 1), maxLimit)
    ensures ParsePagination(None, limit, defaultLimit, maxLimit).page == 1
    ensures ParsePagination(page, None, defaultLimit, maxLimit).limit == Min(Max(defaultLimit, 1), maxLimit)
  {
  }

  /** Leading whitespace and anything after the digits are ignored: `" 7"` is page 7
      and `"2abc"` is page 2. */
  lemma PaginationOfNumericPrefix(w: string, n: int, t: string, page: Option<string>, limit: Option<string>,
                                  defaultLimit: int, maxLimit: int)
    requires IsBlank(w) && (t == "" || !IsDigit(t[0]))
    ensures ParsePagination(Some(w + IntToString(n) + t), limit, defaultLimit, maxLimit).page == (if n >= 1 then n else 1)
    ensures ParsePagination(page, Some(w + IntToString(n) + t), defaultLimit, maxLimit).limit
            == Min(Max(if n != 0 then n else defaultLimit, 1), maxLimit)
  {
    ParseIntOfNumericPrefix(w, n, t);
  }

  /** The pagination of `?page=2abc&limit=abc` with the read controller's defaults. */
  lemma PaginationOfJunk()
    ensures ParsePagination(Some("2abc"), Some("abc"), 100, 100) == Pagination(2, 100, 100)
  {
    assert IntToString(2) == "2";
    assert "2abc" == "" + IntToString(2) + "abc";
    PaginationOfNumericPrefix("", 2, "abc", None, Some("abc"), 100, 100);
    assert LeadingWs("abc") == 0;
    assert SplitSign("abc") == (false, "abc");
    assert ParseInt("abc").None?;
  }

  /** Page `n + 1` starts exactly where page `n` ends. */
  lemma ConsecutivePagesAdjacent(n: int, limit: Option<string>, defaultLimit: int, maxLimit: int)
    requires n >= 1
    ensures var a := ParsePagination(Some(IntToString(n)), limit, defaultLimit, maxLimit);
            var b := ParsePagination(Some(IntToString(n + 1)), limit, defaultLimit, maxLimit);
            b.limit == a.limit && b.skip == a.skip + a.limit
  {
    var a := ParsePagination(Some(IntToString(n)), limit, defaultLimit, maxLimit);
    var b := ParsePagination(Some(IntToString(n + 1)), limit, defaultLimit, maxLimit);
    PageNumber(n, limit, defaultLimit, maxLimit);
    PageNumber(n + 1, limit, defaultLimit, maxLimit);
    assert b.limit == a.limit;
    StepProduct(n, a.limit);
  }

  lemma StepProduct(n: int, l: int)
    ensures n * l == (n - 1) * l + l
  {
  }
}
