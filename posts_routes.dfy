/** src/routes/postsRoutes.js: the route table of the API, the handler chain of each
    route, and the module's own copies of the upload filter, the upload error handler
    and the validators. The filter and the validators are the same code as in
    src/middleware/upload.js and src/middleware/validation.js and are modelled by the
    members of `UploadMiddleware` and `Validation`; the error handler differs and has
    its own member here.

    The table is data. The chains that guard a handler with a validator or with the
    upload middleware are also given as functions that compose the models of each
    stage. A request path is given already split at `/`. */
module PostsRoutes {
  import opened Js
  import opened Fs
  import opened HttpResponses
  import opened PostsModel
  import opened PostUtils
  import Validation
  import UploadMiddleware
  import ErrorHandlers
  import PostControllerUtils
  import PostsController
  import PostsWriteController
  import PostsInteractionController
  import PostsUploadController

  // ---------------------------------------------------------------------------
  // Loading the module

  /** A named import `import { name } from from`. */
  datatype Import = Import(name: string, from: string)

  const LegacyController := "../controllers/postsController.js"
  const WriteController := "../controllers/postsWriteController.js"

  /** The names the two controller modules export. */
  const ModuleExports: map<string, set<string>> := map[
    LegacyController := {"listarPosts", "obterPostPorId", "postarNovoPost", "uploadImagem",
                         "atualizarNovoPost", "adicionarComentario", "curtirPost"},
    WriteController := {"postarNovoPost", "atualizarNovoPost", "deletarPostController"}]

  /** The imports at the head of the routes module: every handler from the legacy
      controller. */
  const ImportsAsWritten: seq<Import> := [
    Import("listarPosts", LegacyController), Import("obterPostPorId", LegacyController),
    Import("postarNovoPost", LegacyController), Import("uploadImagem", LegacyController),
    Import("atualizarNovoPost", LegacyController), Import("deletarPostController", LegacyController),
    Import("adicionarComentario", LegacyController), Import("curtirPost", LegacyController)]

  /** The imports with the edit and delete handlers taken from the module that defines
      the delete handler and validates partial edits. */
  const ImportsCorrected: seq<Import> := [
    Import("listarPosts", LegacyController), Import("obterPostPorId", LegacyController),
    Import("postarNovoPost", LegacyController), Import("uploadImagem", LegacyController),
    Import("atualizarNovoPost", WriteController), Import("deletarPostController", WriteController),
    Import("adicionarComentario", LegacyController), Import("curtirPost", LegacyController)]

  predicate Resolves(imp: Import, exports: map<string, set<string>>) {
    imp.from in exports && imp.name in exports[imp.from]
  }

  /** The `SyntaxError` an ES module fails to load with when a named import is missing. */
  function MissingExport(imp: Import): string {
    "The requested module '" + imp.from + "' does not provide an export named '" + imp.name + "'"
  }

  /** ES module linking: the module loads when every named import is exported by the
      module it names; otherwise loading fails on the first one that is not. */
  function Link(imports: seq<Import>, exports: map<string, set<string>>): (r: Result<()>)
    ensures r.Ok? <==> forall i :: 0 <= i < |imports| ==> Resolves(imports[i], exports)
    ensures r.Err? ==> exists i :: 0 <= i < |imports| && !Resolves(imports[i], exports)
                                   && r.message == MissingExport(imports[i])
                                   && forall j :: 0 <= j < i ==> Resolves(imports[j], exports)
  {
    if |imports| == 0 then Ok(())
    else if !Resolves(imports[0], exports) then Err(MissingExport(imports[0]))
    else
      var rest := Link(imports[1..], exports);
      if rest.Err? then
        var i :| 0 <= i < |imports| - 1 && !Resolves(imports[1..][i], exports)
                 && rest.message == MissingExport(imports[1..][i])
                 && forall j :: 0 <= j < i ==> Resolves(imports[1..][j], exports);
        assert !Resolves(imports[i + 1], exports) && rest.message == MissingExport(imports[i + 1]);
        assert forall j :: 0 <= j < i + 1 ==> Resolves(imports[j], exports) by {
          forall j | 0 <= j < i + 1 ensures Resolves(imports[j], exports) {
            if j > 0 { assert imports[j] == imports[1..][j - 1]; }
          }
        }
        rest
      else
        assert forall i :: 0 <= i < |imports| ==> Resolves(imports[i], exports) by {
          forall i | 0 <= i < |imports| ensures Resolves(imports[i], exports) {
            if i > 0 { assert imports[i] == imports[1..][i - 1]; }
          }
        }
        rest
  }

  /** As written the routes module, and with it the server that imports it, fails to
      load: the legacy controller has no `deletarPostController`. */
  lemma ImportsAsWrittenFail()
    ensures Link(ImportsAsWritten, ModuleExports)
            == Err(MissingExport(Import("deletarPostController", LegacyController)))
  {
    var exports := ModuleExports[LegacyController];
    assert "listarPosts" in exports && "obterPostPorId" in exports && "postarNovoPost" in exports
           && "uploadImagem" in exports && "atualizarNovoPost" in exports;
    assert "deletarPostController" !in exports;
    assert ImportsAsWritten[1..][1..][1..][1..][1..][0] == Import("deletarPostController", LegacyController);
  }

  /** With the corrected imports every binding resolves. */
  lemma ImportsCorrectedLink()
    ensures Link(ImportsCorrected, ModuleExports) == Ok(())
  {
    forall i | 0 <= i < |ImportsCorrected| ensures Resolves(ImportsCorrected[i], ModuleExports) {
    }
    match Link(ImportsCorrected, ModuleExports)
    case Ok(u) => assert u == ();
    case Err(_) =>
  }

  // ---------------------------------------------------------------------------
  // The route table

  datatype Method = GET | POST | PUT | DELETE

  /** A path segment of a route: a literal, or a `:name` parameter. */
  datatype Segment = Lit(text: string) | Param(name: string)

  /** One stage of a handler chain. */
  datatype Stage =
    | Validator(name: string)
    | UploadSingle(field: string)
    | UploadErrorHandler
    | Handler(name: string)
    | Inline(name: string)

  datatype Route = Route(verb: Method, path: seq<Segment>, chain: seq<Stage>)

  /** `routes(app)`: the routes in the order they are registered. */
  const RouteTable: seq<Route> := [
    Route(GET, [Lit("posts")], [Handler("listarPosts")]),
    Route(GET, [Lit("posts"), Param("id")], [Handler("obterPostPorId")]),
    Route(POST, [Lit("posts")], [Validator("validarPost"), Handler("postarNovoPost")]),
    Route(POST, [Lit("upload")], [UploadSingle("imagem"), UploadErrorHandler, Handler("uploadImagem")]),
    Route(PUT, [Lit("posts"), Param("id")], [Validator("validarEdicaoPost"), Handler("atualizarNovoPost")]),
    Route(DELETE, [Lit("posts"), Param("id")], [Handler("deletarPostController")]),
    Route(POST, [Lit("posts"), Param("id"), Lit("comentarios")], [Validator("validarComentario"), Handler("adicionarComentario")]),
    Route(POST, [Lit("posts"), Param("id"), Lit("curtir")], [Handler("curtirPost")]),
    Route(GET, [Lit("uploads"), Param("filename")], [Inline("sendFile")]),
    Route(GET, [Lit("stats")], [Inline("stats")])]

  /** Express routes are case-insensitive by default: a literal matches its text in any
      mix of ASCII cases (the literals are lower case). A parameter matches any
      non-empty segment. */
  predicate SegmentMatches(p: Segment, s: string) {
    if p.Lit? then AsciiLower(s) == p.text else s != ""
  }

  predicate SegmentsMatch(path: seq<Segment>, segs: seq<string>) {
    |path| == |segs| && forall i :: 0 <= i < |segs| ==> SegmentMatches(path[i], segs[i])
  }

  /** Express routes are not strict by default: one trailing slash, which splits off an
      empty last segment, is allowed. */
  predicate Matches(path: seq<Segment>, segs: seq<string>) {
    SegmentsMatch(path, segs)
    || (|segs| == |path| + 1 && segs[|path|] == "" && SegmentsMatch(path, segs[..|path|]))
  }

  predicate Serves(r: Route, m: Method, segs: seq<string>) {
    r.verb == m && Matches(r.path, segs)
  }

  /** The first route from position `from` on that serves the request. */
  function DispatchFrom(routes: seq<Route>, m: Method, segs: seq<string>, from: nat): (r: Option<nat>)
    requires from <= |routes|
    ensures r.Some? ==> from <= r.value < |routes| && Serves(routes[r.value], m, segs)
    ensures forall j :: from <= j < |routes| && (r.None? || j < r.value) ==> !Serves(routes[j], m, segs)
    decreases |routes| - from
  {
    if from == |routes| then None
    else if Serves(routes[from], m, segs) then Some(from)
    else DispatchFrom(routes, m, segs, from + 1)
  }

  /** The chain Express runs for a request: that of the first registered route that
      serves it; `None` goes on to the not-found handler. */
  function Dispatch(m: Method, segs: seq<string>): (r: Option<seq<Stage>>)
    ensures r.Some? <==> exists j :: 0 <= j < |RouteTable| && Serves(RouteTable[j], m, segs)
    ensures r.Some? ==> exists j :: 0 <= j < |RouteTable| && Serves(RouteTable[j], m, segs)
                                    && r.value == RouteTable[j].chain
                                    && forall k :: 0 <= k < j ==> !Serves(RouteTable[k], m, segs)
  {
    match DispatchFrom(RouteTable, m, segs, 0)
    case None => None
    case Some(j) => Some(RouteTable[j].chain)
  }

  /** The chain of the first route that serves a request is the one that runs. */
  lemma FirstServing(m: Method, segs: seq<string>, j: nat)
    requires j < |RouteTable| && Serves(RouteTable[j], m, segs)
    requires forall k :: 0 <= k < j ==> !Serves(RouteTable[k], m, segs)
    ensures Dispatch(m, segs) == Some(RouteTable[j].chain)
  {
    var r := DispatchFrom(RouteTable, m, segs, 0);
    assert r.Some?;
    assert r.value == j;
  }

  /** Each body-reading route runs its validator before its handler. */
  lemma ValidatedRouteChains(id: string)
    requires id != ""
    ensures Dispatch(POST, ["posts"]) == Some([Validator("validarPost"), Handler("postarNovoPost")])
    ensures Dispatch(PUT, ["posts", id]) == Some([Validator("validarEdicaoPost"), Handler("atualizarNovoPost")])
    ensures Dispatch(POST, ["posts", id, "comentarios"])
            == Some([Validator("validarComentario"), Handler("adicionarComentario")])
  {
    FirstServing(POST, ["posts"], 2);
    FirstServing(PUT, ["posts", id], 4);
    CommentRouteChain(id);
  }

  lemma CommentRouteChain(id: string)
    requires id != ""
    ensures Dispatch(POST, ["posts", id, "comentarios"])
            == Some([Validator("validarComentario"), Handler("adicionarComentario")])
  {
    var c := ["posts", id, "comentarios"];
    assert !Serves(RouteTable[3], POST, c);
    FirstServing(POST, c, 6);
  }

  /** The upload route runs multer and the upload error handler before its handler. */
  lemma UploadRouteChain()
    ensures Dispatch(POST, ["upload"]) == Some([UploadSingle("imagem"), UploadErrorHandler, Handler("uploadImagem")])
  {
    assert "upload" != "posts" by { assert "upload"[0] != "posts"[0]; }
    assert !SegmentMatches(RouteTable[2].path[0], ["upload"][0]);
    FirstServing(POST, ["upload"], 3);
  }

  /** Reading, deleting and liking go straight to their handler, with no validator. */
  lemma DeleteRouteChain(id: string)
    requires id != ""
    ensures Dispatch(DELETE, ["posts", id]) == Some([Handler("deletarPostController")])
  {
    FirstServing(DELETE, ["posts", id], 5);
  }

  lemma ListRouteChain()
    ensures Dispatch(GET, ["posts"]) == Some([Handler("listarPosts")])
  {
    FirstServing(GET, ["posts"], 0);
  }

  lemma LikeRouteChain(id: string)
    requires id != ""
    ensures Dispatch(POST, ["posts", id, "curtir"]) == Some([Handler("curtirPost")])
  {
    var c := ["posts", id, "curtir"];
    assert "curtir" != "comentarios" by { assert "curtir"[1] != "comentarios"[1]; }
    assert !SegmentMatches(RouteTable[6].path[2], c[2]);
    assert !Serves(RouteTable[3], POST, c);
    FirstServing(POST, c, 7);
  }

  lemma ReadRouteChain(id: string)
    requires id != ""
    ensures Dispatch(GET, ["posts", id]) == Some([Handler("obterPostPorId")])
  {
    assert !Serves(RouteTable[0], GET, ["posts", id]);
    FirstServing(GET, ["posts", id], 1);
  }

  /** Whether a request reaches a route does not depend on the ASCII case of its path. */
  lemma DispatchIgnoresCase(m: Method, a: seq<string>, b: seq<string>)
    requires |a| == |b| && forall i :: 0 <= i < |a| ==> AsciiLower(a[i]) == AsciiLower(b[i])
    ensures Dispatch(m, a) == Dispatch(m, b)
  {
    forall j | 0 <= j < |RouteTable| ensures Serves(RouteTable[j], m, a) <==> Serves(RouteTable[j], m, b) {
      SegmentsMatchIgnoresCase(RouteTable[j].path, a, b);
      if |a| >= 1 {
        SegmentsMatchIgnoresCase(RouteTable[j].path, a[..|a| - 1], b[..|b| - 1]);
        assert |AsciiLower(a[|a| - 1])| == |a[|a| - 1]|;
      }
    }
    SameServingSameDispatch(m, a, b, 0);
  }

  lemma SegmentsMatchIgnoresCase(path: seq<Segment>, a: seq<string>, b: seq<string>)
    requires |a| == |b| && forall i :: 0 <= i < |a| ==> AsciiLower(a[i]) == AsciiLower(b[i])
    ensures SegmentsMatch(path, a) <==> SegmentsMatch(path, b)
  {
    forall i | 0 <= i < |a| && i < |path| ensures SegmentMatches(path[i], a[i]) <==> SegmentMatches(path[i], b[i]) {
      assert |AsciiLower(a[i])| == |a[i]| && |AsciiLower(b[i])| == |b[i]|;
    }
  }

  /** No literal of the table is empty. */
  lemma NoEmptyLiteral(j: nat, k: nat)
    requires j < |RouteTable| && k < |RouteTable[j].path|
    ensures !SegmentMatches(RouteTable[j].path[k], "")
  {
  }

  /** A trailing slash does not change which route a request reaches. */
  lemma DispatchIgnoresTrailingSlash(m: Method, segs: seq<string>)
    requires |segs| >= 1 && segs[|segs| - 1] != ""
    ensures Dispatch(m, segs + [""]) == Dispatch(m, segs)
  {
    var t := segs + [""];
    assert t[..|segs|] == segs;
    forall j | 0 <= j < |RouteTable| ensures Serves(RouteTable[j], m, t) <==> Serves(RouteTable[j], m, segs) {
      var path := RouteTable[j].path;
      if |path| == |t| {
        NoEmptyLiteral(j, |path| - 1);
        assert !SegmentMatches(path[|t| - 1], t[|t| - 1]);
      }
    }
    SameServingSameDispatch(m, t, segs, 0);
  }

  lemma {:induction false} SameServingSameDispatch(m: Method, a: seq<string>, b: seq<string>, from: nat)
    requires from <= |RouteTable|
    requires forall j :: from <= j < |RouteTable| ==> (Serves(RouteTable[j], m, a) <==> Serves(RouteTable[j], m, b))
    ensures DispatchFrom(RouteTable, m, a, from) == DispatchFrom(RouteTable, m, b, from)
    decreases |RouteTable| - from
  {
    if from < |RouteTable| {
      SameServingSameDispatch(m, a, b, from + 1);
    }
  }

  /** `GET /Posts` and `GET /posts/` reach the list handler; `GET /posts//` reaches
      nothing. */
  lemma ListRouteVariants()
    ensures Dispatch(GET, ["Posts"]) == Some([Handler("listarPosts")])
    ensures Dispatch(GET, ["posts", ""]) == Some([Handler("listarPosts")])
    ensures Dispatch(GET, ["posts", "", ""]) == None
  {
    ListRouteChain();
    UpperCaseList();
    DispatchIgnoresTrailingSlash(GET, ["posts"]);
    assert ["posts"] + [""] == ["posts", ""];
    DoubleSlashReachesNothing();
  }

  lemma UpperCaseList()
    ensures Dispatch(GET, ["Posts"]) == Dispatch(GET, ["posts"])
  {
    assert AsciiLower("Posts") == "posts" by { assert LowerChar('P') == 'p'; }
    assert AsciiLower("posts") == "posts";
    DispatchIgnoresCase(GET, ["Posts"], ["posts"]);
  }

  lemma DoubleSlashReachesNothing()
    ensures Dispatch(GET, ["posts", "", ""]) == None
  {
    var t := ["posts", "", ""];
    forall j | 0 <= j < |RouteTable| ensures !Serves(RouteTable[j], GET, t) {
      var path := RouteTable[j].path;
      if |path| >= 2 { NoEmptyLiteral(j, 1); }
      if |path| == 3 { NoEmptyLiteral(j, 2); }
    }
  }

  /** Every handler the table names is one of the imported bindings, so none of the
      table works unless every import resolves. */
  lemma TableUsesImports()
    ensures forall j, k :: 0 <= j < |RouteTable| && 0 <= k < |RouteTable[j].chain| && RouteTable[j].chain[k].Handler?
              ==> exists i :: 0 <= i < |ImportsAsWritten| && ImportsAsWritten[i].name == RouteTable[j].chain[k].name
  {
    forall j, k | 0 <= j < |RouteTable| && 0 <= k < |RouteTable[j].chain| && RouteTable[j].chain[k].Handler?
      ensures exists i :: 0 <= i < |ImportsAsWritten| && ImportsAsWritten[i].name == RouteTable[j].chain[k].name
    {
      var n := RouteTable[j].chain[k].name;
      if j == 0 { assert ImportsAsWritten[0].name == n; }
      else if j == 1 { assert ImportsAsWritten[1].name == n; }
      else if j == 2 { assert ImportsAsWritten[2].name == n; }
      else if j == 3 { assert ImportsAsWritten[3].name == n; }
      else if j == 4 { assert ImportsAsWritten[4].name == n; }
      else if j == 5 { assert ImportsAsWritten[5].name == n; }
      else if j == 6 { assert ImportsAsWritten[6].name == n; }
      else if j == 7 { assert ImportsAsWritten[7].name == n; }
    }
  }

  // ---------------------------------------------------------------------------
  // The module's own `handleUploadError`

  /** The copy of `handleUploadError` in this module: the same cases, but the message
      is read as `err.message.includes(..)`, so an error without a message throws. */
  function HandleUploadError(err: JsError): (r: UploadMiddleware.Outcome)
    ensures UploadMiddleware.IsMulterCode(err, "LIMIT_FILE_SIZE") ==> r == UploadMiddleware.Reply(UploadMiddleware.TooLargeReply)
    ensures UploadMiddleware.IsMulterCode(err, "LIMIT_UNEXPECTED_FILE") ==>
              r == UploadMiddleware.Reply(UploadMiddleware.UnexpectedFieldReply)
    ensures r.PassOn? ==> r.err == err
  {
    if UploadMiddleware.IsMulterCode(err, "LIMIT_FILE_SIZE") then UploadMiddleware.Reply(UploadMiddleware.TooLargeReply)
    else if UploadMiddleware.IsMulterCode(err, "LIMIT_UNEXPECTED_FILE") then
      UploadMiddleware.Reply(UploadMiddleware.UnexpectedFieldReply)
    else if err.message == JUndefined || err.message == JNull then
      UploadMiddleware.Throw("Cannot read properties of " + Interpolate(err.message) + " (reading 'includes')")
    else match UploadMiddleware.IncludesMarker(err.message, "err.message.includes")
      case Err(m) => UploadMiddleware.Throw(m)
      case Ok(true) => UploadMiddleware.Reply(UploadMiddleware.InvalidTypeReply(err.message))
      case Ok(false) => UploadMiddleware.PassOn(err)
  }

  /** The two copies agree on every error that has a string or array message; on one
      without a message the shared copy passes it on and this one throws, and on any
      other message both throw. */
  lemma UploadErrorCopiesAgree(err: JsError)
    ensures err.message.JStr? || err.message.JArr? ==> HandleUploadError(err) == UploadMiddleware.HandleUploadError(err)
    ensures !UploadMiddleware.IsMulterCode(err, "LIMIT_FILE_SIZE") && !UploadMiddleware.IsMulterCode(err, "LIMIT_UNEXPECTED_FILE")
            && (err.message == JUndefined || err.message == JNull) ==>
              HandleUploadError(err).Throw? && UploadMiddleware.HandleUploadError(err) == UploadMiddleware.PassOn(err)
  {
  }

  // ---------------------------------------------------------------------------
  // The guarded chains

  /** An error thrown inside a chain reaches the global error handler. */
  function Thrown(message: string, production: bool): Response {
    ErrorHandlers.GlobalErrorHandler(JsError(false, JUndefined, JStr(message)), production)
  }

  /** The reply of a validator that stopped the chain. */
  function Stopped(v: Validation.Verdict, production: bool): Response
    requires !v.Next?
  {
    if v.Reject? then Validation.Rejection(v.message) else Thrown(v.message, production)
  }

  /** POST `/posts`: `validarPost`, then `postarNovoPost`. The imported legacy handler
      stores and replies as the newer one (`PostsController.PostarNovoPost`), whose
      outcome function is used here. */
  function CreateRoute(docs: seq<Post>, descricao: Json, autor: Json, req: ReqInfo, freshId: string, now: int,
                       down: bool, production: bool): (r: (seq<Post>, Response))
    ensures !Validation.ValidarPost(descricao).Next? ==> r.0 == docs && (r.1.status == 400 || r.1.status == 500)
  {
    var v := Validation.ValidarPost(descricao);
    if v.Next? then PostsWriteController.Postar(docs, descricao, autor, req, freshId, now, down)
    else (docs, Stopped(v, production))
  }

  /** A description the validator accepts is always stored, trimmed, when the store is
      up and the id is new: the controller's own failure path is unreachable from the
      route. */
  lemma ValidatedCreateStores(docs: seq<Post>, s: string, autor: Json, req: ReqInfo, freshId: string, now: int,
                              production: bool)
    requires Validation.ValidarPost(JStr(s)) == Validation.Next && freshId !in IdsOf(docs)
    ensures var (docs2, res) := CreateRoute(docs, JStr(s), autor, req, freshId, now, false, production);
            docs2 == docs + [Complete(PostsWriteController.TextPost(Trim(s), autor, now), freshId, now)]
            && res.status == 201
  {
    assert Trim(s) != "";
    PostsWriteController.PostarStoresTrimmed(docs, s, autor, req, freshId, now);
  }

  /** POST `/posts/:id/comentarios`: `validarComentario`, then `adicionarComentario`,
      which in its legacy form has the newer handler's outcome
      (`PostsController.AdicionarComentario`). */
  function CommentRoute(docs: seq<Post>, id: string, autor: Json, texto: Json, commentId: string, now: int,
                        down: bool, production: bool): (r: (seq<Post>, Response))
    ensures !Validation.ValidarComentario(autor, texto).Next? ==> r.0 == docs && (r.1.status == 400 || r.1.status == 500)
  {
    var v := Validation.ValidarComentario(autor, texto);
    if v.Next? then PostsInteractionController.Comentar(docs, id, autor, texto, commentId, now, down)
    else (docs, Stopped(v, production))
  }

  /** A comment the validator accepts, on a post that exists, is appended with both
      fields trimmed. */
  lemma ValidatedCommentAppends(docs: seq<Post>, id: string, autor: string, texto: string, commentId: string,
                                now: int, production: bool)
    requires Validation.ValidarComentario(JStr(autor), JStr(texto)) == Validation.Next
    requires IsValidObjectId(id) && ObjectIdOf(id) in IdsOf(docs)
    ensures var i := IndexOf(docs, ObjectIdOf(id)).value;
            var (docs2, res) := CommentRoute(docs, id, JStr(autor), JStr(texto), commentId, now, false, production);
            |docs2| == |docs|
            && docs2[i].comentarios == docs[i].comentarios + [Comment(commentId, Trim(autor), Trim(texto), now)]
            && res.status == 201
  {
    assert Trim(autor) != "" && Trim(texto) != "";
    PostsInteractionController.ComentarAppends(docs, id, autor, texto, commentId, now);
  }

  /** PUT `/posts/:id` as written: `validarEdicaoPost`, then the legacy
      `atualizarNovoPost`, which requires a `descricao` and ignores `autor`. */
  function EditRouteAsWritten(docs: seq<Post>, id: string, descricao: Json, alt: Json, autor: Json, now: int,
                              down: bool, production: bool): (r: (seq<Post>, Response))
    ensures !Validation.ValidarEdicaoPost(descricao, alt, autor).Next? ==> r.0 == docs && r.1.status == 400
  {
    var v := Validation.ValidarEdicaoPost(descricao, alt, autor);
    if v.Next? then PostsController.Atualizar(docs, id, descricao, alt, now, down)
    else (docs, Stopped(v, production))
  }

  /** An edit of the alt text alone passes the validator and then fails in the legacy
      handler, which trims the absent `descricao`: the post is not changed and the
      reply is a 500. */
  lemma AltOnlyEditFails(docs: seq<Post>, id: string, now: int, production: bool)
    ensures Validation.ValidarEdicaoPost(JUndefined, JStr("nova legenda"), JUndefined) == Validation.Next
    ensures EditRouteAsWritten(docs, id, JUndefined, JStr("nova legenda"), JUndefined, now, false, production)
            == (docs, PostsController.ServerError("Falha ao atualizar post"))
  {
    AltOnlyPasses();
    assert PostsController.LegacyEdit(JUndefined, JStr("nova legenda"), now).Err?;
  }

  lemma AltOnlyPasses()
    ensures Validation.ValidarEdicaoPost(JUndefined, JStr("nova legenda"), JUndefined) == Validation.Next
  {
    assert Utf16Length("nova legenda") <= 2 * 12;
  }

  /** PUT `/posts/:id` with the edit handler that treats each field as optional. */
  function EditRoute(docs: seq<Post>, id: string, descricao: Json, alt: Json, autor: Json, req: ReqInfo, now: int,
                     findDown: bool, updateDown: bool, refetchDown: bool, production: bool): (r: (seq<Post>, Response))
    ensures !Validation.ValidarEdicaoPost(descricao, alt, autor).Next? ==> r.0 == docs && r.1.status == 400
  {
    var v := Validation.ValidarEdicaoPost(descricao, alt, autor);
    if v.Next? then PostsWriteController.Atualizar(docs, id, descricao, alt, autor, req, now, findDown, updateDown, refetchDown)
    else (docs, Stopped(v, production))
  }

  /** Every edit the validator accepts, of a post that exists, is applied: the fields
      given are stored trimmed and the reply is 200. */
  lemma ValidatedEditApplies(docs: seq<Post>, id: string, descricao: Json, alt: Json, autor: Json, req: ReqInfo,
                             now: int, production: bool)
    requires Validation.ValidarEdicaoPost(descricao, alt, autor) == Validation.Next
    requires IsValidObjectId(id) && ObjectIdOf(id) in IdsOf(docs)
    ensures PostControllerUtils.BuildPostUpdate(descricao, alt, autor, now).Ok?
    ensures var i := IndexOf(docs, ObjectIdOf(id)).value;
            var q := ApplySet(docs[i], PostControllerUtils.BuildPostUpdate(descricao, alt, autor, now).value, now);
            var (docs2, res) := EditRoute(docs, id, descricao, alt, autor, req, now, false, false, false, production);
            docs2 == docs[i := q] && res.status == 200
  {
    PostsWriteController.AtualizarSuccess(docs, id, descricao, alt, autor, req, now);
  }

  // ---------------------------------------------------------------------------
  // The upload chain

  /** The file part of a multipart request, as multer sees it. */
  datatype FilePart = FilePart(field: string, originalname: string, mimetype: string, size: nat, tempPath: string)

  /** What `upload.single("imagem")` makes of the request: the file it stored (or none),
      or the error it hands on. Multer refuses a part under another field name, then
      asks the filter, then enforces the size limit while it writes the file. */
  datatype MulterResult = Accepted(file: Option<PostsUploadController.UploadedFile>) | Failed(err: JsError)

  function MulterSingle(part: Option<FilePart>): (r: MulterResult)
    ensures part.None? ==> r == Accepted(None)
    ensures r.Accepted? && part.Some? ==>
              part.value.field == "imagem" && part.value.size <= UploadMiddleware.MaxFileSize
              && UploadMiddleware.FileFilter(part.value.originalname, part.value.mimetype).Ok?
  {
    if part.None? then Accepted(None)
    else
      var p := part.value;
      if p.field != "imagem" then Failed(JsError(true, JStr("LIMIT_UNEXPECTED_FILE"), JStr("Unexpected field")))
      else match UploadMiddleware.FileFilter(p.originalname, p.mimetype)
        case Err(m) => Failed(JsError(false, JUndefined, JStr(m)))
        case Ok(_) =>
          if p.size > UploadMiddleware.MaxFileSize then
            Failed(JsError(true, JStr("LIMIT_FILE_SIZE"), JStr("File too large")))
          else Accepted(Some(PostsUploadController.UploadedFile(p.tempPath, p.originalname)))
  }

  /** POST `/upload`: multer, this module's `handleUploadError`, then `uploadImagem`. */
  function UploadRoute(w: PostsUploadController.World, part: Option<FilePart>, autor: Json, req: ReqInfo,
                       env: PostsUploadController.Env, f: PostsUploadController.Faults, production: bool)
    : (r: (PostsUploadController.World, Response))
    requires PostsUploadController.WorldOk(w)
    ensures MulterSingle(part).Failed? ==> r.0 == w
  {
    match MulterSingle(part)
    case Accepted(file) => PostsUploadController.Upload(w, PostsUploadController.UploadRequest(file, autor, req), env, f)
    case Failed(e) =>
      match HandleUploadError(e)
      case Reply(res) => (w, res)
      case PassOn(e2) => (w, ErrorHandlers.GlobalErrorHandler(e2, production))
      case Throw(m) => (w, Thrown(m, production))
  }

  /** A file that is not an image, or is over the limit, is answered before anything is
      created: refused types get 400 with the filter's message, oversized files 413. */
  lemma RefusedUploadsTouchNothing(w: PostsUploadController.World, p: FilePart, autor: Json, req: ReqInfo,
                                   env: PostsUploadController.Env, f: PostsUploadController.Faults, production: bool)
    requires PostsUploadController.WorldOk(w) && p.field == "imagem"
    ensures UploadMiddleware.FileFilter(p.originalname, p.mimetype).Err? ==>
              UploadRoute(w, Some(p), autor, req, env, f, production)
              == (w, UploadMiddleware.InvalidTypeReply(JStr(UploadMiddleware.FileTypeMessage)))
    ensures UploadMiddleware.FileFilter(p.originalname, p.mimetype).Ok? && p.size > UploadMiddleware.MaxFileSize ==>
              UploadRoute(w, Some(p), autor, req, env, f, production) == (w, UploadMiddleware.TooLargeReply)
  {
    if UploadMiddleware.FileFilter(p.originalname, p.mimetype).Err? {
      var m := UploadMiddleware.FileFilter(p.originalname, p.mimetype).message;
      UploadMiddleware.RefusedFileIs400(p.originalname, p.mimetype);
      UploadErrorCopiesAgree(JsError(false, JUndefined, JStr(m)));
    }
  }
}
