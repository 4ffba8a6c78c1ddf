/** src/controllers/postsController.js: the older controller family, which writes its
    replies inline. Where a handler behaves exactly like its counterpart in the newer
    controllers, its method is proved equal to that counterpart's outcome function;
    where it differs (pagination, the single-post view, editing, liking) it has its own
    outcome function and lemmas that show the difference. */
module PostsController {
  import opened Js
  import opened Paths
  import opened Fs
  import opened HttpResponses
  import opened PostsModel
  import opened PostUtils
  import opened PostControllerUtils
  import opened UploadUtils
  import opened FileUtils
  import PostsWriteController
  import PostsInteractionController
  import PostsReadController
  import PostsUploadController

  /** `res.status(500).json({ success: false, error: 'Erro interno do servidor', message })`. */
  function ServerError(message: string): Response {
    Response(500, map["success" := JBool(false), "error" := JStr("Erro interno do servidor"), "message" := JStr(message)])
  }

  function NotFound(): Response {
    Response(404, map["success" := JBool(false), "error" := JStr("Post não encontrado"),
                      "message" := JStr("O post solicitado não existe")])
  }

  // ---------------------------------------------------------------------------
  // listarPosts

  /** `parseInt(v) || fallback` with no radix, as this controller writes it. */
  function IntOrNoRadix(v: Option<string>, fallback: int): (r: int)
    ensures fallback != 0 ==> r != 0
    ensures v.None? ==> r == fallback
  {
    if v.None? then fallback
    else match ParseIntNoRadix(v.value)
      case Some(n) => if n != 0 then n else fallback
      case None => fallback
  }

  /** `page`, `limit` and `skip` without any clamping. */
  function LegacyPagination(page: Option<string>, limit: Option<string>): (r: Pagination)
    ensures r.page != 0 && r.limit != 0
    ensures r.skip == (r.page - 1) * r.limit
  {
    var p := IntOrNoRadix(page, 1);
    var l := IntOrNoRadix(limit, 10);
    Pagination(p, l, (p - 1) * l)
  }

  /** The outcome of `listarPosts`. Each listed post is mapped to the same object
      `normalizePostResponse` builds. */
  function ListarPosts(docs: seq<Post>, page: Option<string>, limit: Option<string>, req: ReqInfo, down: bool): (r: Response)
    ensures var pg := LegacyPagination(page, limit);
            (r.status == 200 <==> !down && pg.skip >= 0) && (r.status != 200 ==> r == ServerError("Falha ao buscar posts"))
    ensures var pg := LegacyPagination(page, limit);
            r.status == 200 ==>
              pg.skip >= 0
              && var posts := Page(SortNewestFirst(docs), pg.skip, LimitCount(pg.limit, |docs|));
              r.body.Keys == {"success", "data", "pagination"}
              && r.body["data"] == JArr(PostsReadController.NormalizeAll(posts, req))
              && r.body["pagination"] == JObj(map["page" := JNum(pg.page), "limit" := JNum(pg.limit),
                                                  "hasMore" := JBool(|posts| == pg.limit)])
  {
    var pg := LegacyPagination(page, limit);
    match ListNewestFirst(docs, Some(pg.skip), Some(pg.limit), down)
    case Err(_) => ServerError("Falha ao buscar posts")
    case Ok(posts) =>
      Response(200, map["success" := JBool(true), "data" := JArr(PostsReadController.NormalizeAll(posts, req)),
                        "pagination" := JObj(map["page" := JNum(pg.page), "limit" := JNum(pg.limit),
                                                 "hasMore" := JBool(|posts| == pg.limit)])])
  }

  /** No upper bound: any positive limit is used as given, so a page can hold more than
      the 100 posts the newer listing allows. */
  lemma ListarNoClamp(docs: seq<Post>, n: int, req: ReqInfo)
    requires n >= 1
    ensures var r := ListarPosts(docs, None, Some(IntToString(n)), req, false);
            r.status == 200
            && r.body["data"] == JArr(PostsReadController.NormalizeAll(Page(SortNewestFirst(docs), 0, n), req))
            && r.body["pagination"] == JObj(map["page" := JNum(1), "limit" := JNum(n),
                 "hasMore" := JBool(|Page(SortNewestFirst(docs), 0, n)| == n)])
  {
    ParseIntNoRadixRoundTrip(n);
  }

  /** A negative limit on the first page lists as many posts as its absolute value,
      while `hasMore`, which compares the count with the negative limit, is always false. */
  lemma ListarNegativeLimit(docs: seq<Post>, n: int, req: ReqInfo)
    requires n >= 1
    ensures var r := ListarPosts(docs, None, Some(IntToString(-n)), req, false);
            r.status == 200
            && r.body["data"] == JArr(PostsReadController.NormalizeAll(Page(SortNewestFirst(docs), 0, n), req))
            && r.body["pagination"] == JObj(map["page" := JNum(1), "limit" := JNum(-n), "hasMore" := JBool(false)])
  {
    ParseIntNoRadixRoundTrip(-n);
  }

  /** A negative page makes the skip negative, which the store refuses: a 500. */
  lemma ListarNegativePageFails(docs: seq<Post>, k: int, n: int, req: ReqInfo)
    requires k <= -1 && n >= 1
    ensures ListarPosts(docs, Some(IntToString(k)), Some(IntToString(n)), req, false) == ServerError("Falha ao buscar posts")
  {
    ParseIntNoRadixRoundTrip(k);
    ParseIntNoRadixRoundTrip(n);
    var pg := LegacyPagination(Some(IntToString(k)), Some(IntToString(n)));
    assert pg.page == k && pg.limit == n;
    NegativeTimesPositive(k - 1, n);
  }

  lemma NegativeTimesPositive(a: int, b: int)
    requires a < 0 && b > 0
    ensures a * b < 0
  {
  }

  // ---------------------------------------------------------------------------
  // obterPostPorId

  /** `{ ...post, shareUrl, createdAt, updatedAt }`: the stored image URL is kept as it is. */
  function LegacyView(post: Post, req: ReqInfo): (r: map<string, Json>)
    ensures r.Keys == PostJson(post).Keys + {"shareUrl"}
    ensures r["shareUrl"] == JStr(BuildShareUrl(req, post.id))
    ensures forall k :: k in PostJson(post) && k != "shareUrl" ==> r[k] == PostJson(post)[k]
  {
    PostJson(post)["shareUrl" := JStr(BuildShareUrl(req, post.id))]
  }

  /** The outcome of the older `obterPostPorId`. */
  function ObterPostPorId(docs: seq<Post>, id: string, req: ReqInfo, down: bool): (r: Response)
    ensures down || !IsValidObjectId(id) ==> r == ServerError("Falha ao buscar post")
    ensures !down && IsValidObjectId(id) && ObjectIdOf(id) !in IdsOf(docs) ==> r == NotFound()
    ensures !down && IsValidObjectId(id) && ObjectIdOf(id) in IdsOf(docs) ==>
              r.status == 200 && r.body.Keys == {"success", "data"}
              && r.body["data"] == JObj(LegacyView(docs[IndexOf(docs, ObjectIdOf(id)).value], req))
  {
    match FindById(docs, id, down)
    case Err(_) => ServerError("Falha ao buscar post")
    case Ok(None) => NotFound()
    case Ok(Some(post)) => Response(200, map["success" := JBool(true), "data" := JObj(LegacyView(post, req))])
  }

  /** The single-post views of the two controllers agree except on `imgUrl`, which the
      older one does not map to `null` when it is empty. */
  lemma ObterDiffersOnlyInImage(docs: seq<Post>, id: string, req: ReqInfo)
    requires IsValidObjectId(id) && ObjectIdOf(id) in IdsOf(docs)
    ensures var p := docs[IndexOf(docs, ObjectIdOf(id)).value];
            var a := ObterPostPorId(docs, id, req, false);
            var b := PostsReadController.ObterPostPorId(docs, id, req, false);
            a.status == b.status == 200 && a.body.Keys == b.body.Keys
            && a.body["data"].JObj? && b.body["data"].JObj?
            && a.body["data"].fields.Keys == b.body["data"].fields.Keys
            && (forall k :: k in a.body["data"].fields && k != "imgUrl" ==> a.body["data"].fields[k] == b.body["data"].fields[k])
            && a.body["data"].fields["imgUrl"] == p.imgUrl
  {
    ViewsDifferOnlyInImage(docs[IndexOf(docs, ObjectIdOf(id)).value], req);
  }

  lemma ViewsDifferOnlyInImage(p: Post, req: ReqInfo)
    ensures LegacyView(p, req).Keys == NormalizePostResponse(p, req).Keys
    ensures forall k :: k in LegacyView(p, req) && k != "imgUrl" ==> LegacyView(p, req)[k] == NormalizePostResponse(p, req)[k]
    ensures LegacyView(p, req)["imgUrl"] == p.imgUrl
  {
    var m := PostJson(p);
    var a := LegacyView(p, req);
    var b := NormalizePostResponse(p, req);
    PostJsonKeys(p);
    assert "imgUrl" in m && m["imgUrl"] == p.imgUrl;
    assert a.Keys == m.Keys + {"shareUrl"};
    forall k | k in a && k != "imgUrl" ensures a[k] == b[k] {
      if k != "shareUrl" { assert a[k] == m[k]; }
    }
  }

  /** A missing post is a 404, an invalid id a 500, as in the newer controller. */
  lemma ObterFailuresAgree(docs: seq<Post>, id: string, req: ReqInfo, down: bool)
    requires down || !IsValidObjectId(id) || ObjectIdOf(id) !in IdsOf(docs)
    ensures ObterPostPorId(docs, id, req, down) == PostsReadController.ObterPostPorId(docs, id, req, down)
  {
  }

  // ---------------------------------------------------------------------------
  // postarNovoPost

  /** `postarNovoPost` writes its replies inline but replies and stores exactly as the
      newer controller does. */
  method PostarNovoPost(store: PostsCollection, descricao: Json, autor: Json, req: ReqInfo, freshId: string, now: int, down: bool)
    returns (res: Response)
    requires store.Valid()
    modifies store
    ensures store.Valid()
    ensures (store.docs, res) == PostsWriteController.Postar(old(store.docs), descricao, autor, req, freshId, now, down)
  {
    if !descricao.JStr? {
      return ServerError("Falha ao criar post");
    }
    var novoPost := NewPost(JStr(Trim(descricao.s)), JNull, JNull, Or(autor, JStr("Anônimo")),
                            Some(0), Some([]), Some(now), Some(now), None);
    var postCriado := store.CriarPost(novoPost, freshId, now, down);
    if postCriado.Err? {
      return ServerError("Falha ao criar post");
    }
    var data := (map["_id" := JStr(postCriado.value)] + NewPostJson(novoPost))
                ["shareUrl" := JStr(req.protocol + "://" + req.host + "/posts/" + postCriado.value)];
    res := Response(201, map["success" := JBool(true), "data" := JObj(data), "message" := JStr("Post criado com sucesso")]);
  }

  // ---------------------------------------------------------------------------
  // uploadImagem

  /** The inline copy of the upload pipeline, with its own caption fallbacks and cleanup;
      it has exactly the outcome of the helper-based one. */
  method UploadImagem(store: PostsCollection, fs: FileSystem, rq: PostsUploadController.UploadRequest,
                      env: PostsUploadController.Env, f: PostsUploadController.Faults)
    returns (res: Response)
    requires store.Valid() && fs.Valid()
    modifies store, fs
    ensures store.Valid() && fs.Valid()
    ensures (PostsUploadController.World(store.docs, fs.files, fs.dirs), res)
            == PostsUploadController.Upload(PostsUploadController.World(old(store.docs), old(fs.files), old(fs.dirs)), rq, env, f)
  {
    var tempFilePath: Option<string> := None;
    var finalFilePath: Option<string> := None;
    if rq.file.None? {
      res := Response(400, map["success" := JBool(false), "error" := JStr("Arquivo não encontrado"),
                               "message" := JStr("Nenhuma imagem foi enviada")]);
      assert res == PostsUploadController.NoFileResponse();
      return;
    }
    ghost var w0 := PostsUploadController.World(store.docs, fs.files, fs.dirs);
    tempFilePath := Some(rq.file.value.path);
    var novoPost := NewPost(JStr("Gerando descrição automática..."), JStr("Gerando texto alternativo..."), JStr(""),
                            Or(rq.autor, JStr("Anônimo")), Some(0), Some([]), Some(env.now), Some(env.now),
                            Some("processing"));
    assert novoPost == BuildInitialPost(rq.autor, env.now);
    var error: Option<string> := None;
    var postCriado := store.CriarPost(novoPost, env.freshId, env.now, f.createFails);
    if postCriado.Err? {
      error := Some(postCriado.message);
    } else {
      var postId := postCriado.value;
      var fileExtension := ExtName(rq.file.value.originalname);
      var newFileName := postId + fileExtension;
      finalFilePath := Some(Join(DirName(tempFilePath.value), newFileName));
      assert (newFileName, finalFilePath.value) == BuildFinalFilePath(tempFilePath.value, postId, rq.file.value.originalname);
      var renamed := fs.RenameSync(tempFilePath.value, finalFilePath.value, f.renameFault);
      if renamed.Err? {
        error := Some(renamed.message);
      } else {
        assert PostsUploadController.Upload(w0, rq, env, f)
               == PostsUploadController.AfterMove(PostsUploadController.World(store.docs, fs.files, fs.dirs),
                                                  postId, novoPost, newFileName, finalFilePath.value, rq, env, f);
        tempFilePath := None;
        res := AfterMoveInline(store, fs, postId, novoPost, newFileName, finalFilePath.value, rq, env, f);
        return;
      }
    }
    // catch (error)
    res := CatchUpload(store, fs, tempFilePath, finalFilePath, error.value, f);
  }

  /** The inline `uploadImagem` once the file sits at `finalFilePath` and `tempFilePath`
      is null: read it, caption it, complete the record, or run the catch block. */
  method AfterMoveInline(store: PostsCollection, fs: FileSystem, postId: string, novoPost: NewPost, newFileName: string,
                         finalFilePath: string, rq: PostsUploadController.UploadRequest,
                         env: PostsUploadController.Env, f: PostsUploadController.Faults)
    returns (res: Response)
    requires store.Valid() && fs.Valid()
    modifies store, fs
    ensures store.Valid() && fs.Valid()
    ensures (PostsUploadController.World(store.docs, fs.files, fs.dirs), res)
            == PostsUploadController.AfterMove(PostsUploadController.World(old(store.docs), old(fs.files), old(fs.dirs)),
                                               postId, novoPost, newFileName, finalFilePath, rq, env, f)
  {
    var error: string;
    var baseUrl := if env.baseUrl != "" then env.baseUrl else rq.req.protocol + "://" + rq.req.host;
    var imgUrl := baseUrl + "/uploads/" + newFileName;
    assert imgUrl == BuildImageUrl(BaseUrl(env.baseUrl, rq.req), newFileName);
    var imgBuffer := fs.ReadFileSync(finalFilePath, f.readFault);
    if imgBuffer.Err? {
      error := "Erro ao ler arquivo: " + imgBuffer.message;
      assert ReadImage(fs.files, fs.dirs, finalFilePath, f.readFault) == Err(error);
    } else {
      var descricaoIA: Json, altIA: Json;
      match f.caption {
        case Described(d, a) =>
          descricaoIA := Or(d, JStr("Descrição não disponível"));
          altIA := Or(a, JStr("Imagem enviada pelo usuário"));
        case ServiceThrows =>
          descricaoIA := JStr("Uma imagem foi compartilhada");
          altIA := JStr("Imagem compartilhada");
      }
      assert (descricaoIA, altIA) == GetImageDescription(f.caption);
      var postAtualizado := PostUpdate(Some(descricaoIA), Some(altIA), None, Some(JStr(imgUrl)),
                                       Some("completed"), Some(env.now));
      assert postAtualizado == BuildImageUpdate(imgUrl, descricaoIA, altIA, env.now);
      var atualizado := store.AtualizarPost(postId, postAtualizado, env.now, f.updateFails);
      if atualizado.Err? {
        error := atualizado.message;
      } else {
        var data := (map["_id" := JStr(postId)] + NewPostJson(novoPost) + UpdateJson(postAtualizado))
                    ["shareUrl" := JStr(rq.req.protocol + "://" + rq.req.host + "/posts/" + postId)];
        assert data == PostsUploadController.UploadData(postId, novoPost, postAtualizado, rq.req);
        return Response(201, map["success" := JBool(true), "data" := JObj(data),
                                 "message" := JStr("Imagem enviada e processada com sucesso")]);
      }
    }
    // catch (error)
    res := CatchUpload(store, fs, None, Some(finalFilePath), error, f);
  }

  /** The catch block of the inline `uploadImagem`: remove whichever file is still
      there (an unlink error is only logged) and reply 500. Each inline
      exists-then-unlink block does what `safeDeleteFile` does, so it is that method. */
  method CatchUpload(store: PostsCollection, fs: FileSystem, tempFilePath: Option<string>, finalFilePath: Option<string>,
                     message: string, f: PostsUploadController.Faults)
    returns (res: Response)
    requires fs.Valid()
    modifies fs
    ensures fs.Valid()
    ensures (PostsUploadController.World(store.docs, fs.files, fs.dirs), res)
            == PostsUploadController.CleanUp(PostsUploadController.World(store.docs, old(fs.files), old(fs.dirs)),
                                             tempFilePath, finalFilePath, f, message)
  {
    SafeDeleteFile(fs, tempFilePath, f.tempUnlinkFails);
    SafeDeleteFile(fs, finalFilePath, f.finalUnlinkFails);
    res := Response(500, map["success" := JBool(false), "error" := JStr("Erro no processamento"),
                             "message" := JStr(if message != "" then message else "Falha ao processar upload")]);
    assert res == PostsUploadController.UploadFailure(message);
  }

  // ---------------------------------------------------------------------------
  // atualizarNovoPost

  /** The `$set` object of this controller: the trimmed `descricao` always, the trimmed
      `alt` only when it is truthy, never `autor`. A `descricao` that is not a string,
      or a truthy `alt` that is not one, makes `.trim()` throw. */
  function LegacyEdit(descricao: Json, alt: Json, now: int): (r: Result<PostUpdate>)
    ensures r.Ok? <==> descricao.JStr? && (!Truthy(alt) || alt.JStr?)
    ensures r.Ok? ==> r.value.descricao == Some(JStr(Trim(descricao.s))) && r.value.autor.None?
                      && r.value.imgUrl.None? && r.value.status.None? && r.value.updatedAt == Some(now)
    ensures r.Ok? ==> (r.value.alt.Some? <==> Truthy(alt))
    ensures r.Ok? && Truthy(alt) ==> r.value.alt == Some(JStr(Trim(alt.s)))
  {
    match TrimValue("descricao", descricao)
    case Err(m) => Err(m)
    case Ok(d) =>
      if !Truthy(alt) then Ok(PostUpdate(Some(JStr(d)), None, None, None, None, Some(now)))
      else match TrimValue("alt", alt)
        case Err(m) => Err(m)
        case Ok(a) => Ok(PostUpdate(Some(JStr(d)), Some(JStr(a)), None, None, None, Some(now)))
  }

  /** The outcome of `atualizarNovoPost`: there is no existence check before the
      update, and the reply echoes the `$set` object rather than the stored post. */
  function Atualizar(docs: seq<Post>, id: string, descricao: Json, alt: Json, now: int, down: bool)
    : (r: (seq<Post>, Response))
    ensures UniqueIds(docs) ==> UniqueIds(r.0)
  {
    match LegacyEdit(descricao, alt, now)
    case Err(_) => (docs, ServerError("Falha ao atualizar post"))
    case Ok(upd) =>
      var (docs2, matched) := SetFields(docs, id, upd, now, down);
      if matched.Err? then (docs2, ServerError("Falha ao atualizar post"))
      else if matched.value == 0 then (docs2, NotFound())
      else (docs2, Response(200, map["success" := JBool(true), "data" := JObj(map["_id" := JStr(id)] + UpdateJson(upd)),
                                     "message" := JStr("Post atualizado com sucesso")]))
  }

  /** An edit with an empty `alt` keeps the stored one, while the newer controller
      stores the empty string. */
  lemma EmptyAltIsIgnored(docs: seq<Post>, id: string, d: string, now: int, req: ReqInfo)
    requires IsValidObjectId(id) && ObjectIdOf(id) in IdsOf(docs)
    ensures var i := IndexOf(docs, ObjectIdOf(id)).value;
            var older := Atualizar(docs, id, JStr(d), JStr(""), now, false);
            var newer := PostsWriteController.Atualizar(docs, id, JStr(d), JStr(""), JUndefined, req, now, false, false, false);
            older.1.status == 200 && older.0[i].alt == docs[i].alt && older.0[i].descricao == JStr(Trim(d))
            && newer.0[i].alt == JStr("")
  {
    assert Trim("") == "" by { assert LeadingWs("") == 0; }
  }

  /** An edit of a post that does not exist is a 404 and changes nothing. */
  lemma AtualizarAbsent(docs: seq<Post>, id: string, d: string, alt: Json, now: int)
    requires IsValidObjectId(id) && ObjectIdOf(id) !in IdsOf(docs) && (!Truthy(alt) || alt.JStr?)
    ensures Atualizar(docs, id, JStr(d), alt, now, false) == (docs, NotFound())
  {
  }

  method AtualizarNovoPost(store: PostsCollection, id: string, descricao: Json, alt: Json, now: int, down: bool)
    returns (res: Response)
    requires store.Valid()
    modifies store
    ensures store.Valid() && (store.docs, res) == Atualizar(old(store.docs), id, descricao, alt, now, down)
  {
    if !descricao.JStr? {
      return ServerError("Falha ao atualizar post");
    }
    var postAtualizado := PostUpdate(Some(JStr(Trim(descricao.s))), None, None, None, None, Some(now));
    if Truthy(alt) {
      if !alt.JStr? {
        return ServerError("Falha ao atualizar post");
      }
      postAtualizado := postAtualizado.(alt := Some(JStr(Trim(alt.s))));
    }
    var resultado := store.AtualizarPost(id, postAtualizado, now, down);
    if resultado.Err? {
      return ServerError("Falha ao atualizar post");
    }
    if resultado.value == 0 {
      return NotFound();
    }
    res := Response(200, map["success" := JBool(true), "data" := JObj(map["_id" := JStr(id)] + UpdateJson(postAtualizado)),
                             "message" := JStr("Post atualizado com sucesso")]);
  }

  // ---------------------------------------------------------------------------
  // adicionarComentario

  /** `adicionarComentario` writes its replies inline but behaves exactly as the newer
      controller's. */
  method AdicionarComentario(store: PostsCollection, id: string, autor: Json, texto: Json, commentId: string,
                             now: int, down: bool)
    returns (res: Response)
    requires store.Valid()
    modifies store
    ensures store.Valid()
    ensures (store.docs, res) == PostsInteractionController.Comentar(old(store.docs), id, autor, texto, commentId, now, down)
  {
    ServerErrorAgrees("Falha ao adicionar comentário");
    if !autor.JStr? || !texto.JStr? {
      return ServerError("Falha ao adicionar comentário");
    }
    var comentario := NewComment(Trim(autor.s), Trim(texto.s), Some(now));
    ghost var docs0 := store.docs;
    var resultado := store.AdicionarComentarioAoPost(id, comentario, commentId, now, down);
    assert PostsInteractionController.Comentar(docs0, id, autor, texto, commentId, now, down).0 == store.docs;
    if resultado.Err? {
      return ServerError("Falha ao adicionar comentário");
    }
    if resultado.value == 0 {
      NotFoundAgrees();
      return NotFound();
    }
    res := Response(201, map["success" := JBool(true),
                             "data" := JObj(map["autor" := JStr(comentario.autor), "texto" := JStr(comentario.texto),
                                                "createdAt" := JDate(now)]),
                             "message" := JStr("Comentário adicionado com sucesso")]);
    CommentReplyAgrees(comentario, now);
  }

  lemma ServerErrorAgrees(message: string)
    ensures ServerError(message) == HandleServerError(message)
  {
  }

  lemma NotFoundAgrees()
    ensures NotFound() == HandleNotFound()
  {
  }

  lemma CommentReplyAgrees(c: NewComment, now: int)
    requires c.createdAt == Some(now)
    ensures Response(201, map["success" := JBool(true),
                              "data" := JObj(map["autor" := JStr(c.autor), "texto" := JStr(c.texto),
                                                 "createdAt" := JDate(now)]),
                              "message" := JStr("Comentário adicionado com sucesso")])
            == SendSuccess(Some(201), JObj(PostsInteractionController.CommentData(c, now)),
                           JStr("Comentário adicionado com sucesso"), JUndefined)
  {
  }

  // ---------------------------------------------------------------------------
  // curtirPost

  /** `acao === 'descurtir' ? -1 : 1`: every other action likes. */
  function AnyActionIncrement(acao: Json): (r: int)
    ensures r == -1 <==> acao == JStr("descurtir")
    ensures r == 1 || r == -1
  {
    if acao == JStr("descurtir") then -1 else 1
  }

  function Curtir(docs: seq<Post>, id: string, acao: Json, now: int, down: bool): (r: (seq<Post>, Response))
    ensures UniqueIds(docs) ==> UniqueIds(r.0)
  {
    var incremento := AnyActionIncrement(acao);
    var (docs2, matched) := IncLikes(docs, id, Some(incremento), now, down);
    if matched.Err? then (docs2, ServerError("Falha ao processar curtida"))
    else if matched.value == 0 then (docs2, NotFound())
    else (docs2, Response(200, map["success" := JBool(true),
                                   "data" := JObj(map["acao" := acao, "incremento" := JNum(incremento)]),
                                   "message" := JStr("Post " + (if acao == JStr("descurtir") then "descurtido" else "curtido")
                                                     + " com sucesso")]))
  }

  /** On the two valid actions both controllers agree; any other action, including a
      missing one, is a like here where the newer controller refuses it. */
  lemma CurtirAnyAction(docs: seq<Post>, id: string, acao: Json, now: int)
    ensures acao == JStr("curtir") || acao == JStr("descurtir") ==>
              Curtir(docs, id, acao, now, false) == PostsInteractionController.Curtir(docs, id, acao, now, false)
    ensures acao != JStr("curtir") && acao != JStr("descurtir") ==>
              Curtir(docs, id, acao, now, false).0 == IncLikes(docs, id, Some(1), now, false).0
              && PostsInteractionController.Curtir(docs, id, acao, now, false).1.status == 400
  {
  }

  method CurtirPost(store: PostsCollection, id: string, acao: Json, now: int, down: bool) returns (res: Response)
    requires store.Valid()
    modifies store
    ensures store.Valid() && (store.docs, res) == Curtir(old(store.docs), id, acao, now, down)
  {
    var incremento := if acao == JStr("descurtir") then -1 else 1;
    IncrementOfNumber(incremento);
    var resultado := store.CurtirOuDescurtirPost(id, JNum(incremento), now, down);
    if resultado.Err? {
      return ServerError("Falha ao processar curtida");
    }
    if resultado.value == 0 {
      return NotFound();
    }
    res := Response(200, map["success" := JBool(true),
                             "data" := JObj(map["acao" := acao, "incremento" := JNum(incremento)]),
                             "message" := JStr("Post " + (if acao == JStr("descurtir") then "descurtido" else "curtido")
                                               + " com sucesso")]);
  }
}
