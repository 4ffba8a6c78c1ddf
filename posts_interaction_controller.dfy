/** src/controllers/postsInteractionController.js: commenting on and liking a post. The
    choice of increment is a pure function; each handler is a method over the posts
    collection proved equal to a function that states its outcome. */
module PostsInteractionController {
  import opened Js
  import opened HttpResponses
  import opened PostsModel
  import opened PostControllerUtils

  const FailComment := "Falha ao adicionar comentário"
  const FailLike := "Falha ao processar curtida"
  const InvalidAction := "Ação inválida. Use 'curtir' ou 'descurtir'"

  // ---------------------------------------------------------------------------
  // adicionarComentario

  /** `{ autor, texto, createdAt }` as echoed back: the stored comment's fields, without
      its `_id`. */
  function CommentData(c: NewComment, now: int): map<string, Json> {
    map["autor" := JStr(c.autor), "texto" := JStr(c.texto),
        "createdAt" := JDate(if c.createdAt.Some? then c.createdAt.value else now)]
  }

  /** The outcome of `adicionarComentario` for `params.id` and the body fields `autor`
      and `texto`; `commentId` is the id the server generates. */
  function Comentar(docs: seq<Post>, id: string, autor: Json, texto: Json, commentId: string, now: int, down: bool)
    : (r: (seq<Post>, Response))
    ensures UniqueIds(docs) ==> UniqueIds(r.0)
  {
    match TrimValue("autor", autor)
    case Err(_) => (docs, HandleServerError(FailComment))
    case Ok(a) =>
      match TrimValue("texto", texto)
      case Err(_) => (docs, HandleServerError(FailComment))
      case Ok(t) =>
        var comentario := NewComment(a, t, Some(now));
        var (docs2, matched) := PushComment(docs, id, comentario, commentId, now, down);
        if matched.Err? then (docs2, HandleServerError(FailComment))
        else if matched.value == 0 then (docs2, HandleNotFound())
        else (docs2, SendSuccess(Some(201), JObj(CommentData(comentario, now)),
                                 JStr("Comentário adicionado com sucesso"), JUndefined))
  }

  /** A comment on an existing post is appended after the earlier ones with both fields
      trimmed and a fresh id; the reply is 201 and echoes it without that id. */
  lemma ComentarAppends(docs: seq<Post>, id: string, autor: string, texto: string, commentId: string, now: int)
    requires IsValidObjectId(id) && ObjectIdOf(id) in IdsOf(docs)
    requires Trim(autor) != "" && Trim(texto) != ""
    ensures var i := IndexOf(docs, ObjectIdOf(id)).value;
            var (docs2, res) := Comentar(docs, id, JStr(autor), JStr(texto), commentId, now, false);
            |docs2| == |docs| && docs2[i].comentarios[..|docs[i].comentarios|] == docs[i].comentarios
            && docs2[i].comentarios == docs[i].comentarios + [Comment(commentId, Trim(autor), Trim(texto), now)]
            && (forall j :: 0 <= j < |docs| && j != i ==> docs2[j] == docs[j])
            && res.status == 201
            && res.body["data"] == JObj(map["autor" := JStr(Trim(autor)), "texto" := JStr(Trim(texto)),
                                            "createdAt" := JDate(now)])
  {
    var i := IndexOf(docs, ObjectIdOf(id)).value;
    var c := NewComment(Trim(autor), Trim(texto), Some(now));
    var docs2 := Comentar(docs, id, JStr(autor), JStr(texto), commentId, now, false).0;
    assert docs2 == docs[i := docs[i].(comentarios := docs[i].comentarios + [Completed(c, commentId, now)],
                                       updatedAt := now)];
  }

  /** Commenting on a post that does not exist is a 404 and changes nothing. */
  lemma ComentarAbsent(docs: seq<Post>, id: string, autor: string, texto: string, commentId: string, now: int)
    requires IsValidObjectId(id) && ObjectIdOf(id) !in IdsOf(docs)
    requires Trim(autor) != "" && Trim(texto) != ""
    ensures Comentar(docs, id, JStr(autor), JStr(texto), commentId, now, false) == (docs, HandleNotFound())
  {
  }

  /** A blank author or text, or one that is not a string, is a 500 and changes nothing. */
  lemma ComentarRejectsBlank(docs: seq<Post>, id: string, autor: Json, texto: Json, commentId: string, now: int, down: bool)
    requires !autor.JStr? || !texto.JStr? || Trim(autor.s) == "" || Trim(texto.s) == ""
    ensures Comentar(docs, id, autor, texto, commentId, now, down) == (docs, HandleServerError(FailComment))
  {
  }

  method AdicionarComentario(store: PostsCollection, id: string, autor: Json, texto: Json, commentId: string,
                             now: int, down: bool)
    returns (res: Response)
    requires store.Valid()
    modifies store
    ensures store.Valid() && (store.docs, res) == Comentar(old(store.docs), id, autor, texto, commentId, now, down)
  {
    var a := TrimValue("autor", autor);
    if a.Err? {
      return HandleServerError(FailComment);
    }
    var t := TrimValue("texto", texto);
    if t.Err? {
      return HandleServerError(FailComment);
    }
    var comentario := NewComment(a.value, t.value, Some(now));
    var resultado := store.AdicionarComentarioAoPost(id, comentario, commentId, now, down);
    if resultado.Err? {
      return HandleServerError(FailComment);
    }
    if resultado.value == 0 {
      return HandleNotFound();
    }
    res := SendSuccess(Some(201), JObj(CommentData(comentario, now)),
                       JStr("Comentário adicionado com sucesso"), JUndefined);
  }

  // ---------------------------------------------------------------------------
  // curtirPost

  /** The increment of an action: `'descurtir'` is -1, `'curtir'` is +1, anything else
      (including no action) is refused. */
  function LikeIncrement(acao: Json): (r: Option<int>)
    ensures r.Some? <==> acao == JStr("curtir") || acao == JStr("descurtir")
    ensures r == Some(-1) <==> acao == JStr("descurtir")
    ensures r == Some(1) <==> acao == JStr("curtir")
  {
    if !Truthy(acao) || !(acao == JStr("curtir") || acao == JStr("descurtir")) then None
    else if acao == JStr("descurtir") then Some(-1)
    else Some(1)
  }

  /** The outcome of `curtirPost` for `params.id` and the body field `acao`. */
  function Curtir(docs: seq<Post>, id: string, acao: Json, now: int, down: bool): (r: (seq<Post>, Response))
    ensures UniqueIds(docs) ==> UniqueIds(r.0)
  {
    match LikeIncrement(acao)
    case None => (docs, SendError(Some(400), JStr("Validation error"), JStr(InvalidAction), JUndefined))
    case Some(incremento) =>
      var (docs2, matched) := IncLikes(docs, id, Some(incremento), now, down);
      if matched.Err? then (docs2, HandleServerError(FailLike))
      else if matched.value == 0 then (docs2, HandleNotFound())
      else (docs2, SendSuccess(Some(200), JObj(map["acao" := acao, "incremento" := JNum(incremento)]),
                               JStr("Post " + (if incremento == -1 then "descurtido" else "curtido") + " com sucesso"),
                               JUndefined))
  }

  /** An unknown or missing action is refused with 400 before the store is touched. */
  lemma CurtirRejectsUnknownAction(docs: seq<Post>, id: string, acao: Json, now: int, down: bool)
    requires acao != JStr("curtir") && acao != JStr("descurtir")
    ensures Curtir(docs, id, acao, now, down).0 == docs
    ensures Curtir(docs, id, acao, now, down).1.status == 400
    ensures Curtir(docs, id, acao, now, down).1.body["message"] == JStr(InvalidAction)
  {
  }

  /** A like or unlike of an existing post moves its count, and the collection's like
      total, by exactly one, and replies 200 with the action and the increment. */
  lemma CurtirMovesByOne(docs: seq<Post>, id: string, descurtir: bool, now: int)
    requires IsValidObjectId(id) && ObjectIdOf(id) in IdsOf(docs)
    ensures var acao := JStr(if descurtir then "descurtir" else "curtir");
            var n := if descurtir then -1 else 1;
            var i := IndexOf(docs, ObjectIdOf(id)).value;
            var (docs2, res) := Curtir(docs, id, acao, now, false);
            |docs2| == |docs| && docs2[i].curtidas == docs[i].curtidas + n
            && SumCurtidas(docs2) == SumCurtidas(docs) + n
            && res.status == 200 && res.body["data"] == JObj(map["acao" := acao, "incremento" := JNum(n)])
  {
    var n := if descurtir then -1 else 1;
    var after := IncLikes(docs, id, Some(n), now, false).0;
    IncLikesMovesTotal(docs, id, n, now, after);
  }

  /** Liking a post that does not exist is a 404 and changes nothing. */
  lemma CurtirAbsent(docs: seq<Post>, id: string, acao: Json, now: int)
    requires IsValidObjectId(id) && ObjectIdOf(id) !in IdsOf(docs) && LikeIncrement(acao).Some?
    ensures Curtir(docs, id, acao, now, false) == (docs, HandleNotFound())
  {
  }

  method CurtirPost(store: PostsCollection, id: string, acao: Json, now: int, down: bool) returns (res: Response)
    requires store.Valid()
    modifies store
    ensures store.Valid() && (store.docs, res) == Curtir(old(store.docs), id, acao, now, down)
  {
    var inc := LikeIncrement(acao);
    if inc.None? {
      return SendError(Some(400), JStr("Validation error"), JStr(InvalidAction), JUndefined);
    }
    var incremento := inc.value;
    IncrementOfNumber(incremento);
    var resultado := store.CurtirOuDescurtirPost(id, JNum(incremento), now, down);
    if resultado.Err? {
      return HandleServerError(FailLike);
    }
    if resultado.value == 0 {
      return HandleNotFound();
    }
    res := SendSuccess(Some(200), JObj(map["acao" := acao, "incremento" := JNum(incremento)]),
                       JStr("Post " + (if incremento == -1 then "descurtido" else "curtido") + " com sucesso"),
                       JUndefined);
  }
}
