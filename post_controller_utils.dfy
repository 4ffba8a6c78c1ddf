/** src/controllers/postControllerUtils.js: the shared 404 and 500 replies and the
    `$set` object an edit builds. */
module PostControllerUtils {
  import opened Js
  import opened HttpResponses
  import opened PostsModel

  /** `handleNotFound(res)`. */
  function HandleNotFound(): (r: Response)
    ensures r.status == 404 && r.body.Keys == {"success", "error", "message"}
    ensures r.body["success"] == JBool(false)
    ensures r.body["error"] == JStr("Post não encontrado")
    ensures r.body["message"] == JStr("O post solicitado não existe")
  {
    Failure(404, "Post não encontrado", "O post solicitado não existe")
  }

  /** `handleServerError(res, error, message)`: the caught error itself is only logged,
      the reply carries the handler's own message. */
  function HandleServerError(message: string): (r: Response)
    ensures r.status == 500 && r.body.Keys == {"success", "error", "message"}
    ensures r.body["success"] == JBool(false)
    ensures r.body["error"] == JStr("Erro interno do servidor")
    ensures r.body["message"] == JStr(message)
  {
    Failure(500, "Erro interno do servidor", message)
  }

  /** The trimmed value of a field that is set only when it is not `undefined`. */
  function TrimIfPresent(name: string, v: Json): (r: Result<Option<Json>>)
    ensures v == JUndefined ==> r == Ok(None)
    ensures v.JStr? ==> r == Ok(Some(JStr(Trim(v.s))))
    ensures r.Err? <==> v != JUndefined && !v.JStr?
  {
    if v == JUndefined then Ok(None)
    else match TrimValue(name, v)
      case Ok(t) => Ok(Some(JStr(t)))
      case Err(m) => Err(m)
  }

  /** `buildPostUpdate({ descricao, alt, autor })` at time `now`. A field that is
      present but not a string makes `.trim()` throw. */
  function BuildPostUpdate(descricao: Json, alt: Json, autor: Json, now: int): (r: Result<PostUpdate>)
    ensures r.Ok? <==> (descricao == JUndefined || descricao.JStr?) && (alt == JUndefined || alt.JStr?)
                       && (autor == JUndefined || autor.JStr?)
    ensures r.Ok? ==> r.value.updatedAt == Some(now) && r.value.imgUrl.None? && r.value.status.None?
    ensures r.Ok? ==> ((r.value.descricao.Some? <==> descricao != JUndefined)
                       && (r.value.alt.Some? <==> alt != JUndefined)
                       && (r.value.autor.Some? <==> autor != JUndefined))
    ensures r.Ok? && descricao.JStr? ==> r.value.descricao == Some(JStr(Trim(descricao.s)))
    ensures r.Ok? && alt.JStr? ==> r.value.alt == Some(JStr(Trim(alt.s)))
    ensures r.Ok? && autor.JStr? ==> r.value.autor == Some(JStr(Trim(autor.s)))
  {
    var d := TrimIfPresent("descricao", descricao);
    if d.Err? then Err(d.message)
    else
      var a := TrimIfPresent("alt", alt);
      if a.Err? then Err(a.message)
      else
        var w := TrimIfPresent("autor", autor);
        if w.Err? then Err(w.message)
        else Ok(PostUpdate(d.value, a.value, w.value, None, None, Some(now)))
  }

  /** The `$set` object holds `updatedAt` and exactly the fields the request supplied. */
  lemma PostUpdateKeys(descricao: Json, alt: Json, autor: Json, now: int)
    requires BuildPostUpdate(descricao, alt, autor, now).Ok?
    ensures UpdateJson(BuildPostUpdate(descricao, alt, autor, now).value).Keys
            == {"updatedAt"} + (if descricao != JUndefined then {"descricao"} else {})
               + (if alt != JUndefined then {"alt"} else {}) + (if autor != JUndefined then {"autor"} else {})
  {
  }

  /** An edit leaves the image, the likes, the comments, the status and the creation
      date as they were. */
  lemma EditKeepsTheRest(p: Post, descricao: Json, alt: Json, autor: Json, now: int)
    requires BuildPostUpdate(descricao, alt, autor, now).Ok?
    ensures var q := ApplySet(p, BuildPostUpdate(descricao, alt, autor, now).value, now);
            q.imgUrl == p.imgUrl && q.curtidas == p.curtidas && q.comentarios == p.comentarios
            && q.status == p.status && q.createdAt == p.createdAt && q.id == p.id
  {
  }
}
