/** src/controllers/postsWriteController.js: creating, editing and deleting a post. Each
    handler is a method over the posts collection (and, for a delete, the disk) proved
    equal to a function that states the handler's outcome. */
module PostsWriteController {
  import opened Js
  import opened Paths
  import opened Fs
  import opened HttpResponses
  import opened PostsModel
  import opened PostUtils
  import opened PostControllerUtils

  const FailCreate := "Falha ao criar post"
  const FailUpdate := "Falha ao atualizar post"
  const FailDelete := "Falha ao deletar post"

  // ---------------------------------------------------------------------------
  // deleteFileIfExists

  /** `deleteFileIfExists(filePath)`: a missing path is left alone; an unlink error
      propagates. */
  function DeleteIfExists(files: Files, dirs: set<string>, filePath: string, fault: bool): (r: Result<Files>)
    requires files.Keys !! dirs
    ensures !Exists(files, dirs, filePath) ==> r == Ok(files)
    ensures filePath in files && !fault ==> r == Ok(files - {filePath})
    ensures r.Err? <==> filePath in dirs || (filePath in files && fault)
  {
    if Exists(files, dirs, filePath) then Unlink(files, dirs, filePath, fault) else Ok(files)
  }

  method DeleteFileIfExists(fs: FileSystem, filePath: string, fault: bool) returns (r: Result<()>)
    requires fs.Valid()
    modifies fs
    ensures fs.Valid() && fs.dirs == old(fs.dirs)
    ensures var m := DeleteIfExists(old(fs.files), old(fs.dirs), filePath, fault);
            if m.Ok? then r == Ok(()) && fs.files == m.value else r.Err? && fs.files == old(fs.files)
  {
    r := Ok(());
    if fs.ExistsSync(filePath) {
      r := fs.UnlinkSync(filePath, fault);
    }
  }

  // ---------------------------------------------------------------------------
  // postarNovoPost

  /** The object handed to `criarPost`. */
  function TextPost(descricao: string, autor: Json, now: int): (r: NewPost)
    ensures r.descricao == JStr(descricao) && r.imgUrl == JNull && r.alt == JNull
    ensures r.autor == (if Truthy(autor) then autor else JStr(DefaultAuthor))
    ensures r.curtidas == Some(0) && r.comentarios == Some([]) && r.status.None?
  {
    NewPost(JStr(descricao), JNull, JNull, Or(autor, JStr(DefaultAuthor)),
            Some(0), Some([]), Some(now), Some(now), None)
  }

  /** `{ _id: insertedId, ...novoPost, shareUrl }`. */
  function CreatedData(postId: string, np: NewPost, req: ReqInfo): map<string, Json> {
    (map["_id" := JStr(postId)] + NewPostJson(np))["shareUrl" := JStr(BuildShareUrl(req, postId))]
  }

  /** The outcome of `postarNovoPost` for body fields `descricao` and `autor`. */
  function Postar(docs: seq<Post>, descricao: Json, autor: Json, req: ReqInfo, freshId: string, now: int, down: bool)
    : (r: (seq<Post>, Response))
    ensures UniqueIds(docs) ==> UniqueIds(r.0)
  {
    match TrimValue("descricao", descricao)
    case Err(_) => (docs, HandleServerError(FailCreate))
    case Ok(d) =>
      var np := TextPost(d, autor, now);
      var (docs1, created) := Insert(docs, np, freshId, now, down);
      if created.Err? then (docs1, HandleServerError(FailCreate))
      else (docs1, SendSuccess(Some(201), JObj(CreatedData(created.value, np, req)),
                               JStr("Post criado com sucesso"), JUndefined))
  }

  /** A text post is stored with its description trimmed, the default author when none
      is given and no image, and the reply echoes exactly the stored document plus its
      share link. */
  lemma PostarStoresTrimmed(docs: seq<Post>, s: string, autor: Json, req: ReqInfo, freshId: string, now: int)
    requires Trim(s) != "" && freshId !in IdsOf(docs)
    ensures var (docs2, res) := Postar(docs, JStr(s), autor, req, freshId, now, false);
            var q := Complete(TextPost(Trim(s), autor, now), freshId, now);
            docs2 == docs + [q]
            && q.descricao == JStr(Trim(s)) && q.imgUrl == JNull && q.alt == JNull && q.curtidas == 0
            && q.autor == (if Truthy(autor) then autor else JStr(DefaultAuthor))
            && res.status == 201
            && res.body["data"] == JObj(PostJson(q)["shareUrl" := JStr(BuildShareUrl(req, freshId))])
  {
    var np := TextPost(Trim(s), autor, now);
    TextPostStored(Trim(s), autor, now, freshId);
    assert CreatedData(freshId, np, req) == PostJson(Complete(np, freshId, now))["shareUrl" := JStr(BuildShareUrl(req, freshId))];
  }

  /** The object handed to `criarPost`, with `_id`, is exactly the stored document. */
  lemma TextPostStored(d: string, autor: Json, now: int, id: string)
    ensures map["_id" := JStr(id)] + NewPostJson(TextPost(d, autor, now)) == PostJson(Complete(TextPost(d, autor, now), id, now))
  {
    var np := TextPost(d, autor, now);
    var l := map["_id" := JStr(id)] + NewPostJson(np);
    var r := PostJson(Complete(np, id, now));
    assert NewPostJson(np) == map["descricao" := np.descricao, "alt" := np.alt, "imgUrl" := np.imgUrl,
                                  "autor" := np.autor, "curtidas" := JNum(0), "comentarios" := CommentsJson([]),
                                  "createdAt" := JDate(now), "updatedAt" := JDate(now)];
  }

  /** A description that is not a string, or is blank once trimmed, creates nothing and
      is reported as a 500. */
  lemma PostarRejectsBadDescription(docs: seq<Post>, descricao: Json, autor: Json, req: ReqInfo, freshId: string, now: int, down: bool)
    requires !descricao.JStr? || Trim(descricao.s) == ""
    ensures Postar(docs, descricao, autor, req, freshId, now, down) == (docs, HandleServerError(FailCreate))
  {
  }

  method PostarNovoPost(store: PostsCollection, descricao: Json, autor: Json, req: ReqInfo, freshId: string, now: int, down: bool)
    returns (res: Response)
    requires store.Valid()
    modifies store
    ensures store.Valid() && (store.docs, res) == Postar(old(store.docs), descricao, autor, req, freshId, now, down)
  {
    var d := TrimValue("descricao", descricao);
    if d.Err? {
      return HandleServerError(FailCreate);
    }
    var novoPost := TextPost(d.value, autor, now);
    var postCriado := store.CriarPost(novoPost, freshId, now, down);
    if postCriado.Err? {
      return HandleServerError(FailCreate);
    }
    res := SendSuccess(Some(201), JObj(CreatedData(postCriado.value, novoPost, req)),
                       JStr("Post criado com sucesso"), JUndefined);
  }

  // ---------------------------------------------------------------------------
  // atualizarNovoPost

  /** `{ ...postCompleto, shareUrl }`; spreading `null` adds nothing. */
  function UpdatedData(found: Option<Post>, req: ReqInfo, id: string): map<string, Json> {
    (if found.Some? then PostJson(found.value) else map[])["shareUrl" := JStr(BuildShareUrl(req, id))]
  }

  /** The outcome of `atualizarNovoPost` for `params.id` and the body fields; the three
      store calls (find, update, re-find) fail independently. */
  function Atualizar(docs: seq<Post>, id: string, descricao: Json, alt: Json, autor: Json, req: ReqInfo, now: int,
                     findDown: bool, updateDown: bool, refetchDown: bool): (r: (seq<Post>, Response))
    ensures UniqueIds(docs) ==> UniqueIds(r.0)
  {
    match FindById(docs, id, findDown)
    case Err(_) => (docs, HandleServerError(FailUpdate))
    case Ok(None) => (docs, HandleNotFound())
    case Ok(Some(_)) =>
      match BuildPostUpdate(descricao, alt, autor, now)
      case Err(_) => (docs, HandleServerError(FailUpdate))
      case Ok(upd) => ApplyEdit(docs, id, upd, req, now, updateDown, refetchDown)
  }

  /** The steps of `atualizarNovoPost` once the `$set` object is built. */
  function ApplyEdit(docs: seq<Post>, id: string, upd: PostUpdate, req: ReqInfo, now: int,
                     updateDown: bool, refetchDown: bool): (r: (seq<Post>, Response))
    ensures UniqueIds(docs) ==> UniqueIds(r.0)
  {
    var (docs2, matched) := SetFields(docs, id, upd, now, updateDown);
    if matched.Err? then (docs2, HandleServerError(FailUpdate))
    else if matched.value == 0 then (docs2, HandleNotFound())
    else match FindById(docs2, id, refetchDown)
      case Err(_) => (docs2, HandleServerError(FailUpdate))
      case Ok(found) => (docs2, SendSuccess(Some(200), JObj(UpdatedData(found, req, id)),
                                            JStr("Post atualizado com sucesso"), JUndefined))
  }

  /** Editing a post that does not exist is a 404 and changes nothing. */
  lemma AtualizarAbsent(docs: seq<Post>, id: string, descricao: Json, alt: Json, autor: Json, req: ReqInfo, now: int,
                        updateDown: bool, refetchDown: bool)
    requires IsValidObjectId(id) && ObjectIdOf(id) !in IdsOf(docs)
    ensures Atualizar(docs, id, descricao, alt, autor, req, now, false, updateDown, refetchDown) == (docs, HandleNotFound())
  {
  }

  /** Replacing a document by one with the same id keeps where that id is found. */
  lemma IndexOfAfterReplace(docs: seq<Post>, i: nat, p: Post)
    requires IndexOf(docs, p.id) == Some(i)
    ensures IndexOf(docs[i := p], p.id) == Some(i)
  {
    var d := docs[i := p];
    assert d[i].id == p.id;
    assert forall j :: 0 <= j < i ==> d[j] == docs[j];
  }

  /** A successful edit applies `buildPostUpdate` of the body to the stored document and
      replies 200 with the re-read document and its share link. */
  lemma AtualizarSuccess(docs: seq<Post>, id: string, descricao: Json, alt: Json, autor: Json, req: ReqInfo, now: int)
    requires IsValidObjectId(id) && ObjectIdOf(id) in IdsOf(docs)
    requires BuildPostUpdate(descricao, alt, autor, now).Ok?
    ensures var i := IndexOf(docs, ObjectIdOf(id)).value;
            var q := ApplySet(docs[i], BuildPostUpdate(descricao, alt, autor, now).value, now);
            var (docs2, res) := Atualizar(docs, id, descricao, alt, autor, req, now, false, false, false);
            docs2 == docs[i := q] && res.status == 200
            && res.body["data"] == JObj(PostJson(q)["shareUrl" := JStr(BuildShareUrl(req, id))])
  {
    var upd := BuildPostUpdate(descricao, alt, autor, now).value;
    assert Atualizar(docs, id, descricao, alt, autor, req, now, false, false, false)
           == ApplyEdit(docs, id, upd, req, now, false, false);
    ApplyEditSuccess(docs, id, upd, req, now);
  }

  lemma ApplyEditSuccess(docs: seq<Post>, id: string, upd: PostUpdate, req: ReqInfo, now: int)
    requires IsValidObjectId(id) && ObjectIdOf(id) in IdsOf(docs)
    ensures var i := IndexOf(docs, ObjectIdOf(id)).value;
            var q := ApplySet(docs[i], upd, now);
            ApplyEdit(docs, id, upd, req, now, false, false)
            == (docs[i := q], SendSuccess(Some(200), JObj(UpdatedData(Some(q), req, id)),
                                          JStr("Post atualizado com sucesso"), JUndefined))
  {
    var i := IndexOf(docs, ObjectIdOf(id)).value;
    var q := ApplySet(docs[i], upd, now);
    IndexOfAfterReplace(docs, i, q);
    assert SetFields(docs, id, upd, now, false) == (docs[i := q], Ok(1));
  }

  /** An update that fails after the post was found leaves the collection as it was. */
  lemma AtualizarUpdateFails(docs: seq<Post>, id: string, descricao: Json, alt: Json, autor: Json, req: ReqInfo, now: int,
                             refetchDown: bool)
    requires IsValidObjectId(id) && ObjectIdOf(id) in IdsOf(docs)
    ensures Atualizar(docs, id, descricao, alt, autor, req, now, false, true, refetchDown).0 == docs
    ensures Atualizar(docs, id, descricao, alt, autor, req, now, false, true, refetchDown).1 == HandleServerError(FailUpdate)
  {
  }

  method AtualizarNovoPost(store: PostsCollection, id: string, descricao: Json, alt: Json, autor: Json, req: ReqInfo,
                           now: int, findDown: bool, updateDown: bool, refetchDown: bool)
    returns (res: Response)
    requires store.Valid()
    modifies store
    ensures store.Valid()
    ensures (store.docs, res) == Atualizar(old(store.docs), id, descricao, alt, autor, req, now, findDown, updateDown, refetchDown)
  {
    ghost var docs0 := store.docs;
    var postExistente := store.GetPostPorId(id, findDown);
    if postExistente.Err? {
      assert Atualizar(docs0, id, descricao, alt, autor, req, now, findDown, updateDown, refetchDown)
             == (docs0, HandleServerError(FailUpdate));
      return HandleServerError(FailUpdate);
    }
    if postExistente.value.None? {
      assert Atualizar(docs0, id, descricao, alt, autor, req, now, findDown, updateDown, refetchDown)
             == (docs0, HandleNotFound());
      return HandleNotFound();
    }
    var postAtualizado := BuildPostUpdate(descricao, alt, autor, now);
    if postAtualizado.Err? {
      assert Atualizar(docs0, id, descricao, alt, autor, req, now, findDown, updateDown, refetchDown)
             == (docs0, HandleServerError(FailUpdate));
      return HandleServerError(FailUpdate);
    }
    assert Atualizar(docs0, id, descricao, alt, autor, req, now, findDown, updateDown, refetchDown)
           == ApplyEdit(docs0, id, postAtualizado.value, req, now, updateDown, refetchDown);
    res := ApplyEditInPlace(store, id, postAtualizado.value, req, now, updateDown, refetchDown);
  }

  /** The update, the re-read and the reply of `atualizarNovoPost`. */
  method ApplyEditInPlace(store: PostsCollection, id: string, upd: PostUpdate, req: ReqInfo, now: int,
                          updateDown: bool, refetchDown: bool)
    returns (res: Response)
    requires store.Valid()
    modifies store
    ensures store.Valid()
    ensures (store.docs, res) == ApplyEdit(old(store.docs), id, upd, req, now, updateDown, refetchDown)
  {
    var resultado := store.AtualizarPost(id, upd, now, updateDown);
    if resultado.Err? {
      return HandleServerError(FailUpdate);
    }
    if resultado.value == 0 {
      return HandleNotFound();
    }
    var postCompleto := store.GetPostPorId(id, refetchDown);
    if postCompleto.Err? {
      return HandleServerError(FailUpdate);
    }
    res := SendSuccess(Some(200), JObj(UpdatedData(postCompleto.value, req, id)),
                       JStr("Post atualizado com sucesso"), JUndefined);
  }

  // ---------------------------------------------------------------------------
  // deletarPostController

  /** The file a stored image URL names: `uploads/<last '/'-segment>`. */
  function ImagePath(uploadsDir: string, imgUrl: string): string {
    Join(uploadsDir, LastSegment(imgUrl))
  }

  /** The files after the image step of a delete. A falsy `imgUrl` is skipped; a truthy
      one that is not a string makes `.split` throw, and an unlink error is caught, so
      both leave the files alone. */
  function RemoveImage(files: Files, dirs: set<string>, imgUrl: Json, uploadsDir: string, fault: bool): (r: Files)
    requires files.Keys !! dirs
    ensures r.Keys !! dirs && r.Keys <= files.Keys
    ensures !imgUrl.JStr? ==> r == files
    ensures imgUrl.JStr? && imgUrl.s != "" && ImagePath(uploadsDir, imgUrl.s) in files && !fault
            ==> r == files - {ImagePath(uploadsDir, imgUrl.s)}
    ensures fault ==> r == files
  {
    if Truthy(imgUrl) && imgUrl.JStr? then
      match DeleteIfExists(files, dirs, ImagePath(uploadsDir, imgUrl.s), fault)
      case Ok(f) => f
      case Err(_) => files
    else files
  }

  /** The outcome of `deletarPostController` for `params.id`; returns the documents, the
      files and the reply. */
  function Deletar(docs: seq<Post>, files: Files, dirs: set<string>, id: string, uploadsDir: string,
                   findDown: bool, unlinkFault: bool, deleteDown: bool): (r: (seq<Post>, Files, Response))
    requires files.Keys !! dirs
    ensures r.1.Keys !! dirs
    ensures UniqueIds(docs) ==> UniqueIds(r.0)
  {
    match FindById(docs, id, findDown)
    case Err(_) => (docs, files, HandleServerError(FailDelete))
    case Ok(None) => (docs, files, HandleNotFound())
    case Ok(Some(p)) =>
      var files1 := RemoveImage(files, dirs, p.imgUrl, uploadsDir, unlinkFault);
      var (docs1, deleted) := Delete(docs, id, deleteDown);
      if deleted.Err? then (docs1, files1, HandleServerError(FailDelete))
      else if deleted.value == 0 then (docs1, files1, HandleNotFound())
      else (docs1, files1, SendSuccess(Some(200), JObj(map["_id" := JStr(id), "deleted" := JBool(true)]),
                                       JStr("Post deletado com sucesso"), JUndefined))
  }

  /** Deleting a post that does not exist is a 404 and deletes nothing. */
  lemma DeletarAbsent(docs: seq<Post>, files: Files, dirs: set<string>, id: string, uploadsDir: string,
                      unlinkFault: bool, deleteDown: bool)
    requires files.Keys !! dirs && IsValidObjectId(id) && ObjectIdOf(id) !in IdsOf(docs)
    ensures Deletar(docs, files, dirs, id, uploadsDir, false, unlinkFault, deleteDown) == (docs, files, HandleNotFound())
  {
  }

  /** With no fault a delete removes the record, leaving the others in their order, and
      the image file its URL names, and replies 200 with `{ _id, deleted: true }`. */
  lemma DeletarRemovesImageAndRecord(docs: seq<Post>, files: Files, dirs: set<string>, id: string, uploadsDir: string)
    requires files.Keys !! dirs && UniqueIds(docs) && IsValidObjectId(id) && ObjectIdOf(id) in IdsOf(docs)
    ensures var p := docs[IndexOf(docs, ObjectIdOf(id)).value];
            var (docs2, files2, res) := Deletar(docs, files, dirs, id, uploadsDir, false, false, false);
            IdsOf(docs2) == IdsOf(docs) - {ObjectIdOf(id)} && |docs2| == |docs| - 1
            && docs2 == docs[..IndexOf(docs, ObjectIdOf(id)).value] + docs[IndexOf(docs, ObjectIdOf(id)).value + 1..]
            && (p.imgUrl.JStr? && p.imgUrl.s != "" && ImagePath(uploadsDir, p.imgUrl.s) in files
                ==> files2 == files - {ImagePath(uploadsDir, p.imgUrl.s)})
            && (!p.imgUrl.JStr? ==> files2 == files)
            && res.status == 200 && res.body["data"] == JObj(map["_id" := JStr(id), "deleted" := JBool(true)])
  {
  }

  /** A failing unlink is swallowed: the record is still deleted and the reply is 200. */
  lemma DeletarSwallowsFileError(docs: seq<Post>, files: Files, dirs: set<string>, id: string, uploadsDir: string)
    requires files.Keys !! dirs && UniqueIds(docs) && IsValidObjectId(id) && ObjectIdOf(id) in IdsOf(docs)
    ensures var (docs2, files2, res) := Deletar(docs, files, dirs, id, uploadsDir, false, true, false);
            files2 == files && |docs2| == |docs| - 1 && res.status == 200
  {
  }

  /** The image goes before the record: when the record delete then fails, the image is
      already gone while the record stays. */
  lemma DeletarImageFirst(docs: seq<Post>, files: Files, dirs: set<string>, id: string, uploadsDir: string)
    requires files.Keys !! dirs && IsValidObjectId(id) && ObjectIdOf(id) in IdsOf(docs)
    ensures var p := docs[IndexOf(docs, ObjectIdOf(id)).value];
            var (docs2, files2, res) := Deletar(docs, files, dirs, id, uploadsDir, false, false, true);
            docs2 == docs && files2 == RemoveImage(files, dirs, p.imgUrl, uploadsDir, false)
            && res == HandleServerError(FailDelete)
  {
  }

  method DeletarPostController(store: PostsCollection, fs: FileSystem, id: string, uploadsDir: string,
                               findDown: bool, unlinkFault: bool, deleteDown: bool)
    returns (res: Response)
    requires store.Valid() && fs.Valid()
    modifies store, fs
    ensures store.Valid() && fs.Valid() && fs.dirs == old(fs.dirs)
    ensures (store.docs, fs.files, res)
            == Deletar(old(store.docs), old(fs.files), old(fs.dirs), id, uploadsDir, findDown, unlinkFault, deleteDown)
  {
    var postExistente := store.GetPostPorId(id, findDown);
    if postExistente.Err? {
      return HandleServerError(FailDelete);
    }
    if postExistente.value.None? {
      return HandleNotFound();
    }
    var imgUrl := postExistente.value.value.imgUrl;
    if Truthy(imgUrl) {
      // a non-string `imgUrl` makes `.split` throw, which is caught and logged
      if imgUrl.JStr? {
        var fileName := LastSegment(imgUrl.s);
        var filePath := Join(uploadsDir, fileName);
        var removed := DeleteFileIfExists(fs, filePath, unlinkFault);
        // an unlink error is caught and logged
      }
    }
    var resultado := store.DeletarPost(id, deleteDown);
    if resultado.Err? {
      return HandleServerError(FailDelete);
    }
    if resultado.value == 0 {
      return HandleNotFound();
    }
    res := SendSuccess(Some(200), JObj(map["_id" := JStr(id), "deleted" := JBool(true)]),
                       JStr("Post deletado com sucesso"), JUndefined);
  }
}
