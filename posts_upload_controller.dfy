/** src/controllers/postsUploadController.js: `uploadImagem`, the image-upload pipeline
    and the cleanup its catch block performs. `Upload` states the outcome of one request
    on the posts collection and the disk; the method `UploadImagem` performs the same
    steps in place. */
module PostsUploadController {
  import opened Js
  import opened Paths
  import opened Fs
  import opened FileUtils
  import opened HttpResponses
  import opened PostsModel
  import opened PostUtils
  import opened UploadUtils

  /** `req.file` as multer leaves it. */
  datatype UploadedFile = UploadedFile(path: string, originalname: string)

  datatype UploadRequest = UploadRequest(file: Option<UploadedFile>, autor: Json, req: ReqInfo)

  /** `process.env.BASE_URL` (empty when unset), the id the driver generates for the
      new record, and the clock. */
  datatype Env = Env(baseUrl: string, freshId: string, now: int)

  /** Where the environment fails: the store on create or update, the disk on rename,
      read or either cleanup unlink, and what the caption service does. */
  datatype Faults = Faults(
    createFails: bool,
    renameFault: Option<string>,
    readFault: Option<string>,
    caption: Caption,
    updateFails: bool,
    tempUnlinkFails: bool,
    finalUnlinkFails: bool)

  /** The posts collection and the disk. */
  datatype World = World(docs: seq<Post>, files: Files, dirs: set<string>)

  predicate WorldOk(w: World) {
    w.files.Keys !! w.dirs
  }

  const SuccessMessage := "Imagem enviada e processada com sucesso"

  function NoFileResponse(): Response {
    Failure(400, "Arquivo não encontrado", "Nenhuma imagem foi enviada")
  }

  /** The reply of the catch block: `error.message || 'Falha ao processar upload'`. */
  function UploadFailure(message: string): Response {
    SendError(Some(500), JStr("Erro no processamento"),
              JStr(if message != "" then message else "Falha ao processar upload"), JUndefined)
  }

  /** The catch block: delete whichever of the two paths is still set, then reply 500. */
  function CleanUp(w: World, temp: Option<string>, final: Option<string>, f: Faults, message: string): (r: (World, Response))
    requires WorldOk(w)
    ensures WorldOk(r.0) && r.0.docs == w.docs && r.0.dirs == w.dirs
    ensures r.0.files.Keys <= w.files.Keys
    ensures r.1 == UploadFailure(message)
  {
    var files1 := SafeDeleteEffect(w.files, w.dirs, temp, f.tempUnlinkFails);
    var files2 := SafeDeleteEffect(files1, w.dirs, final, f.finalUnlinkFails);
    (World(w.docs, files2, w.dirs), UploadFailure(message))
  }

  /** `{ _id: postId, ...novoPost, ...postAtualizado, shareUrl }`. */
  function UploadData(postId: string, np: NewPost, upd: PostUpdate, req: ReqInfo): map<string, Json> {
    (map["_id" := JStr(postId)] + NewPostJson(np) + UpdateJson(upd))["shareUrl" := JStr(BuildShareUrl(req, postId))]
  }

  /** The outcome of `uploadImagem` on world `w`. */
  function Upload(w: World, rq: UploadRequest, env: Env, f: Faults): (r: (World, Response))
    requires WorldOk(w)
    ensures WorldOk(r.0) && r.0.dirs == w.dirs
  {
    if rq.file.None? then (w, NoFileResponse())
    else
      var temp := rq.file.value.path;
      var np := BuildInitialPost(rq.autor, env.now);
      var (docs1, created) := Insert(w.docs, np, env.freshId, env.now, f.createFails);
      if created.Err? then CleanUp(World(docs1, w.files, w.dirs), Some(temp), None, f, created.message)
      else
        var postId := created.value;
        var (newFileName, final) := BuildFinalFilePath(temp, postId, rq.file.value.originalname);
        match Rename(w.files, w.dirs, temp, final, f.renameFault)
        case Err(m) => CleanUp(World(docs1, w.files, w.dirs), Some(temp), Some(final), f, m)
        case Ok(files1) => AfterMove(World(docs1, files1, w.dirs), postId, np, newFileName, final, rq, env, f)
  }

  /** The steps after the file has been moved to `final`: read it back, caption it and
      complete the record. */
  function AfterMove(w1: World, postId: string, np: NewPost, newFileName: string, final: string,
                     rq: UploadRequest, env: Env, f: Faults): (r: (World, Response))
    requires WorldOk(w1)
    ensures WorldOk(r.0) && r.0.dirs == w1.dirs
  {
    var imgUrl := BuildImageUrl(BaseUrl(env.baseUrl, rq.req), newFileName);
    match ReadImage(w1.files, w1.dirs, final, f.readFault)
    case Err(m) => CleanUp(w1, None, Some(final), f, m)
    case Ok(_) =>
      var (descricao, alt) := GetImageDescription(f.caption);
      var upd := BuildImageUpdate(imgUrl, descricao, alt, env.now);
      var (docs2, updated) := SetFields(w1.docs, postId, upd, env.now, f.updateFails);
      if updated.Err? then CleanUp(World(docs2, w1.files, w1.dirs), None, Some(final), f, updated.message)
      else (World(docs2, w1.files, w1.dirs),
            SendSuccess(Some(201), JObj(UploadData(postId, np, upd, rq.req)), JStr(SuccessMessage), JUndefined))
  }

  // ---------------------------------------------------------------------------
  // What survives each failure point

  /** Without a file the reply is 400 and nothing is created or touched. */
  lemma NoFileTouchesNothing(w: World, rq: UploadRequest, env: Env, f: Faults)
    requires WorldOk(w) && rq.file.None?
    ensures Upload(w, rq, env, f).0 == w
    ensures Upload(w, rq, env, f).1.status == 400
    ensures Upload(w, rq, env, f).1.body["message"] == JStr("Nenhuma imagem foi enviada")
  {
  }

  /** When the placeholder cannot be created, no record is added, the temporary upload
      is deleted (unless that unlink fails) and the reply is 500 with the store's message. */
  lemma CreateFailureDeletesTemp(w: World, rq: UploadRequest, env: Env, f: Faults)
    requires WorldOk(w) && rq.file.Some?
    requires f.createFails || env.freshId in IdsOf(w.docs)
    ensures var (w2, res) := Upload(w, rq, env, f);
            w2.docs == w.docs
            && w2.files == SafeDeleteEffect(w.files, w.dirs, Some(rq.file.value.path), f.tempUnlinkFails)
            && res == UploadFailure(ErrCreate) && res.status == 500
  {
  }

  /** The placeholder record the pipeline creates. */
  function Placeholder(w: World, rq: UploadRequest, env: Env): Post {
    Complete(BuildInitialPost(rq.autor, env.now), env.freshId, env.now)
  }

  predicate Created(w: World, rq: UploadRequest, env: Env, f: Faults) {
    rq.file.Some? && !f.createFails && env.freshId !in IdsOf(w.docs)
  }

  function FinalPath(rq: UploadRequest, env: Env): string
    requires rq.file.Some?
  {
    BuildFinalFilePath(rq.file.value.path, env.freshId, rq.file.value.originalname).1
  }

  /** A failed rename leaves the placeholder in place with status `processing` and
      cleans up both the temporary path and the final path. */
  lemma RenameFailureKeepsPlaceholder(w: World, rq: UploadRequest, env: Env, f: Faults)
    requires WorldOk(w) && Created(w, rq, env, f)
    requires Rename(w.files, w.dirs, rq.file.value.path, FinalPath(rq, env), f.renameFault).Err?
    ensures var (w2, res) := Upload(w, rq, env, f);
            w2.docs == w.docs + [Placeholder(w, rq, env)]
            && Placeholder(w, rq, env).status == Some("processing")
            && w2.files == SafeDeleteEffect(
                             SafeDeleteEffect(w.files, w.dirs, Some(rq.file.value.path), f.tempUnlinkFails),
                             w.dirs, Some(FinalPath(rq, env)), f.finalUnlinkFails)
            && res.status == 500
  {
  }

  /** After the rename only the final file can be cleaned up: when the read-back fails
      the placeholder stays `processing`, the moved file is deleted (unless that unlink
      fails) and the reply carries the read error. */
  lemma ReadFailureDeletesFinalOnly(w: World, rq: UploadRequest, env: Env, f: Faults)
    requires WorldOk(w) && Created(w, rq, env, f)
    requires Rename(w.files, w.dirs, rq.file.value.path, FinalPath(rq, env), f.renameFault).Ok?
    requires f.readFault.Some?
    ensures var (w2, res) := Upload(w, rq, env, f);
            var moved := Rename(w.files, w.dirs, rq.file.value.path, FinalPath(rq, env), f.renameFault).value;
            w2.docs == w.docs + [Placeholder(w, rq, env)]
            && w2.files == SafeDeleteEffect(moved, w.dirs, Some(FinalPath(rq, env)), f.finalUnlinkFails)
            && res == UploadFailure(ReadErrorPrefix + f.readFault.value) && res.status == 500
  {
  }

  /** When the final update fails the placeholder stays `processing` and the moved file
      is deleted (unless that unlink fails). */
  lemma UpdateFailureKeepsPlaceholder(w: World, rq: UploadRequest, env: Env, f: Faults)
    requires WorldOk(w) && Created(w, rq, env, f)
    requires Rename(w.files, w.dirs, rq.file.value.path, FinalPath(rq, env), f.renameFault).Ok?
    requires f.readFault.None? && f.updateFails
    ensures var (w2, res) := Upload(w, rq, env, f);
            var moved := Rename(w.files, w.dirs, rq.file.value.path, FinalPath(rq, env), f.renameFault).value;
            w2.docs == w.docs + [Placeholder(w, rq, env)]
            && w2.files == SafeDeleteEffect(moved, w.dirs, Some(FinalPath(rq, env)), f.finalUnlinkFails)
            && res == UploadFailure(ErrUpdate)
  {
  }

  /** A failed upload never adds a completed record: the collection either is unchanged or
      has gained the `processing` placeholder. */
  lemma FailureLeavesNoCompletedRecord(w: World, rq: UploadRequest, env: Env, f: Faults)
    requires WorldOk(w) && Upload(w, rq, env, f).1.status != 201
    ensures var w2 := Upload(w, rq, env, f).0;
            (w2.docs == w.docs || w2.docs == w.docs + [Placeholder(w, rq, env)])
            && Placeholder(w, rq, env).status == Some("processing")
  {
    if rq.file.Some? && !f.createFails && env.freshId !in IdsOf(w.docs) {
      var temp := rq.file.value.path;
      var final := FinalPath(rq, env);
      match Rename(w.files, w.dirs, temp, final, f.renameFault)
      case Err(_) =>
      case Ok(files1) =>
        match ReadImage(files1, w.dirs, final, f.readFault)
        case Err(_) =>
        case Ok(_) =>
          var np := BuildInitialPost(rq.autor, env.now);
          var (descricao, alt) := GetImageDescription(f.caption);
          var upd := BuildImageUpdate(BuildImageUrl(BaseUrl(env.baseUrl, rq.req), env.freshId + ExtName(rq.file.value.originalname)),
                                      descricao, alt, env.now);
          var docs1 := w.docs + [Placeholder(w, rq, env)];
          assert SetFields(docs1, env.freshId, upd, env.now, f.updateFails).1.Err?;
    }
  }

  // ---------------------------------------------------------------------------
  // Success

  /** An id as the driver prints it: 24 lower-case hex digits. */
  predicate CanonicalId(id: string) {
    IsValidObjectId(id) && ObjectIdOf(id) == id
  }

  /** With no fault the record is completed in place: status `completed`, the final image
      URL and truthy captions, author and creation date kept; the bytes sit under the
      final name and the temporary name is gone. */
  lemma SuccessCompletesRecord(w: World, rq: UploadRequest, env: Env, f: Faults)
    requires WorldOk(w) && Created(w, rq, env, f) && CanonicalId(env.freshId)
    requires f.renameFault.None? && f.readFault.None? && !f.updateFails
    requires rq.file.value.path in w.files && FinalPath(rq, env) !in w.dirs
    ensures var w2 := Upload(w, rq, env, f).0;
            var name := env.freshId + ExtName(rq.file.value.originalname);
            |w2.docs| == |w.docs| + 1 && w2.docs[..|w.docs|] == w.docs
            && var q := w2.docs[|w.docs|];
            q.id == env.freshId && q.status == Some("completed")
            && q.imgUrl == JStr(BaseUrl(env.baseUrl, rq.req) + "/uploads/" + name)
            && (q.descricao, q.alt) == GetImageDescription(f.caption)
            && Truthy(q.descricao) && Truthy(q.alt)
            && q.autor == Placeholder(w, rq, env).autor && q.createdAt == env.now
            && FinalPath(rq, env) in w2.files && w2.files[FinalPath(rq, env)] == w.files[rq.file.value.path]
            && (rq.file.value.path != FinalPath(rq, env) ==> rq.file.value.path !in w2.files)
  {
    var temp := rq.file.value.path;
    var final := FinalPath(rq, env);
    var name := env.freshId + ExtName(rq.file.value.originalname);
    var imgUrl := BuildImageUrl(BaseUrl(env.baseUrl, rq.req), name);
    var p := Placeholder(w, rq, env);
    var docs1 := w.docs + [p];
    var files1 := Rename(w.files, w.dirs, temp, final, f.renameFault).value;
    var (descricao, alt) := GetImageDescription(f.caption);
    var upd := BuildImageUpdate(imgUrl, descricao, alt, env.now);
    assert IndexOf(docs1, env.freshId) == Some(|w.docs|) by {
      assert docs1[|w.docs|].id == env.freshId;
      assert forall j :: 0 <= j < |w.docs| ==> docs1[j] == w.docs[j];
      assert forall j :: 0 <= j < |w.docs| ==> w.docs[j].id in IdsOf(w.docs);
    }
    var docs2 := docs1[|w.docs| := ApplySet(p, upd, env.now)];
    assert Insert(w.docs, BuildInitialPost(rq.autor, env.now), env.freshId, env.now, false) == (docs1, Ok(env.freshId));
    var w1 := World(docs1, files1, w.dirs);
    assert Upload(w, rq, env, f) == AfterMove(w1, env.freshId, BuildInitialPost(rq.autor, env.now), name, final, rq, env, f);
    assert SetFields(docs1, env.freshId, upd, env.now, false) == (docs2, Ok(1));
    assert ReadImage(files1, w.dirs, final, None).Ok?;
    assert Upload(w, rq, env, f).0 == World(docs2, files1, w.dirs);
    ImageUpdateCompletes(p, imgUrl, descricao, alt, env.now);
    assert docs2[..|w.docs|] == w.docs;
  }

  /** With no fault the reply is 201 and its data is the placeholder overridden by the
      image update, with the id and the share link. */
  lemma SuccessReply(w: World, rq: UploadRequest, env: Env, f: Faults)
    requires WorldOk(w) && Created(w, rq, env, f) && IsValidObjectId(env.freshId)
    requires f.renameFault.None? && f.readFault.None? && !f.updateFails
    requires rq.file.value.path in w.files && FinalPath(rq, env) !in w.dirs
    ensures var res := Upload(w, rq, env, f).1;
            var name := env.freshId + ExtName(rq.file.value.originalname);
            var (descricao, alt) := GetImageDescription(f.caption);
            var upd := BuildImageUpdate(BaseUrl(env.baseUrl, rq.req) + "/uploads/" + name, descricao, alt, env.now);
            res.status == 201 && res.body["success"] == JBool(true)
            && res.body["message"] == JStr(SuccessMessage)
            && res.body["data"] == JObj(UploadData(env.freshId, BuildInitialPost(rq.autor, env.now), upd, rq.req))
  {
    var temp := rq.file.value.path;
    var np := BuildInitialPost(rq.autor, env.now);
    var (name, final) := BuildFinalFilePath(temp, env.freshId, rq.file.value.originalname);
    var docs1 := w.docs + [Complete(np, env.freshId, env.now)];
    assert Insert(w.docs, np, env.freshId, env.now, false) == (docs1, Ok(env.freshId));
    var files1 := Rename(w.files, w.dirs, temp, final, f.renameFault).value;
    var w1 := World(docs1, files1, w.dirs);
    assert Upload(w, rq, env, f) == AfterMove(w1, env.freshId, np, name, final, rq, env, f);
    var imgUrl := BuildImageUrl(BaseUrl(env.baseUrl, rq.req), name);
    assert imgUrl == BaseUrl(env.baseUrl, rq.req) + "/uploads/" + name;
    assert ReadImage(files1, w.dirs, final, None).Ok?;
    var (descricao, alt) := GetImageDescription(f.caption);
    var upd := BuildImageUpdate(imgUrl, descricao, alt, env.now);
    assert SetFields(docs1, env.freshId, upd, env.now, false).1.Ok?;
  }

  /** The caption never decides the outcome: whatever the service does, the status of
      the reply and the files left on disk are the same. */
  lemma CaptionNeverFails(w: World, rq: UploadRequest, env: Env, f: Faults, other: Caption)
    requires WorldOk(w)
    ensures Upload(w, rq, env, f).1.status == Upload(w, rq, env, f.(caption := other)).1.status
    ensures Upload(w, rq, env, f).0.files == Upload(w, rq, env, f.(caption := other)).0.files
  {
    var g := f.(caption := other);
    if rq.file.Some? {
      var temp := rq.file.value.path;
      var np := BuildInitialPost(rq.autor, env.now);
      if f.createFails || env.freshId in IdsOf(w.docs) {
        var w0 := World(w.docs, w.files, w.dirs);
        assert Upload(w, rq, env, f) == CleanUp(w0, Some(temp), None, f, ErrCreate);
        assert Upload(w, rq, env, g) == CleanUp(w0, Some(temp), None, g, ErrCreate);
      } else {
        var (name, final) := BuildFinalFilePath(temp, env.freshId, rq.file.value.originalname);
        var docs1 := w.docs + [Complete(np, env.freshId, env.now)];
        match Rename(w.files, w.dirs, temp, final, f.renameFault)
        case Err(m) =>
          var w0 := World(docs1, w.files, w.dirs);
          assert Upload(w, rq, env, f) == CleanUp(w0, Some(temp), Some(final), f, m);
          assert Upload(w, rq, env, g) == CleanUp(w0, Some(temp), Some(final), g, m);
        case Ok(files1) =>
          var w1 := World(docs1, files1, w.dirs);
          assert Upload(w, rq, env, f) == AfterMove(w1, env.freshId, np, name, final, rq, env, f);
          assert Upload(w, rq, env, g) == AfterMove(w1, env.freshId, np, name, final, rq, env, g);
          AfterMoveCaption(w1, env.freshId, np, name, final, rq, env, f, other);
      }
    }
  }

  lemma AfterMoveCaption(w1: World, postId: string, np: NewPost, newFileName: string, final: string,
                         rq: UploadRequest, env: Env, f: Faults, other: Caption)
    requires WorldOk(w1)
    ensures var a := AfterMove(w1, postId, np, newFileName, final, rq, env, f);
            var b := AfterMove(w1, postId, np, newFileName, final, rq, env, f.(caption := other));
            a.1.status == b.1.status && a.0.files == b.0.files
  {
    var imgUrl := BuildImageUrl(BaseUrl(env.baseUrl, rq.req), newFileName);
    var (d1, a1) := GetImageDescription(f.caption);
    var (d2, a2) := GetImageDescription(other);
    var s1 := SetFields(w1.docs, postId, BuildImageUpdate(imgUrl, d1, a1, env.now), env.now, f.updateFails);
    var s2 := SetFields(w1.docs, postId, BuildImageUpdate(imgUrl, d2, a2, env.now), env.now, f.updateFails);
    assert s1.1.Err? <==> s2.1.Err?;
  }

  /** A failed upload adds no file except the moved image, and that one only when the
      cleanup's unlink of it fails too: `safeDeleteFile` swallows that error. */
  lemma FailureAddsOnlyFinal(w: World, rq: UploadRequest, env: Env, f: Faults)
    requires WorldOk(w) && Upload(w, rq, env, f).1.status != 201
    ensures rq.file.Some? ==> Upload(w, rq, env, f).0.files.Keys <= w.files.Keys + {FinalPath(rq, env)}
    ensures rq.file.None? || !f.finalUnlinkFails ==> Upload(w, rq, env, f).0.files.Keys <= w.files.Keys
  {
    if rq.file.Some? && !f.createFails && env.freshId !in IdsOf(w.docs) {
      var temp := rq.file.value.path;
      var np := BuildInitialPost(rq.autor, env.now);
      var (docs1, created) := Insert(w.docs, np, env.freshId, env.now, f.createFails);
      assert created == Ok(env.freshId);
      var (name, final) := BuildFinalFilePath(temp, env.freshId, rq.file.value.originalname);
      match Rename(w.files, w.dirs, temp, final, f.renameFault)
      case Err(_) =>
      case Ok(files1) =>
        var w1 := World(docs1, files1, w.dirs);
        assert Upload(w, rq, env, f) == AfterMove(w1, env.freshId, np, name, final, rq, env, f);
        AfterMoveFailureFiles(w1, env.freshId, np, name, final, rq, env, f);
        assert files1.Keys <= w.files.Keys + {final};
        if !f.finalUnlinkFails {
          assert files1.Keys - {final} <= w.files.Keys;
        }
    }
  }

  /** The exception is reachable: when the read-back fails and so does the unlink of the
      moved image, the reply is 500 and the image stays on disk under its final name. */
  lemma FailedUploadLeavesFinal(w: World, rq: UploadRequest, env: Env, f: Faults)
    requires WorldOk(w) && Created(w, rq, env, f)
    requires f.renameFault.None? && f.readFault.Some? && f.finalUnlinkFails
    requires rq.file.value.path in w.files && FinalPath(rq, env) !in w.dirs
    ensures Upload(w, rq, env, f).1.status == 500
    ensures FinalPath(rq, env) in Upload(w, rq, env, f).0.files
  {
  }

  /** After the move, a failure leaves the files as the move left them, less the moved
      image unless its unlink fails. */
  lemma AfterMoveFailureFiles(w1: World, postId: string, np: NewPost, name: string, final: string,
                              rq: UploadRequest, env: Env, f: Faults)
    requires WorldOk(w1) && AfterMove(w1, postId, np, name, final, rq, env, f).1.status != 201
    ensures AfterMove(w1, postId, np, name, final, rq, env, f).0.files
            == SafeDeleteEffect(w1.files, w1.dirs, Some(final), f.finalUnlinkFails)
  {
  }

  /** The count of matched records of the final update is never looked at. When the
      placeholder is gone by the time the image fields are written (a delete from
      another request in between), the update matches nothing, the collection is left
      as it is, and the reply is still 201. */
  lemma UnmatchedUpdateStillSucceeds(w1: World, postId: string, np: NewPost, name: string, final: string,
                                     rq: UploadRequest, env: Env, f: Faults)
    requires WorldOk(w1) && IsValidObjectId(postId) && ObjectIdOf(postId) !in IdsOf(w1.docs)
    requires final in w1.files && f.readFault.None? && !f.updateFails
    ensures AfterMove(w1, postId, np, name, final, rq, env, f).0 == w1
    ensures AfterMove(w1, postId, np, name, final, rq, env, f).1.status == 201
  {
  }

  // ---------------------------------------------------------------------------
  // The handler

  /** `uploadImagem(req, res)`. */
  method UploadImagem(store: PostsCollection, fs: FileSystem, rq: UploadRequest, env: Env, f: Faults)
    returns (res: Response)
    requires store.Valid() && fs.Valid()
    modifies store, fs
    ensures store.Valid() && fs.Valid()
    ensures (World(store.docs, fs.files, fs.dirs), res)
            == Upload(World(old(store.docs), old(fs.files), old(fs.dirs)), rq, env, f)
  {
    var tempFilePath: Option<string> := None;
    var finalFilePath: Option<string> := None;
    if rq.file.None? {
      return NoFileResponse();
    }
    tempFilePath := Some(rq.file.value.path);
    var novoPost := BuildInitialPost(rq.autor, env.now);
    var error: Option<string> := None;
    var created := store.CriarPost(novoPost, env.freshId, env.now, f.createFails);
    if created.Err? {
      error := Some(created.message);
    } else {
      var postId := created.value;
      var (newFileName, resolvedFinalPath) := BuildFinalFilePath(tempFilePath.value, postId, rq.file.value.originalname);
      finalFilePath := Some(resolvedFinalPath);
      var moved := MoveUploadedFile(fs, tempFilePath.value, resolvedFinalPath, f.renameFault);
      if moved.Err? {
        error := Some(moved.message);
      } else {
        res := CompleteUpload(store, fs, postId, novoPost, newFileName, resolvedFinalPath, rq, env, f);
        return;
      }
    }
    // catch (error)
    SafeDeleteFile(fs, tempFilePath, f.tempUnlinkFails);
    SafeDeleteFile(fs, finalFilePath, f.finalUnlinkFails);
    res := UploadFailure(error.value);
  }

  /** The rest of the `try` block once the file is in place, with the `catch` block for
      the failures it can still meet (the temporary file is gone by then). */
  method CompleteUpload(store: PostsCollection, fs: FileSystem, postId: string, novoPost: NewPost,
                        newFileName: string, resolvedFinalPath: string, rq: UploadRequest, env: Env, f: Faults)
    returns (res: Response)
    requires store.Valid() && fs.Valid()
    modifies store, fs
    ensures store.Valid() && fs.Valid()
    ensures (World(store.docs, fs.files, fs.dirs), res)
            == AfterMove(World(old(store.docs), old(fs.files), old(fs.dirs)), postId, novoPost, newFileName,
                         resolvedFinalPath, rq, env, f)
  {
    var error: string;
    var imgUrl := BuildImageUrl(BaseUrl(env.baseUrl, rq.req), newFileName);
    var imgBuffer := ReadImageBuffer(fs, resolvedFinalPath, f.readFault);
    if imgBuffer.Err? {
      error := imgBuffer.message;
    } else {
      var (descricaoIA, altIA) := GetImageDescription(f.caption);
      var postAtualizado := BuildImageUpdate(imgUrl, descricaoIA, altIA, env.now);
      var updated := store.AtualizarPost(postId, postAtualizado, env.now, f.updateFails);
      if updated.Err? {
        error := updated.message;
      } else {
        return SendSuccess(Some(201), JObj(UploadData(postId, novoPost, postAtualizado, rq.req)),
                           JStr(SuccessMessage), JUndefined);
      }
    }
    SafeDeleteFile(fs, None, f.tempUnlinkFails);
    SafeDeleteFile(fs, Some(resolvedFinalPath), f.finalUnlinkFails);
    res := UploadFailure(error);
  }
}
