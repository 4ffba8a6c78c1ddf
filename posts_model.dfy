/** The `posts` collection and the operations of src/models/postsModel.js on it.
    Documents are kept in insertion order; each MongoDB call is a pure function from
    the documents before the call to the documents after it and the call's result,
    and `PostsCollection` is the collection object whose methods apply them in place.
    A driver or connection failure is the parameter `down`; the model rewraps every
    failure in the operation's fixed message, as the source's catch blocks do. */
module PostsModel {
  import opened Js

  // ---------------------------------------------------------------------------
  // Documents

  datatype Comment = Comment(id: string, autor: string, texto: string, createdAt: int)

  /** A stored post. `status` is absent on text-only posts. */
  datatype Post = Post(
    id: string,
    descricao: Json,
    alt: Json,
    imgUrl: Json,
    autor: Json,
    curtidas: int,
    comentarios: seq<Comment>,
    createdAt: int,
    updatedAt: int,
    status: Option<string>)

  /** The object handed to `criarPost`; `None` is a key the object does not have. */
  datatype NewPost = NewPost(
    descricao: Json,
    alt: Json,
    imgUrl: Json,
    autor: Json,
    curtidas: Option<int>,
    comentarios: Option<seq<Comment>>,
    createdAt: Option<int>,
    updatedAt: Option<int>,
    status: Option<string>)

  /** The object handed to `adicionarComentarioAoPost`. */
  datatype NewComment = NewComment(autor: string, texto: string, createdAt: Option<int>)

  /** The fields of a `$set`; `None` is a key the update does not have. */
  datatype PostUpdate = PostUpdate(
    descricao: Option<Json>,
    alt: Option<Json>,
    autor: Option<Json>,
    imgUrl: Option<Json>,
    status: Option<string>,
    updatedAt: Option<int>)

  datatype Stats = Stats(totalPosts: nat, totalCurtidas: int, totalComentarios: nat)

  const ErrList := "Falha ao buscar posts do banco de dados"
  const ErrFind := "Falha ao buscar post"
  const ErrCreate := "Falha ao criar post no banco de dados"
  const ErrUpdate := "Falha ao atualizar post no banco de dados"
  const ErrDelete := "Falha ao deletar post do banco de dados"
  const ErrAddComment := "Falha ao adicionar comentário ao post"
  const ErrRemoveComment := "Falha ao remover comentário do post"
  const ErrLikes := "Falha ao atualizar curtidas do post"
  const ErrStats := "Falha ao obter estatísticas"

  /** `ObjectId.isValid(id)` for the 24-hex-digit form. */
  predicate IsValidObjectId(id: string) {
    |id| == 24 && forall i :: 0 <= i < |id| ==> IsHexDigit(id[i])
  }

  /** The stored `_id` that `new ObjectId(id)` denotes: hex digits compare case-insensitively. */
  function ObjectIdOf(id: string): string {
    AsciiLower(id)
  }

  // ---------------------------------------------------------------------------
  // JSON views of documents

  function CommentJson(c: Comment): Json {
    JObj(map["_id" := JStr(c.id), "autor" := JStr(c.autor), "texto" := JStr(c.texto),
             "createdAt" := JDate(c.createdAt)])
  }

  function CommentsJson(cs: seq<Comment>): Json {
    JArr(seq(|cs|, i requires 0 <= i < |cs| => CommentJson(cs[i])))
  }

  /** A document as the driver returns it. */
  function PostJson(p: Post): map<string, Json> {
    var m := map["_id" := JStr(p.id), "descricao" := p.descricao, "alt" := p.alt,
                 "imgUrl" := p.imgUrl, "autor" := p.autor, "curtidas" := JNum(p.curtidas),
                 "comentarios" := CommentsJson(p.comentarios),
                 "createdAt" := JDate(p.createdAt), "updatedAt" := JDate(p.updatedAt)];
    if p.status.Some? then m["status" := JStr(p.status.value)] else m
  }

  function NewPostJson(np: NewPost): map<string, Json> {
    var m := map["descricao" := np.descricao, "alt" := np.alt, "imgUrl" := np.imgUrl,
                 "autor" := np.autor];
    var m := if np.curtidas.Some? then m["curtidas" := JNum(np.curtidas.value)] else m;
    var m := if np.comentarios.Some? then m["comentarios" := CommentsJson(np.comentarios.value)] else m;
    var m := if np.createdAt.Some? then m["createdAt" := JDate(np.createdAt.value)] else m;
    var m := if np.updatedAt.Some? then m["updatedAt" := JDate(np.updatedAt.value)] else m;
    if np.status.Some? then m["status" := JStr(np.status.value)] else m
  }

  function UpdateJson(u: PostUpdate): map<string, Json> {
    var m: map<string, Json> := map[];
    var m := if u.descricao.Some? then m["descricao" := u.descricao.value] else m;
    var m := if u.alt.Some? then m["alt" := u.alt.value] else m;
    var m := if u.autor.Some? then m["autor" := u.autor.value] else m;
    var m := if u.imgUrl.Some? then m["imgUrl" := u.imgUrl.value] else m;
    var m := if u.status.Some? then m["status" := JStr(u.status.value)] else m;
    if u.updatedAt.Some? then m["updatedAt" := JDate(u.updatedAt.value)] else m
  }

  // ---------------------------------------------------------------------------
  // Identity

  function IdsOf(docs: seq<Post>): set<string> {
    set i | 0 <= i < |docs| :: docs[i].id
  }

  /** The unique index on `_id`. */
  predicate UniqueIds(docs: seq<Post>) {
    forall i, j :: 0 <= i < j < |docs| ==> docs[i].id != docs[j].id
  }

  /** The position of the first document with this `_id`. */
  function IndexOf(docs: seq<Post>, oid: string): (r: Option<nat>)
    ensures r.Some? ==> r.value < |docs| && docs[r.value].id == oid
                        && forall j :: 0 <= j < r.value ==> docs[j].id != oid
    ensures r.None? <==> oid !in IdsOf(docs)
  {
    if |docs| == 0 then None
    else if docs[0].id == oid then Some(0)
    else
      var r := IndexOf(docs[1..], oid);
      assert IdsOf(docs) == {docs[0].id} + IdsOf(docs[1..]) by {
        forall x | x in IdsOf(docs) ensures x in {docs[0].id} + IdsOf(docs[1..]) {
          var i :| 0 <= i < |docs| && docs[i].id == x;
          if i > 0 { assert docs[1..][i - 1].id == x; }
        }
      }
      if r.None? then None else Some(r.value + 1)
  }

  /** Replacing one document by one with the same `_id` keeps the ids. */
  lemma {:induction false} SameIdsKeepUnique(docs: seq<Post>, i: nat, p: Post)
    requires i < |docs| && p.id == docs[i].id && UniqueIds(docs)
    ensures UniqueIds(docs[i := p]) && IdsOf(docs[i := p]) == IdsOf(docs)
  {
    var d := docs[i := p];
    assert forall j :: 0 <= j < |d| ==> d[j].id == docs[j].id;
  }

  // ---------------------------------------------------------------------------
  // insertOne

  /** `{ ...novoPost, curtidas: .. || 0, comentarios: .. || [], createdAt: .. || now,
      updatedAt: .. || now }` with the generated `_id`. */
  function Complete(np: NewPost, id: string, now: int): Post {
    Post(id, np.descricao, np.alt, np.imgUrl, np.autor,
         if np.curtidas.Some? then np.curtidas.value else 0,
         if np.comentarios.Some? then np.comentarios.value else [],
         if np.createdAt.Some? then np.createdAt.value else now,
         if np.updatedAt.Some? then np.updatedAt.value else now,
         np.status)
  }

  /** `criarPost(novoPost)`: the documents after the call and `insertedId`. */
  function Insert(docs: seq<Post>, np: NewPost, freshId: string, now: int, down: bool): (r: (seq<Post>, Result<string>))
    ensures r.1.Err? <==> down || !Truthy(np.descricao) || freshId in IdsOf(docs)
    ensures r.1.Err? ==> r.0 == docs && r.1.message == ErrCreate
    ensures r.1.Ok? ==> r.1.value == freshId && r.0 == docs + [Complete(np, freshId, now)]
    ensures UniqueIds(docs) ==> UniqueIds(r.0)
  {
    if down || !Truthy(np.descricao) || freshId in IdsOf(docs) then (docs, Err(ErrCreate))
    else
      var d := docs + [Complete(np, freshId, now)];
      assert forall i :: 0 <= i < |docs| ==> d[i] == docs[i];
      (d, Ok(freshId))
  }

  /** `{ ...novoPost, curtidas, comentarios, createdAt, updatedAt }` with `_id` added by
      the driver. */
  function InsertSpread(np: NewPost, id: string, now: int): map<string, Json> {
    (NewPostJson(np) + map[
      "curtidas" := JNum(if np.curtidas.Some? then np.curtidas.value else 0),
      "comentarios" := CommentsJson(if np.comentarios.Some? then np.comentarios.value else []),
      "createdAt" := JDate(if np.createdAt.Some? then np.createdAt.value else now),
      "updatedAt" := JDate(if np.updatedAt.Some? then np.updatedAt.value else now)])["_id" := JStr(id)]
  }

  /** The stored document is the given object with the defaults filled in and `_id`
      added. */
  lemma InsertedDocumentIsSpread(np: NewPost, id: string, now: int)
    requires np.status.None?
    ensures PostJson(Complete(np, id, now)) == InsertSpread(np, id, now)
  {
    var l := PostJson(Complete(np, id, now));
    var r := InsertSpread(np, id, now);
    InsertedKeys(np, id, now);
    forall k | k in l ensures l[k] == r[k] {
      InsertedValue(np, id, now, k);
    }
  }

  lemma InsertedKeys(np: NewPost, id: string, now: int)
    requires np.status.None?
    ensures PostJson(Complete(np, id, now)).Keys == InsertSpread(np, id, now).Keys == PostKeys
  {
    NewPostJsonKeys(np);
    PostJsonKeys(Complete(np, id, now));
  }

  lemma InsertedValue(np: NewPost, id: string, now: int, k: string)
    requires np.status.None? && k in PostKeys
    ensures k in InsertSpread(np, id, now) && PostJson(Complete(np, id, now))[k] == InsertSpread(np, id, now)[k]
  {
    InsertedKeys(np, id, now);
    var c := Complete(np, id, now);
    var m := NewPostJson(np);
    var d := map[
      "curtidas" := JNum(c.curtidas), "comentarios" := CommentsJson(c.comentarios),
      "createdAt" := JDate(c.createdAt), "updatedAt" := JDate(c.updatedAt)];
    var r := (m + d)["_id" := JStr(id)];
    assert InsertSpread(np, id, now) == r;
    PostJsonValues(c);
    NewPostJsonKeys(np);
    if k == "_id" {
    } else if k == "descricao" {
      assert r[k] == m[k];
    } else if k == "alt" {
      assert r[k] == m[k];
    } else if k == "imgUrl" {
      assert r[k] == m[k];
    } else if k == "autor" {
      assert r[k] == m[k];
    } else {
      assert k in d;
      assert r[k] == d[k];
    }
  }

  /** The value under each key of a stored document. */
  lemma PostJsonValues(p: Post)
    ensures PostJson(p)["_id"] == JStr(p.id) && PostJson(p)["descricao"] == p.descricao
    ensures PostJson(p)["alt"] == p.alt && PostJson(p)["imgUrl"] == p.imgUrl && PostJson(p)["autor"] == p.autor
    ensures PostJson(p)["curtidas"] == JNum(p.curtidas) && PostJson(p)["comentarios"] == CommentsJson(p.comentarios)
    ensures PostJson(p)["createdAt"] == JDate(p.createdAt) && PostJson(p)["updatedAt"] == JDate(p.updatedAt)
    ensures "status" in PostJson(p) <==> p.status.Some?
    ensures p.status.Some? ==> PostJson(p)["status"] == JStr(p.status.value)
  {
  }

  lemma NewPostJsonKeys(np: NewPost)
    requires np.status.None?
    ensures {"descricao", "alt", "imgUrl", "autor"} <= NewPostJson(np).Keys <= PostKeys - {"_id"}
    ensures NewPostJson(np)["descricao"] == np.descricao && NewPostJson(np)["alt"] == np.alt
    ensures NewPostJson(np)["imgUrl"] == np.imgUrl && NewPostJson(np)["autor"] == np.autor
  {
  }

  // ---------------------------------------------------------------------------
  // updateOne with $set

  /** The document after `$set: { ...u, updatedAt: now }`. */
  function ApplySet(p: Post, u: PostUpdate, now: int): (r: Post)
    ensures r.id == p.id && r.curtidas == p.curtidas && r.comentarios == p.comentarios
    ensures r.createdAt == p.createdAt && r.updatedAt == now
  {
    p.(descricao := if u.descricao.Some? then u.descricao.value else p.descricao,
       alt := if u.alt.Some? then u.alt.value else p.alt,
       autor := if u.autor.Some? then u.autor.value else p.autor,
       imgUrl := if u.imgUrl.Some? then u.imgUrl.value else p.imgUrl,
       status := if u.status.Some? then u.status else p.status,
       updatedAt := now)
  }

  /** `$set` is object spread: the updated document is the old one overridden by
      the update's keys and the fresh `updatedAt`. */
  lemma SetIsSpread(p: Post, u: PostUpdate, now: int)
    ensures PostJson(ApplySet(p, u, now)) == (PostJson(p) + UpdateJson(u))["updatedAt" := JDate(now)]
  {
    var l := PostJson(ApplySet(p, u, now));
    var r := (PostJson(p) + UpdateJson(u))["updatedAt" := JDate(now)];
    SetSpreadKeys(p, u, now);
    forall k | k in l ensures l[k] == r[k] {
      SetSpreadValue(p, u, now, k);
    }
  }

  lemma SetSpreadKeys(p: Post, u: PostUpdate, now: int)
    ensures PostJson(ApplySet(p, u, now)).Keys == ((PostJson(p) + UpdateJson(u))["updatedAt" := JDate(now)]).Keys
  {
    PostJsonKeys(p);
    PostJsonKeys(ApplySet(p, u, now));
    UpdateJsonKeys(u);
  }

  const PostKeys: set<string> :=
    {"_id", "descricao", "alt", "imgUrl", "autor", "curtidas", "comentarios", "createdAt", "updatedAt"}

  lemma PostJsonKeys(p: Post)
    ensures PostJson(p).Keys == PostKeys + (if p.status.Some? then {"status"} else {})
  {
  }

  lemma UpdateJsonKeys(u: PostUpdate)
    ensures UpdateJson(u).Keys <= PostKeys + {"status"}
    ensures "status" in UpdateJson(u) <==> u.status.Some?
  {
  }

  lemma SetSpreadValue(p: Post, u: PostUpdate, now: int, k: string)
    requires k in PostJson(ApplySet(p, u, now))
    ensures k in (PostJson(p) + UpdateJson(u))["updatedAt" := JDate(now)]
    ensures PostJson(ApplySet(p, u, now))[k] == ((PostJson(p) + UpdateJson(u))["updatedAt" := JDate(now)])[k]
  {
    SetSpreadKeys(p, u, now);
    if k == "descricao" {
    } else if k == "alt" {
    } else if k == "autor" {
    } else if k == "imgUrl" {
    } else if k == "status" {
    } else if k == "updatedAt" {
    } else {
      assert k !in UpdateJson(u);
    }
  }

  /** `atualizarPost(id, dados)`: the documents after the call and `matchedCount`. */
  function SetFields(docs: seq<Post>, id: string, u: PostUpdate, now: int, down: bool): (r: (seq<Post>, Result<nat>))
    ensures r.1.Err? <==> down || !IsValidObjectId(id)
    ensures r.1.Err? ==> r.0 == docs && r.1.message == ErrUpdate
    ensures r.1.Ok? ==> (r.1.value == 1 <==> ObjectIdOf(id) in IdsOf(docs))
    ensures r.1.Ok? ==> (r.1.value == 0 <==> ObjectIdOf(id) !in IdsOf(docs))
    ensures r.1 == Ok(0) ==> r.0 == docs
    ensures r.1 == Ok(1) ==> var i := IndexOf(docs, ObjectIdOf(id)).value;
                             r.0 == docs[i := ApplySet(docs[i], u, now)]
    ensures UniqueIds(docs) ==> UniqueIds(r.0) && IdsOf(r.0) == IdsOf(docs)
  {
    if down || !IsValidObjectId(id) then (docs, Err(ErrUpdate))
    else match IndexOf(docs, ObjectIdOf(id))
      case None => (docs, Ok(0))
      case Some(i) =>
        var p := ApplySet(docs[i], u, now);
        SameIdsKeepUnique2(docs, i, p);
        (docs[i := p], Ok(1))
  }

  lemma SameIdsKeepUnique2(docs: seq<Post>, i: nat, p: Post)
    requires i < |docs| && p.id == docs[i].id
    ensures UniqueIds(docs) ==> UniqueIds(docs[i := p]) && IdsOf(docs[i := p]) == IdsOf(docs)
  {
    if UniqueIds(docs) { SameIdsKeepUnique(docs, i, p); }
  }

  // ---------------------------------------------------------------------------
  // deleteOne

  /** `deletarPost(id)`: the documents after the call and `deletedCount`. */
  function Delete(docs: seq<Post>, id: string, down: bool): (r: (seq<Post>, Result<nat>))
    ensures r.1.Err? <==> down || !IsValidObjectId(id)
    ensures r.1.Err? ==> r.0 == docs && r.1.message == ErrDelete
    ensures r.1.Ok? ==> (r.1.value == 1 <==> ObjectIdOf(id) in IdsOf(docs)) && r.1.value <= 1
    ensures r.1 == Ok(0) ==> r.0 == docs
    ensures r.1 == Ok(1) ==> |r.0| == |docs| - 1
    ensures r.1 == Ok(1) ==> var i := IndexOf(docs, ObjectIdOf(id)).value; r.0 == docs[..i] + docs[i + 1..]
    ensures UniqueIds(docs) ==> UniqueIds(r.0) && IdsOf(r.0) == IdsOf(docs) - (if r.1.Ok? then {ObjectIdOf(id)} else {})
  {
    if down || !IsValidObjectId(id) then (docs, Err(ErrDelete))
    else match IndexOf(docs, ObjectIdOf(id))
      case None => (docs, Ok(0))
      case Some(i) =>
        var d := docs[..i] + docs[i + 1..];
        RemoveAtKeepsUnique(docs, i);
        (d, Ok(1))
  }

  lemma RemoveAtKeepsUnique(docs: seq<Post>, i: nat)
    requires i < |docs|
    ensures var d := docs[..i] + docs[i + 1..];
            UniqueIds(docs) ==> UniqueIds(d) && IdsOf(d) == IdsOf(docs) - {docs[i].id}
  {
    var d := docs[..i] + docs[i + 1..];
    assert forall j :: 0 <= j < |d| ==> d[j] == (if j < i then docs[j] else docs[j + 1]);
    if UniqueIds(docs) {
      forall x | x in IdsOf(docs) - {docs[i].id} ensures x in IdsOf(d) {
        var j :| 0 <= j < |docs| && docs[j].id == x;
        if j < i { assert d[j].id == x; } else { assert d[j - 1].id == x; }
      }
    }
  }

  // ---------------------------------------------------------------------------
  // Comments: $push and $pull

  /** `{ ...comentario, createdAt: comentario.createdAt || now, _id }`. */
  function Completed(c: NewComment, commentId: string, now: int): Comment {
    Comment(commentId, c.autor, c.texto, if c.createdAt.Some? then c.createdAt.value else now)
  }

  /** `adicionarComentarioAoPost(postId, comentario)`: appends the comment with a fresh `_id`. */
  function PushComment(docs: seq<Post>, postId: string, c: NewComment, commentId: string, now: int, down: bool): (r: (seq<Post>, Result<nat>))
    ensures r.1.Err? <==> down || !IsValidObjectId(postId) || c.autor == "" || c.texto == ""
    ensures r.1.Err? ==> r.0 == docs && r.1.message == ErrAddComment
    ensures r.1.Ok? ==> (r.1.value == 1 <==> ObjectIdOf(postId) in IdsOf(docs)) && r.1.value <= 1
    ensures r.1 == Ok(0) ==> r.0 == docs
    ensures r.1 == Ok(1) ==> var i := IndexOf(docs, ObjectIdOf(postId)).value;
      r.0 == docs[i := docs[i].(comentarios := docs[i].comentarios + [Completed(c, commentId, now)],
                                updatedAt := now)]
    ensures UniqueIds(docs) ==> UniqueIds(r.0) && IdsOf(r.0) == IdsOf(docs)
  {
    if down || !IsValidObjectId(postId) || c.autor == "" || c.texto == "" then (docs, Err(ErrAddComment))
    else match IndexOf(docs, ObjectIdOf(postId))
      case None => (docs, Ok(0))
      case Some(i) =>
        var p := docs[i].(comentarios := docs[i].comentarios + [Completed(c, commentId, now)], updatedAt := now);
        SameIdsKeepUnique2(docs, i, p);
        (docs[i := p], Ok(1))
  }

  /** `$pull: { comentarios: { _id } }`: every comment with that id goes, the rest keep their order. */
  function WithoutComment(cs: seq<Comment>, cid: string): (r: seq<Comment>)
    ensures |r| <= |cs|
    ensures forall x :: x in r <==> x in cs && x.id != cid
    ensures (forall k :: 0 <= k < |cs| ==> cs[k].id != cid) ==> r == cs
  {
    if cs == [] then []
    else
      var rest := WithoutComment(cs[1..], cid);
      assert forall x :: x in cs <==> x == cs[0] || x in cs[1..];
      if cs[0].id == cid then rest else [cs[0]] + rest
  }

  /** `$pull` works comment by comment: pulling from two runs of comments is pulling from
      each, so the surviving comments keep their order and their multiplicity. */
  lemma {:induction false} WithoutCommentAppend(a: seq<Comment>, b: seq<Comment>, cid: string)
    ensures WithoutComment(a + b, cid) == WithoutComment(a, cid) + WithoutComment(b, cid)
  {
    if a == [] {
      assert a + b == b;
    } else {
      assert (a + b)[1..] == a[1..] + b;
      WithoutCommentAppend(a[1..], b, cid);
    }
  }

  /** One comment is pulled exactly when its id is the one given. */
  lemma WithoutCommentSingle(c: Comment, cid: string)
    ensures WithoutComment([c], cid) == (if c.id == cid then [] else [c])
  {
  }

  /** `removerComentarioDoPost(postId, comentarioId)`. */
  function PullComment(docs: seq<Post>, postId: string, commentId: string, now: int, down: bool): (r: (seq<Post>, Result<nat>))
    ensures r.1.Err? <==> down || !IsValidObjectId(postId) || !IsValidObjectId(commentId)
    ensures r.1.Err? ==> r.0 == docs && r.1.message == ErrRemoveComment
    ensures r.1.Ok? ==> (r.1.value == 1 <==> ObjectIdOf(postId) in IdsOf(docs)) && r.1.value <= 1
    ensures r.1 == Ok(0) ==> r.0 == docs
    ensures r.1 == Ok(1) ==> var i := IndexOf(docs, ObjectIdOf(postId)).value;
      r.0 == docs[i := docs[i].(comentarios := WithoutComment(docs[i].comentarios, ObjectIdOf(commentId)),
                                   updatedAt := now)]
    ensures UniqueIds(docs) ==> UniqueIds(r.0) && IdsOf(r.0) == IdsOf(docs)
  {
    if down || !IsValidObjectId(postId) || !IsValidObjectId(commentId) then (docs, Err(ErrRemoveComment))
    else match IndexOf(docs, ObjectIdOf(postId))
      case None => (docs, Ok(0))
      case Some(i) =>
        var p := docs[i].(comentarios := WithoutComment(docs[i].comentarios, ObjectIdOf(commentId)),
                          updatedAt := now);
        SameIdsKeepUnique2(docs, i, p);
        (docs[i := p], Ok(1))
  }

  // ---------------------------------------------------------------------------
  // Likes: $inc

  /** `parseInt(incremento)` with `incremento = 1` as the default parameter; `None` is NaN. */
  function IncrementOf(incremento: Json): Option<int> {
    if incremento == JUndefined then Some(1) else ParseIntNoRadix(Interpolate(incremento))
  }

  /** A number passes through `parseInt` unchanged. */
  lemma IncrementOfNumber(n: int)
    ensures IncrementOf(JNum(n)) == Some(n)
  {
    ParseIntNoRadixRoundTrip(n);
  }

  /** `curtirOuDescurtirPost(postId, incremento)` once `incremento` has been parsed
      (`IncrementOf`); there is no lower bound on `curtidas`. */
  function IncLikes(docs: seq<Post>, postId: string, parsed: Option<int>, now: int, down: bool): (r: (seq<Post>, Result<nat>))
    ensures r.1.Err? <==> down || !IsValidObjectId(postId) || parsed.None?
    ensures r.1.Err? ==> r.0 == docs && r.1.message == ErrLikes
    ensures r.1.Ok? ==> (r.1.value == 1 <==> ObjectIdOf(postId) in IdsOf(docs)) && r.1.value <= 1
    ensures r.1 == Ok(0) ==> r.0 == docs
    ensures r.1 == Ok(1) ==> var i := IndexOf(docs, ObjectIdOf(postId)).value;
      r.0 == docs[i := docs[i].(curtidas := docs[i].curtidas + parsed.value, updatedAt := now)]
    ensures UniqueIds(docs) ==> UniqueIds(r.0) && IdsOf(r.0) == IdsOf(docs)
  {
    if down || !IsValidObjectId(postId) || parsed.None? then (docs, Err(ErrLikes))
    else match IndexOf(docs, ObjectIdOf(postId))
      case None => (docs, Ok(0))
      case Some(i) =>
        var p := docs[i].(curtidas := docs[i].curtidas + parsed.value, updatedAt := now);
        SameIdsKeepUnique2(docs, i, p);
        (docs[i := p], Ok(1))
  }

  /** Unliking a post with no likes drives its count negative. */
  lemma UnlikeCanGoNegative(docs: seq<Post>, postId: string, now: int)
    requires IsValidObjectId(postId) && ObjectIdOf(postId) in IdsOf(docs)
    requires docs[IndexOf(docs, ObjectIdOf(postId)).value].curtidas == 0
    ensures var r := IncLikes(docs, postId, IncrementOf(JNum(-1)), now, false);
            r.1 == Ok(1) && r.0[IndexOf(docs, ObjectIdOf(postId)).value].curtidas == -1
  {
    IncrementOfNumber(-1);
  }

  // ---------------------------------------------------------------------------
  // findOne

  /** `getPostPorId(id)`: an invalid id throws, a valid absent one gives `null`. */
  function FindById(docs: seq<Post>, id: string, down: bool): (r: Result<Option<Post>>)
    ensures r.Err? <==> down || !IsValidObjectId(id)
    ensures r.Err? ==> r.message == ErrFind
    ensures r.Ok? ==> (r.value.None? <==> ObjectIdOf(id) !in IdsOf(docs))
    ensures r.Ok? && r.value.Some? ==> r.value.value in docs && r.value.value.id == ObjectIdOf(id)
  {
    if down || !IsValidObjectId(id) then Err(ErrFind)
    else match IndexOf(docs, ObjectIdOf(id))
      case None => Ok(None)
      case Some(i) => Ok(Some(docs[i]))
  }

  // ---------------------------------------------------------------------------
  // find().sort({ createdAt: -1 }).skip(skip).limit(limit)

  predicate NewestFirst(s: seq<Post>) {
    forall i, j :: 0 <= i < j < |s| ==> s[i].createdAt >= s[j].createdAt
  }

  lemma ConsSorted(p: Post, s: seq<Post>)
    requires NewestFirst(s) && forall x :: x in s ==> x.createdAt <= p.createdAt
    ensures NewestFirst([p] + s)
  {
    var c := [p] + s;
    forall i, j | 0 <= i < j < |c| ensures c[i].createdAt >= c[j].createdAt {
      assert c[j] == s[j - 1] && c[j] in s;
      if i > 0 { assert c[i] == s[i - 1]; }
    }
  }

  lemma ConsIds(p: Post, s: seq<Post>)
    ensures IdsOf([p] + s) == {p.id} + IdsOf(s)
  {
    var c := [p] + s;
    assert c[0].id == p.id;
    forall x | x in IdsOf(c) ensures x in {p.id} + IdsOf(s) {
      var k :| 0 <= k < |c| && c[k].id == x;
      if k > 0 { assert s[k - 1].id == x; }
    }
    forall x | x in IdsOf(s) ensures x in IdsOf(c) {
      var k :| 0 <= k < |s| && s[k].id == x;
      assert c[k + 1].id == x;
    }
  }

  lemma ConsUnique(p: Post, s: seq<Post>)
    requires UniqueIds(s) && p.id !in IdsOf(s)
    ensures UniqueIds([p] + s)
  {
    var c := [p] + s;
    forall i, j | 0 <= i < j < |c| ensures c[i].id != c[j].id {
      assert c[j] == s[j - 1];
      if i > 0 { assert c[i] == s[i - 1]; }
    }
  }

  lemma TailUnique(s: seq<Post>)
    requires UniqueIds(s) && |s| > 0
    ensures UniqueIds(s[1..]) && s[0].id !in IdsOf(s[1..])
  {
    forall k | 0 <= k < |s[1..]| ensures s[1..][k].id != s[0].id {
      assert s[1..][k] == s[k + 1];
    }
  }

  /** Sequences with the same elements have the same ids. */
  lemma SameElementsSameIds(a: seq<Post>, b: seq<Post>)
    requires multiset(a) == multiset(b)
    ensures IdsOf(a) == IdsOf(b)
  {
    forall x | x in IdsOf(a) ensures x in IdsOf(b) {
      var k :| 0 <= k < |a| && a[k].id == x;
      assert a[k] in multiset(b);
      var m :| 0 <= m < |b| && b[m] == a[k];
    }
    forall x | x in IdsOf(b) ensures x in IdsOf(a) {
      var k :| 0 <= k < |b| && b[k].id == x;
      assert b[k] in multiset(a);
      var m :| 0 <= m < |a| && a[m] == b[k];
    }
  }

  /** Inserts `p` into a newest-first sequence, ahead of the documents no newer than it. */
  function InsertByDate(p: Post, s: seq<Post>): (r: seq<Post>)
    requires NewestFirst(s)
    ensures NewestFirst(r)
    ensures multiset(r) == multiset(s) + multiset{p}
  {
    if s == [] then [p]
    else if s[0].createdAt <= p.createdAt then
      ConsSorted(p, s);
      [p] + s
    else
      assert s == [s[0]] + s[1..];
      TailSorted(s);
      var t := InsertByDate(p, s[1..]);
      HeadNewest(p, s, t);
      ConsSorted(s[0], t);
      [s[0]] + t
  }

  lemma TailSorted(s: seq<Post>)
    requires NewestFirst(s) && |s| > 0
    ensures NewestFirst(s[1..])
  {
    var t := s[1..];
    forall i, j | 0 <= i < j < |t| ensures t[i].createdAt >= t[j].createdAt {
      assert t[i] == s[i + 1] && t[j] == s[j + 1];
    }
  }

  /** The head of a sorted sequence is no older than anything inserted behind it. */
  lemma HeadNewest(p: Post, s: seq<Post>, t: seq<Post>)
    requires NewestFirst(s) && |s| > 0 && p.createdAt < s[0].createdAt
    requires multiset(t) == multiset(s[1..]) + multiset{p}
    ensures forall x :: x in t ==> x.createdAt <= s[0].createdAt
  {
    forall x | x in t ensures x.createdAt <= s[0].createdAt {
      assert x in multiset(t);
      if x != p {
        assert x in multiset(s[1..]);
        var k :| 0 <= k < |s[1..]| && s[1..][k] == x;
        assert s[k + 1] == x;
      }
    }
  }

  lemma {:induction false} InsertByDateUnique(p: Post, s: seq<Post>)
    requires NewestFirst(s) && UniqueIds(s) && p.id !in IdsOf(s)
    ensures UniqueIds(InsertByDate(p, s))
  {
    if s == [] {
      assert UniqueIds([p]);
    } else if s[0].createdAt <= p.createdAt {
      ConsUnique(p, s);
    } else {
      assert s == [s[0]] + s[1..];
      ConsIds(s[0], s[1..]);
      TailUnique(s);
      InsertByDateUnique(p, s[1..]);
      var t := InsertByDate(p, s[1..]);
      SameElementsSameIds(t, [p] + s[1..]);
      ConsIds(p, s[1..]);
      ConsUnique(s[0], t);
    }
  }

  /** The collection sorted newest first; documents with equal `createdAt` keep
      insertion order. */
  function SortNewestFirst(docs: seq<Post>): (r: seq<Post>)
    ensures NewestFirst(r)
    ensures multiset(r) == multiset(docs) && |r| == |docs|
  {
    if docs == [] then []
    else
      assert docs == [docs[0]] + docs[1..];
      var r := InsertByDate(docs[0], SortNewestFirst(docs[1..]));
      assert |r| == |multiset(r)|;
      r
  }

  /** Sorting loses and invents no document, so it keeps the ids and their uniqueness. */
  lemma {:induction false} SortKeepsIds(docs: seq<Post>)
    ensures IdsOf(SortNewestFirst(docs)) == IdsOf(docs)
    ensures UniqueIds(docs) ==> UniqueIds(SortNewestFirst(docs))
  {
    SameElementsSameIds(SortNewestFirst(docs), docs);
    if docs != [] && UniqueIds(docs) {
      var rest := SortNewestFirst(docs[1..]);
      assert SortNewestFirst(docs) == InsertByDate(docs[0], rest);
      TailUnique(docs);
      SortKeepsIds(docs[1..]);
      assert docs[0].id !in IdsOf(rest);
      InsertByDateUnique(docs[0], rest);
    }
  }

  /** `.skip(skip).limit(n)` on a sorted cursor, `n` documents at most. */
  function Page(s: seq<Post>, skip: nat, n: nat): (r: seq<Post>)
    ensures |r| <= n
    ensures |r| == (if skip >= |s| then 0 else if skip + n <= |s| then n else |s| - skip)
    ensures forall i :: 0 <= i < |r| ==> r[i] == s[skip + i]
  {
    var a := if skip < |s| then skip else |s|;
    var b := if skip + n < |s| then skip + n else |s|;
    s[a..b]
  }

  /** Two consecutive pages of one limit are the page of twice that limit: adjacent
      and in order. */
  lemma ConsecutivePages(s: seq<Post>, skip: nat, n: nat)
    ensures Page(s, skip, n) + Page(s, skip + n, n) == Page(s, skip, 2 * n)
  {
    var l := Page(s, skip, n) + Page(s, skip + n, n);
    var r := Page(s, skip, 2 * n);
    assert |l| == |r|;
    forall i | 0 <= i < |l| ensures l[i] == r[i] {
      if i < |Page(s, skip, n)| { } else { assert l[i] == Page(s, skip + n, n)[i - |Page(s, skip, n)|]; }
    }
  }

  /** Consecutive pages of a collection with unique ids share no document. */
  lemma ConsecutivePagesDisjoint(s: seq<Post>, skip: nat, n: nat)
    requires UniqueIds(s)
    ensures IdsOf(Page(s, skip, n)) !! IdsOf(Page(s, skip + n, n))
  {
    var a := Page(s, skip, n);
    var b := Page(s, skip + n, n);
    forall i, j | 0 <= i < |a| && 0 <= j < |b| ensures a[i].id != b[j].id {
      assert a[i] == s[skip + i] && b[j] == s[skip + n + j];
    }
  }

  /** A short page is the last one: the next page is empty. */
  lemma ShortPageIsLast(s: seq<Post>, skip: nat, n: nat, m: nat)
    requires |Page(s, skip, n)| < n
    ensures Page(s, skip + n, m) == []
  {
  }

  /** The number of documents a `limit` lets through: 0 means all of them, and a
      negative limit counts as its absolute value. */
  function LimitCount(lm: int, total: nat): nat {
    if lm == 0 then total else if lm < 0 then -lm else lm
  }

  /** `getTodosPosts(skip = 0, limit = 10)`. A negative skip is refused by the server. */
  function ListNewestFirst(docs: seq<Post>, skip: Option<int>, limit: Option<int>, down: bool): (r: Result<seq<Post>>)
    ensures var sk := if skip.Some? then skip.value else 0;
            r.Err? <==> down || sk < 0
    ensures r.Err? ==> r.message == ErrList
    ensures r.Ok? ==> NewestFirst(r.value) && (forall x :: x in r.value ==> x in docs)
    ensures r.Ok? ==> var lm := if limit.Some? then limit.value else 10;
                      lm != 0 ==> |r.value| <= (if lm < 0 then -lm else lm)
    ensures r.Ok? && UniqueIds(docs) ==> UniqueIds(r.value)
    ensures r.Ok? ==> var sk := if skip.Some? then skip.value else 0;
                      var lm := if limit.Some? then limit.value else 10;
                      sk >= 0 && r.value == Page(SortNewestFirst(docs), sk, LimitCount(lm, |docs|))
  {
    var sk := if skip.Some? then skip.value else 0;
    var lm := if limit.Some? then limit.value else 10;
    if down || sk < 0 then Err(ErrList)
    else
      var n := LimitCount(lm, |docs|);
      ListedPage(docs, sk, n);
      Ok(Page(SortNewestFirst(docs), sk, n))
  }

  lemma ListedPage(docs: seq<Post>, sk: nat, n: nat)
    ensures var r := Page(SortNewestFirst(docs), sk, n);
            NewestFirst(r) && (forall x :: x in r ==> x in docs) && (UniqueIds(docs) ==> UniqueIds(r))
  {
    var sorted := SortNewestFirst(docs);
    SortKeepsIds(docs);
    PageKeeps(sorted, sk, n);
    assert forall x :: x in sorted ==> x in multiset(docs);
  }

  lemma PageKeeps(s: seq<Post>, skip: nat, n: nat)
    ensures NewestFirst(s) ==> NewestFirst(Page(s, skip, n))
    ensures UniqueIds(s) ==> UniqueIds(Page(s, skip, n))
    ensures forall x :: x in Page(s, skip, n) ==> x in s
  {
    var r := Page(s, skip, n);
    forall x | x in r ensures x in s {
      var i :| 0 <= i < |r| && r[i] == x;
      assert s[skip + i] == x;
    }
    if NewestFirst(s) {
      forall i, j | 0 <= i < j < |r| ensures r[i].createdAt >= r[j].createdAt {
        assert r[i] == s[skip + i] && r[j] == s[skip + j];
      }
    }
    if UniqueIds(s) {
      forall i, j | 0 <= i < j < |r| ensures r[i].id != r[j].id {
        assert r[i] == s[skip + i] && r[j] == s[skip + j];
      }
    }
  }

  // ---------------------------------------------------------------------------
  // Statistics

  function SumCurtidas(docs: seq<Post>): int {
    if docs == [] then 0 else SumCurtidas(docs[..|docs| - 1]) + docs[|docs| - 1].curtidas
  }

  function SumComentarios(docs: seq<Post>): nat {
    if docs == [] then 0 else SumComentarios(docs[..|docs| - 1]) + |docs[|docs| - 1].comentarios|
  }

  /** `obterEstatisticas()`: the three aggregates, 0 on an empty collection. */
  function Statistics(docs: seq<Post>, down: bool): (r: Result<Stats>)
    ensures r.Err? <==> down
    ensures r.Err? ==> r.message == ErrStats
    ensures r.Ok? ==> r.value.totalPosts == |docs|
    ensures r.Ok? ==> r.value.totalCurtidas == SumCurtidas(docs) && r.value.totalComentarios == SumComentarios(docs)
    ensures r.Ok? && docs == [] ==> r.value == Stats(0, 0, 0)
    ensures r.Ok? && (forall i :: 0 <= i < |docs| ==> docs[i].comentarios == []) ==> r.value.totalComentarios == 0
  {
    if down then Err(ErrStats)
    else
      NoCommentsSumZero(docs);
      Ok(Stats(|docs|, SumCurtidas(docs), SumComentarios(docs)))
  }

  lemma {:induction false} NoCommentsSumZero(docs: seq<Post>)
    ensures (forall i :: 0 <= i < |docs| ==> docs[i].comentarios == []) ==> SumComentarios(docs) == 0
  {
    if docs != [] {
      NoCommentsSumZero(docs[..|docs| - 1]);
    }
  }

  /** Replacing one document changes the like total by the difference of its likes. */
  lemma {:induction false} SumCurtidasUpdate(docs: seq<Post>, i: nat, p: Post)
    requires i < |docs|
    ensures SumCurtidas(docs[i := p]) == SumCurtidas(docs) - docs[i].curtidas + p.curtidas
  {
    var d := docs[i := p];
    var n := |docs| - 1;
    if i < n {
      assert d[..n] == docs[..n][i := p];
      SumCurtidasUpdate(docs[..n], i, p);
    } else {
      assert d[..n] == docs[..n];
    }
  }

  /** Replacing one document changes the comment total by the difference of its comment counts. */
  lemma {:induction false} SumComentariosUpdate(docs: seq<Post>, i: nat, p: Post)
    requires i < |docs|
    ensures SumComentarios(docs[i := p]) == SumComentarios(docs) - |docs[i].comentarios| + |p.comentarios|
  {
    var d := docs[i := p];
    var n := |docs| - 1;
    if i < n {
      assert d[..n] == docs[..n][i := p];
      SumComentariosUpdate(docs[..n], i, p);
    } else {
      assert d[..n] == docs[..n];
    }
  }

  /** A like or unlike that matched moves the like total by exactly the increment and
      leaves the comment total alone. */
  lemma IncLikesMovesTotal(docs: seq<Post>, postId: string, n: int, now: int, after: seq<Post>)
    requires IncLikes(docs, postId, Some(n), now, false) == (after, Ok(1))
    ensures |after| == |docs|
    ensures SumCurtidas(after) == SumCurtidas(docs) + n
    ensures SumComentarios(after) == SumComentarios(docs)
  {
    var i := IndexOf(docs, ObjectIdOf(postId)).value;
    var p := docs[i].(curtidas := docs[i].curtidas + n, updatedAt := now);
    assert after == docs[i := p];
    SumCurtidasUpdate(docs, i, p);
    SumComentariosUpdate(docs, i, p);
  }

  /** A comment added to a post that matched adds one to the comment total. */
  lemma PushCommentCountsOne(docs: seq<Post>, postId: string, c: NewComment, commentId: string, now: int,
                             after: seq<Post>)
    requires PushComment(docs, postId, c, commentId, now, false) == (after, Ok(1))
    ensures |after| == |docs|
    ensures SumCurtidas(after) == SumCurtidas(docs)
    ensures SumComentarios(after) == SumComentarios(docs) + 1
  {
    var i := IndexOf(docs, ObjectIdOf(postId)).value;
    var p := docs[i].(comentarios := docs[i].comentarios + [Completed(c, commentId, now)], updatedAt := now);
    SumCurtidasUpdate(docs, i, p);
    SumComentariosUpdate(docs, i, p);
  }

  /** An insert adds one post and its initial likes and comments to the totals. */
  lemma InsertCounts(docs: seq<Post>, np: NewPost, freshId: string, now: int, after: seq<Post>)
    requires Insert(docs, np, freshId, now, false) == (after, Ok(freshId))
    ensures |after| == |docs| + 1
    ensures SumCurtidas(after) == SumCurtidas(docs) + Complete(np, freshId, now).curtidas
    ensures SumComentarios(after) == SumComentarios(docs) + |Complete(np, freshId, now).comentarios|
  {
    assert after[..|after| - 1] == docs;
  }

  // ---------------------------------------------------------------------------
  // The collection object

  class PostsCollection {
    var docs: seq<Post>

    ghost predicate Valid()
      reads this
    {
      UniqueIds(docs)
    }

    constructor ()
      ensures Valid() && docs == []
    {
      docs := [];
    }

    /** `getTodosPosts(skip, limit)` reads the current documents. */
    function GetTodosPosts(skip: Option<int>, limit: Option<int>, down: bool): (r: Result<seq<Post>>)
      reads this
      ensures r == ListNewestFirst(docs, skip, limit, down)
    {
      ListNewestFirst(docs, skip, limit, down)
    }

    /** `getPostPorId(id)` reads the current documents. */
    function GetPostPorId(id: string, down: bool): (r: Result<Option<Post>>)
      reads this
      ensures r == FindById(docs, id, down)
    {
      FindById(docs, id, down)
    }

    /** `obterEstatisticas()` reads the current documents. */
    function ObterEstatisticas(down: bool): (r: Result<Stats>)
      reads this
      ensures r == Statistics(docs, down)
    {
      Statistics(docs, down)
    }

    method CriarPost(np: NewPost, freshId: string, now: int, down: bool) returns (r: Result<string>)
      requires Valid()
      modifies this
      ensures Valid() && (docs, r) == Insert(old(docs), np, freshId, now, down)
    {
      var (d, res) := Insert(docs, np, freshId, now, down);
      docs, r := d, res;
    }

    method AtualizarPost(id: string, u: PostUpdate, now: int, down: bool) returns (matched: Result<nat>)
      requires Valid()
      modifies this
      ensures Valid() && (docs, matched) == SetFields(old(docs), id, u, now, down)
    {
      var (d, res) := SetFields(docs, id, u, now, down);
      docs, matched := d, res;
    }

    method DeletarPost(id: string, down: bool) returns (deleted: Result<nat>)
      requires Valid()
      modifies this
      ensures Valid() && (docs, deleted) == Delete(old(docs), id, down)
    {
      var (d, res) := Delete(docs, id, down);
      docs, deleted := d, res;
    }

    method AdicionarComentarioAoPost(postId: string, c: NewComment, commentId: string, now: int, down: bool)
      returns (matched: Result<nat>)
      requires Valid()
      modifies this
      ensures Valid() && (docs, matched) == PushComment(old(docs), postId, c, commentId, now, down)
    {
      var (d, res) := PushComment(docs, postId, c, commentId, now, down);
      docs, matched := d, res;
    }

    method RemoverComentarioDoPost(postId: string, commentId: string, now: int, down: bool)
      returns (matched: Result<nat>)
      requires Valid()
      modifies this
      ensures Valid() && (docs, matched) == PullComment(old(docs), postId, commentId, now, down)
    {
      var (d, res) := PullComment(docs, postId, commentId, now, down);
      docs, matched := d, res;
    }

    method CurtirOuDescurtirPost(postId: string, incremento: Json, now: int, down: bool)
      returns (matched: Result<nat>)
      requires Valid()
      modifies this
      ensures Valid() && (docs, matched) == IncLikes(old(docs), postId, IncrementOf(incremento), now, down)
    {
      var (d, res) := IncLikes(docs, postId, IncrementOf(incremento), now, down);
      docs, matched := d, res;
    }
  }
}
