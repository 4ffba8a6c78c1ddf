/** src/utils/uploadUtils.js: the steps of the image-upload pipeline. */
module UploadUtils {
  import opened Js
  import opened Paths
  import opened Fs
  import opened PostsModel
  import opened PostUtils

  const PlaceholderDescricao := "Gerando descrição automática..."
  const PlaceholderAlt := "Gerando texto alternativo..."
  const ReadErrorPrefix := "Erro ao ler arquivo: "

  /** `buildInitialPost(autor)` at time `now`: the placeholder record created before the
      file is moved. */
  function BuildInitialPost(autor: Json, now: int): (r: NewPost)
    ensures r.descricao == JStr(PlaceholderDescricao) && r.alt == JStr(PlaceholderAlt)
    ensures r.imgUrl == JStr("") && r.curtidas == Some(0) && r.comentarios == Some([])
    ensures r.createdAt == Some(now) && r.updatedAt == Some(now)
    ensures r.status == Some("processing")
    ensures r.autor == (if Truthy(autor) then autor else JStr(DefaultAuthor))
    ensures Truthy(r.descricao) && Truthy(r.autor)
  {
    NewPost(JStr(PlaceholderDescricao), JStr(PlaceholderAlt), JStr(""), Or(autor, JStr(DefaultAuthor)),
            Some(0), Some([]), Some(now), Some(now), Some("processing"))
  }

  /** `buildFinalFilePath(tempFilePath, postId, originalName)`: `(newFileName, finalFilePath)`. */
  function BuildFinalFilePath(tempFilePath: string, postId: string, originalName: string): (r: (string, string))
    ensures r.0 == postId + ExtName(originalName)
    ensures r.1 == Join(DirName(tempFilePath), r.0)
  {
    var newFileName := postId + ExtName(originalName);
    (newFileName, Join(DirName(tempFilePath), newFileName))
  }

  /** The renamed file sits in the temp file's directory under the new name, which is the
      post id followed by the original extension. */
  lemma FinalPathBesideTemp(tempFilePath: string, postId: string, originalName: string)
    requires postId != "" && '/' !in postId
    requires var d := DirName(tempFilePath); d == "/" || d[|d| - 1] != '/'
    ensures var (name, path) := BuildFinalFilePath(tempFilePath, postId, originalName);
            DirName(path) == DirName(tempFilePath) && LastSegment(path) == name
            && name[..|postId|] == postId && name[|postId|..] == ExtName(originalName)
  {
    var name := postId + ExtName(originalName);
    assert '/' !in name by {
      forall i | 0 <= i < |name| ensures name[i] != '/' {
        if i >= |postId| { assert name[i] == ExtName(originalName)[i - |postId|]; }
      }
    }
    JoinChild(DirName(tempFilePath), name);
  }

  /** `moveUploadedFile(tempFilePath, finalFilePath)`. */
  method MoveUploadedFile(fs: FileSystem, tempFilePath: string, finalFilePath: string, fault: Option<string>)
    returns (r: Result<()>)
    requires fs.Valid()
    modifies fs
    ensures fs.Valid() && fs.dirs == old(fs.dirs)
    ensures var m := Rename(old(fs.files), old(fs.dirs), tempFilePath, finalFilePath, fault);
            if m.Ok? then r == Ok(()) && fs.files == m.value else r == Err(m.message) && fs.files == old(fs.files)
    ensures r.Ok? ==> finalFilePath in fs.files && fs.files[finalFilePath] == old(fs.files)[tempFilePath]
    ensures r.Ok? && tempFilePath != finalFilePath ==> tempFilePath !in fs.files
  {
    r := fs.RenameSync(tempFilePath, finalFilePath, fault);
  }

  /** `process.env.BASE_URL || \`${req.protocol}://${req.get('host')}\``. */
  function BaseUrl(baseUrlEnv: string, req: ReqInfo): (r: string)
    ensures baseUrlEnv != "" ==> r == baseUrlEnv
    ensures baseUrlEnv == "" ==> r == req.protocol + "://" + req.host
  {
    if baseUrlEnv != "" then baseUrlEnv else req.protocol + "://" + req.host
  }

  /** `buildImageUrl(baseUrl, fileName)`. */
  function BuildImageUrl(baseUrl: string, fileName: string): (r: string)
    ensures StartsWith(r, baseUrl + "/uploads/") && |r| == |baseUrl| + 9 + |fileName|
  {
    baseUrl + "/uploads/" + fileName
  }

  /** The file name can be read back from an image URL: it is the URL's last segment.
      This is how a delete finds the file of a post. */
  lemma ImageUrlNamesFile(baseUrl: string, fileName: string)
    requires fileName != "" && '/' !in fileName
    ensures LastSegment(BuildImageUrl(baseUrl, fileName)) == fileName
  {
    var dir := baseUrl + "/uploads";
    assert dir[|dir| - 1] == 's';
    assert BuildImageUrl(baseUrl, fileName) == Join(dir, fileName);
    JoinChild(dir, fileName);
  }

  /** What `readImageBuffer(filePath)` returns or throws. */
  function ReadImage(files: Files, dirs: set<string>, filePath: string, fault: Option<string>): (r: Result<Bytes>)
    requires files.Keys !! dirs
    ensures r.Ok? <==> fault.None? && filePath in files
    ensures r.Ok? ==> r.value == files[filePath]
    ensures r.Err? ==> StartsWith(r.message, ReadErrorPrefix)
  {
    match Read(files, dirs, filePath, fault)
    case Ok(b) => Ok(b)
    case Err(m) => Err(ReadErrorPrefix + m)
  }

  /** `readImageBuffer(filePath)`. */
  method ReadImageBuffer(fs: FileSystem, filePath: string, fault: Option<string>) returns (r: Result<Bytes>)
    requires fs.Valid()
    ensures r == ReadImage(fs.files, fs.dirs, filePath, fault)
  {
    var b := fs.ReadFileSync(filePath, fault);
    match b
    case Ok(bytes) => r := Ok(bytes);
    case Err(m) => r := Err(ReadErrorPrefix + m);
  }

  /** What the caption service does: it returns a pair of fields, either possibly
      falsy, or throws. */
  datatype Caption = Described(descricao: Json, alt: Json) | ServiceThrows

  const DescricaoFallback := "Descrição não disponível"
  const AltFallback := "Imagem enviada pelo usuário"
  const DescricaoOnError := "Uma imagem foi compartilhada"
  const AltOnError := "Imagem compartilhada"

  /** `getImageDescription(imageBuffer)` given the service's outcome: it never throws. */
  function GetImageDescription(outcome: Caption): (r: (Json, Json))
    ensures Truthy(r.0) && Truthy(r.1)
    ensures outcome.ServiceThrows? ==> r == (JStr(DescricaoOnError), JStr(AltOnError))
    ensures outcome.Described? ==>
      r.0 == (if Truthy(outcome.descricao) then outcome.descricao else JStr(DescricaoFallback))
      && r.1 == (if Truthy(outcome.alt) then outcome.alt else JStr(AltFallback))
  {
    match outcome
    case Described(d, a) => (Or(d, JStr(DescricaoFallback)), Or(a, JStr(AltFallback)))
    case ServiceThrows => (JStr(DescricaoOnError), JStr(AltOnError))
  }

  /** `buildImageUpdate({ imgUrl, descricao, alt })` at time `now`. */
  function BuildImageUpdate(imgUrl: string, descricao: Json, alt: Json, now: int): (r: PostUpdate)
    ensures UpdateJson(r) == map["imgUrl" := JStr(imgUrl), "descricao" := descricao, "alt" := alt,
                                 "updatedAt" := JDate(now), "status" := JStr("completed")]
  {
    PostUpdate(Some(descricao), Some(alt), None, Some(JStr(imgUrl)), Some("completed"), Some(now))
  }

  /** Applied to the placeholder, the image update completes it: the status, the image
      and both captions change and the author, likes and comments stay. */
  lemma ImageUpdateCompletes(p: Post, imgUrl: string, descricao: Json, alt: Json, now: int)
    ensures var q := ApplySet(p, BuildImageUpdate(imgUrl, descricao, alt, now), now);
            q.status == Some("completed") && q.imgUrl == JStr(imgUrl) && q.descricao == descricao
            && q.alt == alt && q.autor == p.autor && q.curtidas == p.curtidas
            && q.comentarios == p.comentarios && q.id == p.id
  {
  }
}
