/** src/middleware/upload.js: the multer configuration (which files are accepted and the
    size and count limits) and `handleUploadError`, the error middleware that turns
    upload errors into replies. The multer machinery itself is not part of this model:
    its outcome is an input (see the route model). */
module UploadMiddleware {
  import opened Js
  import opened Paths
  import opened HttpResponses

  /** `limits.fileSize`: 5 MiB. */
  const MaxFileSize := 5 * 1024 * 1024
  /** `limits.files`: one file per request. */
  const MaxFiles := 1

  const FileTypeMessage := "Apenas imagens são permitidas (JPEG, JPG, PNG, GIF, WEBP)"
  /** The text `handleUploadError` looks for in an error's message. */
  const FileTypeMarker := "Apenas imagens são permitidas"

  /** The alternatives of `/jpeg|jpg|png|gif|webp/`. */
  const AllowedTypes: seq<string> := ["jpeg", "jpg", "png", "gif", "webp"]

  /** `/jpeg|jpg|png|gif|webp/.test(s)`: the pattern is not anchored, so it holds when
      one alternative occurs anywhere in `s`. */
  function AllowedTest(s: string): (b: bool)
    ensures b <==> exists k :: 0 <= k < |AllowedTypes| && Contains(s, AllowedTypes[k])
  {
    assert AllowedTypes[0] == "jpeg" && AllowedTypes[1] == "jpg" && AllowedTypes[2] == "png"
           && AllowedTypes[3] == "gif" && AllowedTypes[4] == "webp";
    Contains(s, "jpeg") || Contains(s, "jpg") || Contains(s, "png") || Contains(s, "gif") || Contains(s, "webp")
  }

  /** `fileFilter(req, file, cb)`: `Ok(true)` is `cb(null, true)`, `Err` is the error
      handed to `cb` together with `false`. The extension is lowercased before the
      test, the mimetype is not. */
  function FileFilter(originalname: string, mimetype: string): (r: Result<bool>)
    ensures r.Ok? ==> r.value
    ensures r.Ok? <==> AllowedTest(AsciiLower(ExtName(originalname))) && AllowedTest(mimetype)
    ensures r.Err? ==> r.message == FileTypeMessage
  {
    var extname := AllowedTest(AsciiLower(ExtName(originalname)));
    var mime := AllowedTest(mimetype);
    if mime && extname then Ok(true) else Err(FileTypeMessage)
  }

  /** Lowercasing leaves every character that is not an ASCII letter alone. */
  lemma {:induction false} LastIndexOfLower(s: string, c: char)
    requires !('A' <= c <= 'Z') && !('a' <= c <= 'z')
    ensures LastIndexOf(AsciiLower(s), c) == LastIndexOf(s, c)
  {
    if |s| > 0 {
      assert AsciiLower(s)[..|s| - 1] == AsciiLower(s[..|s| - 1]);
      LastIndexOfLower(s[..|s| - 1], c);
    }
  }

  lemma SliceLower(s: string, k: nat)
    requires k <= |s|
    ensures AsciiLower(s)[k..] == AsciiLower(s[k..])
  {
  }

  /** The last path segment commutes with lowercasing. */
  lemma LastSegmentLower(p: string)
    ensures LastSegment(AsciiLower(p)) == AsciiLower(LastSegment(p))
  {
    LastIndexOfLower(p, '/');
    if LastIndexOf(p, '/').Some? {
      SliceLower(p, LastIndexOf(p, '/').value + 1);
    }
  }

  lemma DotDotLower(base: string)
    ensures AsciiLower(base) == ".." <==> base == ".."
  {
    if AsciiLower(base) == ".." {
      assert LowerChar(base[0]) == '.' && LowerChar(base[1]) == '.';
    }
  }

  /** `path.extname` commutes with lowercasing. */
  lemma ExtNameLower(p: string)
    ensures ExtName(AsciiLower(p)) == AsciiLower(ExtName(p))
  {
    LastSegmentLower(p);
    ExtOfSegmentLower(LastSegment(p));
  }

  /** The part of `path.extname` after the last segment is found. */
  lemma ExtOfSegmentLower(base: string)
    ensures (match LastIndexOf(AsciiLower(base), '.')
             case None => ""
             case Some(d) => if d == 0 || AsciiLower(base) == ".." then "" else AsciiLower(base)[d..])
            == AsciiLower(match LastIndexOf(base, '.')
                          case None => ""
                          case Some(d) => if d == 0 || base == ".." then "" else base[d..])
  {
    LastIndexOfLower(base, '.');
    DotDotLower(base);
    var d := LastIndexOf(base, '.');
    if d.Some? {
      SliceLower(base, d.value);
    } else {
      assert AsciiLower("") == "";
    }
  }

  /** The filter does not depend on the case of the file name. */
  lemma FilterIgnoresNameCase(originalname: string, mimetype: string)
    ensures FileFilter(AsciiLower(originalname), mimetype) == FileFilter(originalname, mimetype)
  {
    ExtNameLower(originalname);
    AsciiLowerIdempotent(ExtName(originalname));
  }

  lemma AsciiLowerIdempotent(s: string)
    ensures AsciiLower(AsciiLower(s)) == AsciiLower(s)
  {
    var a := AsciiLower(s);
    forall i | 0 <= i < |a| ensures AsciiLower(a)[i] == a[i] {
    }
  }

  /** Every alternative is lower case, so a mimetype sent in upper case is refused
      whatever the file is called. */
  lemma UpperCaseMimetypeRefused(originalname: string, mimetype: string)
    requires forall i :: 0 <= i < |mimetype| ==> !('a' <= mimetype[i] <= 'z')
    ensures FileFilter(originalname, mimetype).Err?
  {
    NoLowerNoMatch(mimetype);
  }

  lemma NoLowerNoMatch(s: string)
    requires forall i :: 0 <= i < |s| ==> !('a' <= s[i] <= 'z')
    ensures !AllowedTest(s)
  {
    forall k | 0 <= k < |AllowedTypes| ensures !Contains(s, AllowedTypes[k]) {
      NoLowerNoOccurrence(s, AllowedTypes[k]);
    }
  }

  lemma NoLowerNoOccurrence(s: string, p: string)
    requires forall i :: 0 <= i < |s| ==> !('a' <= s[i] <= 'z')
    requires p != "" && 'a' <= p[0] <= 'z'
    ensures !Contains(s, p)
  {
    forall i ensures !OccursAt(s, p, i) {
      if 0 <= i <= |s| - |p| {
        assert s[i..i + |p|][0] == s[i];
      }
    }
  }

  /** The extension's case does not matter. */
  lemma UpperCaseExtensionAccepted()
    ensures FileFilter("foto.PNG", "image/png") == Ok(true)
  {
    var n := "foto.PNG";
    assert forall i :: 0 <= i < |n| ==> n[i] != '/';
    assert LastIndexOf(n, '/').None?;
    assert n[4] == '.' && n[5] != '.' && n[6] != '.' && n[7] != '.';
    assert LastIndexOf(n, '.') == Some(4);
    assert AsciiLower(".PNG") == ".png";
    assert OccursAt(".png", "png", 1);
    assert OccursAt("image/png", "png", 6);
    assert AllowedTypes[2] == "png";
  }

  /** What an error middleware does: reply, pass the error on with `next(err)`, or
      throw while inspecting it. */
  datatype Outcome = Reply(res: Response) | PassOn(err: JsError) | Throw(message: string)

  /** `message.includes(FileTypeMarker)` on a message that is there: strings search for
      the text, arrays for an element equal to it, and any other value has no
      `includes` to call. */
  function IncludesMarker(message: Json, expr: string): (r: Result<bool>)
    requires message != JUndefined && message != JNull
    ensures message.JStr? ==> r == Ok(Contains(message.s, FileTypeMarker))
    ensures r.Err? <==> !message.JStr? && !message.JArr?
  {
    match message
    case JStr(s) => Ok(Contains(s, FileTypeMarker))
    case JArr(items) => Ok(JStr(FileTypeMarker) in items)
    case _ => Err(expr + " is not a function")
  }

  const TooLargeReply := ErrorBody(413, "File too large", JStr("Arquivo muito grande. Tamanho máximo: 5MB"))
  const UnexpectedFieldReply := ErrorBody(400, "Unexpected field", JStr("Campo de arquivo inesperado"))

  /** The file-type error's reply: 400, echoing the error's own message. */
  function InvalidTypeReply(message: Json): Response {
    ErrorBody(400, "Invalid file type", message)
  }

  predicate IsMulterCode(err: JsError, code: string) {
    err.multer && err.code == JStr(code)
  }

  /** `handleUploadError(err, req, res, next)`: multer's size and field errors, then the
      file-type error, each become a reply; anything else goes on unchanged. The message
      is read with `err?.message?.includes`, so a missing one is tolerated. */
  function HandleUploadError(err: JsError): (r: Outcome)
    ensures IsMulterCode(err, "LIMIT_FILE_SIZE") ==> r == Reply(TooLargeReply)
    ensures IsMulterCode(err, "LIMIT_UNEXPECTED_FILE") ==> r == Reply(UnexpectedFieldReply)
    ensures !IsMulterCode(err, "LIMIT_FILE_SIZE") && !IsMulterCode(err, "LIMIT_UNEXPECTED_FILE") ==>
              (err.message == JUndefined || err.message == JNull ==> r == PassOn(err))
              && (err.message.JStr? ==>
                    r == (if Contains(err.message.s, FileTypeMarker) then Reply(InvalidTypeReply(err.message))
                          else PassOn(err)))
    ensures r.PassOn? ==> r.err == err
  {
    if IsMulterCode(err, "LIMIT_FILE_SIZE") then Reply(TooLargeReply)
    else if IsMulterCode(err, "LIMIT_UNEXPECTED_FILE") then Reply(UnexpectedFieldReply)
    else if err.message == JUndefined || err.message == JNull then PassOn(err)
    else match IncludesMarker(err.message, "err?.message?.includes")
      case Err(m) => Throw(m)
      case Ok(true) => Reply(InvalidTypeReply(err.message))
      case Ok(false) => PassOn(err)
  }

  /** The error `fileFilter` raises for a refused file is answered with a 400 that
      carries the filter's message. */
  lemma RefusedFileIs400(originalname: string, mimetype: string)
    requires FileFilter(originalname, mimetype).Err?
    ensures HandleUploadError(JsError(false, JUndefined, JStr(FileFilter(originalname, mimetype).message)))
            == Reply(InvalidTypeReply(JStr(FileTypeMessage)))
  {
    assert OccursAt(FileTypeMessage, FileTypeMarker, 0);
  }
}
