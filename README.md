# Instabytes posts backend: a Dafny model

A model of the posts API of the Instabytes backend, an Express application that keeps posts in
MongoDB and images on disk. The model covers:

- image uploads: `uploadImagem` in both its copies and the helpers it is built from;
- the posts collection, with its ObjectId check;
- the read, write and interaction controllers, and the older `postsController.js` that the route table actually imports;
- the request validators, the multer file filter and the upload-error mapping;
- the global error handlers and the response payloads;
- the route table.

Values arrive as JavaScript values (`Js.Json`), which have truthiness, `||`, `trim()`, UTF-16 `.length`, and `parseInt` with and without a radix. A reply is a `Response`: a status plus the payload object, before it is serialised.

## Structure

| module (file) | source file | form |
|---|---|---|
| `Js`, `Paths` (js.dfy, paths.dfy) | the JavaScript and `path` operations the code relies on | functions and lemmas |
| `Fs` (file_system.dfy) | Node's synchronous `fs` calls | the `FileSystem` class (files as a map from path to bytes, plus a set of directories), with pure twins of each call |
| `HttpResponses` | src/utils/httpResponses.js | functions |
| `FileUtils` | src/utils/fileUtils.js | methods on `FileSystem`, specified by functions |
| `PostUtils` | src/utils/postUtils.js | functions and lemmas |
| `PostControllerUtils` | src/controllers/postControllerUtils.js | functions: `BuildPostUpdate` builds a `PostUpdate` record, one optional field per input |
| `UploadUtils` | src/utils/uploadUtils.js | pure builders as functions; the move and the read as methods on `FileSystem` |
| `UploadMiddleware` | src/middleware/upload.js | functions and lemmas |
| `Validation` | src/middleware/validation.js | functions and lemmas |
| `ErrorHandlers` | src/middleware/errorHandlers.js | functions and lemmas |
| `PostsModel` | src/models/postsModel.js | the `PostsCollection` class (the documents as a `seq<Post>` in insertion order); each update method is proved equal to a pure function on the sequence, and the queries are functions |
| `PostsReadController` | src/controllers/postsReadController.js | functions |
| `PostsWriteController`, `PostsInteractionController` | src/controllers/postsWriteController.js, postsInteractionController.js | methods on `PostsCollection` and `FileSystem`, each equal to a pure outcome function that the lemmas are about |
| `PostsUploadController` | src/controllers/postsUploadController.js | the `UploadImagem` method, which reassigns its path locals step by step, proved equal to the outcome function `Upload` |
| `PostsController` | src/controllers/postsController.js | the older handlers, specified in the same way, with lemmas comparing them to the newer ones |
| `PostsRoutes` | src/routes/postsRoutes.js | the route table as data, module linking, and each guarded route as a composition of its stages |

The model takes these as parameters:

- the failure points of the store and of the disk, as injected faults;
- the clock, as one `now` per request;
- fresh ObjectIds;
- the caption service's answer;
- `NODE_ENV`;
- the request's protocol, host and `BASE_URL`.

Where the code and the design description of the system disagree, the model follows the code:

- A failed read-back of the image aborts the upload with a 500. It does not fall back to a default caption.
- Captions are not truncated. The caption fallback is one fixed pair, not a random choice.
- A like count can go below zero: `$inc` has no lower bound, and the older controller unlikes with any action.
- A failed rename, read or final update leaves the `processing` placeholder in the collection.
- Validation failures reply `{ error, message }` without a `success` key, because they do not go through `sendError`.

## Model

| member | source | states |
|---|---|---|
| Js.Or | src/utils/postUtils.js:8-11 | `a \|\| b` is `a` exactly when `a` is truthy, `b` otherwise |
| Js.Trim | src/controllers/postControllerUtils.js:22-30 | `trim()` returns a slice of its input that is empty exactly when the input is all whitespace, and otherwise starts and ends with a non-whitespace character |
| Js.TrimValue | src/middleware/validation.js:4 | `.trim()` succeeds exactly on strings and then returns the trimmed string; on any other value it throws |
| Js.TrimIdempotent | src/controllers/postControllerUtils.js:22-30 | trimming twice is trimming once |
| Js.TrimOfUnpadded | src/controllers/postControllerUtils.js:22-30 | a string with no whitespace at either end is left unchanged by `trim()` |
| Js.TrimDropsOnlyPadding | src/controllers/postControllerUtils.js:22-30 | `trim()` drops only whitespace, and only at the two ends: the input is the result with a blank run before it and a blank run after it |
| Js.Utf16Length | src/middleware/validation.js:11 | `.length` counts UTF-16 code units: at least one and at most two per character |
| Js.Utf16LengthOfBmp | src/middleware/validation.js:11 | on characters of the Basic Multilingual Plane `.length` is the number of characters |
| Js.Contains | src/middleware/upload.js:51 | `includes` holds exactly when the pattern occurs at some position |
| Js.AsciiLower | src/middleware/upload.js:16 | `toLowerCase` keeps the length and lowercases character by character |
| Js.NatToStringValue | src/utils/postUtils.js:16-18 | the decimal spelling of a natural number has that number as its value |
| Js.ParseInt | src/utils/postUtils.js:16-18 | `parseInt(s, 10)` is NaN exactly when no digit follows the leading whitespace and the sign |
| Js.ParseIntNoRadix | src/models/postsModel.js:164 | `parseInt(s)` without a radix agrees with `parseInt(s, 10)` unless the digits start with `0x` or `0X` |
| Js.ParseIntRoundTrip | src/utils/postUtils.js:16-18 | `parseInt(String(i), 10) == i` for every integer |
| Js.ParseIntNoRadixRoundTrip | src/models/postsModel.js:164 | `parseInt(String(i)) == i` for every integer |
| Js.ParseIntOfNumericPrefix | src/utils/postUtils.js:16-18 | `parseInt` skips leading whitespace and stops at the first non-digit: a blank prefix, then the decimal text of `i`, then anything that does not start with a digit, parses to `i` |
| Paths.LastIndexOf | src/utils/uploadUtils.js:20-22 | returns the position of the last occurrence, or none when there is no occurrence |
| Paths.LastSegment | src/controllers/postsWriteController.js:93-94 | `split('/').pop()` contains no slash and is a suffix of the path that follows a slash or is the whole path |
| Paths.ExtName | src/utils/uploadUtils.js:20 | `path.extname` is empty or starts with a dot and contains no slash |
| Paths.ExtNameIsLastDotSuffix | src/utils/uploadUtils.js:20 | `path.extname` is the suffix of the last segment that starts at its last dot; it is empty exactly when that segment is `..` or has no dot after its first character |
| Paths.DirName | src/utils/uploadUtils.js:22 | `path.dirname` is `.` for a path with no slash, `/` when the last slash opens the path, and otherwise everything before the last slash |
| Paths.Join | src/utils/uploadUtils.js:22 | `path.join` of a directory and a name starts with the directory and ends with the name, with exactly one `/` between them when both are non-empty |
| Paths.JoinChild | src/utils/uploadUtils.js:22 | joining a file name onto a directory gives a path whose `dirname` is that directory and whose last segment is the file name |
| Fs.Rename | src/utils/uploadUtils.js:28 | a rename succeeds exactly when the source exists, the target is not a directory and no fault occurs; the target then holds the source's bytes, the source is gone and every other file is unchanged |
| Fs.Read | src/utils/uploadUtils.js:37 | a read succeeds exactly when the file exists and no fault occurs, and returns its bytes |
| Fs.Unlink | src/utils/fileUtils.js:12 | an unlink succeeds exactly when the file exists and no fault occurs, and removes that file only |
| Fs.FileSystem.RenameSync | src/utils/uploadUtils.js:28 | updates the files as `Fs.Rename` says, or leaves them unchanged and returns the error |
| Fs.FileSystem.ReadFileSync | src/utils/uploadUtils.js:37 | returns what `Fs.Read` gives and changes nothing |
| Fs.FileSystem.UnlinkSync | src/utils/fileUtils.js:12 | updates the files as `Fs.Unlink` says, or leaves them unchanged and returns the error |
| Fs.FileSystem.MkdirSync | src/utils/fileUtils.js:5 | adds that one directory and leaves the files alone (the recursive creation of parents is not modelled) |
| Fs.FileSystem.ExistsSync | src/utils/fileUtils.js:4 | `existsSync` holds exactly when a file or a directory is at the path |
| HttpResponses.SendSuccess | src/utils/httpResponses.js:1-13 | `success: true` and `data` are always present; `message` and `pagination` appear exactly when they are truthy; an omitted status is 200 |
| HttpResponses.SendError | src/utils/httpResponses.js:15-18 | the body has exactly `success`, `error` and `message`; an omitted `success` is `false` and an omitted status is 500 |
| HttpResponses.ErrorBody | src/middleware/upload.js:38-41 | the bare `{ error, message }` body written by the middleware, with no `success` key |
| FileUtils.EnsureDirectoryEffect | src/utils/fileUtils.js:3-7 | a directory is created only when nothing exists at the path, and afterwards something always does |
| FileUtils.EnsureDirectoryIdempotent | src/utils/fileUtils.js:3-7 | a second `ensureDirectory` of the same path changes nothing |
| FileUtils.EnsureDirectory | src/utils/fileUtils.js:3-7 | changes the directories as `EnsureDirectoryEffect` says and leaves the files alone |
| FileUtils.SafeDeleteEffect | src/utils/fileUtils.js:9-17 | a missing or empty path, a path with nothing there, and a failing unlink all leave the files unchanged; otherwise exactly that file goes; no file ever changes its bytes |
| FileUtils.SafeDeleteIdempotent | src/utils/fileUtils.js:9-17 | deleting the same path a second time has no further effect |
| FileUtils.SafeDeleteFile | src/utils/fileUtils.js:9-17 | never fails, and changes the files as `SafeDeleteEffect` says |
| PostUtils.BuildShareUrl | src/utils/postUtils.js:1-3 | the link is `<protocol>://<host>/posts/` followed by the id |
| PostUtils.ShareUrlNamesPost | src/utils/postUtils.js:1-3 | the post id is the last path segment of its share link |
| PostUtils.ShareUrlInjective | src/utils/postUtils.js:1-3 | different posts get different links on the same host |
| PostUtils.NormalizePostResponse | src/utils/postUtils.js:5-13 | the stored document plus `shareUrl`; `imgUrl` becomes `null` when it is falsy; every other field is unchanged |
| PostUtils.IntOr | src/utils/postUtils.js:16-17 | `parseInt(v, 10) \|\| fallback`: NaN and 0 give the fallback |
| PostUtils.ParsePagination | src/utils/postUtils.js:15-22 | the page is at least 1; the limit lies in `[1, maxLimit]`; `skip == (page - 1) * limit` (the values themselves are stated by the lemmas below) |
| PostUtils.PageNumber | src/utils/postUtils.js:16 | a positive page number is taken as given; any other number, and a missing one, gives page 1 |
| PostUtils.LimitClamp | src/utils/postUtils.js:17-18 | the limit is the given one, or the default when the given one is 0, clamped into `[1, maxLimit]` |
| PostUtils.PaginationFallbacks | src/utils/postUtils.js:16-18 | a missing page, or one that is not a number or is 0, is page 1; a missing limit, or one that is not a number or is 0, is the default clamped to `[1, maxLimit]` |
| PostUtils.PaginationOfNumericPrefix | src/utils/postUtils.js:16-18 | a page or limit with leading blanks or trailing non-digits is read as the number it starts with |
| PostUtils.PaginationOfJunk | src/utils/postUtils.js:15-22 | `?page=2abc&limit=abc` with limits 100/100 is page 2, limit 100, skip 100 |
| PostUtils.ConsecutivePagesAdjacent | src/utils/postUtils.js:15-22 | page `n + 1` starts exactly where page `n` ends |
| PostControllerUtils.HandleNotFound | src/controllers/postControllerUtils.js:3-8 | a 404 with `success: false` and the fixed texts |
| PostControllerUtils.HandleServerError | src/controllers/postControllerUtils.js:10-17 | a 500 that carries the handler's own message, not the error's |
| PostControllerUtils.TrimIfPresent | src/controllers/postControllerUtils.js:22-30 | `undefined` gives no field, a string gives its trimmed value, anything else throws |
| PostControllerUtils.BuildPostUpdate | src/controllers/postControllerUtils.js:19-35 | succeeds exactly when every field is `undefined` or a string; the update has `updatedAt` and, trimmed, each field that is not `undefined` |
| PostControllerUtils.PostUpdateKeys | src/controllers/postControllerUtils.js:19-35 | the `$set` object's keys are `updatedAt` plus exactly the supplied fields |
| PostControllerUtils.EditKeepsTheRest | src/controllers/postControllerUtils.js:19-35 | an edit never touches the image, likes, comments, status, creation date or id |
| UploadUtils.BuildInitialPost | src/utils/uploadUtils.js:5-17 | the placeholder record: placeholder captions, an empty image, 0 likes, no comments, status `processing`, and the author or `Anônimo` |
| UploadUtils.BuildFinalFilePath | src/utils/uploadUtils.js:19-25 | the new name is the post id plus the original extension, placed in the temp file's directory |
| UploadUtils.FinalPathBesideTemp | src/utils/uploadUtils.js:19-25 | the final path's directory is the temp file's directory, and its last segment is the id followed by the extension |
| UploadUtils.MoveUploadedFile | src/utils/uploadUtils.js:27-29 | is `renameSync`: on success the bytes are at the final path and no longer at the temp path |
| UploadUtils.BaseUrl | src/controllers/postsUploadController.js:46 | `BASE_URL` when it is set, otherwise `<protocol>://<host>` |
| UploadUtils.BuildImageUrl | src/utils/uploadUtils.js:31-33 | the URL is the base followed by `/uploads/` and the file name |
| UploadUtils.ImageUrlNamesFile | src/utils/uploadUtils.js:31-33 | the file name is the last segment of the image URL, which is how a delete later finds the file |
| UploadUtils.ReadImage | src/utils/uploadUtils.js:35-41 | returns the file's bytes exactly when it exists and no fault occurs; otherwise an error prefixed `Erro ao ler arquivo: ` |
| UploadUtils.ReadImageBuffer | src/utils/uploadUtils.js:35-41 | returns what `ReadImage` gives and changes nothing |
| UploadUtils.GetImageDescription | src/utils/uploadUtils.js:43-59 | never fails and always gives two truthy captions: the service's, its fallbacks, or the error defaults |
| UploadUtils.BuildImageUpdate | src/utils/uploadUtils.js:61-69 | the `$set` object is exactly `imgUrl`, both captions, `updatedAt` and `status: 'completed'` |
| UploadUtils.ImageUpdateCompletes | src/utils/uploadUtils.js:61-69 | applied to a record, it sets the status, image and captions and keeps the author, likes, comments and id |
| ErrorHandlers.GlobalErrorHandler | src/middleware/errorHandlers.js:3-27 | a `LIMIT_FILE_SIZE` code gives a 413 and a `LIMIT_UNEXPECTED_FILE` code a 400; anything else gives a 500 whose message is generic in production |
| ErrorHandlers.ProductionHidesErrors | src/middleware/errorHandlers.js:21-26 | in production the 500 reply does not depend on the error |
| ErrorHandlers.NotFoundHandler | src/middleware/errorHandlers.js:29-35 | a 404 `Route not found` whose message begins `Rota ` |
| ErrorHandlers.NotFoundNamesUrl | src/middleware/errorHandlers.js:29-35 | different URLs get different replies, because the message quotes the URL |
| UploadMiddleware.AllowedTest | src/middleware/upload.js:15 | the unanchored pattern holds exactly when one of the five type names occurs |
| UploadMiddleware.FileFilter | src/middleware/upload.js:14-24 | accepts exactly when both the lowercased extension and the mimetype pass the test; otherwise rejects with the fixed message |
| UploadMiddleware.FilterIgnoresNameCase | src/middleware/upload.js:16 | lowercasing the file name never changes the filter's verdict |
| UploadMiddleware.UpperCaseMimetypeRefused | src/middleware/upload.js:17 | a mimetype with no lowercase letter is refused whatever the file name |
| UploadMiddleware.UpperCaseExtensionAccepted | src/middleware/upload.js:16 | `foto.PNG` with `image/png` is accepted |
| UploadMiddleware.IncludesMarker | src/middleware/upload.js:51 | `message.includes(..)` searches a string, looks for an equal element in an array, and throws on any other value |
| UploadMiddleware.HandleUploadError | src/middleware/upload.js:35-59 | multer's size and field errors give 413 and 400; a message containing the file-type text gives 400; anything else is passed on unchanged |
| UploadMiddleware.RefusedFileIs400 | src/middleware/upload.js:23-56 | the filter's own rejection becomes a 400 that echoes its message |
| Validation.Rejection | src/middleware/validation.js:5-8 | a 400 `{ error: 'Validation error', message }` with no `success` key |
| Validation.TrimmedEmpty | src/middleware/validation.js:4 | `s.trim().length === 0` exactly when `s` is all whitespace |
| Validation.MissingOrBlank | src/middleware/validation.js:4 | throws exactly on a truthy non-string; otherwise holds exactly when the field is missing or blank |
| Validation.ValidarPost | src/middleware/validation.js:1-19 | passes exactly a non-blank description of at most 1000 code units; picks the right message for each failure, and throws on a truthy non-string |
| Validation.ValidarComentario | src/middleware/validation.js:21-46 | passes exactly a non-blank author with a non-blank text of at most 500 code units; the author is checked first |
| Validation.CheckField | src/middleware/validation.js:58-104 | reports nothing exactly when the field is acceptable, which message is reported otherwise |
| Validation.ValidarEdicaoPost | src/middleware/validation.js:48-107 | never throws; passes exactly when some field is truthy and each given field is a valid, short enough string; reports the first failing field |
| Validation.AltAloneMayBeBlankButNotEmpty | src/middleware/validation.js:51-88 | an empty `alt` alone is no edit, while a whitespace-only `alt` passes |
| Validation.NullIsProvided | src/middleware/validation.js:1-107 | `null` is rejected as not a text by the edit validator, but treated as missing by the other two |
| PostsModel.IndexOf | src/models/postsModel.js:42 | the first document with that id, and none exactly when no document has it |
| PostsModel.SameIdsKeepUnique | src/models/postsModel.js:87 | replacing a document with one of the same id keeps the ids unique and unchanged |
| PostsModel.Insert | src/models/postsModel.js:50-73 | fails, changing nothing, exactly when the store is down, the description is falsy or the id is taken; otherwise appends the completed document and returns its id; keeps ids unique |
| PostsModel.InsertedDocumentIsSpread | src/models/postsModel.js:60-68 | the stored document is the given object overridden by the filled-in defaults, plus `_id` |
| PostsModel.ApplySet | src/models/postsModel.js:82-87 | `$set` keeps the id, likes, comments and creation date, and stamps `updatedAt` |
| PostsModel.SetIsSpread | src/models/postsModel.js:82-87 | the updated document is the old one overridden by the update's keys and the fresh `updatedAt` |
| PostsModel.SetFields | src/models/postsModel.js:76-92 | fails exactly on a store fault or an invalid id; matches 1 exactly when the id is present, and then replaces that document only; keeps ids unique |
| PostsModel.Delete | src/models/postsModel.js:95-105 | fails exactly on a store fault or an invalid id; deletes at most one document, exactly when the id is present, and then removes exactly that document and keeps the others in their order |
| PostsModel.PushComment | src/models/postsModel.js:108-135 | fails exactly on a store fault, an invalid id or an empty author or text; otherwise appends the completed comment to the matched post and stamps it |
| PostsModel.WithoutComment | src/models/postsModel.js:147 | removes exactly the comments with that id and changes nothing when there is none |
| PostsModel.WithoutCommentAppend | src/models/postsModel.js:147 | `$pull` filters each part of a comment list independently: the kept comments stay in their order and with their multiplicity |
| PostsModel.WithoutCommentSingle | src/models/postsModel.js:147 | one comment is dropped exactly when its id is the one pulled |
| PostsModel.PullComment | src/models/postsModel.js:138-155 | fails exactly on a store fault or an invalid post or comment id; otherwise removes that id's comments from the matched post and stamps it |
| PostsModel.IncrementOfNumber | src/models/postsModel.js:164 | a numeric increment passes `parseInt` unchanged |
| PostsModel.IncLikes | src/models/postsModel.js:158-180 | fails exactly on a store fault, an invalid id or a NaN increment; otherwise adds the increment to the matched post's likes |
| PostsModel.UnlikeCanGoNegative | src/models/postsModel.js:172 | an unlike on a post with no likes leaves it at -1 |
| PostsModel.FindById | src/models/postsModel.js:37-47 | an invalid id or a store fault throws; a valid id gives a stored document with that id, or `null` exactly when there is none |
| PostsModel.InsertByDate | src/models/postsModel.js:26 | inserting into a newest-first sequence keeps it newest first and adds exactly that document |
| PostsModel.SortNewestFirst | src/models/postsModel.js:26 | the sort is ordered newest first and is a permutation of the collection |
| PostsModel.SortKeepsIds | src/models/postsModel.js:26 | sorting keeps the set of ids and their uniqueness |
| PostsModel.Page | src/models/postsModel.js:27-28 | `skip` then `limit`: at most `n` documents, exactly the ones starting at `skip` |
| PostsModel.ConsecutivePages | src/models/postsModel.js:27-28 | two consecutive pages together are the page of twice the limit |
| PostsModel.ConsecutivePagesDisjoint | src/models/postsModel.js:27-28 | consecutive pages share no document |
| PostsModel.ShortPageIsLast | src/models/postsModel.js:27-28 | after a short page the next page is empty |
| PostsModel.ListNewestFirst | src/models/postsModel.js:20-34 | fails exactly on a store fault or a negative skip; otherwise gives the collection sorted newest first, from the skip on, as many as the limit allows (0 means no limit, a negative limit counts as its absolute value), with unique ids |
| PostsModel.Statistics | src/models/postsModel.js:220-244 | fails exactly on a store fault; counts every post; the like and comment totals are the sums over all posts, so all are 0 on an empty collection |
| PostsModel.SumCurtidasUpdate | src/models/postsModel.js:226 | replacing one document moves the like total by the change in its likes |
| PostsModel.SumComentariosUpdate | src/models/postsModel.js:227-231 | replacing one document moves the comment total by the change in its comment count |
| PostsModel.IncLikesMovesTotal | src/models/postsModel.js:158-244 | a like that matched moves the like total by the increment and leaves the comment total alone |
| PostsModel.PushCommentCountsOne | src/models/postsModel.js:108-244 | a comment added to a matched post adds one to the comment total |
| PostsModel.InsertCounts | src/models/postsModel.js:50-244 | an insert adds one post, plus its initial likes and comments, to the totals |
| PostsModel.PostsCollection.CriarPost | src/models/postsModel.js:50-73 | the collection changes as `Insert` says and its ids stay unique |
| PostsModel.PostsCollection.AtualizarPost | src/models/postsModel.js:76-92 | the collection changes as `SetFields` says and its ids stay unique |
| PostsModel.PostsCollection.DeletarPost | src/models/postsModel.js:95-105 | the collection changes as `Delete` says and its ids stay unique |
| PostsModel.PostsCollection.AdicionarComentarioAoPost | src/models/postsModel.js:108-135 | the collection changes as `PushComment` says and its ids stay unique |
| PostsModel.PostsCollection.RemoverComentarioDoPost | src/models/postsModel.js:138-155 | the collection changes as `PullComment` says and its ids stay unique |
| PostsModel.PostsCollection.CurtirOuDescurtirPost | src/models/postsModel.js:158-180 | the collection changes as `IncLikes` on the parsed increment says and its ids stay unique |
| PostsModel.PostsCollection.GetTodosPosts | src/models/postsModel.js:20-34 | the reader gives `ListNewestFirst` of the current documents |
| PostsModel.PostsCollection.GetPostPorId | src/models/postsModel.js:36-46 | the reader gives `FindById` of the current documents |
| PostsModel.PostsCollection.ObterEstatisticas | src/models/postsModel.js:220-244 | the reader gives `Statistics` of the current documents |
| PostsReadController.NormalizeAll | src/controllers/postsReadController.js:12 | one normalised entry per post, in the same order |
| PostsReadController.ListarPosts | src/controllers/postsReadController.js:6-26 | a 200 exactly when the store answers; otherwise the 500 `Falha ao buscar posts` |
| PostsReadController.ListarPage | src/controllers/postsReadController.js:6-26 | the reply carries the requested page of the collection, newest first and normalised, at most 100 posts, and `hasMore` exactly when the page is full |
| PostsReadController.ObterPostPorId | src/controllers/postsReadController.js:28-47 | a store fault or an invalid id is the 500 `Falha ao buscar post` (`getPostPorId` throws), a valid absent id a 404, and a stored post a 200 with its normalised document |
| PostsInteractionController.Comentar | src/controllers/postsInteractionController.js:5-30 | the outcome of a comment; the ids stay unique |
| PostsInteractionController.ComentarAppends | src/controllers/postsInteractionController.js:5-30 | on an existing post the trimmed comment is appended after the earlier ones, no other post changes, and the reply is 201 echoing it without its id |
| PostsInteractionController.ComentarAbsent | src/controllers/postsInteractionController.js:18-20 | a comment on a missing post is a 404 and changes nothing |
| PostsInteractionController.ComentarRejectsBlank | src/controllers/postsInteractionController.js:10-29 | a blank or non-string author or text is a 500 and changes nothing |
| PostsInteractionController.AdicionarComentario | src/controllers/postsInteractionController.js:5-30 | the collection and the reply are as `Comentar` says |
| PostsInteractionController.LikeIncrement | src/controllers/postsInteractionController.js:37-45 | `curtir` gives +1, `descurtir` gives -1, and any other action is refused |
| PostsInteractionController.Curtir | src/controllers/postsInteractionController.js:32-64 | the outcome of a like; the ids stay unique |
| PostsInteractionController.CurtirRejectsUnknownAction | src/controllers/postsInteractionController.js:37-43 | an unknown or missing action is a 400 and leaves the store alone |
| PostsInteractionController.CurtirMovesByOne | src/controllers/postsInteractionController.js:45-60 | a like or unlike of an existing post moves its count, and the like total, by exactly one, and the reply echoes the action and the increment |
| PostsInteractionController.CurtirAbsent | src/controllers/postsInteractionController.js:49-51 | liking a missing post is a 404 and changes nothing |
| PostsInteractionController.CurtirPost | src/controllers/postsInteractionController.js:32-64 | the collection and the reply are as `Curtir` says |
| PostsUploadController.CleanUp | src/controllers/postsUploadController.js:66-77 | the catch block deletes only files, leaves the collection and the directories alone, and replies 500 with the error's message |
| PostsUploadController.Upload | src/controllers/postsUploadController.js:15-78 | the outcome of one upload on the collection and the disk; no path ends up both a file and a directory, and no directory is created |
| PostsUploadController.AfterMove | src/controllers/postsUploadController.js:46-77 | the steps after the move; the directories are unchanged |
| PostsUploadController.NoFileTouchesNothing | src/controllers/postsUploadController.js:20-26 | without a file the reply is 400 and nothing changes |
| PostsUploadController.CreateFailureDeletesTemp | src/controllers/postsUploadController.js:28-77 | when the placeholder cannot be created no record is added, the temporary upload is deleted unless that unlink fails, and the reply is 500 with the store's message |
| PostsUploadController.RenameFailureKeepsPlaceholder | src/controllers/postsUploadController.js:42-77 | a failed rename leaves the `processing` placeholder in the collection and cleans up both paths |
| PostsUploadController.ReadFailureDeletesFinalOnly | src/controllers/postsUploadController.js:44-77 | after the move only the final file is cleaned up: a failed read-back leaves the placeholder and deletes the moved file |
| PostsUploadController.UpdateFailureKeepsPlaceholder | src/controllers/postsUploadController.js:54-77 | a failed final update leaves the placeholder `processing` and deletes the moved file |
| PostsUploadController.FailureLeavesNoCompletedRecord | src/controllers/postsUploadController.js:15-78 | a failed upload never adds a completed record: the collection is unchanged or has gained the placeholder |
| PostsUploadController.FailureAddsOnlyFinal | src/controllers/postsUploadController.js:66-77 | a failed upload adds no file but the moved image, and adds that one only when its cleanup unlink fails too (`safeDeleteFile` swallows the error) |
| PostsUploadController.FailedUploadLeavesFinal | src/controllers/postsUploadController.js:66-77 | that case is reachable: a failed read-back plus a failed unlink of the moved image is a 500 that leaves the image on disk |
| PostsUploadController.AfterMoveFailureFiles | src/controllers/postsUploadController.js:66-77 | a failure after the move leaves the files as the move left them, less the moved image unless its unlink fails |
| PostsUploadController.SuccessCompletesRecord | src/controllers/postsUploadController.js:31-65 | with no fault exactly one record is added, and it is completed in place with the image URL and both captions; the bytes move to the final name and the temporary name is gone |
| PostsUploadController.SuccessReply | src/controllers/postsUploadController.js:56-65 | with no fault the reply is 201 and its data is the placeholder overridden by the image update, with the id and the share link |
| PostsUploadController.CaptionNeverFails | src/controllers/postsUploadController.js:50 | whatever the caption service does, the reply's status and the files left on disk are the same |
| PostsUploadController.AfterMoveCaption | src/controllers/postsUploadController.js:49-77 | the same, for the steps after the move |
| PostsUploadController.UnmatchedUpdateStillSucceeds | src/controllers/postsUploadController.js:54-65 | the matched count of the final update is never read: when the placeholder was removed before the update, the update matches nothing, the collection stays as it is, and the reply is still 201 |
| PostsUploadController.UploadImagem | src/controllers/postsUploadController.js:15-78 | the collection, the disk and the reply are as `Upload` says |
| PostsUploadController.CompleteUpload | src/controllers/postsUploadController.js:46-77 | the collection, the disk and the reply are as `AfterMove` says |
| PostsWriteController.DeleteIfExists | src/controllers/postsWriteController.js:12-16 | a missing path is left alone; an existing file is removed; an unlink error propagates |
| PostsWriteController.DeleteFileIfExists | src/controllers/postsWriteController.js:12-16 | changes the files as `DeleteIfExists` says, or leaves them unchanged and returns the error |
| PostsWriteController.TextPost | src/controllers/postsWriteController.js:22-31 | the object handed to `criarPost`: the given description, the author or `Anônimo`, no image, 0 likes, no comments and no status |
| PostsWriteController.Postar | src/controllers/postsWriteController.js:18-47 | the outcome of creating a text post; the ids stay unique |
| PostsWriteController.PostarStoresTrimmed | src/controllers/postsWriteController.js:18-47 | a text post is appended with its description trimmed, the default author when none is given and no image, and the reply echoes exactly the stored document plus its share link |
| PostsWriteController.TextPostStored | src/controllers/postsWriteController.js:37-40 | `{ _id, ...novoPost }` is exactly the stored document |
| PostsWriteController.PostarRejectsBadDescription | src/controllers/postsWriteController.js:18-47 | a description that is not a string, or is blank once trimmed, creates nothing and is a 500 |
| PostsWriteController.PostarNovoPost | src/controllers/postsWriteController.js:18-47 | the collection and the reply are as `Postar` says |
| PostsWriteController.Atualizar | src/controllers/postsWriteController.js:49-80 | the outcome of an edit; the three store calls fail independently; the ids stay unique |
| PostsWriteController.ApplyEdit | src/controllers/postsWriteController.js:61-79 | the update, the re-read and the reply; the ids stay unique |
| PostsWriteController.AtualizarAbsent | src/controllers/postsWriteController.js:54-57 | editing a missing post is a 404 and changes nothing |
| PostsWriteController.AtualizarSuccess | src/controllers/postsWriteController.js:49-76 | a successful edit applies the built update to the stored document only, and replies 200 with the re-read document and its share link |
| PostsWriteController.ApplyEditSuccess | src/controllers/postsWriteController.js:61-76 | the same, once the update is built |
| PostsWriteController.AtualizarUpdateFails | src/controllers/postsWriteController.js:59-80 | an update that fails after the post was found changes nothing and is a 500 |
| PostsWriteController.AtualizarNovoPost | src/controllers/postsWriteController.js:49-80 | the collection and the reply are as `Atualizar` says |
| PostsWriteController.ApplyEditInPlace | src/controllers/postsWriteController.js:61-76 | the collection and the reply are as `ApplyEdit` says |
| PostsWriteController.RemoveImage | src/controllers/postsWriteController.js:91-102 | deletes at most the file the image URL names; a falsy URL, a missing file and an unlink error all leave the files alone |
| PostsWriteController.Deletar | src/controllers/postsWriteController.js:82-121 | the outcome of a delete on the collection and the disk; the ids stay unique |
| PostsWriteController.DeletarAbsent | src/controllers/postsWriteController.js:86-89 | deleting a missing post is a 404 and deletes nothing |
| PostsWriteController.DeletarRemovesImageAndRecord | src/controllers/postsWriteController.js:82-117 | with no fault a delete removes the record, keeping the others in their order, and the image file its URL names, and replies 200 with `{ _id, deleted: true }` |
| PostsWriteController.DeletarSwallowsFileError | src/controllers/postsWriteController.js:99-101 | a failing unlink is swallowed: the record is still deleted and the reply is 200 |
| PostsWriteController.DeletarImageFirst | src/controllers/postsWriteController.js:91-108 | the image goes before the record: when the record delete fails the image is already gone |
| PostsWriteController.DeletarPostController | src/controllers/postsWriteController.js:82-121 | the collection, the disk and the reply are as `Deletar` says |
| PostsController.IntOrNoRadix | src/controllers/postsController.js:20-21 | `parseInt(v) \|\| fallback` without a radix: a missing value gives the fallback, and a non-zero fallback never gives 0 |
| PostsController.LegacyPagination | src/controllers/postsController.js:20-22 | page and limit are never 0 and `skip == (page - 1) * limit`, with no clamping |
| PostsController.ListarPosts | src/controllers/postsController.js:18-52 | a 200 exactly when the store answers and the skip is not negative, otherwise the 500 `Falha ao buscar posts`; the 200 carries the collection newest first, from the skip on, limited as the store limits, each post normalised, and `hasMore` exactly when the page holds `limit` posts |
| PostsController.ListarNoClamp | src/controllers/postsController.js:18-43 | any positive limit is used as given, so a page can hold more than 100 posts; the reply has the sorted page, normalised, and its pagination |
| PostsController.ListarNegativeLimit | src/controllers/postsController.js:18-52 | a negative limit on the first page lists as many posts as its absolute value, and `hasMore` is false |
| PostsController.ListarNegativePageFails | src/controllers/postsController.js:18-52 | a negative page gives a negative skip, which the store refuses: a 500 |
| PostsController.LegacyView | src/controllers/postsController.js:70-75 | the stored document with `shareUrl` added, the post's share link; every other field is kept as stored |
| PostsController.ObterPostPorId | src/controllers/postsController.js:55-89 | a store fault or an invalid id is the 500 `Falha ao buscar post`, a valid absent id the 404, and a stored post a 200 with its legacy view |
| PostsController.ObterDiffersOnlyInImage | src/controllers/postsController.js:55-89 | the older single-post view agrees with the newer one on every key but `imgUrl`, which it keeps as stored |
| PostsController.ViewsDifferOnlyInImage | src/controllers/postsController.js:70-75 | the two response shapes of a post have the same keys and differ at most in `imgUrl` |
| PostsController.ObterFailuresAgree | src/controllers/postsController.js:55-89 | a store fault, an invalid id or a missing post gets the same reply from both controllers |
| PostsController.PostarNovoPost | src/controllers/postsController.js:92-126 | stores and replies exactly as the newer `postarNovoPost` does |
| PostsController.UploadImagem | src/controllers/postsController.js:129-242 | the inline upload has exactly the outcome of the helper-based `uploadImagem` |
| PostsController.AfterMoveInline | src/controllers/postsController.js:169-242 | the inline steps after the move have exactly the outcome of the helper-based ones |
| PostsController.CatchUpload | src/controllers/postsController.js:216-241 | the inline catch block is the helper-based cleanup |
| PostsController.LegacyEdit | src/controllers/postsController.js:250-257 | succeeds exactly when `descricao` is a string and `alt` is falsy or a string; sets the trimmed `descricao` always and the trimmed `alt` exactly when it is truthy |
| PostsController.Atualizar | src/controllers/postsController.js:245-285 | the outcome of the older edit, with no existence check before the update; the ids stay unique |
| PostsController.EmptyAltIsIgnored | src/controllers/postsController.js:255-257 | an empty `alt` keeps the stored one here, while the newer controller stores the empty string |
| PostsController.AtualizarAbsent | src/controllers/postsController.js:259-267 | editing a missing post is a 404 and changes nothing |
| PostsController.AtualizarNovoPost | src/controllers/postsController.js:245-285 | the collection and the reply are as the older `Atualizar` says |
| PostsController.AdicionarComentario | src/controllers/postsController.js:288-322 | stores and replies exactly as the newer `adicionarComentario` does |
| PostsController.ServerErrorAgrees | src/controllers/postsController.js:46-50 | the inline 500 body is `handleServerError`'s |
| PostsController.NotFoundAgrees | src/controllers/postsController.js:62-66 | the inline 404 body is `handleNotFound`'s |
| PostsController.CommentReplyAgrees | src/controllers/postsController.js:309-313 | the inline 201 comment reply is the newer controller's `sendSuccess` reply |
| PostsController.AnyActionIncrement | src/controllers/postsController.js:330 | -1 exactly for `descurtir`, +1 for everything else |
| PostsController.Curtir | src/controllers/postsController.js:325-358 | the outcome of the older like; the ids stay unique |
| PostsController.CurtirAnyAction | src/controllers/postsController.js:328-332 | on the two valid actions both controllers agree; any other action, or none, is a like here and a 400 in the newer controller |
| PostsController.CurtirPost | src/controllers/postsController.js:325-358 | the collection and the reply are as the older `Curtir` says |
| PostsRoutes.Link | src/routes/postsRoutes.js:5-14 | the module loads exactly when every named import is exported by the module it names; otherwise it fails on the first one that is not, with that import's message |
| PostsRoutes.ImportsAsWrittenFail | src/routes/postsRoutes.js:5-14 | the imports as written fail to link, on `deletarPostController`, which the legacy controller does not export |
| PostsRoutes.ImportsCorrectedLink | src/controllers/postsWriteController.js:82-121 | taking the edit and delete handlers from the write controller, every import resolves |
| PostsRoutes.DispatchFrom | src/routes/postsRoutes.js:198-271 | the index found is the first route from the start position on that serves the request, and no route before it serves it |
| PostsRoutes.Dispatch | src/routes/postsRoutes.js:198-271 | a chain runs exactly when some registered route serves the request, and it is the chain of the first such route; literals match in any ASCII case, and one trailing slash is allowed |
| PostsRoutes.FirstServing | src/routes/postsRoutes.js:198-271 | the first route that serves a request decides its chain |
| PostsRoutes.ValidatedRouteChains | src/routes/postsRoutes.js:214-230 | creating, editing and commenting run their validator before their handler |
| PostsRoutes.CommentRouteChain | src/routes/postsRoutes.js:230 | a comment runs `validarComentario` and then `adicionarComentario` |
| PostsRoutes.UploadRouteChain | src/routes/postsRoutes.js:217-221 | an upload runs multer, then the upload error handler, then `uploadImagem` |
| PostsRoutes.DeleteRouteChain | src/routes/postsRoutes.js:227 | a delete goes straight to `deletarPostController` |
| PostsRoutes.ListRouteChain | src/routes/postsRoutes.js:208 | the list goes straight to `listarPosts` |
| PostsRoutes.LikeRouteChain | src/routes/postsRoutes.js:233 | a like goes straight to `curtirPost`, not to the comment route registered before it |
| PostsRoutes.ReadRouteChain | src/routes/postsRoutes.js:211 | a single post goes straight to `obterPostPorId`, not to the list route registered before it |
| PostsRoutes.DispatchIgnoresCase | src/routes/postsRoutes.js:198-271 | two paths that differ only in ASCII case reach the same chain |
| PostsRoutes.DispatchIgnoresTrailingSlash | src/routes/postsRoutes.js:198-271 | a path and the same path with one trailing slash reach the same chain |
| PostsRoutes.ListRouteVariants | src/routes/postsRoutes.js:208 | `GET /Posts` and `GET /posts/` reach `listarPosts`; `GET /posts//` reaches no route |
| PostsRoutes.TableUsesImports | src/routes/postsRoutes.js:5-14 | every handler the route table names is one of the imported bindings |
| PostsRoutes.HandleUploadError | src/routes/postsRoutes.js:56-80 | the module's own copy: multer's size and field errors get their replies, and an error passed on is the error received |
| PostsRoutes.UploadErrorCopiesAgree | src/routes/postsRoutes.js:72 | the two copies agree on every error with a string or array message; on one without a message this copy throws where the shared one passes it on |
| PostsRoutes.CreateRoute | src/routes/postsRoutes.js:214 | a description the validator stops leaves the posts unchanged, with a 400 (or a 500 when it throws) |
| PostsRoutes.ValidatedCreateStores | src/routes/postsRoutes.js:83-101 | a description the validator accepts is stored trimmed with a 201 when the store is up and the id is new |
| PostsRoutes.CommentRoute | src/routes/postsRoutes.js:230 | a comment the validator stops leaves the posts unchanged, with a 400 (or a 500 when it throws) |
| PostsRoutes.ValidatedCommentAppends | src/routes/postsRoutes.js:104-129 | a comment the validator accepts, on a post that exists, is appended with both fields trimmed and a 201 |
| PostsRoutes.EditRouteAsWritten | src/routes/postsRoutes.js:224 | with the legacy edit handler: an edit the validator stops leaves the posts unchanged, with a 400 |
| PostsRoutes.AltOnlyEditFails | src/controllers/postsController.js:250-251 | an edit of `alt` alone passes the validator and then fails in the legacy handler with a 500, changing nothing |
| PostsRoutes.AltOnlyPasses | src/routes/postsRoutes.js:224 | `validarEdicaoPost` accepts an edit of `alt` alone |
| PostsRoutes.EditRoute | src/routes/postsRoutes.js:224 | with the write controller's edit handler: an edit the validator stops leaves the posts unchanged, with a 400 |
| PostsRoutes.ValidatedEditApplies | src/controllers/postsWriteController.js:49-80 | every edit the validator accepts, of a post that exists, is applied with the given fields trimmed and a 200 |
| PostsRoutes.MulterSingle | src/routes/postsRoutes.js:46-53 | no file part gives no file; a file is accepted only under field `imagem`, within 5 MiB, and when the filter accepts it |
| PostsRoutes.UploadRoute | src/routes/postsRoutes.js:217-221 | an upload multer refuses leaves the posts and the files unchanged |
| PostsRoutes.RefusedUploadsTouchNothing | src/routes/postsRoutes.js:217-221 | a refused file type gets a 400 with the filter's message and an oversized file a 413, with nothing changed |

## Left out

- The MongoDB driver and connection, `getPostsCollection` and `conectarAoBanco`: the collection is a sequence of typed `Post` records in memory. An ObjectId is a 24-digit hex string, and fresh ids are parameters.
- `getPostsPorAutor` and `buscarPosts`: they depend on MongoDB's case-insensitive regular expressions.
- The three reads of `obterEstatisticas` under `Promise.all`: they are taken as sequential reads of one state.
- The caption service (src/services/geminiService.js): its network call, base64 encoding and JSON parsing. Its answer or its failure is an input to `getImageDescription`.
- The multer machinery. `PostsRoutes.MulterSingle` is a model of `upload.single("imagem")` that checks the field name, then the filter, then the size. That order is an assumption about multer, and the one-file limit (`UploadMiddleware.MaxFiles`) is not enforced, because a request carries at most one file part.
- The disk-storage file names, which are built from `Date.now()` and `Math.random()`: the temporary path of an upload is an input.
- Fs.FileSystem.MkdirSync: `mkdirSync(p, { recursive: true })` also creates missing parent directories and does not fail on an existing directory; the model adds the one directory and has no fault, because its only caller (`FileUtils.EnsureDirectory`) calls it only when nothing is at the path.
- Node's `path` normalisation of `.` and `..` segments and of repeated slashes: `Paths.Join` joins a directory and a plain file name, which is the only way the code uses `path.join`.
- Js.AsciiLower: models `toLowerCase()` on ASCII letters only; other letters keep their case.
- Js.Interpolate: dates, arrays and objects interpolate to a fixed placeholder, not to their JavaScript text.
- `console` logging, the logging middleware of the route table, timestamps (`new Date()` is the parameter `now`), and interleaving of requests on the event loop.
- server.js (helmet, cors, compression, rate limiting, static files, listen), src/controllers/systemController.js, and the inline `/uploads/:filename` and `/stats` routes (`PostsRoutes.RouteTable` lists them, but their handlers are not modelled).
- JSON serialisation of replies: a `Response` is the payload object.
- JavaScript numbers are modelled as unbounded integers (`Js.Json.JNum(int)`): there are no fractions and no doubles, so `parseInt` and `$inc` do not lose precision above 2^53.
- Request paths are given already split at `/`, and query strings are given already parsed.
- PostsModel.IncLikes: it takes the increment already parsed, because both controllers pass a number. `parseInt` of a string increment is `Js.ParseInt`.
- The local `fileFilter` (src/routes/postsRoutes.js:32-43) and the local validators (src/routes/postsRoutes.js:83-195) are the same code as in src/middleware/upload.js and src/middleware/validation.js. They are modelled by the members of `UploadMiddleware` and `Validation` rather than by copies.
- `PostsController.UploadImagem`: the inline upload is split into three methods, for the steps up to the move, the steps after it (`AfterMoveInline`) and the catch block (`CatchUpload`). `PostsUploadController.UploadImagem` is split in the same way (`CompleteUpload`, `CleanUp`).
- The inline existence check and unlink in the older controller's catch block are modelled by `FileUtils.SafeDeleteFile`, which has the same effect.
- PostsModel.SortNewestFirst: sorts by `createdAt`, newest first. The order MongoDB gives documents with equal timestamps is not modelled; the model keeps the earlier-inserted one first.

## Findings

| source | as written | input that shows it | evidently intended | confidence | as-written member | corrected member |
|---|---|---|---|---|---|---|
| src/routes/postsRoutes.js:11-14 | `deletarPostController` is imported from postsController.js, which does not export it, so the routes module (and the server that imports it) fails to load | loading the module | import the delete handler from postsWriteController.js, which defines it | not executed | PostsRoutes.ImportsAsWrittenFail | PostsRoutes.ImportsCorrectedLink |
| src/routes/postsRoutes.js:224 | `validarEdicaoPost` treats every field as optional, but the imported legacy `atualizarNovoPost` trims `descricao` unconditionally | `PUT /posts/:id` with body `{ "alt": "nova legenda" }`: the validator passes, the handler answers 500 and nothing is edited. This only shows once the module links, so it sits behind the import failure of the row above | route to the write controller's `atualizarNovoPost`, which applies only the given fields | not executed | PostsRoutes.AltOnlyEditFails | PostsRoutes.ValidatedEditApplies |
