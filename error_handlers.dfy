/** src/middleware/errorHandlers.js: the application-wide error middleware and the
    catch-all handler for unknown routes. Both reply through `sendError`, so their
    bodies carry `success: false`. `process.env.NODE_ENV === 'production'` is the
    `production` parameter. */
module ErrorHandlers {
  import opened Js
  import opened HttpResponses

  const GenericMessage := "Algo deu errado no servidor"

  /** `globalErrorHandler(err, req, res, next)`: the two multer limit codes, recognised
      by `err.code` alone, get their own 413 and 400 replies; every other error is a 500
      whose message is generic in production and the error's own message otherwise. */
  function GlobalErrorHandler(err: JsError, production: bool): (r: Response)
    ensures r.body.Keys == {"success", "error", "message"} && r.body["success"] == JBool(false)
    ensures err.code == JStr("LIMIT_FILE_SIZE") ==>
              r.status == 413 && r.body["error"] == JStr("File too large")
              && r.body["message"] == JStr("O arquivo é muito grande. Tamanho máximo: 5MB")
    ensures err.code == JStr("LIMIT_UNEXPECTED_FILE") ==>
              r.status == 400 && r.body["error"] == JStr("Invalid file field")
              && r.body["message"] == JStr("Campo de arquivo inválido")
    ensures err.code != JStr("LIMIT_FILE_SIZE") && err.code != JStr("LIMIT_UNEXPECTED_FILE") ==>
              r.status == 500 && r.body["error"] == JStr("Internal server error")
              && r.body["message"] == (if production then JStr(GenericMessage) else err.message)
  {
    if err.code == JStr("LIMIT_FILE_SIZE") then
      SendError(Some(413), JStr("File too large"), JStr("O arquivo é muito grande. Tamanho máximo: 5MB"), JUndefined)
    else if err.code == JStr("LIMIT_UNEXPECTED_FILE") then
      SendError(Some(400), JStr("Invalid file field"), JStr("Campo de arquivo inválido"), JUndefined)
    else
      SendError(Some(500), JStr("Internal server error"),
                if production then JStr(GenericMessage) else err.message, JUndefined)
  }

  /** In production the reply to an unexpected error does not depend on the error at
      all, so nothing of it leaks to the client. */
  lemma ProductionHidesErrors(e1: JsError, e2: JsError)
    requires e1.code != JStr("LIMIT_FILE_SIZE") && e1.code != JStr("LIMIT_UNEXPECTED_FILE")
    requires e2.code != JStr("LIMIT_FILE_SIZE") && e2.code != JStr("LIMIT_UNEXPECTED_FILE")
    ensures GlobalErrorHandler(e1, true) == GlobalErrorHandler(e2, true)
  {
    var r1 := GlobalErrorHandler(e1, true);
    var r2 := GlobalErrorHandler(e2, true);
    assert r1.body.Keys == r2.body.Keys;
    assert forall k :: k in r1.body ==> r1.body[k] == r2.body[k];
  }

  /** `` `Rota ${req.originalUrl} não encontrada` `` */
  function RouteNotFoundMessage(originalUrl: string): string {
    "Rota " + originalUrl + " não encontrada"
  }

  /** `notFoundHandler(req, res)`: a 404 whose message names the requested URL. */
  function NotFoundHandler(originalUrl: string): (r: Response)
    ensures r.status == 404 && r.body.Keys == {"success", "error", "message"}
    ensures r.body["success"] == JBool(false) && r.body["error"] == JStr("Route not found")
    ensures r.body["message"].JStr? && StartsWith(r.body["message"].s, "Rota ")
  {
    SendError(Some(404), JStr("Route not found"), JStr(RouteNotFoundMessage(originalUrl)), JUndefined)
  }

  /** The message gives the URL back: different URLs get different replies. */
  lemma NotFoundNamesUrl(u1: string, u2: string)
    requires NotFoundHandler(u1) == NotFoundHandler(u2)
    ensures u1 == u2
  {
    var m1 := RouteNotFoundMessage(u1);
    var m2 := RouteNotFoundMessage(u2);
    assert NotFoundHandler(u1).body["message"] == JStr(m1);
    assert NotFoundHandler(u2).body["message"] == JStr(m2);
    assert m1[5..|m1| - 15] == u1;
    assert m2[5..|m2| - 15] == u2;
  }
}
