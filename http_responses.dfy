/** `sendSuccess` and `sendError`: the payload objects handed to `res.status(..).json(..)`.
    A response is its status and its payload object, before serialisation. */
module HttpResponses {
  import opened Js

  datatype Response = Response(status: int, body: map<string, Json>)

  /** `sendSuccess(res, { status, data, message, pagination })`; an omitted status is `None`. */
  function SendSuccess(status: Option<int>, data: Json, message: Json, pagination: Json): (r: Response)
    ensures r.status == (if status.Some? then status.value else 200)
    ensures "success" in r.body && r.body["success"] == JBool(true)
    ensures "data" in r.body && r.body["data"] == data
    ensures "message" in r.body <==> Truthy(message)
    ensures "message" in r.body ==> r.body["message"] == message
    ensures "pagination" in r.body <==> Truthy(pagination)
    ensures "pagination" in r.body ==> r.body["pagination"] == pagination
    ensures r.body.Keys <= {"success", "data", "message", "pagination"}
  {
    var payload := map["success" := JBool(true), "data" := data];
    var payload := if Truthy(message) then payload["message" := message] else payload;
    var payload := if Truthy(pagination) then payload["pagination" := pagination] else payload;
    Response(if status.Some? then status.value else 200, payload)
  }

  /** `sendError(res, { status, error, message, success })`; an omitted `success` is `undefined`. */
  function SendError(status: Option<int>, error: Json, message: Json, success: Json): (r: Response)
    ensures r.status == (if status.Some? then status.value else 500)
    ensures r.body.Keys == {"success", "error", "message"}
    ensures r.body["success"] == (if success == JUndefined then JBool(false) else success)
    ensures r.body["error"] == error && r.body["message"] == message
  {
    Response(if status.Some? then status.value else 500,
             map["success" := (if success == JUndefined then JBool(false) else success),
                 "error" := error, "message" := message])
  }

  /** The `{ success: false, error, message }` body that several handlers write directly. */
  function Failure(status: int, error: string, message: string): Response {
    SendError(Some(status), JStr(error), JStr(message), JUndefined)
  }

  /** The `{ error, message }` body that the middleware writes directly, with no
      `success` key. */
  function ErrorBody(status: int, error: string, message: Json): (r: Response)
    ensures r.status == status && r.body.Keys == {"error", "message"}
    ensures r.body["error"] == JStr(error) && r.body["message"] == message
  {
    Response(status, map["error" := JStr(error), "message" := message])
  }
}
