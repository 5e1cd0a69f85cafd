/** Responses as a status code and a body text; headers are not modelled. */
module Http {

  datatype Response = Response(status: int, body: string)

  const STATUS_OK := 200
  const STATUS_CREATED := 201
  const STATUS_BAD_REQUEST := 400
  const STATUS_NOT_FOUND := 404
  const STATUS_METHOD_NOT_ALLOWED := 405
  const STATUS_INTERNAL_SERVER_ERROR := 500

  /** What `http.Error` sends: the status, and the message followed by a newline. */
  function Error(status: int, message: string): (r: Response)
    ensures r.status == status && |r.body| == |message| + 1 && r.body[..|message|] == message && r.body[|message|] == '\n'
  {
    Response(status, message + "\n")
  }
}
