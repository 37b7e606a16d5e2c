/** The JSON envelope every handler answers with (JSONResponseWithError and
    JSONResponseWithData of the response helper library): a response code,
    a message, optional data and the HTTP status. */
module Http {
  import opened Wrappers

  /** The response codes of the respcode package that the core uses; `Raw`
      carries a code computed at run time (ExecuteDBFunction). */
  datatype Code = Suc200 | Suc201 | Suc202 | Err400 | Err401 | Err404 | Err500 | Raw(text: string)

  const StatusOK: int := 200
  const StatusCreated: int := 201
  const StatusAccepted: int := 202
  const StatusMultiStatus: int := 207
  const StatusBadRequest: int := 400
  const StatusUnauthorized: int := 401
  const StatusNotFound: int := 404
  const StatusInternalServerError: int := 500

  datatype Response<+D> =
    | ErrorResponse(code: Code, message: string, status: int)
    | DataResponse(code: Code, message: string, data: Option<D>, status: int)

  /** An error envelope decided before any data exists: the handler answers
      with it as is. */
  datatype Rejection = Rejection(code: Code, message: string, status: int) {
    function Answer<D>(): Response<D> {
      ErrorResponse(code, message, status)
    }
  }

  /** The first gate of every authenticated handler (user ID 0). */
  const NoUser: Rejection := Rejection(Err401, "Unauthorized", StatusUnauthorized)

  function BadInput(message: string): Rejection {
    Rejection(Err400, message, StatusBadRequest)
  }

  function Unauthorized<D>(): Response<D> {
    NoUser.Answer()
  }

  function BadRequest<D>(message: string): Response<D> {
    ErrorResponse(Err400, message, StatusBadRequest)
  }

  function NotFound<D>(message: string): Response<D> {
    ErrorResponse(Err404, message, StatusNotFound)
  }

  function ServerError<D>(message: string): Response<D> {
    ErrorResponse(Err500, message, StatusInternalServerError)
  }
}
