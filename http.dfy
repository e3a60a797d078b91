/** The JSON replies the controllers send: a status code, the `error` flag and the message. */
module Http {
  datatype Response = Response(status: int, error: bool, message: string) {
    predicate Succeeded() {
      status == 200 && !error
    }
  }

  function Fail(status: int, message: string): Response {
    Response(status, true, message)
  }

  function Done(message: string): Response {
    Response(200, false, message)
  }
}
