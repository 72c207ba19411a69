/** Values shared by every component: an optional value and the outcome of an HTTP handler. */
module Common {

  datatype Option<+T> = None | Some(value: T)

  /** What a route handler produces: its JSON body, or the HTTPException it raises
      (404, 400), or the 500 that the framework returns for an exception nobody caught. */
  datatype Response<+T> =
    | Ok(body: T)
    | NotFound(detail: string)
    | BadRequest(detail: string)
    | ServerError(detail: string)
}
