/** Result types shared by the model. */
module Outcomes {

  datatype Option<T> = None | Some(value: T)

  /** What a request handler answers. `NotFound`, `Forbidden` and `BadRequest`
      stand for the HTTP exceptions the routers raise (404, 403, 400) and carry
      their detail text; `ServerError` stands for an exception the handler does
      not catch, which the web framework turns into a 500 answer. */
  datatype Outcome<T> =
    | Ok(value: T)
    | NotFound(detail: string)
    | Forbidden(detail: string)
    | BadRequest(detail: string)
    | ServerError(detail: string)
}
