/** The controller results the API actions return. */
module Mvc {

  /** One `ModelState.AddModelError(key, message)` entry. */
  datatype ModelError = ModelError(key: string, message: string)

  /** `Ok(value)`, `CreatedAtAction(..., value)` or `ValidationProblem(ModelState)`. */
  datatype ActionResult<T> =
    | Ok(value: T)
    | Created(value: T)
    | ValidationProblem(errors: seq<ModelError>)
}
