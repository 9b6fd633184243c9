/** HTTP status facts shared by the page and the roast endpoint. */
module Http {

  const StatusOk: int := 200
  const Unauthorized: int := 401
  const StatusError: int := 500

  /** `Response.ok` of the Fetch API: a status in the range 200-299. */
  predicate IsOk(status: int) {
    200 <= status <= 299
  }
}
