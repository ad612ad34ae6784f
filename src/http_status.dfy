/** The HTTP status codes the endpoints answer with, as section 15 of
    RFC 9110 defines them. */
module HttpStatus {
  const Ok := 200                // section 15.3.1 of RFC 9110
  const Created := 201           // section 15.3.2
  const BadRequest := 400        // section 15.5.1
  const NotFound := 404          // section 15.5.5
  const MethodNotAllowed := 405  // section 15.5.6
  const Conflict := 409          // section 15.5.10

  /** The 2xx class, section 15.3. */
  predicate IsSuccessful(code: int) {
    200 <= code < 300
  }

  /** The 4xx class, section 15.5. */
  predicate IsClientError(code: int) {
    400 <= code < 500
  }
}
