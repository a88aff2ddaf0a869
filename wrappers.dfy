/** Optional values and the error outcomes of the services and request handlers. */
module Wrappers {

  datatype Option<+T> = None | Some(value: T)

  /** The ways an operation or a request can fail.
      - NotFound: a lookup (get_object_or_404, objects.get) found no matching row;
      - Denied: a permission gate failed (PermissionDenied, or a redirect with an error message);
      - ValidationError: full_clean rejected the record;
      - Broken: the record is in a shape the code cannot handle (a user story with no backlog
        reference, which makes the source dereference None, or one whose reference names a row
        that is missing). */
  datatype Error = NotFound | Denied | ValidationError | Broken

  datatype Result<+T> = Ok(value: T) | Err(error: Error)

  /** What a request handler that was not refused did: `Shown` renders a page (a GET, or a form
      that did not validate), `Done` performed the request's action and redirected. */
  datatype Outcome = Shown | Done
}
