/** Values shared by every part of the model: optional values, results and the
    errors that cross collaborator boundaries. */
module Types {

  datatype Option<T> = None | Some(value: T)

  /** Identity of a namespaced object: the two parts of a "<namespace>/<name>" key. */
  datatype ObjectKey = ObjectKey(namespace: string, name: string)

  /** Where an error was wrapped with extra context before being handed on. */
  datatype WrapSite =
    | FetchMetric(key: string)     // "failed to fetch metric <key>"
    | InitiateScraping             // "failed to initiate or update scraping"

  /** Errors as the reconciler sees them. Only the not-found kind is told apart
      by the code; every other failure of a collaborator is an opaque fault. */
  datatype Error =
    | NotFound(key: ObjectKey)
    | Fault(code: nat)
    | Wrapped(site: WrapSite, cause: Error)

  /** The not-found test applied to lookup errors. A wrapped error is not
      unwrapped first: only a bare not-found status counts. */
  predicate IsNotFound(e: Error) {
    e.NotFound?
  }

  datatype Result<T> = Ok(value: T) | Err(error: Error)
}
