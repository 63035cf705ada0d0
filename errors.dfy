/** The domain error taxonomy (crates/domain/src/error.rs): a stable code, a
    coarse category and a human-readable message. */
module Errors {

  /** Coarse classification a transport adapter uses to choose a wire status. */
  datatype ErrorCategory = BadRequest | Unauthorized | Forbidden | NotFound | Conflict | Internal

  datatype DomainError = DomainError(code: string, category: ErrorCategory, message: string) {

    /** The text the error displays: its message, and nothing else. */
    function ToString(): (text: string)
      ensures text == message
    {
      message
    }
  }

  /** `DomainError::new`: keeps the three parts exactly as given. */
  function NewError(code: string, category: ErrorCategory, message: string): (e: DomainError)
    ensures e.code == code && e.category == category && e.message == message
  {
    DomainError(code, category, message)
  }

  /** `DomainError::bad_request`: the category is fixed to `BadRequest`. */
  function NewBadRequest(code: string, message: string): (e: DomainError)
    ensures e.category == BadRequest && e.code == code && e.message == message
  {
    NewError(code, BadRequest, message)
  }

  /** `DomainError::not_found`: the category is fixed to `NotFound`. */
  function NewNotFound(code: string, message: string): (e: DomainError)
    ensures e.category == NotFound && e.code == code && e.message == message
  {
    NewError(code, NotFound, message)
  }

  /** `DomainError::internal`: the category is fixed to `Internal`. */
  function NewInternal(code: string, message: string): (e: DomainError)
    ensures e.category == Internal && e.code == code && e.message == message
  {
    NewError(code, Internal, message)
  }

  // The predefined errors of `errors::*`; each call yields a fresh value.

  function InternalError(): (e: DomainError)
    ensures e.code == "E100001" && e.category == Internal
  {
    NewInternal("E100001", "Internal error")
  }

  function InvalidArgument(): (e: DomainError)
    ensures e.code == "E100002" && e.category == BadRequest
  {
    NewBadRequest("E100002", "Invalid argument")
  }

  function TenantNotFound(): (e: DomainError)
    ensures e.code == "E200101" && e.category == NotFound
  {
    NewNotFound("E200101", "Tenant not found")
  }

  function StaffNotFound(): (e: DomainError)
    ensures e.code == "E200201" && e.category == NotFound
  {
    NewNotFound("E200201", "Staff not found")
  }

  /** The four predefined errors carry pairwise distinct codes, and the two
      not-found errors are told apart by code alone. */
  lemma PredefinedCodesDistinct()
    ensures InternalError().code != InvalidArgument().code
    ensures InternalError().code != TenantNotFound().code
    ensures InternalError().code != StaffNotFound().code
    ensures InvalidArgument().code != TenantNotFound().code
    ensures InvalidArgument().code != StaffNotFound().code
    ensures TenantNotFound().code != StaffNotFound().code
    ensures TenantNotFound().category == StaffNotFound().category
  {
  }
}
