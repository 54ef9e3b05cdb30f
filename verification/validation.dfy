/** Validation errors as ActiveModel reports them, and the `validation_status`
    concern (app/models/concerns/validation_status.rb) the views render. */
module Validation {

  /** One entry of `record.errors`: the attribute and its message. */
  datatype Error = Error(field: string, message: string)

  type Errors = set<Error>

  /** The default messages of the validators the models use. */
  const CantBeBlank := "can't be blank"           // presence
  const NotIncluded := "is not included in the list" // inclusion
  const Taken := "has already been taken"          // uniqueness
  const IsClosed := "is closed"                    // Ticket#project_validator

  /** The contribution of one validation rule: its error when the rule fails. */
  function Check(fails: bool, field: string, message: string): (errs: Errors)
    ensures Error(field, message) in errs <==> fails
    ensures forall e :: e in errs ==> e == Error(field, message)
  {
    if fails then {Error(field, message)} else {}
  }

  /** `validation_status`: whether the error set has any entry. It reads the
      error set and nothing else, and it is the only answer the views print. */
  function ValidationStatus(errs: Errors): (s: string)
    ensures s == "failed" || s == "success"
    ensures s == "failed" <==> errs != {}
    ensures s == "success" <==> errs == {}
  {
    if |errs| > 0 then "failed" else "success"
  }
}
