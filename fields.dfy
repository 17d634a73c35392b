/**
 * The declared form fields and the checks their declarations imply: a
 * required character field is non-empty and at most `max_length` long.
 */
module Fields {
  import opened Wrappers

  datatype Field =
    | Username | Email | Password | ConfirmPassword | FirstName | LastName
    | PhoneNumber | Institute | Department
    | PositionChoice  // the `position` field

  datatype FieldError =
    | Required(field: Field)               // an empty submission of a required field
    | TooLong(field: Field, limit: nat)    // longer than the field's `max_length`
    | NotAChoice(field: Field)             // a value outside the declared choices
    | Invalid(field: Field, message: string)  // a pattern mismatch or a `clean_<field>` rejection

  /** A required `CharField(max_length=limit)`: the errors its own validation reports. */
  function CharFieldErrors(field: Field, value: string, limit: nat): (r: seq<FieldError>)
    ensures r == [] <==> 0 < |value| <= limit
    ensures |r| <= 1
    ensures forall e :: e in r ==> e.field == field
  {
    if value == "" then [Required(field)]
    else if |value| > limit then [TooLong(field, limit)]
    else []
  }

  /** What the form's cleaned data holds for such a field: nothing when its validation failed. */
  function CleanedCharField(field: Field, value: string, limit: nat): (r: Option<string>)
    ensures r.Some? <==> 0 < |value| <= limit
    ensures r.Some? ==> r.value == value
  {
    if CharFieldErrors(field, value, limit) == [] then Some(value) else None
  }

  /** The errors a validation hook adds to its field: none, or the one message it raised. */
  function HookErrors(field: Field, r: Result<string, string>): (errs: seq<FieldError>)
    ensures errs == [] <==> r.Success?
    ensures r.Failure? ==> errs == [Invalid(field, r.error)]
  {
    match r
    case Success(_) => []
    case Failure(msg) => [Invalid(field, msg)]
  }
}
