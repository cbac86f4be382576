/** The data-annotation validation of the task input: the FutureDate attribute
    and the constraints declared on UserTaskInput, evaluated against one `now`. */
module Validation {
  import opened Domain

  /** The `object? value` a validation attribute receives. */
  datatype BoxedValue = NullValue | DateTimeValue(ticks: DateTime) | OtherValue

  /** ValidationResult.Success (which is null) or a failure carrying the message. */
  datatype ValidationResult = ValidationSuccess | ValidationFailure(errorMessage: string)

  /** FutureDateAttribute.IsValid: only a DateTime strictly before now fails;
      anything that is not a DateTime, null included, passes. */
  function FutureDateIsValid(value: BoxedValue, now: DateTime, errorMessage: string): (r: ValidationResult)
    ensures r.ValidationFailure? <==> value.DateTimeValue? && value.ticks < now
    ensures r.ValidationFailure? ==> r.errorMessage == errorMessage
  {
    if value.DateTimeValue? && value.ticks < now then ValidationFailure(errorMessage)
    else ValidationSuccess
  }

  function BoxDueDate(d: Option<DateTime>): BoxedValue
  {
    match d
    case None => NullValue
    case Some(t) => DateTimeValue(t)
  }

  const TitleRequiredMessage := "Title is required"
  const TitleTooLongMessage := "Title cannot be longer than 100 characters"
  const DescriptionTooLongMessage := "Description cannot be longer than 500 characters"
  const DueDateMessage := "Due date must be in the future"
  const MaxTitleLength := 100
  const MaxDescriptionLength := 500

  /** [Required] on a string: null, empty and all-white-space strings fail
      (AllowEmptyStrings is false by default). */
  function RequiredErrors(s: Option<string>, message: string): seq<string>
  {
    if IsNullOrWhiteSpace(s) then [message] else []
  }

  /** [StringLength(max)]: null passes, otherwise the length must not exceed max. */
  function StringLengthErrors(s: Option<string>, max: nat, message: string): seq<string>
  {
    if s.Some? && |s.value| > max then [message] else []
  }

  function FutureDateErrors(d: Option<DateTime>, now: DateTime): seq<string>
  {
    match FutureDateIsValid(BoxDueDate(d), now, DueDateMessage)
    case ValidationSuccess => []
    case ValidationFailure(m) => [m]
  }

  /** The ModelState errors for a bound UserTaskInput, in declaration order.
      Status is a non-nullable enum, so its [Required] never fails. */
  function InputErrors(input: UserTaskInput, now: DateTime): (errors: seq<string>)
    ensures TitleRequiredMessage in errors <==> IsNullOrWhiteSpace(input.title)
    ensures TitleTooLongMessage in errors <==> input.title.Some? && |input.title.value| > MaxTitleLength
    ensures DescriptionTooLongMessage in errors
        <==> input.description.Some? && |input.description.value| > MaxDescriptionLength
    ensures DueDateMessage in errors <==> input.dueDate.Some? && input.dueDate.value < now
    ensures forall e :: e in errors ==>
        e in {TitleRequiredMessage, TitleTooLongMessage, DescriptionTooLongMessage, DueDateMessage}
  {
    RequiredErrors(input.title, TitleRequiredMessage)
    + StringLengthErrors(input.title, MaxTitleLength, TitleTooLongMessage)
    + StringLengthErrors(input.description, MaxDescriptionLength, DescriptionTooLongMessage)
    + FutureDateErrors(input.dueDate, now)
  }

  /** ModelState.IsValid for a UserTaskInput. */
  predicate IsValidInput(input: UserTaskInput, now: DateTime)
    ensures IsValidInput(input, now) ==> !IsNullOrWhiteSpace(input.title) && |input.title.value| <= MaxTitleLength
    ensures IsValidInput(input, now) && input.description.Some? ==> |input.description.value| <= MaxDescriptionLength
    ensures IsValidInput(input, now) && input.dueDate.Some? ==> now <= input.dueDate.value
  {
    InputErrors(input, now) == []
  }

  /** The input constraints as one statement: a title that is not blank and at
      most 100 characters, a description of at most 500 characters when given,
      and a due date, when given, that is not before now. */
  lemma ValidInputCharacterized(input: UserTaskInput, now: DateTime)
    ensures IsValidInput(input, now) <==>
      && !IsNullOrWhiteSpace(input.title)
      && |input.title.value| <= MaxTitleLength
      && (input.description.Some? ==> |input.description.value| <= MaxDescriptionLength)
      && (input.dueDate.Some? ==> input.dueDate.value >= now)
  {
    var errors := InputErrors(input, now);
    if errors != [] {
      assert errors[0] in errors;
    }
  }
}
