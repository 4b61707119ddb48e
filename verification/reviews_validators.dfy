/** The `validate_year` field validator of the catalogue models. */
module ReviewsValidators {
  import opened Wrappers

  /** The validation error raised for a year still to come; it carries the offending value. */
  datatype YearError = YearInFuture(value: int)

  /**
   * `validate_year`: raises when the value lies after the current year. The
   * clock reading is a parameter.
   */
  function ValidateYear(value: int, currentYear: int): (r: Result<int, YearError>)
    ensures r.Err? <==> value > currentYear
    ensures r.Ok? ==> r.value == value
    ensures r.Err? ==> r.error == YearInFuture(value)
  {
    if value > currentYear then Err(YearInFuture(value)) else Ok(value)
  }

  lemma CurrentYearAccepted(currentYear: int)
    ensures ValidateYear(currentYear, currentYear).Ok?
  {
  }

  /** Acceptance is downward closed, and there is no lower bound at all. */
  lemma AcceptedYearsDownwardClosed(y: int, earlier: int, currentYear: int)
    requires ValidateYear(y, currentYear).Ok?
    requires earlier <= y
    ensures ValidateYear(earlier, currentYear).Ok?
  {
  }

  lemma NonPositiveYearsAccepted(y: int, currentYear: int)
    requires y <= 0 <= currentYear
    ensures ValidateYear(y, currentYear).Ok?
  {
  }
}
