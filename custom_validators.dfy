/**
 * The field validators of `custom_validators.py`. Each returns the message of
 * the `ValidationError` it raises, or `None` when the value is accepted. The
 * clock is a parameter: `today` is the current date, and its year is the
 * current year.
 */
module CustomValidators {
  import opened Common
  import opened Calendar

  /** The oldest date any record may carry. */
  const OldestDate: Date := Date(2000, 1, 1)

  const YearMessage: string := "Year cannot be less than 2000 or in future."
  const FutureMessage: string := "Date cannot be in future."
  const OldestMessage: string := "Date cannot be older than '2000-01-01'"

  /** `validate_year`: a year from 2000 to the current year. */
  function ValidateYear(value: int, today: ValidDate): (err: Option<string>)
    ensures err.None? <==> 2000 <= value <= today.year
    ensures err.Some? ==> err.value == YearMessage
  {
    if value < 2000 || value > today.year then Some(YearMessage) else None
  }

  /** `validate_oldest_date`: no date before 2000-01-01; a missing date passes. */
  function ValidateOldestDate(value: Option<ValidDate>): (err: Option<string>)
    ensures err.None? <==> value.None? || NotAfter(OldestDate, value.value)
    ensures err.Some? ==> err.value == OldestMessage
  {
    if value.Some? && Before(value.value, OldestDate) then Some(OldestMessage) else None
  }

  /** `validate_date`: no date in the future, checked before the lower bound
      of `validate_oldest_date`; a missing date passes. */
  function ValidateDate(value: Option<ValidDate>, today: ValidDate): (err: Option<string>)
    ensures err.None? <==>
      value.None? || (NotAfter(OldestDate, value.value) && NotAfter(value.value, today))
    ensures value.Some? && Before(today, value.value) ==> err == Some(FutureMessage)
    ensures value.Some? && NotAfter(value.value, today) && Before(value.value, OldestDate)
      ==> err == Some(OldestMessage)
  {
    if value.Some? && Before(today, value.value) then Some(FutureMessage)
    else ValidateOldestDate(value)
  }

  /** Both ends of the accepted range are accepted: 2000-01-01 and today. */
  lemma DateBoundsAccepted(today: ValidDate)
    requires NotAfter(OldestDate, today)
    ensures ValidateDate(Some(OldestDate), today).None?
    ensures ValidateDate(Some(today), today).None?
  {
  }
}
