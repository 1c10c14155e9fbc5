/**
 * `Loan`: money a user borrowed from, or lent to, someone else. Amounts are
 * counted in cents and the interest rate in hundredths of a percent.
 */
module LoanModel {
  import opened Common
  import opened Calendar
  import opened CustomValidators
  import opened CurrencyModel

  /** `LoanType`, the choices of the `type` column. */
  datatype LoanType = Borrowed | Lended

  /** The type a loan gets when none is given. */
  const DefaultType: LoanType := Borrowed

  /** The value stored in the `type` column. */
  function TypeValue(k: LoanType): (s: string)
    ensures s == "borrowed" || s == "lended"
  {
    match k
    case Borrowed => "borrowed"
    case Lended => "lended"
  }

  /** Choice validation: the stored values are exactly the two choices. */
  function ParseType(s: string): (k: Option<LoanType>)
    ensures k.Some? <==> s == "borrowed" || s == "lended"
  {
    if s == "borrowed" then Some(Borrowed)
    else if s == "lended" then Some(Lended)
    else None
  }

  /** Every type survives a round trip through its stored value, and every
      accepted value comes from exactly one type. */
  lemma TypeRoundTrip(k: LoanType, s: string)
    ensures ParseType(TypeValue(k)) == Some(k)
    ensures ParseType(s).Some? ==> TypeValue(ParseType(s).value) == s
  {
  }

  const FromEntityMaxLength: nat := 120

  /** The largest interest rate, 100 percent, in hundredths of a percent. */
  const MaxInterestRate: int := 10000

  /** A missing amount is 0 (`not self.amount` holds for both). */
  datatype Loan = Loan(
    user: Option<UserId>,
    kind: LoanType,
    fromEntity: string,
    currency: Option<string>,
    amount: int,
    remainingAmount: int,
    completed: bool,
    date: ValidDate,
    interestRate: int,
    dueDate: Option<ValidDate>,
    description: Option<string>)

  /** A loan as created with only its party, currency, amount and date:
      borrowed, nothing remaining, not completed, no interest, no due date. */
  function NewLoan(user: Option<UserId>, fromEntity: string, currency: Option<string>,
                   amount: int, date: ValidDate): (l: Loan)
    ensures l.kind == Borrowed && l.remainingAmount == 0 && !l.completed && l.interestRate == 0
    ensures l.dueDate.None? && l.description.None?
    ensures l.user == user && l.fromEntity == fromEntity && l.currency == currency
    ensures l.amount == amount && l.date == date
  {
    Loan(user, DefaultType, fromEntity, currency, amount, 0, false, date, 0, None, None)
  }

  /** What the field declarations and check constraints require: a user, a
      non-empty party within 120 characters, an existing currency when one
      is set, an amount of at least 0.01, a remaining amount of at least 0,
      both within twelve digits before the point, a date from 2000-01-01 to
      today, and an interest rate from 0 to 100 percent. */
  predicate FieldsValid(l: Loan, currencies: map<string, Currency>, today: ValidDate)
  {
    && l.user.Some?
    && l.fromEntity != "" && |l.fromEntity| <= FromEntityMaxLength
    && (l.currency.Some? ==> l.currency.value in currencies)
    && 1 <= l.amount < MaxCents14
    && 0 <= l.remainingAmount < MaxCents14
    && ValidateDate(Some(l.date), today).None?
    && 0 <= l.interestRate <= MaxInterestRate
  }

  const FromEntityRequiredMessage: string := "From entity is required."
  const FromEntityBlankMessage: string := "From entity cannot be blank or whitespace."
  const RemainingMessage: string := "Remaining amount cannot be more than loan amount."
  const DueDateMessage: string := "Due date must come after loan date."

  /** A due date, when set, is not before the loan's date. */
  predicate DueDateInOrder(l: Loan)
  {
    l.dueDate.Some? ==> NotAfter(l.date, l.dueDate.value)
  }

  /** The checks of `Loan.clean` about amounts and dates. */
  function CheckAmounts(l: Loan): (r: Outcome)
    ensures r.Pass? <==> l.amount != 0 && l.remainingAmount <= l.amount && DueDateInOrder(l)
    ensures l.amount == 0 ==> r == Fail(ValidationError("amount", AmountRequiredMessage))
    ensures l.amount != 0 && l.remainingAmount > l.amount
      ==> r == Fail(ValidationError("remaining_amount", RemainingMessage))
    ensures l.amount != 0 && l.remainingAmount <= l.amount && !DueDateInOrder(l)
      ==> r == Fail(ValidationError("due_date", DueDateMessage))
  {
    Then(Check(l.amount != 0, "amount", AmountRequiredMessage),
    Then(Check(l.remainingAmount <= l.amount, "remaining_amount", RemainingMessage),
         Check(!(l.dueDate.Some? && Before(l.dueDate.value, l.date)), "due_date", DueDateMessage)))
  }

  /** `Loan.clean`: user, party required, party not blank, currency, then
      amount, remaining amount at most the amount, and due date. */
  function Clean(l: Loan): (r: Outcome)
    ensures r.Pass? <==>
      && l.user.Some? && !AllSpace(l.fromEntity) && KeySet(l.currency)
      && l.amount != 0 && l.remainingAmount <= l.amount && DueDateInOrder(l)
    ensures l.user.None? ==> r == Fail(ValidationError("user", UserMissingMessage))
    ensures l.user.Some? && l.fromEntity == ""
      ==> r == Fail(ValidationError("from_entity", FromEntityRequiredMessage))
    ensures l.user.Some? && l.fromEntity != "" && AllSpace(l.fromEntity)
      ==> r == Fail(ValidationError("from_entity", FromEntityBlankMessage))
    ensures l.user.Some? && !AllSpace(l.fromEntity) && !KeySet(l.currency)
      ==> r == Fail(ValidationError("currency", CurrencyMissingMessage))
    ensures l.user.Some? && !AllSpace(l.fromEntity) && KeySet(l.currency) ==> r == CheckAmounts(l)
  {
    Then(Check(l.user.Some?, "user", UserMissingMessage),
    Then(RequireText("from_entity", l.fromEntity, FromEntityRequiredMessage, FromEntityBlankMessage),
    Then(Check(KeySet(l.currency), "currency", CurrencyMissingMessage),
         CheckAmounts(l))))
  }

  /** A due date on the loan's own date is accepted. */
  lemma SameDayDueDateAccepted(l: Loan)
    requires l.dueDate == Some(l.date)
    ensures DueDateInOrder(l)
    ensures !(CheckAmounts(l).Fail? && CheckAmounts(l).error.field == "due_date")
  {
  }

  /** `total_payable`: the amount plus `interest_rate` percent of it. */
  function TotalPayable(l: Loan): (t: real)
    ensures l.interestRate == 0 ==> t == l.amount as real
    ensures l.amount >= 0 && l.interestRate >= 0 ==> t >= l.amount as real
    ensures l.amount >= 0 && l.interestRate <= MaxInterestRate ==> t <= 2.0 * l.amount as real
    ensures l.interestRate == MaxInterestRate ==> t == 2.0 * l.amount as real
  {
    l.amount as real + l.amount as real * (l.interestRate as real / 10000.0)
  }

  /** A higher interest rate never makes a loan cheaper. */
  lemma TotalPayableMonotone(l: Loan, rate: int)
    requires l.amount >= 0 && l.interestRate <= rate
    ensures TotalPayable(l) <= TotalPayable(l.(interestRate := rate))
  {
    var a := l.amount as real;
    var x := l.interestRate as real / 10000.0;
    var y := rate as real / 10000.0;
    assert x <= y;
    assert a * (y - x) >= 0.0;
    assert a * y - a * x == a * (y - x);
  }

  /** The interest (`total_payable - amount`) is additive in the rate: the
      interest at rate `a + b` is the interest at `a` plus the interest at
      `b`. With the value at rate 0 and at the maximum rate, this fixes the
      interest at `amount * rate / 10000`. */
  lemma {:induction false} InterestAdditive(l: Loan, a: int, b: int)
    ensures TotalPayable(l.(interestRate := a + b)) - l.amount as real
         == (TotalPayable(l.(interestRate := a)) - l.amount as real)
          + (TotalPayable(l.(interestRate := b)) - l.amount as real)
  {
    var m := l.amount as real;
    var x := a as real / 10000.0;
    var y := b as real / 10000.0;
    assert (a + b) as real / 10000.0 == x + y;
    assert m * (x + y) == m * x + m * y;
  }

  /** What `Loan.save` stores before its pre-save signal runs: the party
      stripped. */
  function Normalise(l: Loan): (n: Loan)
    ensures n.(fromEntity := l.fromEntity) == l && n.fromEntity == Strip(l.fromEntity)
    ensures |n.fromEntity| <= |l.fromEntity|
    ensures n.fromEntity == [] || (!IsSpace(n.fromEntity[0]) && !IsSpace(n.fromEntity[|n.fromEntity| - 1]))
    ensures n.fromEntity == [] <==> AllSpace(l.fromEntity)
  {
    l.(fromEntity := Strip(l.fromEntity))
  }

  /** Saving a saved loan again stores the same party. */
  lemma NormaliseIdempotent(l: Loan)
    ensures Normalise(Normalise(l)) == Normalise(l)
  {
    StripIdempotent(l.fromEntity);
  }
}
