/**
 * `Transaction`: one debit or credit of a user's fund account, filed under
 * a category. Amounts are counted in cents.
 */
module TransactionModel {
  import opened Common
  import opened Calendar
  import opened CustomValidators
  import opened CategoryModel
  import opened FundAccountModel

  /** `TransactionType`, the choices of the `type` column. */
  datatype TransactionType = Debit | Credit

  /** The type a transaction gets when none is given. */
  const DefaultType: TransactionType := Debit

  /** The value stored in the `type` column. */
  function TypeValue(k: TransactionType): (s: string)
    ensures s == "debit" || s == "credit"
  {
    match k
    case Debit => "debit"
    case Credit => "credit"
  }

  /** Choice validation: the stored values are exactly the two choices. */
  function ParseType(s: string): (k: Option<TransactionType>)
    ensures k.Some? <==> s == "debit" || s == "credit"
  {
    if s == "debit" then Some(Debit)
    else if s == "credit" then Some(Credit)
    else None
  }

  /** Every type survives a round trip through its stored value, and every
      accepted value comes from exactly one type. */
  lemma TypeRoundTrip(k: TransactionType, s: string)
    ensures ParseType(TypeValue(k)) == Some(k)
    ensures ParseType(s).Some? ==> TypeValue(ParseType(s).value) == s
  {
  }

  /** A missing amount is 0 (`not self.amount` holds for both). */
  datatype Transaction = Transaction(
    user: Option<UserId>,
    category: Option<Id>,
    amount: int,
    fundAccount: Option<Id>,
    date: ValidDate,
    kind: TransactionType,
    description: Option<string>)

  /** What the field declarations and check constraints require: a user,
      an amount of at least 0.01 that fits twelve digits before the point,
      references to existing rows when they are set, and a date from
      2000-01-01 to today. */
  predicate FieldsValid(t: Transaction, categories: map<Id, Category>,
                        accounts: map<Id, FundAccount>, today: ValidDate)
  {
    && t.user.Some?
    && 1 <= t.amount < MaxCents14
    && (t.category.Some? ==> t.category.value in categories)
    && (t.fundAccount.Some? ==> t.fundAccount.value in accounts)
    && ValidateDate(Some(t.date), today).None?
  }

  /** The category is set and stored. */
  predicate CategoryStored(t: Transaction, categories: map<Id, Category>)
  {
    t.category.Some? && t.category.value in categories
  }

  /** The category, if stored, belongs to the transaction's user. */
  predicate CategoryOwned(t: Transaction, categories: map<Id, Category>)
  {
    CategoryStored(t, categories) ==> categories[t.category.value].user == t.user
  }

  /** The fund account is set and stored. */
  predicate AccountStored(t: Transaction, accounts: map<Id, FundAccount>)
  {
    t.fundAccount.Some? && t.fundAccount.value in accounts
  }

  /** The fund account, if stored, belongs to the transaction's user. */
  predicate AccountOwned(t: Transaction, accounts: map<Id, FundAccount>)
  {
    AccountStored(t, accounts) ==> accounts[t.fundAccount.value].user == t.user
  }

  /** `Transaction.clean`: user, category present and stored, category
      owned, amount, fund account present and stored, fund account owned.
      The missing-category error is filed under "Category". */
  function Clean(t: Transaction, categories: map<Id, Category>, accounts: map<Id, FundAccount>): (r: Outcome)
    ensures r.Pass? <==>
      && t.user.Some?
      && CategoryStored(t, categories) && categories[t.category.value].user == t.user
      && t.amount != 0
      && AccountStored(t, accounts) && accounts[t.fundAccount.value].user == t.user
    ensures t.user.None? ==> r == Fail(ValidationError("user", UserMissingMessage))
    ensures t.user.Some? && !CategoryStored(t, categories)
      ==> r == Fail(ValidationError("Category", CategoryMissingMessage))
    ensures t.user.Some? && CategoryStored(t, categories) && categories[t.category.value].user != t.user
      ==> r == Fail(ValidationError("category", CategoryNotYoursMessage))
    ensures t.user.Some? && CategoryStored(t, categories) && CategoryOwned(t, categories) && t.amount == 0
      ==> r == Fail(ValidationError("amount", AmountRequiredMessage))
    ensures t.user.Some? && CategoryStored(t, categories) && CategoryOwned(t, categories) && t.amount != 0
            && !AccountStored(t, accounts)
      ==> r == Fail(ValidationError("fund_account", AccountMissingMessage))
    ensures t.user.Some? && CategoryStored(t, categories) && CategoryOwned(t, categories) && t.amount != 0
            && AccountStored(t, accounts) && accounts[t.fundAccount.value].user != t.user
      ==> r == Fail(ValidationError("fund_account", AccountNotYoursMessage))
  {
    Then(Check(t.user.Some?, "user", UserMissingMessage),
    Then(Check(CategoryStored(t, categories), "Category", CategoryMissingMessage),
    Then(Check(CategoryOwned(t, categories), "category", CategoryNotYoursMessage),
    Then(Check(t.amount != 0, "amount", AmountRequiredMessage),
    Then(Check(AccountStored(t, accounts), "fund_account", AccountMissingMessage),
         Check(AccountOwned(t, accounts), "fund_account", AccountNotYoursMessage))))))
  }

  /** A predefined category (one without user) is never accepted. */
  lemma PredefinedCategoryRejected(t: Transaction, categories: map<Id, Category>, accounts: map<Id, FundAccount>)
    requires t.user.Some? && CategoryStored(t, categories) && categories[t.category.value].user.None?
    ensures Clean(t, categories, accounts) == Fail(ValidationError("category", CategoryNotYoursMessage))
  {
  }

  /** What `Transaction.save` stores before the balance update: a
      non-empty description stripped. */
  function Normalise(t: Transaction): (n: Transaction)
    ensures n.(description := t.description) == t
    ensures t.description.None? || t.description == Some("") ==> n == t
    ensures t.description.Some? && t.description.value != ""
      ==> n.description == Some(Strip(t.description.value))
  {
    if t.description.Some? && t.description.value != "" then
      t.(description := Some(Strip(t.description.value)))
    else t
  }

  /** Saving a saved transaction again stores the same values. */
  lemma NormaliseIdempotent(t: Transaction)
    ensures Normalise(Normalise(t)) == Normalise(t)
  {
    if t.description.Some? && t.description.value != "" {
      StripIdempotent(t.description.value);
    }
  }

  /** The change a transaction makes to its fund account's balance: a
      credit adds the amount, a debit takes it away. */
  function Effect(kind: TransactionType, amount: int): (e: int)
    ensures kind == Credit ==> e == amount
    ensures kind == Debit ==> e == -amount
  {
    match kind
    case Credit => amount
    case Debit => -amount
  }
}
