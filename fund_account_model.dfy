/**
 * `FundAccount`: a user's wallet or bank account, holding a balance in one
 * currency. Money is counted in cents.
 */
module FundAccountModel {
  import opened Common
  import opened OwnedModel
  import opened CurrencyModel

  datatype FundAccount = FundAccount(user: Option<UserId>, name: string, balance: int, currency: Option<string>)

  const NameMaxLength: nat := 120

  /** An account as created without a balance: the balance defaults to 0. */
  function NewFundAccount(user: Option<UserId>, name: string, currency: Option<string>): (a: FundAccount)
    ensures a.balance == 0
    ensures a.user == user && a.name == name && a.currency == currency
  {
    FundAccount(user, name, 0, currency)
  }

  function AccountOwner(a: FundAccount): Option<UserId> { a.user }

  function AccountName(a: FundAccount): string { a.name }

  /** What the field declarations require: a user, a non-empty name within
      120 characters, a balance of at least 0 that fits twelve digits before
      the point, and a currency that exists. */
  predicate FieldsValid(a: FundAccount, currencies: map<string, Currency>)
  {
    && a.user.Some?
    && a.name != "" && |a.name| <= NameMaxLength
    && 0 <= a.balance < MaxCents14
    && a.currency.Some? && a.currency.value in currencies
  }

  /** Another account of the same user, not `self`, has this name up to
      case and surrounding blanks. */
  predicate NameClash(accounts: map<Id, FundAccount>, a: FundAccount, self: Id)
  {
    NameTaken(accounts, AccountOwner, AccountName, a.user, Strip(a.name), self)
  }

  function DuplicateMessage(name: string): string
  {
    "Fund account with Name: '" + name + "' already exists."
  }

  /** `FundAccount.clean` on the instance stored (or to be stored) as
      `self`: user, name required, name not blank, currency, then the
      per-user uniqueness of the name. */
  function Clean(a: FundAccount, accounts: map<Id, FundAccount>, self: Id): (r: Outcome)
    ensures r.Pass? <==>
      a.user.Some? && !AllSpace(a.name) && KeySet(a.currency) && !NameClash(accounts, a, self)
    ensures a.user.None? ==> r == Fail(ValidationError("user", UserMissingMessage))
    ensures a.user.Some? ==> (AllSpace(a.name) ==> r == RequireName(a.name))
    ensures a.user.Some? && !AllSpace(a.name) && !KeySet(a.currency)
      ==> r == Fail(ValidationError("currency", CurrencyMissingMessage))
    ensures a.user.Some? && !AllSpace(a.name) && KeySet(a.currency) && NameClash(accounts, a, self)
      ==> r == Fail(ValidationError("name", DuplicateMessage(a.name)))
  {
    Then(Check(a.user.Some?, "user", UserMissingMessage),
    Then(RequireName(a.name),
    Then(Check(KeySet(a.currency), "currency", CurrencyMissingMessage),
         Check(!NameClash(accounts, a, self), "name", DuplicateMessage(a.name)))))
  }

  /** What `FundAccount.save` stores: the name stripped. */
  function Normalise(a: FundAccount): (n: FundAccount)
    ensures n == a.(name := n.name) && n.name == Strip(a.name)
    ensures n.user == a.user && n.balance == a.balance && n.currency == a.currency
    ensures |n.name| <= |a.name|
    ensures n.name == [] || (!IsSpace(n.name[0]) && !IsSpace(n.name[|n.name| - 1]))
    ensures n.name == [] <==> AllSpace(a.name)
  {
    a.(name := Strip(a.name))
  }

  /** Saving a saved account again stores the same values. */
  lemma NormaliseIdempotent(a: FundAccount)
    ensures Normalise(Normalise(a)) == Normalise(a)
  {
    StripIdempotent(a.name);
  }

  /** An account that passes `clean` and is saved under `self` keeps the
      account names of every user unique up to case. */
  lemma SaveKeepsNamesUnique(accounts: map<Id, FundAccount>, a: FundAccount, self: Id)
    requires NamesUnique(accounts, AccountOwner, AccountName)
    requires Clean(a, accounts, self).Pass?
    ensures NamesUnique(accounts[self := Normalise(a)], AccountOwner, AccountName)
  {
    StoreKeepsNamesUnique(accounts, AccountOwner, AccountName, self, Normalise(a));
  }

  /** Accounts of other users never clash: only the owner's own accounts
      are compared. */
  lemma OtherUsersDoNotClash(accounts: map<Id, FundAccount>, a: FundAccount, self: Id, k: Id, b: FundAccount)
    requires k !in accounts && b.user != a.user
    ensures NameClash(accounts[k := b], a, self) <==> NameClash(accounts, a, self)
  {
    var t := accounts[k := b];
    if NameClash(t, a, self) {
      var j :| j in t && j != self && AccountOwner(t[j]) == a.user && IEquals(AccountName(t[j]), Strip(a.name));
      assert j != k;
      assert j in accounts && accounts[j] == t[j];
    }
    if NameClash(accounts, a, self) {
      var j :| j in accounts && j != self && AccountOwner(accounts[j]) == a.user
        && IEquals(AccountName(accounts[j]), Strip(a.name));
      assert j in t && t[j] == accounts[j];
    }
  }
}
