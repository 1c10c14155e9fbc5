/**
 * `Shortcut`: a named template for a transaction the user records often.
 * Its category and fund account are optional.
 */
module ShortcutModel {
  import opened Common
  import opened OwnedModel
  import opened CategoryModel
  import opened FundAccountModel
  import opened TransactionModel

  datatype Shortcut = Shortcut(
    user: Option<UserId>,
    name: string,
    amount: int,
    kind: TransactionType,
    description: Option<string>,
    category: Option<Id>,
    fundAccount: Option<Id>)

  const NameMaxLength: nat := 120

  /** A shortcut as created without amount or type: 0 and debit. */
  function NewShortcut(user: Option<UserId>, name: string): (s: Shortcut)
    ensures s.amount == 0 && s.kind == Debit
    ensures s.user == user && s.name == name
    ensures s.category.None? && s.fundAccount.None? && s.description.None?
  {
    Shortcut(user, name, 0, DefaultType, None, None, None)
  }

  function ShortcutOwner(s: Shortcut): Option<UserId> { s.user }

  function ShortcutName(s: Shortcut): string { s.name }

  /** What the field declarations and check constraints require: a user,
      a non-empty name within 120 characters, an amount of at least 0 that
      fits twelve digits before the point, and references to existing rows
      when they are set. */
  predicate FieldsValid(s: Shortcut, categories: map<Id, Category>, accounts: map<Id, FundAccount>)
  {
    && s.user.Some?
    && s.name != "" && |s.name| <= NameMaxLength
    && 0 <= s.amount < MaxCents14
    && (s.category.Some? ==> s.category.value in categories)
    && (s.fundAccount.Some? ==> s.fundAccount.value in accounts)
  }

  /** The category is unset or stored. */
  predicate CategoryFound(s: Shortcut, categories: map<Id, Category>)
  {
    s.category.Some? ==> s.category.value in categories
  }

  /** The category, if set and stored, belongs to the shortcut's user. */
  predicate CategoryOwned(s: Shortcut, categories: map<Id, Category>)
  {
    s.category.Some? && s.category.value in categories ==> categories[s.category.value].user == s.user
  }

  /** The fund account is unset or stored. */
  predicate AccountFound(s: Shortcut, accounts: map<Id, FundAccount>)
  {
    s.fundAccount.Some? ==> s.fundAccount.value in accounts
  }

  /** The fund account, if set and stored, belongs to the shortcut's user. */
  predicate AccountOwned(s: Shortcut, accounts: map<Id, FundAccount>)
  {
    s.fundAccount.Some? && s.fundAccount.value in accounts ==> accounts[s.fundAccount.value].user == s.user
  }

  /** Another shortcut of the same user, not `self`, has this name up to
      case and surrounding blanks. */
  predicate NameClash(shortcuts: map<Id, Shortcut>, s: Shortcut, self: Id)
  {
    NameTaken(shortcuts, ShortcutOwner, ShortcutName, s.user, Strip(s.name), self)
  }

  function DuplicateMessage(name: string): string
  {
    "Shortcut with Name: '" + name + "' already exists."
  }

  /** The checks of `Shortcut.clean` after the name: the optional
      references, each stored and owned when set. */
  function CheckReferences(s: Shortcut, categories: map<Id, Category>, accounts: map<Id, FundAccount>): (r: Outcome)
    ensures r.Pass? <==>
      CategoryFound(s, categories) && CategoryOwned(s, categories)
      && AccountFound(s, accounts) && AccountOwned(s, accounts)
    ensures !CategoryFound(s, categories) ==> r == Fail(ValidationError("Category", CategoryMissingMessage))
    ensures CategoryFound(s, categories) && !CategoryOwned(s, categories)
      ==> r == Fail(ValidationError("category", CategoryNotYoursMessage))
    ensures CategoryFound(s, categories) && CategoryOwned(s, categories) && !AccountFound(s, accounts)
      ==> r == Fail(ValidationError("fund_account", AccountMissingMessage))
    ensures CategoryFound(s, categories) && CategoryOwned(s, categories) && AccountFound(s, accounts)
            && !AccountOwned(s, accounts)
      ==> r == Fail(ValidationError("fund_account", AccountNotYoursMessage))
  {
    Then(Check(CategoryFound(s, categories), "Category", CategoryMissingMessage),
    Then(Check(CategoryOwned(s, categories), "category", CategoryNotYoursMessage),
    Then(Check(AccountFound(s, accounts), "fund_account", AccountMissingMessage),
         Check(AccountOwned(s, accounts), "fund_account", AccountNotYoursMessage))))
  }

  /** `Shortcut.clean`: user, name required, name not blank, the optional
      references, then the per-user uniqueness of the name. */
  function Clean(s: Shortcut, shortcuts: map<Id, Shortcut>, categories: map<Id, Category>,
                 accounts: map<Id, FundAccount>, self: Id): (r: Outcome)
    ensures r.Pass? <==>
      && s.user.Some? && !AllSpace(s.name)
      && CheckReferences(s, categories, accounts).Pass?
      && !NameClash(shortcuts, s, self)
    ensures s.user.None? ==> r == Fail(ValidationError("user", UserMissingMessage))
    ensures s.user.Some? ==> (AllSpace(s.name) ==> r == RequireName(s.name))
    ensures s.user.Some? && !AllSpace(s.name) && CheckReferences(s, categories, accounts).Fail?
      ==> r == CheckReferences(s, categories, accounts)
    ensures s.user.Some? && !AllSpace(s.name) && CheckReferences(s, categories, accounts).Pass?
            && NameClash(shortcuts, s, self)
      ==> r == Fail(ValidationError("name", DuplicateMessage(s.name)))
  {
    Then(Check(s.user.Some?, "user", UserMissingMessage),
    Then(RequireName(s.name),
    Then(CheckReferences(s, categories, accounts),
         Check(!NameClash(shortcuts, s, self), "name", DuplicateMessage(s.name)))))
  }

  /** A shortcut without category and fund account passes the reference
      checks: both are optional. */
  lemma ReferencesOptional(s: Shortcut, categories: map<Id, Category>, accounts: map<Id, FundAccount>)
    requires s.category.None? && s.fundAccount.None?
    ensures CheckReferences(s, categories, accounts).Pass?
  {
  }

  /** What `Shortcut.save` stores: the name stripped. */
  function Normalise(s: Shortcut): (n: Shortcut)
    ensures n.(name := s.name) == s && n.name == Strip(s.name)
    ensures |n.name| <= |s.name|
    ensures n.name == [] || (!IsSpace(n.name[0]) && !IsSpace(n.name[|n.name| - 1]))
    ensures n.name == [] <==> AllSpace(s.name)
  {
    s.(name := Strip(s.name))
  }

  /** Saving a saved shortcut again stores the same values. */
  lemma NormaliseIdempotent(s: Shortcut)
    ensures Normalise(Normalise(s)) == Normalise(s)
  {
    StripIdempotent(s.name);
  }

  /** A shortcut that passes `clean` and is saved under `self` keeps each
      user's shortcut names unique up to case. */
  lemma SaveKeepsNamesUnique(shortcuts: map<Id, Shortcut>, categories: map<Id, Category>,
                             accounts: map<Id, FundAccount>, s: Shortcut, self: Id)
    requires NamesUnique(shortcuts, ShortcutOwner, ShortcutName)
    requires Clean(s, shortcuts, categories, accounts, self).Pass?
    ensures NamesUnique(shortcuts[self := Normalise(s)], ShortcutOwner, ShortcutName)
  {
    StoreKeepsNamesUnique(shortcuts, ShortcutOwner, ShortcutName, self, Normalise(s));
  }
}
