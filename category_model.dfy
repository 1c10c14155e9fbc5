/**
 * `Category`: a spending category. A category without user is predefined:
 * it is shared by every user and cannot be edited through the ownership
 * gates.
 */
module CategoryModel {
  import opened Common
  import opened OwnedModel

  datatype Category = Category(user: Option<UserId>, name: string)

  const NameMaxLength: nat := 120

  function CategoryOwner(c: Category): Option<UserId> { c.user }

  function CategoryName(c: Category): string { c.name }

  /** What the field declarations require: a non-empty name within 120
      characters. The user column admits NULL. */
  predicate FieldsValid(c: Category)
  {
    c.name != "" && |c.name| <= NameMaxLength
  }

  /** A predefined category, not `self`, has this name up to case and
      surrounding blanks. */
  predicate PredefinedClash(categories: map<Id, Category>, c: Category, self: Id)
  {
    NameTaken(categories, CategoryOwner, CategoryName, None, Strip(c.name), self)
  }

  /** Another category of the same user, not `self`, has this name. */
  predicate NameClash(categories: map<Id, Category>, c: Category, self: Id)
  {
    NameTaken(categories, CategoryOwner, CategoryName, c.user, Strip(c.name), self)
  }

  function PredefinedMessage(name: string): string
  {
    "Predefined category with Name: '" + name + "' already exists."
  }

  function DuplicateMessage(name: string): string
  {
    "Category with Name: '" + name + "' already exists."
  }

  /** `Category.clean`: user, name required, name not blank, then a clash
      with a predefined category, then a clash with one of the user's own. */
  function Clean(c: Category, categories: map<Id, Category>, self: Id): (r: Outcome)
    ensures r.Pass? <==>
      c.user.Some? && !AllSpace(c.name)
      && !PredefinedClash(categories, c, self) && !NameClash(categories, c, self)
    ensures c.user.None? ==> r == Fail(ValidationError("user", UserMissingMessage))
    ensures c.user.Some? ==> (AllSpace(c.name) ==> r == RequireName(c.name))
    ensures c.user.Some? && !AllSpace(c.name) && PredefinedClash(categories, c, self)
      ==> r == Fail(ValidationError("name", PredefinedMessage(c.name)))
    ensures c.user.Some? && !AllSpace(c.name) && !PredefinedClash(categories, c, self)
            && NameClash(categories, c, self)
      ==> r == Fail(ValidationError("name", DuplicateMessage(c.name)))
  {
    Then(Check(c.user.Some?, "user", UserMissingMessage),
    Then(RequireName(c.name),
    Then(Check(!PredefinedClash(categories, c, self), "name", PredefinedMessage(c.name)),
         Check(!NameClash(categories, c, self), "name", DuplicateMessage(c.name)))))
  }

  /** What `Category.save` stores: the name stripped. */
  function Normalise(c: Category): (n: Category)
    ensures n == c.(name := n.name) && n.name == Strip(c.name)
    ensures |n.name| <= |c.name|
    ensures n.name == [] || (!IsSpace(n.name[0]) && !IsSpace(n.name[|n.name| - 1]))
    ensures n.name == [] <==> AllSpace(c.name)
  {
    c.(name := Strip(c.name))
  }

  /** Saving a saved category again stores the same values. */
  lemma NormaliseIdempotent(c: Category)
    ensures Normalise(Normalise(c)) == Normalise(c)
  {
    StripIdempotent(c.name);
  }

  /** A category that passes `clean` and is saved under `self` keeps each
      user's category names unique up to case, and its name differs from
      every predefined category's. */
  lemma SaveKeepsNamesUnique(categories: map<Id, Category>, c: Category, self: Id)
    requires NamesUnique(categories, CategoryOwner, CategoryName)
    requires Clean(c, categories, self).Pass?
    ensures NamesUnique(categories[self := Normalise(c)], CategoryOwner, CategoryName)
    ensures forall k :: k in categories && k != self && categories[k].user.None?
                        ==> !IEquals(categories[k].name, Normalise(c).name)
  {
    StoreKeepsNamesUnique(categories, CategoryOwner, CategoryName, self, Normalise(c));
    forall k | k in categories && k != self && categories[k].user.None?
      ensures !IEquals(categories[k].name, Normalise(c).name)
    {
      assert CategoryOwner(categories[k]) == None;
      assert CategoryName(categories[k]) == categories[k].name;
    }
  }
}
