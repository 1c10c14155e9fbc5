/**
 * `Tag`: a label a user attaches to transactions and shortcuts.
 */
module TagModel {
  import opened Common
  import opened OwnedModel

  datatype Tag = Tag(user: Option<UserId>, name: string)

  const NameMaxLength: nat := 64

  function TagOwner(t: Tag): Option<UserId> { t.user }

  function TagName(t: Tag): string { t.name }

  /** What the field declarations require: a non-empty name within 64
      characters. The user column admits NULL. */
  predicate FieldsValid(t: Tag)
  {
    t.name != "" && |t.name| <= NameMaxLength
  }

  /** Another tag of the same user, not `self`, has this name up to case
      and surrounding blanks. */
  predicate NameClash(tags: map<Id, Tag>, t: Tag, self: Id)
  {
    NameTaken(tags, TagOwner, TagName, t.user, Strip(t.name), self)
  }

  function DuplicateMessage(name: string): string
  {
    "Tag with Name: '" + name + "' already exists."
  }

  /** `Tag.clean`: user, name required, name not blank, then the per-user
      uniqueness of the name. */
  function Clean(t: Tag, tags: map<Id, Tag>, self: Id): (r: Outcome)
    ensures r.Pass? <==> t.user.Some? && !AllSpace(t.name) && !NameClash(tags, t, self)
    ensures t.user.None? ==> r == Fail(ValidationError("user", UserMissingMessage))
    ensures t.user.Some? && t.name == "" ==> r == Fail(ValidationError("name", NameRequiredMessage))
    ensures t.user.Some? && t.name != "" && AllSpace(t.name)
      ==> r == Fail(ValidationError("name", NameBlankMessage))
    ensures t.user.Some? && !AllSpace(t.name) && NameClash(tags, t, self)
      ==> r == Fail(ValidationError("name", DuplicateMessage(t.name)))
  {
    Then(Check(t.user.Some?, "user", UserMissingMessage),
    Then(RequireName(t.name),
         Check(!NameClash(tags, t, self), "name", DuplicateMessage(t.name))))
  }

  /** What `Tag.save` stores: the name stripped. */
  function Normalise(t: Tag): (n: Tag)
    ensures n == t.(name := n.name) && n.name == Strip(t.name)
    ensures |n.name| <= |t.name|
    ensures n.name == [] || (!IsSpace(n.name[0]) && !IsSpace(n.name[|n.name| - 1]))
    ensures n.name == [] <==> AllSpace(t.name)
  {
    t.(name := Strip(t.name))
  }

  /** Saving a saved tag again stores the same values. */
  lemma NormaliseIdempotent(t: Tag)
    ensures Normalise(Normalise(t)) == Normalise(t)
  {
    StripIdempotent(t.name);
  }

  /** A tag that passes `clean` and is saved under `self` keeps each user's
      tag names unique up to case. */
  lemma SaveKeepsNamesUnique(tags: map<Id, Tag>, t: Tag, self: Id)
    requires NamesUnique(tags, TagOwner, TagName)
    requires Clean(t, tags, self).Pass?
    ensures NamesUnique(tags[self := Normalise(t)], TagOwner, TagName)
  {
    StoreKeepsNamesUnique(tags, TagOwner, TagName, self, Normalise(t));
  }
}
