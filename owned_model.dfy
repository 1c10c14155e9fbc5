/**
 * `OwnedModel`, the mixin every user-owned record inherits: the owner
 * (the `user` foreign key, NULL for predefined data), the ownership checks,
 * the string normalisation run before validation, the permission gates of
 * `create_by`, `update_by` and `delete_by`, and `get_for_user`.
 *
 * The gates are stated here on the facts they inspect (whether the instance
 * is unsaved, its owner, the requester, the owner of the stored row); the
 * table changes that follow a passing gate are in module OwnedStore.
 */
module OwnedModel {
  import opened Common

  const NoRequesterMessage: string := "Requested User must be provided."
  const PredefinedMessage: string := "Data is predefined and not owned."
  const NotOwnerMessage: string := "You are not the owner."
  const CreateOnSavedMessage: string := "You cannot use this method to update data."
  const UpdateOnNewMessage: string := "You cannot use this method to create data."
  const DeleteOnNewMessage: string := "Data does not exists."
  const NoPermissionMessage: string := "No permission to perform this action."

  // ---------------------------------------------------------------------
  // Ownership
  // ---------------------------------------------------------------------

  /** `is_owned_by`: the record has an owner, a user is given, and they agree. */
  predicate IsOwnedBy(owner: Option<UserId>, user: Option<UserId>)
  {
    owner.Some? && user.Some? && owner == user
  }

  /** `assert_owned_by`: passes exactly when the record is owned by the
      requester; otherwise raises for the first of: no requester,
      predefined record, another owner. */
  function AssertOwnedBy(owner: Option<UserId>, requester: Option<UserId>): (r: Outcome)
    ensures r.Pass? <==> IsOwnedBy(owner, requester)
    ensures requester.None? ==> r == Fail(PermissionDenied(NoRequesterMessage))
    ensures requester.Some? && owner.None? ==> r == Fail(PermissionDenied(PredefinedMessage))
    ensures requester.Some? && owner.Some? && owner != requester
      ==> r == Fail(PermissionDenied(NotOwnerMessage))
  {
    if requester.None? then Fail(PermissionDenied(NoRequesterMessage))
    else if owner.None? then Fail(PermissionDenied(PredefinedMessage))
    else if owner != requester then Fail(PermissionDenied(NotOwnerMessage))
    else Pass
  }

  // ---------------------------------------------------------------------
  // _clean_string_value
  // ---------------------------------------------------------------------

  /** The normalisation `_clean_string_value` applies to one string field
      declared with the given `blank` and `null` options: strip it, and turn
      an empty result into None only when the field allows both. A field
      holding None is left alone. */
  function CleanText(value: Option<string>, blank: bool, nullable: bool): (r: Option<string>)
    ensures r.Some? ==> value.Some? && r.value == Strip(value.value)
    ensures r.None? <==> value.None? || (AllSpace(value.value) && blank && nullable)
    ensures !(blank && nullable) && value.Some? ==> r == Some(Strip(value.value))
  {
    match value
    case None => None
    case Some(s) =>
      var t := Strip(s);
      if t == "" && blank && nullable then None else Some(t)
  }

  /** Cleaning a cleaned value changes nothing. */
  lemma CleanTextIdempotent(value: Option<string>, blank: bool, nullable: bool)
    ensures CleanText(CleanText(value, blank, nullable), blank, nullable)
         == CleanText(value, blank, nullable)
  {
    if value.Some? {
      StripIdempotent(value.value);
    }
  }

  /** The value of a model field, as far as `_clean_string_value` can tell
      them apart: a string, None, or anything else (a number, a date, a
      key, a UUID), which it leaves alone. */
  datatype FieldValue = Text(text: string) | NoneValue | NonText(code: int)

  /** A field of `_meta.fields` with its current value and its options. */
  datatype Field = Field(name: string, value: FieldValue, blank: bool, nullable: bool)

  /** One field after `_clean_string_value`. */
  function CleanField(f: Field): (g: Field)
    ensures g.name == f.name && g.blank == f.blank && g.nullable == f.nullable
    ensures !f.value.Text? ==> g == f
    ensures f.value.Text? && g.value.Text? ==> g.value.text == Strip(f.value.text)
    ensures f.value.Text? ==>
      (g.value.NoneValue? <==> AllSpace(f.value.text) && f.blank && f.nullable)
    ensures f.value.Text? ==> !g.value.NonText?
  {
    match f.value
    case Text(s) =>
      var c := CleanText(Some(s), f.blank, f.nullable);
      f.(value := if c.Some? then Text(c.value) else NoneValue)
    case _ => f
  }

  /** Every field after `_clean_string_value`. */
  function CleanedFields(fields: seq<Field>): (r: seq<Field>)
    ensures |r| == |fields|
    ensures forall i :: 0 <= i < |fields| ==> r[i] == CleanField(fields[i])
  {
    seq(|fields|, i requires 0 <= i < |fields| => CleanField(fields[i]))
  }

  /** `_clean_string_value` applied twice equals applied once. */
  lemma CleanedFieldsIdempotent(fields: seq<Field>)
    ensures CleanedFields(CleanedFields(fields)) == CleanedFields(fields)
  {
    var once := CleanedFields(fields);
    forall i | 0 <= i < |fields|
      ensures CleanField(once[i]) == once[i]
    {
      var f := fields[i];
      if f.value.Text? {
        CleanTextIdempotent(Some(f.value.text), f.blank, f.nullable);
      }
    }
  }

  /** `_clean_string_value`: rewrites the fields of an instance in place,
      one `setattr` per field. */
  method CleanStringValue(fields: array<Field>)
    modifies fields
    ensures fields[..] == CleanedFields(old(fields[..]))
  {
    ghost var before := fields[..];
    var i := 0;
    while i < fields.Length
      invariant 0 <= i <= fields.Length
      invariant forall j :: 0 <= j < i ==> fields[j] == CleanField(before[j])
      invariant forall j :: i <= j < fields.Length ==> fields[j] == before[j]
    {
      var field := fields[i];
      var value := field.value;
      if value.Text? {
        var stripped := Strip(value.text);
        value := Text(stripped);
        if stripped == "" {
          if field.blank && field.nullable {
            value := NoneValue;
          }
        }
      }
      assert field.(value := value) == CleanField(before[i]);
      fields[i] := field.(value := value);
      i := i + 1;
    }
  }

  // ---------------------------------------------------------------------
  // Permission gates
  // ---------------------------------------------------------------------

  /** The checks `create_by` makes before saving: the instance must be
      unsaved, then `assert_owned_by` must pass. Because the ownership check
      comes first, an instance without owner never gets through, so the
      owner assignment that follows it (`OwnerAfterCreate`) never fires. */
  function CreateGate(adding: bool, owner: Option<UserId>, requester: Option<UserId>): (r: Outcome)
    ensures r.Pass? <==> adding && IsOwnedBy(owner, requester)
    ensures !adding ==> r == Fail(PermissionDenied(CreateOnSavedMessage))
    ensures adding ==> r == AssertOwnedBy(owner, requester)
    ensures owner.None? ==> r.Fail?
    ensures r.Pass? ==> OwnerAfterCreate(owner, requester) == owner
  {
    if !adding then Fail(PermissionDenied(CreateOnSavedMessage))
    else AssertOwnedBy(owner, requester)
  }

  /** The owner `create_by` saves: the requester when the instance has none. */
  function OwnerAfterCreate(owner: Option<UserId>, requester: Option<UserId>): Option<UserId>
  {
    if owner.None? then requester else owner
  }

  /** The checks shared by `update_by` and `delete_by` once the instance is
      known to be saved: `assert_owned_by` on the instance, then the stored
      row (`None` when it is gone) must be owned by the requester. */
  function StoredOwnerGate(owner: Option<UserId>, requester: Option<UserId>,
                           stored: Option<Option<UserId>>): (r: Outcome)
    ensures r.Pass? <==> IsOwnedBy(owner, requester) && stored == Some(requester)
    ensures !IsOwnedBy(owner, requester) ==> r == AssertOwnedBy(owner, requester)
    ensures IsOwnedBy(owner, requester) && stored.None? ==> r == Fail(DoesNotExist)
    ensures IsOwnedBy(owner, requester) && stored.Some? && stored.value != requester
      ==> r == Fail(PermissionDenied(NoPermissionMessage))
  {
    var check := AssertOwnedBy(owner, requester);
    if check.Fail? then check
    else if stored.None? then Fail(DoesNotExist)
    else if stored.value != requester then Fail(PermissionDenied(NoPermissionMessage))
    else Pass
  }

  /** `update_by`'s checks: an unsaved instance is refused first. */
  function UpdateGate(adding: bool, owner: Option<UserId>, requester: Option<UserId>,
                      stored: Option<Option<UserId>>): (r: Outcome)
    ensures r.Pass? <==> !adding && IsOwnedBy(owner, requester) && stored == Some(requester)
    ensures adding ==> r == Fail(PermissionDenied(UpdateOnNewMessage))
    ensures !adding ==> r == StoredOwnerGate(owner, requester, stored)
  {
    if adding then Fail(PermissionDenied(UpdateOnNewMessage))
    else StoredOwnerGate(owner, requester, stored)
  }

  /** `delete_by`'s checks: an unsaved instance is refused first, with its
      own message. */
  function DeleteGate(adding: bool, owner: Option<UserId>, requester: Option<UserId>,
                      stored: Option<Option<UserId>>): (r: Outcome)
    ensures r.Pass? <==> !adding && IsOwnedBy(owner, requester) && stored == Some(requester)
    ensures adding ==> r == Fail(PermissionDenied(DeleteOnNewMessage))
    ensures !adding ==> r == StoredOwnerGate(owner, requester, stored)
  {
    if adding then Fail(PermissionDenied(DeleteOnNewMessage))
    else StoredOwnerGate(owner, requester, stored)
  }

  // ---------------------------------------------------------------------
  // get_for_user
  // ---------------------------------------------------------------------

  /** What `get_for_user` returns: a queryset, or one record. */
  datatype Fetched<T> = Many(rows: map<Id, T>) | One(row: T)

  /** `get_for_user` on one table. Without an id it returns exactly the
      rows owned by the requester; with an id it returns that row unless the
      row has an owner other than the requester, so predefined rows are
      readable by everyone. */
  function GetForUser<T>(table: map<Id, T>, ownerOf: T -> Option<UserId>,
                         requester: Option<UserId>, id: Option<Id>): (r: Result<Fetched<T>>)
    ensures requester.None? ==> r == Err(PermissionDenied(NoRequesterMessage))
    ensures requester.Some? && id.None? ==>
      && r.Ok? && r.value.Many?
      && (forall k :: k in r.value.rows <==> k in table && ownerOf(table[k]) == requester)
      && (forall k :: k in r.value.rows ==> r.value.rows[k] == table[k])
    ensures requester.Some? && id.Some? ==>
      (r.Ok? <==> id.value in table
                  && (ownerOf(table[id.value]).None? || ownerOf(table[id.value]) == requester))
    ensures requester.Some? && id.Some? && r.Ok? ==> r.value == One(table[id.value])
    ensures requester.Some? && id.Some? && id.value !in table ==> r == Err(DoesNotExist)
    ensures requester.Some? && id.Some? && id.value in table && r.Err?
      ==> r.error == PermissionDenied(NotOwnerMessage)
  {
    if requester.None? then Err(PermissionDenied(NoRequesterMessage))
    else if id.None? then
      Ok(Many(map k | k in table && ownerOf(table[k]) == requester :: table[k]))
    else if id.value !in table then Err(DoesNotExist)
    else
      var row := table[id.value];
      if ownerOf(row).Some? && ownerOf(row) != requester then Err(PermissionDenied(NotOwnerMessage))
      else Ok(One(row))
  }

  /** The listing never contains predefined rows. */
  lemma ListingExcludesPredefined<T>(table: map<Id, T>, ownerOf: T -> Option<UserId>,
                                     requester: UserId, k: Id)
    requires k in table && ownerOf(table[k]).None?
    ensures k !in GetForUser(table, ownerOf, Some(requester), None).value.rows
  {
  }

  // ---------------------------------------------------------------------
  // Case-insensitive uniqueness within one owner's rows
  // ---------------------------------------------------------------------

  /** Another row than `self` of owner `user` already has `name`, compared
      case-insensitively (`filter(user=..., name__iexact=...).exclude(pk=...)`). */
  predicate NameTaken<T>(table: map<Id, T>, ownerOf: T -> Option<UserId>, nameOf: T -> string,
                         user: Option<UserId>, name: string, self: Id)
  {
    exists k :: k in table && k != self && ownerOf(table[k]) == user && IEquals(nameOf(table[k]), name)
  }

  /** No two rows of one owner have names equal up to case: what the
      `UniqueConstraint(Lower('name'), 'user')` of the owned models keeps. */
  predicate NamesUnique<T>(table: map<Id, T>, ownerOf: T -> Option<UserId>, nameOf: T -> string)
  {
    forall j, k :: j in table && k in table && j != k && ownerOf(table[j]) == ownerOf(table[k])
      ==> !IEquals(nameOf(table[j]), nameOf(table[k]))
  }

  /** Storing a row under `self` whose name no other row of its owner
      already has keeps the names unique. */
  lemma StoreKeepsNamesUnique<T>(table: map<Id, T>, ownerOf: T -> Option<UserId>, nameOf: T -> string,
                                 self: Id, row: T)
    requires NamesUnique(table, ownerOf, nameOf)
    requires !NameTaken(table, ownerOf, nameOf, ownerOf(row), nameOf(row), self)
    ensures NamesUnique(table[self := row], ownerOf, nameOf)
  {
    var t := table[self := row];
    forall j, k | j in t && k in t && j != k && ownerOf(t[j]) == ownerOf(t[k])
      ensures !IEquals(nameOf(t[j]), nameOf(t[k]))
    {
      if j == self {
        assert !(k in table && k != self && ownerOf(table[k]) == ownerOf(row) && IEquals(nameOf(table[k]), nameOf(row)));
      } else if k == self {
        assert !(j in table && j != self && ownerOf(table[j]) == ownerOf(row) && IEquals(nameOf(table[j]), nameOf(row)));
      }
    }
  }
}
