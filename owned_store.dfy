/**
 * The `OwnedModel` operations that change the database: `save_obj`
 * (string normalisation, `full_clean`, `save`), and `create_by`,
 * `update_by` and `delete_by`, which put the permission gates of module
 * OwnedModel in front of it. Each model's own `clean()` and `save()` come
 * from its module; a transaction's save goes through `balance_updater`.
 */
module OwnedStore {
  import opened Common
  import opened Calendar
  import opened OwnedModel
  import opened Store
  import FundAccountModel
  import CategoryModel
  import TagModel
  import TransactionModel
  import ShortcutModel
  import ReportModel
  import LoanModel
  import Signals
  import CustomWrappers

  // ---------------------------------------------------------------------
  // _clean_string_value, per model
  // ---------------------------------------------------------------------

  /** A non-null foreign key that is unset: reading it in
      `_clean_string_value` raises `RelatedObjectDoesNotExist`. */
  predicate RequiredRelationUnset(r: Record)
  {
    match r
    case AccountRecord(a) => a.user.None? || a.currency.None?
    case CategoryRecord(_) => false
    case TagRecord(_) => false
    case TransactionRecord(x) => x.user.None?
    case ShortcutRecord(s) => s.user.None?
    case ReportRecord(p) => p.user.None?
    case LoanRecord(l) => l.user.None?
  }

  /** `_clean_string_value` on a record: every text field is stripped, and
      an optional description (`blank=True, null=True`) left empty becomes
      None. Reports have no text field. */
  function CleanStrings(r: Record): (c: Result<Record>)
    ensures c.Err? <==> RequiredRelationUnset(r)
    ensures c.Err? ==> c.error == DoesNotExist
    ensures c.Ok? ==> KindOf(c.value) == KindOf(r) && Owner(c.value) == Owner(r)
    ensures c.Ok? && r.AccountRecord? ==> c.value.account == r.account.(name := Strip(r.account.name))
    ensures c.Ok? && r.CategoryRecord? ==> c.value.category == r.category.(name := Strip(r.category.name))
    ensures c.Ok? && r.TagRecord? ==> c.value.tag == r.tag.(name := Strip(r.tag.name))
    ensures c.Ok? && r.TransactionRecord? ==>
      c.value.transaction == r.transaction.(description := CleanText(r.transaction.description, true, true))
    ensures c.Ok? && r.ShortcutRecord? ==>
      c.value.shortcut == r.shortcut.(name := Strip(r.shortcut.name),
                                      description := CleanText(r.shortcut.description, true, true))
    ensures c.Ok? && r.ReportRecord? ==> c.value == r
    ensures c.Ok? && r.LoanRecord? ==>
      c.value.loan == r.loan.(fromEntity := Strip(r.loan.fromEntity),
                              description := CleanText(r.loan.description, true, true))
  {
    if RequiredRelationUnset(r) then Err(DoesNotExist)
    else
      match r
      case AccountRecord(a) => Ok(AccountRecord(a.(name := Strip(a.name))))
      case CategoryRecord(c) => Ok(CategoryRecord(c.(name := Strip(c.name))))
      case TagRecord(g) => Ok(TagRecord(g.(name := Strip(g.name))))
      case TransactionRecord(x) =>
        Ok(TransactionRecord(x.(description := CleanText(x.description, true, true))))
      case ShortcutRecord(s) =>
        Ok(ShortcutRecord(s.(name := Strip(s.name), description := CleanText(s.description, true, true))))
      case ReportRecord(p) => Ok(r)
      case LoanRecord(l) =>
        Ok(LoanRecord(l.(fromEntity := Strip(l.fromEntity), description := CleanText(l.description, true, true))))
  }

  /** The value of a text field as `getattr` sees it: a string, or None. */
  function TextValue(v: Option<string>): FieldValue
  {
    if v.Some? then Text(v.value) else NoneValue
  }

  /** The text fields of a record in declaration order, with their
      `blank` and `null` options: names and `from_entity` are plain
      `CharField`s, descriptions are `TextField(blank=True, null=True)`. */
  function TextFields(r: Record): seq<Field>
  {
    match r
    case AccountRecord(a) => [Field("name", Text(a.name), false, false)]
    case CategoryRecord(c) => [Field("name", Text(c.name), false, false)]
    case TagRecord(g) => [Field("name", Text(g.name), false, false)]
    case TransactionRecord(x) => [Field("description", TextValue(x.description), true, true)]
    case ShortcutRecord(s) =>
      [Field("name", Text(s.name), false, false), Field("description", TextValue(s.description), true, true)]
    case ReportRecord(_) => []
    case LoanRecord(l) =>
      [Field("from_entity", Text(l.fromEntity), false, false), Field("description", TextValue(l.description), true, true)]
  }

  /** The record-level cleaning agrees with the field-by-field loop of
      `_clean_string_value` (OwnedModel.CleanedFields): each text field of
      the cleaned record is the old field run through one iteration. */
  lemma CleanStringsCleansEachField(r: Record)
    requires CleanStrings(r).Ok?
    ensures TextFields(CleanStrings(r).value) == CleanedFields(TextFields(r))
  {
    var fields := TextFields(r);
    var cleaned := TextFields(CleanStrings(r).value);
    assert |cleaned| == |fields|;
    forall i | 0 <= i < |fields|
      ensures cleaned[i] == CleanField(fields[i])
    {
    }
  }

  /** Cleaning a cleaned record changes nothing. */
  lemma CleanStringsIdempotent(r: Record)
    requires CleanStrings(r).Ok?
    ensures CleanStrings(CleanStrings(r).value) == CleanStrings(r)
  {
    match r
    case AccountRecord(a) => StripIdempotent(a.name);
    case CategoryRecord(c) => StripIdempotent(c.name);
    case TagRecord(g) => StripIdempotent(g.name);
    case TransactionRecord(x) => CleanTextIdempotent(x.description, true, true);
    case ShortcutRecord(s) =>
      StripIdempotent(s.name);
      CleanTextIdempotent(s.description, true, true);
    case ReportRecord(p) =>
    case LoanRecord(l) =>
      StripIdempotent(l.fromEntity);
      CleanTextIdempotent(l.description, true, true);
  }

  // ---------------------------------------------------------------------
  // full_clean
  // ---------------------------------------------------------------------

  /** What the field declarations and field validators of the record's
      model accept (`clean_fields`). */
  predicate FieldsOk(t: Tables, r: Record, today: ValidDate)
  {
    match r
    case AccountRecord(a) => FundAccountModel.FieldsValid(a, t.currencies)
    case CategoryRecord(c) => CategoryModel.FieldsValid(c)
    case TagRecord(g) => TagModel.FieldsValid(g)
    case TransactionRecord(x) => TransactionModel.FieldsValid(x, t.categories, t.accounts, today)
    case ShortcutRecord(s) => ShortcutModel.FieldsValid(s, t.categories, t.accounts)
    case ReportRecord(p) => ReportModel.FieldsValid(p, today)
    case LoanRecord(l) => LoanModel.FieldsValid(l, t.currencies, today)
  }

  /** The record's own `clean()`, for the row `pk`. */
  function ModelClean(t: Tables, pk: Id, r: Record): Outcome
    requires ReportModel.MonthsValid(t.reports)
  {
    match r
    case AccountRecord(a) => FundAccountModel.Clean(a, t.accounts, pk)
    case CategoryRecord(c) => CategoryModel.Clean(c, t.categories, pk)
    case TagRecord(g) => TagModel.Clean(g, t.tags, pk)
    case TransactionRecord(x) => TransactionModel.Clean(x, t.categories, t.accounts)
    case ShortcutRecord(s) => ShortcutModel.Clean(s, t.shortcuts, t.categories, t.accounts, pk)
    case ReportRecord(p) => ReportModel.Clean(p, t.reports, pk)
    case LoanRecord(l) => LoanModel.Clean(l)
  }

  /** `full_clean`: it passes exactly when the fields and `clean()` both
      accept the record. `clean()`'s error is the one reported when it
      fails; otherwise a field error is. */
  function FullClean(t: Tables, pk: Id, r: Record, today: ValidDate): (o: Outcome)
    requires ReportModel.MonthsValid(t.reports)
    ensures o.Pass? <==> FieldsOk(t, r, today) && ModelClean(t, pk, r).Pass?
    ensures ModelClean(t, pk, r).Fail? ==> o == ModelClean(t, pk, r)
    ensures ModelClean(t, pk, r).Pass? && !FieldsOk(t, r, today) ==> o == Fail(FieldInvalid)
  {
    Then(ModelClean(t, pk, r), if FieldsOk(t, r, today) then Pass else Fail(FieldInvalid))
  }

  // ---------------------------------------------------------------------
  // save
  // ---------------------------------------------------------------------

  /** What a record needs before its `save()` can run: the references a
      transaction or shortcut makes exist, and a report's month is a real
      month (`calculate_total` builds its first and last day). */
  predicate ReadyToSave(t: Tables, r: Record)
  {
    match r
    case TransactionRecord(x) => TransactionRefsValid(x, t)
    case ShortcutRecord(s) => ShortcutRefsValid(s, t)
    case ReportRecord(p) => 1 <= p.year <= 9999 && 1 <= p.month <= 12
    case _ => true
  }

  /** Records that pass `full_clean` are ready to save. */
  lemma CleanRecordReady(t: Tables, pk: Id, r: Record, today: ValidDate)
    requires ReportModel.MonthsValid(t.reports)
    requires FullClean(t, pk, r, today).Pass?
    ensures ReadyToSave(t, r)
  {
  }

  /** The row each model's `save()` writes: the text fields normalised,
      a loan's completion synchronised with its remaining amount
      (`pre_save`), a report's totals recomputed (`pre_save`). */
  function Saved(t: Tables, bound: nat, r: Record): (s: Record)
    requires ReadyToSave(t, r)
    ensures KindOf(s) == KindOf(r) && Owner(s) == Owner(r)
    ensures ReadyToSave(t, s)
  {
    match r
    case AccountRecord(a) => AccountRecord(FundAccountModel.Normalise(a))
    case CategoryRecord(c) => CategoryRecord(CategoryModel.Normalise(c))
    case TagRecord(g) => TagRecord(TagModel.Normalise(g))
    case TransactionRecord(x) => TransactionRecord(TransactionModel.Normalise(x))
    case ShortcutRecord(s) => ShortcutRecord(ShortcutModel.Normalise(s))
    case ReportRecord(p) => ReportRecord(Signals.CalculateTotal(p, t.transactions, bound))
    case LoanRecord(l) => LoanRecord(Signals.SyncCompletedAndRemaining(LoanModel.Normalise(l)))
  }

  /** The tables a save of a record of `kind` may change: its own, and for
      a transaction also the fund accounts and the reports. */
  function Touches(kind: Kind): (s: set<Kind>)
    ensures kind in s
  {
    if kind == TransactionKind then {TransactionKind, AccountKind, ReportKind} else {kind}
  }

  /** Two states that differ in the tables of `kinds` only. */
  predicate SameOutside(t: Tables, u: Tables, kinds: set<Kind>)
  {
    && u.currencies == t.currencies
    && (AccountKind !in kinds ==> u.accounts == t.accounts)
    && (CategoryKind !in kinds ==> u.categories == t.categories)
    && (TagKind !in kinds ==> u.tags == t.tags)
    && (TransactionKind !in kinds ==> u.transactions == t.transactions)
    && (ShortcutKind !in kinds ==> u.shortcuts == t.shortcuts)
    && (ReportKind !in kinds ==> u.reports == t.reports)
    && (LoanKind !in kinds ==> u.loans == t.loans)
  }

  /** Tables outside the changed ones read the same. */
  lemma SameOutsideTables(t: Tables, u: Tables, kinds: set<Kind>, kind: Kind)
    requires SameOutside(t, u, kinds) && kind !in kinds
    ensures Table(u, kind) == Table(t, kind)
  {
  }

  /** `save()` of a record that passed `full_clean`, as the row `pk`. */
  function SaveRow(t: Tables, bound: nat, adding: bool, pk: Id, r: Record): (u: Result<Tables>)
    requires RefsValid(t) && ReadyToSave(t, r)
    ensures u.Ok? ==> Lookup(u.value, KindOf(r), pk) == Some(Saved(t, bound, r))
    ensures u.Ok? ==> forall k :: k != pk ==> Lookup(u.value, KindOf(r), k) == Lookup(t, KindOf(r), k)
    ensures u.Ok? ==> SameOutside(t, u.value, Touches(KindOf(r)))
    ensures !r.TransactionRecord? ==> u.Ok?
  {
    match r
    case TransactionRecord(x) =>
      var u := CustomWrappers.SaveTransactionSpec(t, bound, adding, pk, x);
      TransactionSaveTouches(t, bound, adding, pk, x);
      u
    case _ =>
      PutTouches(t, pk, Saved(t, bound, r));
      Ok(Put(t, pk, Saved(t, bound, r)))
  }

  /** A plain write changes the row `id` of its own table only. */
  lemma PutTouches(t: Tables, id: Id, row: Record)
    ensures forall k :: k != id ==> Lookup(Put(t, id, row), KindOf(row), k) == Lookup(t, KindOf(row), k)
    ensures SameOutside(t, Put(t, id, row), {KindOf(row)})
  {
    forall k | k != id
      ensures Lookup(Put(t, id, row), KindOf(row), k) == Lookup(t, KindOf(row), k)
    {
      PutTouchesOneRow(t, id, row, KindOf(row), k);
    }
  }

  /** A transaction save changes the row `pk` of the transactions, and
      the fund accounts and reports. */
  lemma TransactionSaveTouches(t: Tables, bound: nat, adding: bool, pk: Id, x: TransactionModel.Transaction)
    requires RefsValid(t) && TransactionRefsValid(x, t)
    ensures var u := CustomWrappers.SaveTransactionSpec(t, bound, adding, pk, x);
      u.Ok? ==>
        && Lookup(u.value, TransactionKind, pk) == Some(TransactionRecord(TransactionModel.Normalise(x)))
        && (forall k :: k != pk ==> Lookup(u.value, TransactionKind, k) == Lookup(t, TransactionKind, k))
        && SameOutside(t, u.value, Touches(TransactionKind))
  {
  }

  /** `save_obj`: normalise the strings, `full_clean`, then `save()`. The
      first failure is raised and nothing is written. */
  function SaveObjSpec(t: Tables, bound: nat, adding: bool, pk: Id, r: Record, today: ValidDate): (u: Result<Tables>)
    requires TablesValid(t, bound)
    ensures RequiredRelationUnset(r) ==> u == Err(DoesNotExist)
    ensures u.Ok? ==> CleanStrings(r).Ok? && FullClean(t, pk, CleanStrings(r).value, today).Pass?
    ensures u.Ok? ==> Lookup(u.value, KindOf(r), pk) == Some(Saved(t, bound, CleanStrings(r).value))
    ensures u.Ok? ==> forall k :: k != pk ==> Lookup(u.value, KindOf(r), k) == Lookup(t, KindOf(r), k)
    ensures u.Ok? ==> SameOutside(t, u.value, Touches(KindOf(r)))
  {
    var cleaned := CleanStrings(r);
    if cleaned.Err? then Err(cleaned.error)
    else
      var check := FullClean(t, pk, cleaned.value, today);
      if check.Fail? then Err(check.error)
      else
        CleanRecordReady(t, pk, cleaned.value, today);
        SaveRow(t, bound, adding, pk, cleaned.value)
  }

  /** A name of only whitespace reaches `clean()` already stripped to "",
      so `save_obj` reports it as missing: the "cannot be blank" message of
      `clean()` is never raised through `save_obj`. */
  lemma BlankNameReportedAsRequired(t: Tables, bound: nat, adding: bool, pk: Id, r: Record, today: ValidDate)
    requires TablesValid(t, bound)
    requires r.AccountRecord? || r.CategoryRecord? || r.TagRecord? || r.ShortcutRecord?
    requires Owner(r).Some? && !RequiredRelationUnset(r)
    requires r.AccountRecord? ==> AllSpace(r.account.name)
    requires r.CategoryRecord? ==> AllSpace(r.category.name)
    requires r.TagRecord? ==> AllSpace(r.tag.name)
    requires r.ShortcutRecord? ==> AllSpace(r.shortcut.name)
    ensures SaveObjSpec(t, bound, adding, pk, r, today) == Err(ValidationError("name", NameRequiredMessage))
  {
    var c := CleanStrings(r).value;
    assert ModelClean(t, pk, c) == Fail(ValidationError("name", NameRequiredMessage));
  }

  /** A saved row is already normalised: cleaning its strings again finds
      nothing to change. */
  lemma SavedRowIsClean(t: Tables, bound: nat, r: Record)
    requires CleanStrings(r).Ok? && ReadyToSave(t, CleanStrings(r).value)
    ensures CleanStrings(Saved(t, bound, CleanStrings(r).value)) == Ok(Saved(t, bound, CleanStrings(r).value))
  {
    match r
    case AccountRecord(a) => StripIdempotent(a.name);
    case CategoryRecord(c) => StripIdempotent(c.name);
    case TagRecord(g) => StripIdempotent(g.name);
    case TransactionRecord(x) =>
      var d := CleanText(x.description, true, true);
      if d.Some? {
        StripIdempotent(x.description.value);
      }
    case ShortcutRecord(s) =>
      StripIdempotent(s.name);
      CleanTextIdempotent(s.description, true, true);
    case ReportRecord(p) =>
    case LoanRecord(l) =>
      StripIdempotent(l.fromEntity);
      CleanTextIdempotent(l.description, true, true);
  }

  // ---------------------------------------------------------------------
  // The database operations
  // ---------------------------------------------------------------------

  /** Every stored row has a key below the bound. */
  lemma StoredKeyBelow(t: Tables, bound: nat, kind: Kind, pk: Id)
    requires KeysBelow(t, bound) && Lookup(t, kind, pk).Some?
    ensures pk < bound
  {
  }

  /** Writing a transaction whose references exist keeps the database
      valid. */
  lemma PutTransactionKeepsValid(t: Tables, bound: nat, id: Id, x: TransactionModel.Transaction)
    requires TablesValid(t, bound) && id < bound && TransactionRefsValid(x, t)
    ensures TablesValid(Put(t, id, TransactionRecord(x)), bound)
  {
    var u := Put(t, id, TransactionRecord(x));
    assert u.accounts == t.accounts && u.categories == t.categories;
    forall k | k in u.transactions ensures TransactionRefsValid(u.transactions[k], u) {
      if k != id {
        assert TransactionRefsValid(t.transactions[k], t);
      }
    }
    forall k | k in u.shortcuts ensures ShortcutRefsValid(u.shortcuts[k], u) {
      assert ShortcutRefsValid(t.shortcuts[k], t);
    }
  }

  /** Writing a shortcut whose references exist keeps the database valid. */
  lemma PutShortcutKeepsValid(t: Tables, bound: nat, id: Id, h: ShortcutModel.Shortcut)
    requires TablesValid(t, bound) && id < bound && ShortcutRefsValid(h, t)
    ensures TablesValid(Put(t, id, ShortcutRecord(h)), bound)
  {
    var u := Put(t, id, ShortcutRecord(h));
    assert u.accounts == t.accounts && u.categories == t.categories;
    forall k | k in u.transactions ensures TransactionRefsValid(u.transactions[k], u) {
      assert TransactionRefsValid(t.transactions[k], t);
    }
    forall k | k in u.shortcuts ensures ShortcutRefsValid(u.shortcuts[k], u) {
      if k != id {
        assert ShortcutRefsValid(t.shortcuts[k], t);
      }
    }
  }

  /** Writing a row no reference is checked for keeps the database valid:
      accounts and categories only gain keys. */
  lemma PutUnreferencingKeepsValid(t: Tables, bound: nat, id: Id, row: Record)
    requires TablesValid(t, bound) && id < bound && ReadyToSave(t, row)
    requires !row.TransactionRecord? && !row.ShortcutRecord?
    ensures TablesValid(Put(t, id, row), bound)
  {
    var u := Put(t, id, row);
    assert u.transactions == t.transactions && u.shortcuts == t.shortcuts;
    assert t.accounts.Keys <= u.accounts.Keys && t.categories.Keys <= u.categories.Keys;
    forall k | k in u.transactions ensures TransactionRefsValid(u.transactions[k], u) {
      assert TransactionRefsValid(t.transactions[k], t);
    }
    forall k | k in u.shortcuts ensures ShortcutRefsValid(u.shortcuts[k], u) {
      assert ShortcutRefsValid(t.shortcuts[k], t);
    }
  }

  /** Writing a row that is ready to save under a key below the bound
      keeps the database valid. */
  lemma PutKeepsValid(t: Tables, bound: nat, id: Id, row: Record)
    requires TablesValid(t, bound) && id < bound && ReadyToSave(t, row)
    ensures TablesValid(Put(t, id, row), bound)
  {
    match row
    case TransactionRecord(x) => PutTransactionKeepsValid(t, bound, id, x);
    case ShortcutRecord(h) => PutShortcutKeepsValid(t, bound, id, h);
    case _ => PutUnreferencingKeepsValid(t, bound, id, row);
  }

  /** `save()` of a cleaned row that passed `full_clean`: through
      `balance_updater` for a transaction, a plain write otherwise. */
  method StoreRow(db: Database, adding: bool, pk: Id, row: Record) returns (res: Result<Record>)
    requires db.Valid() && pk < db.nextId && ReadyToSave(db.State(), row)
    requires adding ==> Lookup(db.State(), KindOf(row), pk).None?
    modifies db
    ensures db.nextId == old(db.nextId) && db.Valid()
    ensures var spec := SaveRow(old(db.State()), old(db.nextId), adding, pk, row);
      && (res.Ok? <==> spec.Ok?)
      && (res.Ok? ==> db.State() == spec.value && Lookup(db.State(), KindOf(row), pk) == Some(res.value))
      && (res.Err? ==> res.error == spec.error && db.State() == old(db.State()))
  {
    if row.TransactionRecord? {
      var saved := CustomWrappers.SaveTransaction(db, adding, pk, row.transaction);
      if saved.Err? {
        return Err(saved.error);
      }
      TransactionSaveTouches(old(db.State()), db.nextId, adding, pk, row.transaction);
      return Ok(TransactionRecord(saved.value));
    }
    var stored := Saved(db.State(), db.nextId, row);
    PutKeepsValid(db.State(), db.nextId, pk, stored);
    db.SetState(Put(db.State(), pk, stored));
    res := Ok(stored);
  }

  /** `save_obj` on the row `pk` (`adding` tells whether the instance is
      new); it returns the instance as saved. */
  method SaveObj(db: Database, adding: bool, pk: Id, r: Record, today: ValidDate) returns (res: Result<Record>)
    requires db.Valid() && pk < db.nextId
    requires adding ==> Lookup(db.State(), KindOf(r), pk).None?
    modifies db
    ensures db.nextId == old(db.nextId) && db.Valid()
    ensures var spec := SaveObjSpec(old(db.State()), old(db.nextId), adding, pk, r, today);
      && (res.Ok? <==> spec.Ok?)
      && (res.Ok? ==> db.State() == spec.value && Lookup(db.State(), KindOf(r), pk) == Some(res.value))
      && (res.Err? ==> res.error == spec.error && db.State() == old(db.State()))
  {
    var cleaned := CleanStrings(r);
    if cleaned.Err? {
      return Err(cleaned.error);
    }
    var row := cleaned.value;
    var check := FullClean(db.State(), pk, row, today);
    if check.Fail? {
      return Err(check.error);
    }
    CleanRecordReady(db.State(), pk, row, today);
    res := StoreRow(db, adding, pk, row);
  }

  /** `create_by`: refuse a saved instance and one the requester does not
      own, then save the new instance under a fresh key. */
  method CreateBy(db: Database, adding: bool, r: Record, requester: Option<UserId>, today: ValidDate)
    returns (res: Result<Record>, id: Id)
    requires db.Valid()
    modifies db
    ensures db.Valid()
    ensures var gate := CreateGate(adding, Owner(r), requester);
      && (gate.Fail? ==> res == Err(gate.error) && db.State() == old(db.State()) && db.nextId == old(db.nextId))
      && (gate.Pass? ==>
            && id == old(db.nextId) && db.nextId == old(db.nextId) + 1
            && Lookup(old(db.State()), KindOf(r), id).None?
            && TablesValid(old(db.State()), db.nextId)
            && var spec := SaveObjSpec(old(db.State()), db.nextId, true, id, r, today);
               && (res.Ok? <==> spec.Ok?)
               && (res.Ok? ==> db.State() == spec.value && Lookup(db.State(), KindOf(r), id) == Some(res.value))
               && (res.Err? ==> res.error == spec.error && db.State() == old(db.State())))
  {
    var gate := CreateGate(adding, Owner(r), requester);
    if gate.Fail? {
      return Err(gate.error), 0;
    }
    id := db.FreshId();
    res := SaveObj(db, true, id, r, today);
  }

  /** The owner of the stored row `pk` of one model, or None when there is
      no such row (`objects.get(pk=...)` then raises `DoesNotExist`). */
  function StoredOwner(t: Tables, kind: Kind, pk: Id): (o: Option<Option<UserId>>)
    ensures o.Some? <==> Lookup(t, kind, pk).Some?
    ensures o.Some? ==> o.value == Owner(Lookup(t, kind, pk).value)
  {
    var row := Lookup(t, kind, pk);
    if row.Some? then Some(Owner(row.value)) else None
  }

  /** `update_by`: refuse an unsaved instance, one the requester does not
      own and one whose stored row the requester does not own, then save. */
  method UpdateBy(db: Database, adding: bool, pk: Id, r: Record, requester: Option<UserId>, today: ValidDate)
    returns (res: Result<Record>)
    requires db.Valid()
    modifies db
    ensures db.nextId == old(db.nextId) && db.Valid()
    ensures var gate := UpdateGate(adding, Owner(r), requester, StoredOwner(old(db.State()), KindOf(r), pk));
      && (gate.Fail? ==> res == Err(gate.error) && db.State() == old(db.State()))
      && (gate.Pass? ==>
            && Lookup(old(db.State()), KindOf(r), pk).Some?
            && var spec := SaveObjSpec(old(db.State()), old(db.nextId), false, pk, r, today);
               && (res.Ok? <==> spec.Ok?)
               && (res.Ok? ==> db.State() == spec.value && Lookup(db.State(), KindOf(r), pk) == Some(res.value))
               && (res.Err? ==> res.error == spec.error && db.State() == old(db.State())))
  {
    var gate := UpdateGate(adding, Owner(r), requester, StoredOwner(db.State(), KindOf(r), pk));
    if gate.Fail? {
      return Err(gate.error);
    }
    StoredKeyBelow(db.State(), db.nextId, KindOf(r), pk);
    res := SaveObj(db, false, pk, r, today);
  }

  /** What deleting the row `pk` through the instance `r` does: the row
      goes (with SET_NULL on the rows that referred to it) and, for a
      transaction, the report of the instance's month is marked dirty by
      `post_delete`. The fund account balance is not given back. */
  function DeleteSpec(t: Tables, bound: nat, pk: Id, r: Record): Tables
  {
    var u := Remove(t, KindOf(r), pk);
    if r.TransactionRecord? then
      var x := r.transaction;
      u.(reports := Signals.MarkDirty(u.reports, x.user, x.date.year, x.date.month, bound))
    else u
  }

  /** Deleting removes exactly the row `pk` from its table, leaves the
      currencies alone, and for a transaction leaves every fund account as
      it was and every report in place. */
  lemma DeleteRemovesTheRow(t: Tables, bound: nat, pk: Id, r: Record)
    ensures Table(DeleteSpec(t, bound, pk, r), KindOf(r)).Keys == Table(t, KindOf(r)).Keys - {pk}
    ensures DeleteSpec(t, bound, pk, r).currencies == t.currencies
    ensures r.TransactionRecord? ==>
      var u := DeleteSpec(t, bound, pk, r);
      u.accounts == t.accounts && u.reports.Keys == t.reports.Keys
  {
    RemoveDeletesOneRow(t, KindOf(r), pk);
    var u := Remove(t, KindOf(r), pk);
    if r.TransactionRecord? {
      var marked := DeleteSpec(t, bound, pk, r);
      SameOutsideTables(u, marked, {ReportKind}, TransactionKind);
    }
  }

  /** `delete_by`: refuse an unsaved instance, one the requester does not
      own and one whose stored row the requester does not own, then
      delete. */
  method DeleteBy(db: Database, adding: bool, pk: Id, r: Record, requester: Option<UserId>) returns (res: Outcome)
    requires db.Valid()
    modifies db
    ensures db.nextId == old(db.nextId) && db.Valid()
    ensures var gate := DeleteGate(adding, Owner(r), requester, StoredOwner(old(db.State()), KindOf(r), pk));
      && (res == gate)
      && (gate.Fail? ==> db.State() == old(db.State()))
      && (gate.Pass? ==> db.State() == DeleteSpec(old(db.State()), old(db.nextId), pk, r))
  {
    var gate := DeleteGate(adding, Owner(r), requester, StoredOwner(db.State(), KindOf(r), pk));
    if gate.Fail? {
      return gate;
    }
    RemoveKeepsValid(db.State(), db.nextId, KindOf(r), pk);
    db.SetState(Remove(db.State(), KindOf(r), pk));
    if r.TransactionRecord? {
      Signals.MarkReportDirtyOnTransactionChange(db, r.transaction.user, r.transaction.date);
    }
    res := Pass;
  }
}
