/**
 * The database the domain layer reads and writes: one table per model,
 * keyed by primary key. Owned rows get their keys from a counter; the
 * currencies are keyed by their code.
 */
module Store {
  import opened Common
  import opened CurrencyModel
  import opened FundAccountModel
  import opened CategoryModel
  import opened TagModel
  import opened TransactionModel
  import opened ShortcutModel
  import opened ReportModel
  import opened LoanModel

  /** The contents of every table. */
  datatype Tables = Tables(
    currencies: map<string, Currency>,
    accounts: map<Id, FundAccount>,
    categories: map<Id, Category>,
    tags: map<Id, Tag>,
    transactions: map<Id, Transaction>,
    shortcuts: map<Id, Shortcut>,
    reports: map<Id, Report>,
    loans: map<Id, Loan>)

  /** Every owned row has a key below `bound`, the next key to hand out. */
  predicate KeysBelow(t: Tables, bound: nat)
  {
    && (forall k :: k in t.accounts ==> k < bound)
    && (forall k :: k in t.categories ==> k < bound)
    && (forall k :: k in t.tags ==> k < bound)
    && (forall k :: k in t.transactions ==> k < bound)
    && (forall k :: k in t.shortcuts ==> k < bound)
    && (forall k :: k in t.reports ==> k < bound)
    && (forall k :: k in t.loans ==> k < bound)
  }

  /** The category and fund account a transaction refers to exist. */
  predicate TransactionRefsValid(x: Transaction, t: Tables)
  {
    && (x.category.Some? ==> x.category.value in t.categories)
    && (x.fundAccount.Some? ==> x.fundAccount.value in t.accounts)
  }

  /** The category and fund account a shortcut refers to exist. */
  predicate ShortcutRefsValid(s: Shortcut, t: Tables)
  {
    && (s.category.Some? ==> s.category.value in t.categories)
    && (s.fundAccount.Some? ==> s.fundAccount.value in t.accounts)
  }

  /** The foreign keys that may dangle once a row is deleted point to
      existing rows: the database's foreign-key constraints. */
  predicate RefsValid(t: Tables)
  {
    && (forall k :: k in t.transactions ==> TransactionRefsValid(t.transactions[k], t))
    && (forall k :: k in t.shortcuts ==> ShortcutRefsValid(t.shortcuts[k], t))
  }

  /** What the database keeps true of its tables. */
  predicate TablesValid(t: Tables, bound: nat)
  {
    KeysBelow(t, bound) && RefsValid(t) && MonthsValid(t.reports)
  }

  /** The owned models. */
  datatype Kind = AccountKind | CategoryKind | TagKind | TransactionKind | ShortcutKind | ReportKind | LoanKind

  /** A row of one of the owned models. */
  datatype Record =
    | AccountRecord(account: FundAccount)
    | CategoryRecord(category: Category)
    | TagRecord(tag: Tag)
    | TransactionRecord(transaction: Transaction)
    | ShortcutRecord(shortcut: Shortcut)
    | ReportRecord(report: Report)
    | LoanRecord(loan: Loan)

  function KindOf(r: Record): Kind
  {
    match r
    case AccountRecord(_) => AccountKind
    case CategoryRecord(_) => CategoryKind
    case TagRecord(_) => TagKind
    case TransactionRecord(_) => TransactionKind
    case ShortcutRecord(_) => ShortcutKind
    case ReportRecord(_) => ReportKind
    case LoanRecord(_) => LoanKind
  }

  /** `OwnedModel.owner`: the value of the `user` field. */
  function Owner(r: Record): Option<UserId>
  {
    match r
    case AccountRecord(a) => a.user
    case CategoryRecord(c) => c.user
    case TagRecord(g) => g.user
    case TransactionRecord(x) => x.user
    case ShortcutRecord(s) => s.user
    case ReportRecord(p) => p.user
    case LoanRecord(l) => l.user
  }

  /** The table of one model, its rows seen as records. */
  function Table(t: Tables, kind: Kind): (m: map<Id, Record>)
    ensures forall k :: k in m ==> KindOf(m[k]) == kind
  {
    match kind
    case AccountKind => map k | k in t.accounts :: AccountRecord(t.accounts[k])
    case CategoryKind => map k | k in t.categories :: CategoryRecord(t.categories[k])
    case TagKind => map k | k in t.tags :: TagRecord(t.tags[k])
    case TransactionKind => map k | k in t.transactions :: TransactionRecord(t.transactions[k])
    case ShortcutKind => map k | k in t.shortcuts :: ShortcutRecord(t.shortcuts[k])
    case ReportKind => map k | k in t.reports :: ReportRecord(t.reports[k])
    case LoanKind => map k | k in t.loans :: LoanRecord(t.loans[k])
  }

  /** `objects.get(pk=id)` on one model's table. */
  function Lookup(t: Tables, kind: Kind, id: Id): (r: Option<Record>)
    ensures r.Some? <==> id in Table(t, kind)
    ensures r.Some? ==> r.value == Table(t, kind)[id]
  {
    match kind
    case AccountKind => if id in t.accounts then Some(AccountRecord(t.accounts[id])) else None
    case CategoryKind => if id in t.categories then Some(CategoryRecord(t.categories[id])) else None
    case TagKind => if id in t.tags then Some(TagRecord(t.tags[id])) else None
    case TransactionKind => if id in t.transactions then Some(TransactionRecord(t.transactions[id])) else None
    case ShortcutKind => if id in t.shortcuts then Some(ShortcutRecord(t.shortcuts[id])) else None
    case ReportKind => if id in t.reports then Some(ReportRecord(t.reports[id])) else None
    case LoanKind => if id in t.loans then Some(LoanRecord(t.loans[id])) else None
  }

  /** Writing a row: an insert or a full update of the row `id`. */
  function Put(t: Tables, id: Id, r: Record): (u: Tables)
    ensures Lookup(u, KindOf(r), id) == Some(r)
  {
    match r
    case AccountRecord(a) => t.(accounts := t.accounts[id := a])
    case CategoryRecord(c) => t.(categories := t.categories[id := c])
    case TagRecord(g) => t.(tags := t.tags[id := g])
    case TransactionRecord(x) => t.(transactions := t.transactions[id := x])
    case ShortcutRecord(s) => t.(shortcuts := t.shortcuts[id := s])
    case ReportRecord(p) => t.(reports := t.reports[id := p])
    case LoanRecord(l) => t.(loans := t.loans[id := l])
  }

  /** Writing a row touches its own table only, and only that row. */
  lemma PutTouchesOneRow(t: Tables, id: Id, r: Record, kind: Kind, k: Id)
    requires kind != KindOf(r) || k != id
    ensures Lookup(Put(t, id, r), kind, k) == Lookup(t, kind, k)
  {
  }

  /** `on_delete=SET_NULL` for the transactions and shortcuts of a deleted
      fund account. */
  function ClearAccount(t: Tables, id: Id): (u: Tables)
    ensures u.(transactions := t.transactions, shortcuts := t.shortcuts) == t
    ensures u.transactions.Keys == t.transactions.Keys && u.shortcuts.Keys == t.shortcuts.Keys
    ensures forall k :: k in u.transactions ==> u.transactions[k].fundAccount != Some(id)
    ensures forall k :: k in u.shortcuts ==> u.shortcuts[k].fundAccount != Some(id)
    ensures forall k :: k in t.transactions && t.transactions[k].fundAccount != Some(id)
                        ==> u.transactions[k] == t.transactions[k]
    ensures forall k :: k in t.shortcuts && t.shortcuts[k].fundAccount != Some(id)
                        ==> u.shortcuts[k] == t.shortcuts[k]
  {
    t.(transactions := map k | k in t.transactions ::
         if t.transactions[k].fundAccount == Some(id) then t.transactions[k].(fundAccount := None)
         else t.transactions[k],
       shortcuts := map k | k in t.shortcuts ::
         if t.shortcuts[k].fundAccount == Some(id) then t.shortcuts[k].(fundAccount := None)
         else t.shortcuts[k])
  }

  /** `on_delete=SET_NULL` for the transactions and shortcuts of a deleted
      category. */
  function ClearCategory(t: Tables, id: Id): (u: Tables)
    ensures u.(transactions := t.transactions, shortcuts := t.shortcuts) == t
    ensures u.transactions.Keys == t.transactions.Keys && u.shortcuts.Keys == t.shortcuts.Keys
    ensures forall k :: k in u.transactions ==> u.transactions[k].category != Some(id)
    ensures forall k :: k in u.shortcuts ==> u.shortcuts[k].category != Some(id)
    ensures forall k :: k in t.transactions && t.transactions[k].category != Some(id)
                        ==> u.transactions[k] == t.transactions[k]
    ensures forall k :: k in t.shortcuts && t.shortcuts[k].category != Some(id)
                        ==> u.shortcuts[k] == t.shortcuts[k]
  {
    t.(transactions := map k | k in t.transactions ::
         if t.transactions[k].category == Some(id) then t.transactions[k].(category := None)
         else t.transactions[k],
       shortcuts := map k | k in t.shortcuts ::
         if t.shortcuts[k].category == Some(id) then t.shortcuts[k].(category := None)
         else t.shortcuts[k])
  }

  /** `Model.delete()` of the row `id` of one model: the row goes, and the
      rows that referred to a deleted fund account or category lose the
      reference. */
  function Remove(t: Tables, kind: Kind, id: Id): (u: Tables)
  {
    match kind
    case AccountKind => ClearAccount(t.(accounts := t.accounts - {id}), id)
    case CategoryKind => ClearCategory(t.(categories := t.categories - {id}), id)
    case TagKind => t.(tags := t.tags - {id})
    case TransactionKind => t.(transactions := t.transactions - {id})
    case ShortcutKind => t.(shortcuts := t.shortcuts - {id})
    case ReportKind => t.(reports := t.reports - {id})
    case LoanKind => t.(loans := t.loans - {id})
  }

  /** Deleting removes exactly the row `id` of its table; every other
      table keeps its keys, and rows of other models change only by losing
      the reference to the deleted row. */
  lemma RemoveDeletesOneRow(t: Tables, kind: Kind, id: Id)
    ensures Table(Remove(t, kind, id), kind).Keys == Table(t, kind).Keys - {id}
    ensures forall other :: other != kind ==> Table(Remove(t, kind, id), other).Keys == Table(t, other).Keys
    ensures Remove(t, kind, id).currencies == t.currencies
  {
    var u := Remove(t, kind, id);
    forall other | other != kind
      ensures Table(u, other).Keys == Table(t, other).Keys
    {
      match other
      case TransactionKind =>
        assert u.transactions.Keys == t.transactions.Keys;
      case ShortcutKind =>
        assert u.shortcuts.Keys == t.shortcuts.Keys;
      case _ =>
    }
  }

  /** Deleting a fund account leaves no transaction or shortcut referring
      to it. */
  lemma RemoveAccountKeepsValid(t: Tables, bound: nat, id: Id)
    requires TablesValid(t, bound)
    ensures TablesValid(Remove(t, AccountKind, id), bound)
  {
    var u := Remove(t, AccountKind, id);
    forall k | k in u.transactions ensures TransactionRefsValid(u.transactions[k], u) {
      assert k in t.transactions && TransactionRefsValid(t.transactions[k], t);
    }
    forall k | k in u.shortcuts ensures ShortcutRefsValid(u.shortcuts[k], u) {
      assert k in t.shortcuts && ShortcutRefsValid(t.shortcuts[k], t);
    }
  }

  /** Deleting a category leaves no transaction or shortcut referring to it. */
  lemma RemoveCategoryKeepsValid(t: Tables, bound: nat, id: Id)
    requires TablesValid(t, bound)
    ensures TablesValid(Remove(t, CategoryKind, id), bound)
  {
    var u := Remove(t, CategoryKind, id);
    forall k | k in u.transactions ensures TransactionRefsValid(u.transactions[k], u) {
      assert k in t.transactions && TransactionRefsValid(t.transactions[k], t);
    }
    forall k | k in u.shortcuts ensures ShortcutRefsValid(u.shortcuts[k], u) {
      assert k in t.shortcuts && ShortcutRefsValid(t.shortcuts[k], t);
    }
  }

  /** Deleting any other row removes nothing a reference can point to. */
  lemma RemoveUnreferencedKeepsValid(t: Tables, bound: nat, kind: Kind, id: Id)
    requires TablesValid(t, bound)
    requires kind != AccountKind && kind != CategoryKind
    ensures TablesValid(Remove(t, kind, id), bound)
  {
    var u := Remove(t, kind, id);
    assert u.accounts == t.accounts && u.categories == t.categories;
    forall k | k in u.transactions ensures TransactionRefsValid(u.transactions[k], u) {
      assert TransactionRefsValid(t.transactions[k], t);
    }
    forall k | k in u.shortcuts ensures ShortcutRefsValid(u.shortcuts[k], u) {
      assert ShortcutRefsValid(t.shortcuts[k], t);
    }
  }

  /** Deleting keeps the database's invariant: no reference is left
      dangling. */
  lemma RemoveKeepsValid(t: Tables, bound: nat, kind: Kind, id: Id)
    requires TablesValid(t, bound)
    ensures TablesValid(Remove(t, kind, id), bound)
  {
    match kind
    case AccountKind => RemoveAccountKeepsValid(t, bound, id);
    case CategoryKind => RemoveCategoryKeepsValid(t, bound, id);
    case _ => RemoveUnreferencedKeepsValid(t, bound, kind, id);
  }


  /** The database: its tables, and the counter that hands out keys. */
  class Database {
    var currencies: map<string, Currency>
    var accounts: map<Id, FundAccount>
    var categories: map<Id, Category>
    var tags: map<Id, Tag>
    var transactions: map<Id, Transaction>
    var shortcuts: map<Id, Shortcut>
    var reports: map<Id, Report>
    var loans: map<Id, Loan>
    var nextId: nat

    /** The contents of every table. */
    function State(): Tables
      reads this
    {
      Tables(currencies, accounts, categories, tags, transactions, shortcuts, reports, loans)
    }

    ghost predicate Valid()
      reads this
    {
      TablesValid(State(), nextId)
    }

    /** An empty database. */
    constructor ()
      ensures State() == Tables(map[], map[], map[], map[], map[], map[], map[], map[])
      ensures nextId == 0
      ensures Valid()
    {
      currencies, accounts, categories, tags := map[], map[], map[], map[];
      transactions, shortcuts, reports, loans := map[], map[], map[], map[];
      nextId := 0;
    }

    /** Writes the tables of `t` back into the database. */
    method SetState(t: Tables)
      modifies this
      ensures State() == t && nextId == old(nextId)
    {
      currencies, accounts, categories, tags := t.currencies, t.accounts, t.categories, t.tags;
      transactions, shortcuts, reports, loans := t.transactions, t.shortcuts, t.reports, t.loans;
    }

    /** Draws a fresh primary key (the `default=uuid.uuid4` of the owned
        models). */
    method FreshId() returns (id: Id)
      requires Valid()
      modifies this
      ensures id == old(nextId) && nextId == old(nextId) + 1
      ensures State() == old(State()) && Valid()
      ensures forall kind :: id !in Table(State(), kind)
    {
      id := nextId;
      nextId := nextId + 1;
    }
  }
}
