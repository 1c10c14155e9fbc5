/**
 * `balance_updater`, the wrapper around `Transaction.save`: inside one
 * database transaction it saves the row, takes the effect of the stored
 * version off its fund account, checks the balance against the new amount
 * and applies the new effect. A failure undoes everything.
 */
module CustomWrappers {
  import opened Common
  import opened FundAccountModel
  import opened TransactionModel
  import opened Store
  import opened Signals

  const InsufficientBalanceMessage: string := "Insufficient Balance"

  /** Reading `.pk` of a fund account that is NULL. */
  const NoPkMessage: string := "'NoneType' object has no attribute 'pk'"

  /** Reading `.balance` of a fund account that is NULL. */
  const NoBalanceMessage: string := "'NoneType' object has no attribute 'balance'"

  /** Every fund account a transaction refers to exists. */
  predicate AccountKnown(accounts: map<Id, FundAccount>, t: Transaction)
  {
    t.fundAccount.Some? ==> t.fundAccount.value in accounts
  }

  /** The balance the amount is checked against: the new account's
      balance, less the stored version's effect when that version used the
      same account. */
  function WorkingBalance(accounts: map<Id, FundAccount>, prior: Option<Transaction>, t: Transaction): int
    requires t.fundAccount.Some? && t.fundAccount.value in accounts
    requires prior.Some? ==> prior.value.fundAccount.Some?
  {
    var k := t.fundAccount.value;
    if prior.Some? && prior.value.fundAccount == t.fundAccount then
      accounts[k].balance - Effect(prior.value.kind, prior.value.amount)
    else accounts[k].balance
  }

  /** What `balance_updater` does to the fund accounts when `t` is saved
      and `prior` is the stored version it replaces (None on creation). */
  function Rebalance(accounts: map<Id, FundAccount>, prior: Option<Transaction>, t: Transaction)
    : (r: Result<map<Id, FundAccount>>)
    requires AccountKnown(accounts, t)
    requires prior.Some? ==> AccountKnown(accounts, prior.value)
    // A missing fund account, old or new, is dereferenced.
    ensures prior.Some? && (prior.value.fundAccount.None? || t.fundAccount.None?)
      ==> r == Err(AttributeError(NoPkMessage))
    ensures prior.None? && t.fundAccount.None? ==> r == Err(AttributeError(NoBalanceMessage))
    // Otherwise the check passes exactly when the working balance covers
    // the amount, whatever the type.
    ensures t.fundAccount.Some? && (prior.Some? ==> prior.value.fundAccount.Some?) ==>
      && (r.Ok? <==> WorkingBalance(accounts, prior, t) >= t.amount)
      && (r.Err? ==> r.error == ValidationError("amount", InsufficientBalanceMessage))
    // Only balances change, and only those of the old and the new account.
    ensures r.Ok? ==> r.value.Keys == accounts.Keys
    ensures r.Ok? ==> forall k :: k in accounts ==> r.value[k].(balance := accounts[k].balance) == accounts[k]
    ensures r.Ok? ==> forall k :: k in accounts && Some(k) != t.fundAccount
                                  && (prior.None? || Some(k) != prior.value.fundAccount)
                                  ==> r.value[k] == accounts[k]
    // Creation applies the effect.
    ensures r.Ok? && prior.None? ==> var k := t.fundAccount.value;
      r.value[k].balance == accounts[k].balance + Effect(t.kind, t.amount)
    // An update on the same account takes the old effect off and applies the new one.
    ensures r.Ok? && prior.Some? && prior.value.fundAccount == t.fundAccount ==> var k := t.fundAccount.value;
      r.value[k].balance == accounts[k].balance - Effect(prior.value.kind, prior.value.amount) + Effect(t.kind, t.amount)
    // Moving to another account restores the old one and charges the new one.
    ensures r.Ok? && prior.Some? && prior.value.fundAccount != t.fundAccount ==>
      var k0 := prior.value.fundAccount.value; var k := t.fundAccount.value;
      && r.value[k0].balance == accounts[k0].balance - Effect(prior.value.kind, prior.value.amount)
      && r.value[k].balance == accounts[k].balance + Effect(t.kind, t.amount)
    // A debit never overdraws.
    ensures r.Ok? && t.kind == Debit ==> r.value[t.fundAccount.value].balance >= 0
  {
    if prior.Some? && (prior.value.fundAccount.None? || t.fundAccount.None?) then Err(AttributeError(NoPkMessage))
    else if t.fundAccount.None? then Err(AttributeError(NoBalanceMessage))
    else
      var k := t.fundAccount.value;
      var reverted :=
        if prior.Some? && prior.value.fundAccount != t.fundAccount then
          var k0 := prior.value.fundAccount.value;
          accounts[k0 := accounts[k0].(balance := accounts[k0].balance - Effect(prior.value.kind, prior.value.amount))]
        else accounts;
      var working := WorkingBalance(accounts, prior, t);
      if working < t.amount then Err(ValidationError("amount", InsufficientBalanceMessage))
      else Ok(reverted[k := reverted[k].(balance := working + Effect(t.kind, t.amount))])
  }

  /** Saving a transaction again unchanged leaves every balance as it was
      (when the balance check passes). */
  lemma ResaveKeepsBalances(accounts: map<Id, FundAccount>, t: Transaction)
    requires AccountKnown(accounts, t)
    requires Rebalance(accounts, Some(t), t).Ok?
    ensures Rebalance(accounts, Some(t), t).value == accounts
  {
    var r := Rebalance(accounts, Some(t), t).value;
    assert forall k :: k in accounts ==> r[k] == accounts[k];
  }

  /** The balances depend on the current version of a transaction only: an
      update after a creation leaves the accounts as creating the updated
      version directly would. */
  lemma UpdateAsIfCreated(accounts: map<Id, FundAccount>, first: Transaction, second: Transaction)
    requires AccountKnown(accounts, first) && AccountKnown(accounts, second)
    requires Rebalance(accounts, None, first).Ok?
    requires Rebalance(Rebalance(accounts, None, first).value, Some(first), second).Ok?
    ensures Rebalance(accounts, None, second) == Rebalance(Rebalance(accounts, None, first).value, Some(first), second)
  {
    var a1 := Rebalance(accounts, None, first).value;
    var k1 := first.fundAccount.value;
    var k := second.fundAccount.value;
    assert a1 == accounts[k1 := accounts[k1].(balance := accounts[k1].balance + Effect(first.kind, first.amount))];
    assert WorkingBalance(a1, Some(first), second) == accounts[k].balance;
    if k1 != k {
      assert a1[k1 := a1[k1].(balance := a1[k1].balance - Effect(first.kind, first.amount))] == accounts;
    } else {
      assert a1[k1 := a1[k1].(balance := accounts[k].balance + Effect(second.kind, second.amount))]
          == accounts[k := accounts[k].(balance := accounts[k].balance + Effect(second.kind, second.amount))];
    }
  }

  /** What saving `t` as the row `pk` does to the database: the pre-save
      and post-save handlers mark reports dirty, the row is written, and the
      fund accounts are rebalanced; a failure anywhere leaves everything as
      it was. */
  function SaveTransactionSpec(t0: Tables, bound: nat, adding: bool, pk: Id, t: Transaction): (r: Result<Tables>)
    requires RefsValid(t0) && TransactionRefsValid(t, t0)
    ensures !adding && pk !in t0.transactions ==> r == Err(DoesNotExist)
    ensures r.Ok? ==> r.value.transactions == t0.transactions[pk := TransactionModel.Normalise(t)]
    ensures r.Ok? ==> r.value.(accounts := t0.accounts, transactions := t0.transactions, reports := t0.reports) == t0
    ensures r.Ok? ==> r.value.accounts.Keys == t0.accounts.Keys && r.value.reports.Keys == t0.reports.Keys
  {
    if !adding && pk !in t0.transactions then Err(DoesNotExist)
    else
      var prior := if adding then None else Some(t0.transactions[pk]);
      var trx := TransactionModel.Normalise(t);
      var reports := MarkDirtyOnUpdate(t0.reports, t0.transactions, pk, trx, bound);
      var reports' := MarkDirty(reports, trx.user, trx.date.year, trx.date.month, bound);
      var balances := Rebalance(t0.accounts, prior, trx);
      if balances.Err? then Err(balances.error)
      else Ok(t0.(accounts := balances.value, transactions := t0.transactions[pk := trx], reports := reports'))
  }

  /** Writing a transaction whose references exist keeps the database valid. */
  lemma WriteTransactionKeepsValid(t: Tables, bound: nat, pk: Id, x: Transaction)
    requires TablesValid(t, bound) && pk < bound && TransactionRefsValid(x, t)
    ensures TablesValid(t.(transactions := t.transactions[pk := x]), bound)
  {
    var u := t.(transactions := t.transactions[pk := x]);
    forall k | k in u.transactions ensures TransactionRefsValid(u.transactions[k], u) {
      if k != pk {
        assert TransactionRefsValid(t.transactions[k], t);
      }
    }
    forall k | k in u.shortcuts ensures ShortcutRefsValid(u.shortcuts[k], u) {
      assert ShortcutRefsValid(t.shortcuts[k], t);
    }
  }

  /** Changing account rows without adding or removing any keeps the
      database valid. */
  lemma AccountsKeepValid(t: Tables, bound: nat, accounts: map<Id, FundAccount>)
    requires TablesValid(t, bound) && accounts.Keys == t.accounts.Keys
    ensures TablesValid(t.(accounts := accounts), bound)
  {
    var u := t.(accounts := accounts);
    forall k | k in u.transactions ensures TransactionRefsValid(u.transactions[k], u) {
      assert TransactionRefsValid(t.transactions[k], t);
    }
    forall k | k in u.shortcuts ensures ShortcutRefsValid(u.shortcuts[k], u) {
      assert ShortcutRefsValid(t.shortcuts[k], t);
    }
  }

  /** The body of `balance_updater` after the wrapped save: revert the
      stored version, check the balance, apply the new version. On failure
      the accounts may be half updated; the caller rolls back. */
  method UpdateBalances(db: Database, oldTrx: Option<Transaction>, trx: Transaction) returns (r: Outcome)
    requires AccountKnown(db.accounts, trx)
    requires oldTrx.Some? ==> AccountKnown(db.accounts, oldTrx.value)
    modifies db
    ensures db.State() == old(db.State()).(accounts := db.accounts) && db.nextId == old(db.nextId)
    ensures db.accounts.Keys == old(db.accounts).Keys
    ensures var spec := Rebalance(old(db.accounts), oldTrx, trx);
      && (r.Pass? <==> spec.Ok?)
      && (r.Pass? ==> db.accounts == spec.value)
      && (r.Fail? ==> r.error == spec.error)
  {
    if oldTrx.Some? && (oldTrx.value.fundAccount.None? || trx.fundAccount.None?) {
      return Fail(AttributeError(NoPkMessage));
    }
    if trx.fundAccount.None? {
      return Fail(AttributeError(NoBalanceMessage));
    }
    var latest := trx.fundAccount.value;
    var balance := db.accounts[latest].balance;
    if oldTrx.Some? {
      var previous := oldTrx.value;
      var oldAccount := previous.fundAccount.value;
      if oldAccount != latest {
        var account := db.accounts[oldAccount];
        if previous.kind == Credit {
          account := account.(balance := account.balance - previous.amount);
        } else {
          account := account.(balance := account.balance + previous.amount);
        }
        db.accounts := db.accounts[oldAccount := account];
      } else {
        if previous.kind == Credit {
          balance := balance - previous.amount;
        } else {
          balance := balance + previous.amount;
        }
      }
    }
    if balance < trx.amount {
      return Fail(ValidationError("amount", InsufficientBalanceMessage));
    }
    if trx.kind == Credit {
      balance := balance + trx.amount;
    } else {
      balance := balance - trx.amount;
    }
    db.accounts := db.accounts[latest := db.accounts[latest].(balance := balance)];
    r := Pass;
  }

  /** `Transaction.save` wrapped by `balance_updater`, on the row `pk`
      (`adding` tells whether the instance is new). */
  method SaveTransaction(db: Database, adding: bool, pk: Id, t: Transaction) returns (r: Result<Transaction>)
    requires db.Valid()
    requires pk < db.nextId
    requires adding ==> pk !in db.transactions
    requires TransactionRefsValid(t, db.State())
    modifies db
    ensures db.nextId == old(db.nextId) && db.Valid()
    ensures var spec := SaveTransactionSpec(old(db.State()), old(db.nextId), adding, pk, t);
      && (r.Ok? <==> spec.Ok?)
      && (r.Ok? ==> r.value == TransactionModel.Normalise(t) && db.State() == spec.value)
      && (r.Err? ==> r.error == spec.error && db.State() == old(db.State()))
  {
    var savepoint := db.State();
    var oldTrx: Option<Transaction> := None;
    if !adding {
      if pk !in db.transactions {
        return Err(DoesNotExist);
      }
      oldTrx := Some(db.transactions[pk]);
    }
    // The wrapped save: strip the description, run the pre-save handler,
    // write the row, run the post-save handler.
    var trx := TransactionModel.Normalise(t);
    MarkReportDirtyOnTransactionUpdate(db, pk, trx);
    WriteTransactionKeepsValid(db.State(), db.nextId, pk, trx);
    db.transactions := db.transactions[pk := trx];
    MarkReportDirtyOnTransactionChange(db, trx.user, trx.date);
    ghost var saved := db.State();
    var outcome := UpdateBalances(db, oldTrx, trx);
    if outcome.Fail? {
      db.SetState(savepoint);
      return Err(outcome.error);
    }
    AccountsKeepValid(saved, db.nextId, db.accounts);
    r := Ok(trx);
  }
}
