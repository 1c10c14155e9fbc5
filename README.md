# Expense tracker domain layer, in Dafny

This project models the domain layer of a Django expense-tracker backend (`app_expenses/`) and proves properties of that model. The layer covers:

- the user-owned records: fund accounts, categories, tags, transactions, shortcuts, monthly reports and loans;
- the shared currency table;
- the ownership gate every owned record passes through (`OwnedModel`);
- the bookkeeping that keeps fund-account balances in step with transactions (`balance_updater`);
- the signal handlers that derive state: loan completion, report totals, and dirty reports;
- the date and year validators.

The database is a `Store.Database` object. Each table is a map from keys to records, and methods update the tables in place. Keys are natural numbers drawn from a counter; the source uses UUIDs. Money is counted in integer cents. A loan's interest rate is counted in hundredths of a percent. The current date is a parameter (`today`). A Django `ValidationError`, `PermissionDenied`, `DoesNotExist` or `AttributeError` is a value of `Common.Error`. An operation that can raise returns a `Result` or an `Outcome`. When an operation fails inside the atomic block of `balance_updater`, the database is restored to the state it had before the operation.

Modules follow the source files:

- `Common`: Python's `strip()`/`upper()` and the `iexact` comparison;
- `Calendar`: Gregorian dates;
- `CustomValidators`;
- `OwnedModel`: the ownership checks, `_clean_string_value` and the permission gates;
- one module per model;
- `Store`: the tables and the `Database` class;
- `Signals`;
- `CustomWrappers`: `balance_updater`;
- `OwnedStore`: `save_obj`, `create_by`, `update_by` and `delete_by` acting on the database.

Behaviours of the source that the model keeps, and that a reader might not expect:

- The balance check `balance < amount` applies to credits as well as debits.
- Moving a credit to another account takes the credit off the old account without any check, so the old account can become negative.
- Deleting a transaction gives nothing back to its fund account. It only marks the report of its month dirty.
- `create_by` checks ownership before it assigns the requester as owner, so a record without an owner is always refused. The owner assignment at `owned_model.py:50-51` never runs (`OwnedModel.CreateGate`).
- Through `save_obj`, a name made only of whitespace has already been stripped to "" by the time `clean()` runs. It is therefore reported as "Name is required." and never as "Name cannot be blank or whitespace." (`OwnedStore.BlankNameReportedAsRequired`).
- `_clean_string_value` reads every field, including the foreign keys. An unset non-null foreign key raises `DoesNotExist` there, before `full_clean` runs: the user of most models and the currency of a fund account (`OwnedStore.CleanStrings`).
- A report is marked dirty with `save(update_fields=['is_dirty'])`, so the totals that `calculate_total` computes on the way are not written. Nothing ever clears `is_dirty`.

## Model

| member | source | states |
|---|---|---|
| Common.Strip | app_expenses/models/owned_model.py:33 | `str.strip()`: the result has no whitespace at either end, is no longer than the input, and is empty exactly when the input is all whitespace |
| Common.StripIsInfix | app_expenses/models/owned_model.py:33 | the stripped text is the input with a whitespace-only prefix and a whitespace-only suffix cut off; with the shape `Strip` states, this is `str.strip()` exactly |
| Common.StripIdempotent | app_expenses/models/owned_model.py:33 | stripping twice is stripping once |
| Common.RequireText | app_expenses/models/currency_model.py:22-35 | the "required, then not blank" check: passes exactly when the value is not all whitespace; "" gets the required message, a whitespace-only value gets the blank message |
| Common.RequireName | app_expenses/models/fund_account_model.py:28-31 | the name check shared by the models: passes exactly when the name is not all whitespace, with the messages "Name is required." and "Name cannot be blank or whitespace." |
| Common.Upper | app_expenses/models/currency_model.py:43 | `str.upper()` on ASCII: same length, each character upper-cased, no lower-case letter left |
| Common.UpperIdempotent | app_expenses/models/currency_model.py:43 | upper-casing twice is upper-casing once |
| Common.StripUpperCommute | app_expenses/models/currency_model.py:43 | `s.strip().upper() == s.upper().strip()` |
| Calendar.DaysInMonth | app_expenses/signals.py:47-50 | every month has 28 to 31 days |
| CustomValidators.ValidateYear | app_expenses/custom_validators.py:8-10 | a year is accepted exactly when it lies between 2000 and the current year; otherwise the message is "Year cannot be less than 2000 or in future." |
| CustomValidators.ValidateOldestDate | app_expenses/custom_validators.py:17-19 | accepts exactly no date or a date on or after 2000-01-01 |
| CustomValidators.ValidateDate | app_expenses/custom_validators.py:12-15 | accepts exactly no date or a date from 2000-01-01 to today; a future date gets "Date cannot be in future." before the lower bound is checked |
| CustomValidators.DateBoundsAccepted | app_expenses/custom_validators.py:12-19 | both 2000-01-01 and today are accepted |
| OwnedModel.AssertOwnedBy | app_expenses/models/owned_model.py:18-27 | passes exactly when owner and requester are both set and equal (`is_owned_by`); otherwise it fails on the first of: no requester, predefined record, another owner, each with its message |
| OwnedModel.CleanText | app_expenses/models/owned_model.py:31-38 | one string field: the stripped value, or None exactly when the value was None, or was all whitespace in a field that is both `blank` and `null` |
| OwnedModel.CleanTextIdempotent | app_expenses/models/owned_model.py:29-38 | normalising a field twice is normalising it once |
| OwnedModel.CleanField | app_expenses/models/owned_model.py:30-38 | a non-string field is left alone; a string field is stripped, and emptied into None only when blank and null |
| OwnedModel.CleanedFields | app_expenses/models/owned_model.py:29-38 | the loop over `_meta.fields`: the same number of fields, and each one is the field in the same position after one iteration (`CleanField`) |
| OwnedModel.CleanedFieldsIdempotent | app_expenses/models/owned_model.py:29-38 | `_clean_string_value` applied twice equals applied once |
| OwnedModel.CleanStringValue | app_expenses/models/owned_model.py:29-38 | the loop over the model's fields leaves the array equal to the cleaned fields of the old array |
| OwnedModel.CreateGate | app_expenses/models/owned_model.py:46-52 | passes exactly for an unsaved instance owned by the requester; a saved instance gets "You cannot use this method to update data."; a record without owner always fails, so the owner assignment never changes the owner |
| OwnedModel.StoredOwnerGate | app_expenses/models/owned_model.py:57-62 | after `assert_owned_by`, a missing stored row raises DoesNotExist and a stored row of another owner gets "No permission to perform this action." |
| OwnedModel.UpdateGate | app_expenses/models/owned_model.py:54-62 | passes exactly for a saved instance whose instance and stored owners are the requester; an unsaved one gets "You cannot use this method to create data." |
| OwnedModel.DeleteGate | app_expenses/models/owned_model.py:65-73 | the same checks as for update, but an unsaved instance gets "Data does not exists." |
| OwnedModel.GetForUser | app_expenses/models/owned_model.py:76-86 | no requester fails; without an id, exactly the requester's rows are returned; with an id, the row is returned unless it has an owner other than the requester, and a missing row raises DoesNotExist |
| OwnedModel.ListingExcludesPredefined | app_expenses/models/owned_model.py:80-81 | a listing never contains a predefined row |
| OwnedModel.StoreKeepsNamesUnique | app_expenses/models/fund_account_model.py:18-20 | storing a row whose name no other row of its owner has, up to case, keeps every owner's names unique up to case |
| CurrencyModel.CheckUnique | app_expenses/models/currency_model.py:36-40 | a symbol clash (case-insensitive, after stripping, self excluded) is reported first; a name clash is reported under the "symbol" key |
| CurrencyModel.Clean | app_expenses/models/currency_model.py:19-40 | passes exactly when id, symbol and name are not blank and neither symbol nor name clashes; errors come in the order id, symbol, name, each "required" before "blank", then uniqueness |
| CurrencyModel.SymbolClashRefused | app_expenses/models/currency_model.py:37-38 | a symbol equal to another currency's up to case and blanks is refused with its message |
| CurrencyModel.Normalise | app_expenses/models/currency_model.py:42-46 | `save` stores `Strip` of the id upper-cased (no lower-case letter left), and `Strip` of the symbol and of the name |
| CurrencyModel.NormaliseIdempotent | app_expenses/models/currency_model.py:42-46 | saving a saved currency again stores the same values |
| FundAccountModel.NewFundAccount | app_expenses/models/fund_account_model.py:14 | a new account's balance defaults to 0 |
| FundAccountModel.Clean | app_expenses/models/fund_account_model.py:22-37 | passes exactly when the user is set, the name is not blank, the currency key is set and not empty (`if not self.currency_id`) and no other account of the same user has the name up to case; errors in that order |
| FundAccountModel.Normalise | app_expenses/models/fund_account_model.py:39-41 | `save` stores the name as `Strip` of the given name and keeps every other field |
| FundAccountModel.NormaliseIdempotent | app_expenses/models/fund_account_model.py:39-41 | saving twice stores the same name |
| FundAccountModel.SaveKeepsNamesUnique | app_expenses/models/fund_account_model.py:18-20 | storing an account that passed `clean` keeps account names unique per user up to case |
| FundAccountModel.OtherUsersDoNotClash | app_expenses/models/fund_account_model.py:36-37 | another user's account never makes a name clash |
| CategoryModel.Clean | app_expenses/models/category_model.py:18-32 | passes exactly when the user is set, the name is not blank, and the name clashes neither with a predefined category nor with another category of the user; the predefined clash is reported first |
| CategoryModel.Normalise | app_expenses/models/category_model.py:34-36 | `save` stores the name as `Strip` of the given name and keeps the owner |
| CategoryModel.NormaliseIdempotent | app_expenses/models/category_model.py:34-36 | saving twice stores the same name |
| CategoryModel.SaveKeepsNamesUnique | app_expenses/models/category_model.py:14-16 | storing a category that passed `clean` keeps names unique per user, and no predefined category has its name |
| TagModel.Clean | app_expenses/models/tag_model.py:18-30 | passes exactly when the user is set, the name is not blank and no other tag of the user has it up to case; errors in that order |
| TagModel.Normalise | app_expenses/models/tag_model.py:32-34 | `save` stores the name as `Strip` of the given name and keeps the owner |
| TagModel.NormaliseIdempotent | app_expenses/models/tag_model.py:32-34 | saving twice stores the same name |
| TagModel.SaveKeepsNamesUnique | app_expenses/models/tag_model.py:14-16 | storing a tag that passed `clean` keeps tag names unique per user up to case |
| TransactionModel.TypeValue | app_expenses/models/transaction_model.py:16-18 | the stored value of a type is "debit" or "credit" |
| TransactionModel.ParseType | app_expenses/models/transaction_model.py:16-18 | exactly "debit" and "credit" are accepted as types |
| TransactionModel.TypeRoundTrip | app_expenses/models/transaction_model.py:16-18 | parsing a type's value gives the type back, and every accepted string is a type's value |
| TransactionModel.Clean | app_expenses/models/transaction_model.py:38-55 | passes exactly when the user is set, the category is set, stored and the user's, the amount is not zero, and the fund account is set, stored and the user's; errors in that order, the missing category under "Category" |
| TransactionModel.PredefinedCategoryRejected | app_expenses/models/transaction_model.py:46-47 | a predefined category is refused with "Category does not belongs to you." |
| TransactionModel.Normalise | app_expenses/models/transaction_model.py:58-61 | `save` strips a non-empty description and changes nothing else |
| TransactionModel.NormaliseIdempotent | app_expenses/models/transaction_model.py:58-61 | saving twice stores the same description |
| TransactionModel.Effect | app_expenses/custom_wrappers.py:47-51 | a credit adds its amount to the balance and a debit subtracts it |
| ShortcutModel.NewShortcut | app_expenses/models/shortcut_model.py:17-18 | a new shortcut's amount defaults to 0 and its type to debit, with no category, fund account or description |
| ShortcutModel.CheckReferences | app_expenses/models/shortcut_model.py:42-50 | passes exactly when the category and the fund account are each unset, or stored and owned by the shortcut's user; errors in that order |
| ShortcutModel.Clean | app_expenses/models/shortcut_model.py:31-53 | passes exactly when the user is set, the name is not blank, the references pass and no other shortcut of the user has the name up to case; errors in that order |
| ShortcutModel.ReferencesOptional | app_expenses/models/shortcut_model.py:42-50 | a shortcut without category and fund account passes the reference checks |
| ShortcutModel.Normalise | app_expenses/models/shortcut_model.py:55-57 | `save` stores the name as `Strip` of the given name and keeps every other field |
| ShortcutModel.NormaliseIdempotent | app_expenses/models/shortcut_model.py:55-57 | saving twice stores the same name |
| ShortcutModel.SaveKeepsNamesUnique | app_expenses/models/shortcut_model.py:26 | storing a shortcut that passed `clean` keeps shortcut names unique per user up to case |
| ReportModel.NewReport | app_expenses/models/report_model.py:17-19 | a new report has zero totals and is not dirty |
| ReportModel.NetBalance | app_expenses/models/report_model.py:29-31 | net balance plus debits equals credits; it is non-negative exactly when credits cover debits |
| ReportModel.MonthName | app_expenses/models/report_model.py:33-35 | `calendar.month_name`: empty only for month 0 |
| ReportModel.NatStringRoundTrip | app_expenses/models/report_model.py:33-35 | the decimal digits written for a year read back as that year |
| ReportModel.MonthYear | app_expenses/models/report_model.py:33-35 | `month_year` is the month's name, a comma and a space, then the year |
| ReportModel.MonthYearNamesYear | app_expenses/models/report_model.py:33-35 | the year can be read back from `month_year` after the month's name and ", " |
| ReportModel.MonthYearInjective | app_expenses/models/report_model.py:33-35 | two reports of valid months with the same `month_year` text have the same month and the same year |
| ReportModel.Clean | app_expenses/models/report_model.py:37-50 | passes exactly when user, year and month are set and no other report of the user has the same year and month; errors in that order |
| ReportModel.SaveKeepsReportsUnique | app_expenses/models/report_model.py:23 | storing a report that passed `clean` keeps at most one report per user and month |
| LoanModel.TypeValue | app_expenses/models/loan_model.py:11-13 | the stored value of a loan type is "borrowed" or "lended" |
| LoanModel.ParseType | app_expenses/models/loan_model.py:11-13 | exactly "borrowed" and "lended" are accepted |
| LoanModel.TypeRoundTrip | app_expenses/models/loan_model.py:11-13 | parsing a type's value gives the type back, and every accepted string is a type's value |
| LoanModel.NewLoan | app_expenses/models/loan_model.py:18-27 | defaults: type borrowed, remaining amount 0, not completed, interest rate 0, no due date or description |
| LoanModel.CheckAmounts | app_expenses/models/loan_model.py:58-66 | passes exactly when the amount is not zero, the remaining amount does not exceed it, and a due date is not before the date; errors in that order |
| LoanModel.Clean | app_expenses/models/loan_model.py:45-66 | the first failure in the order user, party required, party blank, currency (an unset or empty key fails, as `if not self.currency_id`), amount, remaining amount, due date |
| LoanModel.SameDayDueDateAccepted | app_expenses/models/loan_model.py:65-66 | a due date equal to the loan's date is accepted |
| LoanModel.TotalPayable | app_expenses/models/loan_model.py:41-43 | with no interest it is the amount and at the maximum rate (100 percent) twice the amount; in between it never falls below the amount nor exceeds twice it |
| LoanModel.InterestAdditive | app_expenses/models/loan_model.py:41-43 | the interest (`total_payable - amount`) at rate a + b is the interest at a plus the interest at b, so with the two fixed points above it is `amount * rate / 100` percent |
| LoanModel.TotalPayableMonotone | app_expenses/models/loan_model.py:41-43 | a higher interest rate never lowers the total payable |
| LoanModel.Normalise | app_expenses/models/loan_model.py:68-70 | `save` stores the party as `Strip` of the given party and keeps every other field |
| LoanModel.NormaliseIdempotent | app_expenses/models/loan_model.py:68-70 | saving twice stores the same party |
| Store.Put | app_expenses/models/owned_model.py:43 | after a write, the row is found under its key |
| Store.PutTouchesOneRow | app_expenses/models/owned_model.py:43 | a write changes no other row of any table |
| Store.ClearAccount | app_expenses/models/transaction_model.py:25 | deleting a fund account sets the reference to NULL in exactly the transactions and shortcuts that had it, and changes nothing else |
| Store.ClearCategory | app_expenses/models/transaction_model.py:23 | the same for a deleted category |
| Store.RemoveDeletesOneRow | app_expenses/models/owned_model.py:74 | `delete()` removes exactly that key from its table and no key from any other table |
| Store.RemoveKeepsValid | app_expenses/models/owned_model.py:74 | deleting keeps every reference pointing to a stored row |
| Store.Database.FreshId | app_expenses/models/transaction_model.py:21 | a new key differs from every stored key, and no table changes |
| Signals.SyncCompletedAndRemaining | app_expenses/signals.py:40-45 | afterwards the loan is completed exactly when nothing remains; a completed loan stays completed; the remaining amount never grows; a loan with something remaining and not completed is unchanged; no other field changes |
| Signals.SyncIdempotent | app_expenses/signals.py:40-45 | synchronising twice is synchronising once |
| Signals.LastDayOfMonth | app_expenses/signals.py:47-50 | the last day of the month is a date of that month, and no date of the month comes after it |
| Signals.MonthLengths | app_expenses/signals.py:47-50 | February has 29 days exactly in leap years and 28 otherwise; the other months have 30 or 31 |
| Signals.InMonthRangeIff | app_expenses/signals.py:54-58 | a date lies between the month's first and last day exactly when it has that year and month |
| Signals.SumMonthEmpty | app_expenses/signals.py:57-58 | with no matching transactions the sum is 0 (the `or 0`) |
| Signals.SumMonthNonNegative | app_expenses/signals.py:57-58 | sums of positive amounts are not negative |
| Signals.SumMonthCoversTable | app_expenses/signals.py:57-58 | the sum counts every stored transaction: raising the key bound changes nothing |
| Signals.SumMonthInsert | app_expenses/signals.py:57-58 | a new transaction adds its amount to the sum exactly when it matches user, month and type |
| Signals.SumMonthAgree | app_expenses/signals.py:57-58 | the sum depends only on the stored transactions |
| Signals.CalculateTotal | app_expenses/signals.py:52-61 | the credit total is the sum of the user's credits of that month and the debit total the sum of the debits; nothing else changes |
| Signals.SumsGiveEffect | app_expenses/signals.py:57-61 | credits minus debits is the net effect of the month's transactions on balances |
| Signals.NetBalanceIsMonthEffect | app_expenses/signals.py:52-61 | after `calculate_total`, `net_balance` equals the month's net effect |
| Signals.FindReport | app_expenses/signals.py:11-15 | `first()`: the matching report of least key, or none when no report matches |
| Signals.MarkDirty | app_expenses/signals.py:8-18 | only `is_dirty` can change, only on a report of that user and month, and if such a report exists one of them is dirty afterwards |
| Signals.MarkDirtyMarksTheReport | app_expenses/signals.py:8-18 | with one report per user and month, that report is the one marked dirty |
| Signals.MarkDirtyOnUpdate | app_expenses/signals.py:20-38 | nothing happens for a new transaction or one whose amount, fund account and date are unchanged; otherwise the report of the old user and month is marked |
| Signals.TypeOrDescriptionChangeMarksNothing | app_expenses/signals.py:25-30 | changing only the type or the description marks no report |
| Signals.MarkReportDirtyOnTransactionChange | app_expenses/signals.py:8-18 | the handler updates the reports table in place to `MarkDirty` of the old table and leaves every other table and the database invariant as they were |
| Signals.MarkReportDirtyOnTransactionUpdate | app_expenses/signals.py:20-38 | the handler updates the reports table in place to `MarkDirtyOnUpdate` of the old tables and leaves every other table as it was |
| CustomWrappers.Rebalance | app_expenses/custom_wrappers.py:26-52 | an unset old or new account raises AttributeError; otherwise the save fails with "Insufficient Balance" exactly when the working balance is below the amount, whatever the type; a creation applies the effect; an update on the same account takes off the old effect and applies the new one; a move restores the old account and charges the new one; no other account and no other field changes; a debit never leaves a negative balance |
| CustomWrappers.ResaveKeepsBalances | app_expenses/custom_wrappers.py:37-52 | saving an unchanged transaction leaves every balance as it was |
| CustomWrappers.UpdateAsIfCreated | app_expenses/custom_wrappers.py:29-52 | creating a transaction and then updating it leaves the accounts as creating the updated version directly would |
| CustomWrappers.SaveTransactionSpec | app_expenses/custom_wrappers.py:14-53 | updating a missing row raises DoesNotExist; on success the row holds the normalised instance, and only the accounts, the transactions and the reports change; the accounts and the reports keep their keys |
| CustomWrappers.UpdateBalances | app_expenses/custom_wrappers.py:26-52 | the in-place revert, check and apply gives exactly the balances and the error of `Rebalance` |
| CustomWrappers.SaveTransaction | app_expenses/custom_wrappers.py:5-54 | the wrapped save (pre-save handler, write, post-save handler, balance update) ends in the state `SaveTransactionSpec` gives and returns the saved instance; on any failure the database is exactly as before |
| OwnedStore.CleanStrings | app_expenses/models/owned_model.py:29-38 | an unset non-null foreign key raises DoesNotExist; otherwise, per model, each name (and a loan's party) becomes `Strip` of itself, each description becomes None when empty or all whitespace and is stripped otherwise, and every other field, the kind and the owner are kept |
| OwnedStore.CleanStringsCleansEachField | app_expenses/models/owned_model.py:29-38 | the text fields of the cleaned record, in declaration order with their `blank`/`null` options, are exactly `CleanedFields` of the old ones: the record-level cleaning is the field loop |
| OwnedStore.CleanStringsIdempotent | app_expenses/models/owned_model.py:29-38 | normalising a normalised record changes nothing |
| OwnedStore.FullClean | app_expenses/models/owned_model.py:42 | `full_clean` passes exactly when the field declarations and the model's `clean()` both accept; `clean()`'s error is the one reported |
| OwnedStore.Saved | app_expenses/models/owned_model.py:43 | the row `save()` writes keeps the record's model and owner |
| OwnedStore.SaveRow | app_expenses/models/owned_model.py:43 | after `save()` the row is found under its key, no other row of its table changes, and only its own table changes (a transaction also changes accounts and reports) |
| OwnedStore.SaveObjSpec | app_expenses/models/owned_model.py:40-44 | `save_obj` stores something only after `_clean_string_value` and `full_clean` pass; the row stored is the saved form of the cleaned record, and nothing else of its table changes |
| OwnedStore.BlankNameReportedAsRequired | app_expenses/models/owned_model.py:40-44 | through `save_obj`, a whitespace-only name is reported as "Name is required." |
| OwnedStore.SavedRowIsClean | app_expenses/models/owned_model.py:29-44 | a saved row has nothing left for `_clean_string_value` to change |
| OwnedStore.StoreRow | app_expenses/models/owned_model.py:43 | the write step of `save_obj` ends in the state `SaveRow` gives and returns the stored row; a failed transaction save leaves the database as it was |
| OwnedStore.SaveObj | app_expenses/models/owned_model.py:40-44 | the database ends in the state `SaveObjSpec` gives and the returned instance is the stored row; on failure nothing changes |
| OwnedStore.CreateBy | app_expenses/models/owned_model.py:46-52 | when the create gate fails nothing changes; otherwise the record is saved under a fresh key as `save_obj` specifies |
| OwnedStore.UpdateBy | app_expenses/models/owned_model.py:54-63 | when the update gate fails nothing changes; otherwise the stored row exists and is replaced as `save_obj` specifies |
| OwnedStore.DeleteRemovesTheRow | app_expenses/models/owned_model.py:65-74 | a delete removes exactly that key from its table; for a transaction no balance changes and no report is removed |
| OwnedStore.DeleteBy | app_expenses/models/owned_model.py:65-74 | returns the delete gate's outcome; on failure nothing changes; on success the row is deleted, and for a transaction the report of the instance's month is marked dirty |

## Left out

- Views, the REST API, authentication, forms, services, utilities and admin are not part of this model. The legacy `app_expenses/models.py` and `app_expenses/views.py` are shadowed by the packages of the same name and are not part of this model either.
- The clock: `today()` and `timezone.now()` become the `today` parameter, and the current year is `today.year`.
- Decimal arithmetic: amounts are integer cents. A value too wide for its column (a database `DataError`) is not modelled. The columns' digit limits appear only in the field predicates.
- `Common.Upper`: it upper-cases ASCII letters only. PostgreSQL's `UPPER` and Python's `str.upper` also map other letters.
- The many-to-many `tags` of transactions and shortcuts are not modelled, and neither are `created_at`/`updated_at` of loans.
- Field choices are enumerations (`TransactionType`, `LoanType`). A stored string outside the choices cannot be represented; `ParseType` states which strings are accepted.
- OwnedStore.FullClean: it reports `clean()`'s error, or one `FieldInvalid` for the field validators. Django raises a single `ValidationError` that collects every message, including the built-in validators' own wording, which the model does not reproduce.
- Database constraints that raise `IntegrityError` are not modelled as errors: foreign keys to existing rows, the primary key, and the check and unique constraints. The methods require what `clean()` already ensures, or keep it as the `Database` invariant.
- Related objects that Django caches on an instance are not modelled. A foreign key is read from the current tables. A dangling id that is not cached makes the source raise `DoesNotExist` when the attribute is read. The model reports the check's own outcome instead in three places: `TransactionModel.Clean` (a "does not exist" ValidationError), `ShortcutModel.Clean` (the ownership check on `self.category.pk`, `self.fund_account.pk` and the others) and `OwnedStore.CleanStrings` (the `getattr` on every foreign key, which the model raises only for an unset non-null key).
- `Signals.CalculateTotal`: it requires a year from 1 to 9999 and a month from 1 to 12. `datetime.date` raises `ValueError` outside that range, and a report reaches `calculate_total` only after `full_clean` has checked both.
- User keys are positive (`Common.UserId` starts at 1, as Django's auto-incremented `User` key does). So `if not self.user_id` is exactly "no user set", and a user key of 0 is not modelled.
- Signals.FindReport: `first()` orders by primary key. The source's keys are UUIDs, so which report comes first is arbitrary there. The model takes the least key, and `MarkDirtyMarksTheReport` shows the choice does not matter while reports are unique per month.
- The return value of `delete()` (the count of deleted rows) is not modelled.
- The currency table has no owner and is never written through the owned-model operations. Its `clean` and `save` are modelled as functions (`CurrencyModel`), not as database methods.
- Concurrency, and transactions beyond all-or-nothing rollback, are not modelled.
