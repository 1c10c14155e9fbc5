/**
 * `Currency`: a currency keyed by its short code. It is not an owned model;
 * its table is shared by every user.
 */
module CurrencyModel {
  import opened Common

  datatype Currency = Currency(id: string, symbol: string, name: string)

  const IdMaxLength: nat := 4
  const SymbolMaxLength: nat := 8
  const NameMaxLength: nat := 64

  /** What the field declarations require: each of the three is a non-blank
      `CharField` within its `max_length`. */
  predicate FieldsValid(c: Currency)
  {
    && c.id != "" && |c.id| <= IdMaxLength
    && c.symbol != "" && |c.symbol| <= SymbolMaxLength
    && c.name != "" && |c.name| <= NameMaxLength
  }

  /** A currency other than `pk` has this symbol, ignoring case. */
  predicate SymbolTaken(currencies: map<string, Currency>, symbol: string, pk: string)
  {
    exists k :: k in currencies && k != pk && IEquals(currencies[k].symbol, symbol)
  }

  /** A currency other than `pk` has this name, ignoring case. */
  predicate CurrencyNameTaken(currencies: map<string, Currency>, name: string, pk: string)
  {
    exists k :: k in currencies && k != pk && IEquals(currencies[k].name, name)
  }

  /** The uniqueness half of `Currency.clean`: the symbol, then the name,
      compared stripped and case-insensitively with the other currencies.
      The duplicate-name error is filed under "symbol". */
  function CheckUnique(c: Currency, currencies: map<string, Currency>): (r: Outcome)
    ensures r.Pass? <==>
      !SymbolTaken(currencies, Strip(c.symbol), c.id) && !CurrencyNameTaken(currencies, Strip(c.name), c.id)
    ensures SymbolTaken(currencies, Strip(c.symbol), c.id)
      ==> r == Fail(ValidationError("symbol", "Currency with Symbol: '" + c.symbol + "' already exists."))
    ensures !SymbolTaken(currencies, Strip(c.symbol), c.id) && CurrencyNameTaken(currencies, Strip(c.name), c.id)
      ==> r == Fail(ValidationError("symbol", "Currency with Name: '" + c.name + "' already exists."))
  {
    if SymbolTaken(currencies, Strip(c.symbol), c.id) then
      Fail(ValidationError("symbol", "Currency with Symbol: '" + c.symbol + "' already exists."))
    else if CurrencyNameTaken(currencies, Strip(c.name), c.id) then
      Fail(ValidationError("symbol", "Currency with Name: '" + c.name + "' already exists."))
    else Pass
  }

  /** `Currency.clean`: id, symbol and name each required then non-blank,
      in that order; then the uniqueness checks. */
  function Clean(c: Currency, currencies: map<string, Currency>): (r: Outcome)
    ensures r.Pass? <==>
      && !AllSpace(c.id) && !AllSpace(c.symbol) && !AllSpace(c.name)
      && !SymbolTaken(currencies, Strip(c.symbol), c.id)
      && !CurrencyNameTaken(currencies, Strip(c.name), c.id)
    ensures c.id == "" ==> r == Fail(ValidationError("id", "ID is required."))
    ensures c.id != "" && AllSpace(c.id)
      ==> r == Fail(ValidationError("id", "ID cannot be blank or whitespace."))
    ensures !AllSpace(c.id) && c.symbol == ""
      ==> r == Fail(ValidationError("symbol", "Symbol is required."))
    ensures !AllSpace(c.id) && c.symbol != "" && AllSpace(c.symbol)
      ==> r == Fail(ValidationError("symbol", "Symbol cannot be blank or whitespace."))
    ensures !AllSpace(c.id) && !AllSpace(c.symbol) && AllSpace(c.name)
      ==> r == RequireName(c.name)
    ensures !AllSpace(c.id) && !AllSpace(c.symbol) && !AllSpace(c.name) ==> r == CheckUnique(c, currencies)
  {
    Then(RequireText("id", c.id, "ID is required.", "ID cannot be blank or whitespace."),
    Then(RequireText("symbol", c.symbol, "Symbol is required.", "Symbol cannot be blank or whitespace."),
    Then(RequireName(c.name),
         CheckUnique(c, currencies))))
  }

  /** A symbol that differs only in case and surrounding blanks from a stored
      one is refused. */
  lemma SymbolClashRefused(c: Currency, currencies: map<string, Currency>, k: string)
    requires !AllSpace(c.id) && !AllSpace(c.symbol) && !AllSpace(c.name)
    requires k in currencies && k != c.id && IEquals(currencies[k].symbol, Strip(c.symbol))
    ensures Clean(c, currencies) == Fail(ValidationError("symbol", "Currency with Symbol: '" + c.symbol + "' already exists."))
  {
  }

  /** What `Currency.save` stores: the id stripped and upper-cased, the symbol
      and the name stripped. */
  function Normalise(c: Currency): (n: Currency)
    ensures |n.id| <= |c.id| && |n.symbol| <= |c.symbol| && |n.name| <= |c.name|
    ensures n.id == Upper(Strip(c.id)) && n.symbol == Strip(c.symbol) && n.name == Strip(c.name)
    ensures forall i :: 0 <= i < |n.id| ==> !('a' <= n.id[i] <= 'z')
    ensures n.symbol == [] || (!IsSpace(n.symbol[0]) && !IsSpace(n.symbol[|n.symbol| - 1]))
    ensures n.name == [] || (!IsSpace(n.name[0]) && !IsSpace(n.name[|n.name| - 1]))
    ensures n.id == [] <==> AllSpace(c.id)
  {
    Currency(Upper(Strip(c.id)), Strip(c.symbol), Strip(c.name))
  }

  /** Saving a saved currency again stores the same values. */
  lemma NormaliseIdempotent(c: Currency)
    ensures Normalise(Normalise(c)) == Normalise(c)
  {
    var n := Normalise(c);
    StripUpperCommute(Strip(c.id));
    StripIdempotent(c.id);
    UpperIdempotent(Strip(c.id));
    StripIdempotent(c.symbol);
    StripIdempotent(c.name);
    assert Upper(Strip(n.id)) == n.id;
  }
}
