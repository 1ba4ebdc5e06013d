/** Double-entry journal entries in the plain-text `ledger` format, kept as
    structure rather than as the column-aligned text that is printed. */
module Ledger {
  import opened Activities

  /** A UTC calendar date, counted in days since 1970-01-01. */
  datatype Date = Date(days: nat)

  /** An amount of money in one currency. */
  datatype Amount = Amount(value: real, currency: string)

  /** A commodity quantity priced per unit: `quantity symbol @ price`. */
  datatype Lot = Lot(quantity: int, symbol: string, price: Amount)

  /** One line of an entry. A posting with neither a lot nor a total leaves
      its amount to be inferred by `ledger` from the other postings. */
  datatype Posting = Posting(account: string, lot: Option<Lot>, total: Option<Amount>)

  /** `date * name`, an optional `; comment` line, then the postings. */
  datatype Entry = Entry(date: Date, name: string, comment: Option<string>, postings: seq<Posting>)

  /** The value a posting adds to its entry, when it states one. */
  function Value(p: Posting): Option<real>
  {
    match p.lot
    case Some(l) => Some(l.quantity as real * l.price.value)
    case None => match p.total
      case Some(a) => Some(a.value)
      case None => None
  }

  /** Number of postings whose amount is left to be inferred. */
  function Elided(ps: seq<Posting>): nat
  {
    if ps == [] then 0
    else (if Value(ps[0]).None? then 1 else 0) + Elided(ps[1..])
  }

  /** Sum of the stated posting values. */
  function Total(ps: seq<Posting>): real
  {
    if ps == [] then 0.0
    else (match Value(ps[0]) case Some(v) => v case None => 0.0) + Total(ps[1..])
  }

  /** The two-posting entries the renderer writes: they balance when one
      posting leaves its amount out and the other states one, or when both
      state values that cancel. */
  lemma TwoPostingsBalance(e: Entry)
    requires |e.postings| == 2
    requires var a, b := Value(e.postings[0]), Value(e.postings[1]);
      (a.None? && b.Some?) || (a.Some? && b.None?) ||
      (a.Some? && b.Some? && a.value + b.value == 0.0)
    ensures Balances(e)
  {
    var ps := e.postings;
    assert ps[1..][1..] == [];
    assert Elided(ps[1..]) == (if Value(ps[1]).None? then 1 else 0);
    assert Total(ps[1..]) == (match Value(ps[1]) case Some(v) => v case None => 0.0);
  }

  /** `ledger` accepts an entry when exactly one posting leaves its amount
      out (it is inferred as the negated sum of the others), or when none
      does and the stated values sum to zero. */
  predicate Balances(e: Entry)
  {
    Elided(e.postings) == 1 || (Elided(e.postings) == 0 && Total(e.postings) == 0.0)
  }

  /** Every amount the entry states is in `currency`. */
  predicate InCurrency(e: Entry, currency: string)
  {
    forall p <- e.postings ::
      (p.lot.Some? ==> p.lot.value.price.currency == currency) &&
      (p.total.Some? ==> p.total.value.currency == currency)
  }
}
