/**
 * The three tables the price checkers write: `items` (keyed by id), `price_history` and
 * `availability_history` (append-only), held by a `Database` object whose methods are
 * the inserts and the keyed update the checkers issue.
 */
module Store {
  import opened Common

  /** The columns of an item row that the price checkers read or write. */
  datatype Item = Item(
    id: string,
    url: string,
    currentPrice: Option<real>,
    currency: string,
    isAvailable: bool,
    lastCheckedAt: Option<int>)

  datatype PriceRow = PriceRow(itemId: string, price: real, currency: string, checkedAt: int)

  datatype AvailabilityRow = AvailabilityRow(itemId: string, isAvailable: bool, checkedAt: int)

  datatype Tables = Tables(
    items: map<string, Item>,
    priceHistory: seq<PriceRow>,
    availabilityHistory: seq<AvailabilityRow>)

  /**
   * `update({current_price, currency, is_available: true, last_checked_at}).eq('id', id)`:
   * the row with that id, if there is one, takes the new values; nothing else changes.
   */
  function MarkChecked(items: map<string, Item>, id: string, price: real, currency: string, now: int): (r: map<string, Item>)
    ensures r.Keys == items.Keys
    ensures id in items ==>
              r[id] == items[id].(currentPrice := Some(price), currency := currency,
                                  isAvailable := true, lastCheckedAt := Some(now))
    ensures forall k :: k in items && k != id ==> r[k] == items[k]
  {
    if id in items then
      items[id := items[id].(currentPrice := Some(price), currency := currency,
                            isAvailable := true, lastCheckedAt := Some(now))]
    else items
  }

  class Database {
    var items: map<string, Item>
    var priceHistory: seq<PriceRow>
    var availabilityHistory: seq<AvailabilityRow>

    /** The contents of the three tables. */
    function State(): Tables
      reads this
    {
      Tables(items, priceHistory, availabilityHistory)
    }

    constructor(initial: Tables)
      ensures State() == initial
    {
      items := initial.items;
      priceHistory := initial.priceHistory;
      availabilityHistory := initial.availabilityHistory;
    }

    /** `from('price_history').insert(row)` */
    method InsertPrice(row: PriceRow)
      modifies this
      ensures State() == old(State()).(priceHistory := old(priceHistory) + [row])
    {
      priceHistory := priceHistory + [row];
    }

    /** `from('availability_history').insert(row)` */
    method InsertAvailability(row: AvailabilityRow)
      modifies this
      ensures State() == old(State()).(availabilityHistory := old(availabilityHistory) + [row])
    {
      availabilityHistory := availabilityHistory + [row];
    }

    /** The keyed item update of MarkChecked. */
    method UpdateChecked(id: string, price: real, currency: string, now: int)
      modifies this
      ensures State() == old(State()).(items := MarkChecked(old(items), id, price, currency, now))
    {
      items := MarkChecked(items, id, price, currency, now);
    }
  }
}
