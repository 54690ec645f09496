/**
 * The price recheck engine (src/lib/priceChecker.ts): one item is rechecked by scraping
 * its URL, appending a price-history row only when the price moved, and overwriting the
 * item's price, currency, availability and check time; a batch rechecks items one after
 * another, swallowing each item's exception and reporting progress after every item.
 */
module PriceChecker {
  import opened Common
  import opened Scraper
  import opened Store

  datatype Direction = Down | Up | Same

  datatype PriceCheckResult = PriceCheckResult(
    itemId: string,
    price: real,
    currency: string,
    isAvailable: bool,
    checkedAt: int,
    previousPrice: Option<real>,
    priceChange: Option<real>,
    priceDirection: Option<Direction>)

  /** `previousPrice !== null ? newPrice - previousPrice : null` */
  function PriceChange(previous: Option<real>, newPrice: real): (r: Option<real>)
    ensures r.None? <==> previous.None?
    ensures r.Some? ==> previous.value + r.value == newPrice
  {
    match previous
    case None => None
    case Some(p) => Some(newPrice - p)
  }

  /** The sign of a price change: down, up or same, and none without a change. */
  function DirectionOf(change: Option<real>): (d: Option<Direction>)
    ensures d.None? <==> change.None?
  {
    match change
    case None => None
    case Some(c) => if c < 0.0 then Some(Down) else if c > 0.0 then Some(Up) else Some(Same)
  }

  /** The direction reported for a move from `previous` to `newPrice`, stated by comparing the two prices. */
  function Movement(previous: Option<real>, newPrice: real): (d: Option<Direction>)
    ensures d.None? <==> previous.None?
    ensures d == Some(Down) <==> previous.Some? && newPrice < previous.value
    ensures d == Some(Up) <==> previous.Some? && newPrice > previous.value
    ensures d == Some(Same) <==> previous.Some? && newPrice == previous.value
  {
    DirectionOf(PriceChange(previous, newPrice))
  }

  /** The result echoed back for a successful check of `item`. */
  function ResultFor(item: Item, price: real, currency: string, now: int): (r: PriceCheckResult)
    ensures r.itemId == item.id && r.price == price && r.currency == currency
    ensures r.isAvailable && r.checkedAt == now
    ensures r.previousPrice == item.currentPrice
    ensures r.priceChange.None? <==> item.currentPrice.None?
    ensures r.priceChange.Some? ==> r.priceChange.value == price - item.currentPrice.value
    ensures r.priceDirection == Movement(item.currentPrice, price)
  {
    var change := PriceChange(item.currentPrice, price);
    PriceCheckResult(item.id, price, currency, true, now, item.currentPrice, change, DirectionOf(change))
  }

  /** `previousPrice === null || previousPrice !== newPrice` */
  predicate PriceChanged(previous: Option<real>, newPrice: real) {
    previous.None? || previous.value != newPrice
  }

  /** The scrape found a price: `scraped.success && scraped.price !== null`. */
  predicate Found(p: ScrapedProduct) {
    p.success && p.price.Some?
  }

  /**
   * What recheckItemPrice does to the tables and what it returns. Without a price nothing
   * is written and the result is null. With one, exactly one price row is appended iff
   * the price changed, the item is marked checked, and no availability row is written.
   */
  function Recheck(t: Tables, item: Item, scraped: ScrapedProduct, now: int): (r: (Tables, Option<PriceCheckResult>))
    ensures r.1.None? <==> !Found(scraped)
    ensures !Found(scraped) ==> r.0 == t
    ensures Found(scraped) ==>
              var price := scraped.price.value;
              && r.0.priceHistory == t.priceHistory
                   + (if PriceChanged(item.currentPrice, price)
                      then [PriceRow(item.id, price, scraped.currency, now)] else [])
              && r.0.availabilityHistory == t.availabilityHistory
              && r.0.items == MarkChecked(t.items, item.id, price, scraped.currency, now)
              && r.1 == Some(ResultFor(item, price, scraped.currency, now))
  {
    if !Found(scraped) then (t, None)
    else
      var price := scraped.price.value;
      var history :=
        if PriceChanged(item.currentPrice, price)
        then t.priceHistory + [PriceRow(item.id, price, scraped.currency, now)]
        else t.priceHistory;
      (t.(priceHistory := history, items := MarkChecked(t.items, item.id, price, scraped.currency, now)),
       Some(ResultFor(item, price, scraped.currency, now)))
  }

  /** A recheck with an unchanged price writes no history at all. */
  lemma UnchangedPriceWritesNoHistory(t: Tables, item: Item, scraped: ScrapedProduct, now: int)
    requires Found(scraped) && item.currentPrice == scraped.price
    ensures Recheck(t, item, scraped, now).0.priceHistory == t.priceHistory
    ensures Recheck(t, item, scraped, now).1.value.priceDirection == Some(Same)
  {
  }

  /** What the scrape step gave back: the scraped product, or an exception. */
  datatype Outcome = Scraped(product: ScrapedProduct) | Throws(message: Option<string>)

  /** recheckItemPrice: an exception propagates with nothing written (it is taken to happen before any write). */
  method RecheckItemPrice(db: Database, item: Item, outcome: Outcome, now: int)
    returns (c: Completion<Option<PriceCheckResult>>)
    modifies db
    ensures outcome.Throws? ==> c == Thrown(outcome.message) && db.State() == old(db.State())
    ensures outcome.Scraped? ==>
              c.Normal? && (db.State(), c.value) == Recheck(old(db.State()), item, outcome.product, now)
  {
    match outcome
    case Throws(message) =>
      return Thrown(message);
    case Scraped(scraped) =>
      if !scraped.success || scraped.price.None? {
        return Normal(None);
      }
      var previousPrice := item.currentPrice;
      var newPrice := scraped.price.value;
      if previousPrice.None? || previousPrice.value != newPrice {
        db.InsertPrice(PriceRow(item.id, newPrice, scraped.currency, now));
      }
      db.UpdateChecked(item.id, newPrice, scraped.currency, now);
      return Normal(Some(ResultFor(item, newPrice, scraped.currency, now)));
  }

  // ---------------------------------------------------------------------------
  // recheckAllPrices
  // ---------------------------------------------------------------------------

  /** One item of a batch: the item, what its scrape gives back, and the clock reading. */
  datatype Attempt = Attempt(item: Item, outcome: Outcome, now: int)

  /** `onProgress(completed, total, result)` */
  datatype Progress = Progress(completed: nat, total: nat, result: Option<PriceCheckResult>)

  /** One iteration of the batch loop: a thrown item leaves the tables alone and reports null. */
  function Step(t: Tables, a: Attempt): (Tables, Option<PriceCheckResult>) {
    match a.outcome
    case Throws(_) => (t, None)
    case Scraped(p) => Recheck(t, a.item, p, a.now)
  }

  /** The tables after the batch has processed `attempts`. */
  function RunState(t: Tables, attempts: seq<Attempt>): Tables
    decreases |attempts|
  {
    if attempts == [] then t
    else Step(RunState(t, attempts[..|attempts| - 1]), attempts[|attempts| - 1]).0
  }

  /** The per-item result of the batch: null where the item threw or found no price. */
  function PerItem(t: Tables, attempts: seq<Attempt>): (r: seq<Option<PriceCheckResult>>)
    ensures |r| == |attempts|
    decreases |attempts|
  {
    if attempts == [] then []
    else
      var prefix := attempts[..|attempts| - 1];
      PerItem(t, prefix) + [Step(RunState(t, prefix), attempts[|attempts| - 1]).1]
  }

  /** The non-null entries, in order. */
  function Somes<T>(s: seq<Option<T>>): (r: seq<T>)
    ensures |r| <= |s|
    decreases |s|
  {
    if s == [] then []
    else Somes(s[..|s| - 1]) + (if s[|s| - 1].Some? then [s[|s| - 1].value] else [])
  }

  /** Somes keeps exactly the values that are present. */
  lemma {:induction false} SomesMembers<T>(s: seq<Option<T>>, x: T)
    ensures x in Somes(s) <==> Some(x) in s
    decreases |s|
  {
    if s != [] {
      var init := s[..|s| - 1];
      SomesMembers(init, x);
      assert s == init + [s[|s| - 1]];
    }
  }

  /** Somes distributes over concatenation, so it keeps the input order. */
  lemma {:induction false} SomesAppend<T>(a: seq<Option<T>>, b: seq<Option<T>>)
    ensures Somes(a + b) == Somes(a) + Somes(b)
    decreases |b|
  {
    if b == [] {
      assert a + b == a;
    } else {
      var init := b[..|b| - 1];
      SomesAppend(a, init);
      assert (a + b)[..|a + b| - 1] == a + init;
      assert (a + b)[|a + b| - 1] == b[|b| - 1];
    }
  }

  /** The progress reports: one per item, counting up to the total. */
  function Reports(perItem: seq<Option<PriceCheckResult>>, total: nat): (r: seq<Progress>)
    ensures |r| == |perItem|
    ensures forall i :: 0 <= i < |r| ==> r[i] == Progress(i + 1, total, perItem[i])
  {
    seq(|perItem|, i requires 0 <= i < |perItem| => Progress(i + 1, total, perItem[i]))
  }

  /** Extending the processed prefix by one item runs one more step. */
  lemma PrefixStep(t: Tables, attempts: seq<Attempt>, i: nat)
    requires i < |attempts|
    ensures RunState(t, attempts[..i + 1]) == Step(RunState(t, attempts[..i]), attempts[i]).0
    ensures PerItem(t, attempts[..i + 1]) == PerItem(t, attempts[..i]) + [Step(RunState(t, attempts[..i]), attempts[i]).1]
  {
    var next := attempts[..i + 1];
    assert next[..|next| - 1] == attempts[..i];
    assert next[|next| - 1] == attempts[i];
  }

  lemma SomesSnoc<T>(s: seq<Option<T>>, x: Option<T>)
    ensures Somes(s + [x]) == Somes(s) + (if x.Some? then [x.value] else [])
  {
    assert (s + [x])[..|s|] == s;
  }

  lemma ReportsSnoc(perItem: seq<Option<PriceCheckResult>>, x: Option<PriceCheckResult>, total: nat)
    ensures Reports(perItem + [x], total) == Reports(perItem, total) + [Progress(|perItem| + 1, total, x)]
  {
    assert forall i :: 0 <= i < |perItem| ==> (perItem + [x])[i] == perItem[i];
  }

  /** The i-th result is the i-th step applied to the tables left by the items before it. */
  lemma {:induction false} PerItemAt(t: Tables, attempts: seq<Attempt>, i: nat)
    requires i < |attempts|
    ensures PerItem(t, attempts)[i] == Step(RunState(t, attempts[..i]), attempts[i]).1
    ensures RunState(t, attempts[..i + 1]) == Step(RunState(t, attempts[..i]), attempts[i]).0
    decreases |attempts|
  {
    var n := |attempts|;
    var prefix := attempts[..n - 1];
    if i < n - 1 {
      PerItemAt(t, prefix, i);
      assert prefix[..i] == attempts[..i];
      assert prefix[..i + 1] == attempts[..i + 1];
      assert prefix[i] == attempts[i];
    } else {
      assert attempts[..i + 1] == attempts;
      assert attempts[..i] == prefix;
    }
  }

  /**
   * Failure isolation: an item that throws changes nothing and reports null, and every
   * later item is still checked, against the tables the earlier items left.
   */
  lemma ThrownItemIsSkipped(t: Tables, attempts: seq<Attempt>, i: nat)
    requires i < |attempts| && attempts[i].outcome.Throws?
    ensures PerItem(t, attempts)[i].None?
    ensures RunState(t, attempts[..i + 1]) == RunState(t, attempts[..i])
  {
    PerItemAt(t, attempts, i);
  }

  /** A batch only appends to the price history, never writes availability, and keeps the item ids. */
  lemma {:induction false} RunOnlyAppends(t: Tables, attempts: seq<Attempt>)
    ensures |t.priceHistory| <= |RunState(t, attempts).priceHistory|
    ensures RunState(t, attempts).priceHistory[..|t.priceHistory|] == t.priceHistory
    ensures RunState(t, attempts).availabilityHistory == t.availabilityHistory
    ensures RunState(t, attempts).items.Keys == t.items.Keys
    decreases |attempts|
  {
    if attempts != [] {
      var prefix := attempts[..|attempts| - 1];
      RunOnlyAppends(t, prefix);
      var before := RunState(t, prefix);
      var after := RunState(t, attempts);
      assert after.priceHistory[..|before.priceHistory|] == before.priceHistory;
      assert after.priceHistory[..|t.priceHistory|] == before.priceHistory[..|t.priceHistory|];
    }
  }

  /** A recheck that completed as RecheckItemPrice promises is one Step, an exception read as null. */
  lemma StepOfCompletion(t: Tables, a: Attempt, after: Tables, c: Completion<Option<PriceCheckResult>>)
    requires a.outcome.Throws? ==> c == Thrown(a.outcome.message) && after == t
    requires a.outcome.Scraped? ==> c.Normal? && (after, c.value) == Recheck(t, a.item, a.outcome.product, a.now)
    ensures after == Step(t, a).0
    ensures (if c.Normal? then c.value else None) == Step(t, a).1
  {
  }

  /** The tables and the per-item results after one more item whose step produced `after` and `result`. */
  lemma BatchStep(t: Tables, attempts: seq<Attempt>, i: nat, after: Tables, result: Option<PriceCheckResult>)
    requires i < |attempts| && (after, result) == Step(RunState(t, attempts[..i]), attempts[i])
    ensures RunState(t, attempts[..i + 1]) == after
    ensures PerItem(t, attempts[..i + 1]) == PerItem(t, attempts[..i]) + [result]
  {
    PrefixStep(t, attempts, i);
  }

  /**
   * recheckAllPrices: the items are rechecked in order, each exception swallowed; the
   * non-null results are returned in order and a progress report follows every item.
   */
  method RecheckAllPrices(db: Database, attempts: seq<Attempt>)
    returns (results: seq<PriceCheckResult>, progress: seq<Progress>)
    modifies db
    ensures db.State() == RunState(old(db.State()), attempts)
    ensures results == Somes(PerItem(old(db.State()), attempts))
    ensures progress == Reports(PerItem(old(db.State()), attempts), |attempts|)
  {
    ghost var t0 := db.State();
    ghost var perItem: seq<Option<PriceCheckResult>> := [];
    results := [];
    progress := [];
    for i := 0 to |attempts|
      invariant db.State() == RunState(t0, attempts[..i])
      invariant perItem == PerItem(t0, attempts[..i])
      invariant results == Somes(perItem)
      invariant progress == Reports(perItem, |attempts|)
    {
      ghost var before := db.State();
      var c := RecheckItemPrice(db, attempts[i].item, attempts[i].outcome, attempts[i].now);
      var result := if c.Normal? then c.value else None;
      StepOfCompletion(before, attempts[i], db.State(), c);
      BatchStep(t0, attempts, i, db.State(), result);
      SomesSnoc(perItem, result);
      ReportsSnoc(perItem, result, |attempts|);
      perItem := perItem + [result];
      if result.Some? {
        results := results + [result.value];
      }
      progress := progress + [Progress(i + 1, |attempts|, result)];
    }
    assert attempts[..|attempts|] == attempts;
  }
}
