/**
 * The price-tracking hook (src/hooks/usePriceTracking.ts): a second check engine that
 * carries a status and an error, always appends a price row and an availability row on
 * success, runs batches that end in a summary status, and summarises a price history.
 */
module PriceTracking {
  import opened Common
  import opened Scraper
  import opened Store
  import opened PriceChecker

  datatype Status = Idle | Checking | Success | Error

  /**
   * What checkPrice does to the tables and what it returns. Without a price (or on an
   * exception) nothing is written and the result is null; with one, a price row and an
   * availability row stamped with the same time are appended, whether or not the price
   * moved, and the item is marked checked.
   */
  function Track(t: Tables, item: Item, outcome: Outcome, now: int): (r: (Tables, Option<PriceCheckResult>))
    ensures r.1.None? <==> outcome.Throws? || !Found(outcome.product)
    ensures r.1.None? ==> r.0 == t
    ensures r.1.Some? ==>
              var p := outcome.product;
              var price := p.price.value;
              && r.0.priceHistory == t.priceHistory + [PriceRow(item.id, price, p.currency, now)]
              && r.0.availabilityHistory == t.availabilityHistory + [AvailabilityRow(item.id, true, now)]
              && r.0.items == MarkChecked(t.items, item.id, price, p.currency, now)
              && r.1 == Some(ResultFor(item, price, p.currency, now))
  {
    match outcome
    case Throws(_) => (t, None)
    case Scraped(p) =>
      if !Found(p) then (t, None)
      else
        var price := p.price.value;
        (Tables(MarkChecked(t.items, item.id, price, p.currency, now),
                t.priceHistory + [PriceRow(item.id, price, p.currency, now)],
                t.availabilityHistory + [AvailabilityRow(item.id, true, now)]),
         Some(ResultFor(item, price, p.currency, now)))
  }

  /** The status checkPrice ends in. */
  function TrackStatus(outcome: Outcome): (s: Status)
    ensures s == Success || s == Error
    ensures s == Success <==> outcome.Scraped? && Found(outcome.product)
  {
    if outcome.Scraped? && Found(outcome.product) then Success else Error
  }

  /** The error checkPrice ends with: cleared on success, otherwise a message. */
  function TrackError(outcome: Outcome): (e: Option<string>)
    ensures e.None? <==> TrackStatus(outcome) == Success
  {
    match outcome
    case Throws(m) => Some(m.GetOr("Price check failed"))
    case Scraped(p) => if Found(p) then None else Some(p.error.GetOr("Could not extract price"))
  }

  /**
   * The hook and the recheck engine agree on the result and on the item update; they
   * differ in the history: the hook always appends one price row and one availability
   * row, the engine appends a price row only when the price moved and never an
   * availability row.
   */
  lemma HookAndCheckerAgree(t: Tables, item: Item, p: ScrapedProduct, now: int)
    ensures Track(t, item, Scraped(p), now).1 == Recheck(t, item, p, now).1
    ensures Track(t, item, Scraped(p), now).0.items == Recheck(t, item, p, now).0.items
    ensures Found(p) ==>
              |Track(t, item, Scraped(p), now).0.priceHistory| == |t.priceHistory| + 1
              && |Recheck(t, item, p, now).0.priceHistory|
                 == |t.priceHistory| + (if PriceChanged(item.currentPrice, p.price.value) then 1 else 0)
              && |Track(t, item, Scraped(p), now).0.availabilityHistory| == |t.availabilityHistory| + 1
              && Recheck(t, item, p, now).0.availabilityHistory == t.availabilityHistory
  {
  }

  /** Runs checkPrice over a batch, item by item. */
  function TrackState(t: Tables, attempts: seq<Attempt>): Tables
    decreases |attempts|
  {
    if attempts == [] then t
    else
      var a := attempts[|attempts| - 1];
      Track(TrackState(t, attempts[..|attempts| - 1]), a.item, a.outcome, a.now).0
  }

  function TrackPerItem(t: Tables, attempts: seq<Attempt>): (r: seq<Option<PriceCheckResult>>)
    ensures |r| == |attempts|
    decreases |attempts|
  {
    if attempts == [] then []
    else
      var prefix := attempts[..|attempts| - 1];
      var a := attempts[|attempts| - 1];
      TrackPerItem(t, prefix) + [Track(TrackState(t, prefix), a.item, a.outcome, a.now).1]
  }

  lemma TrackPrefixStep(t: Tables, attempts: seq<Attempt>, i: nat)
    requires i < |attempts|
    ensures TrackState(t, attempts[..i + 1])
            == Track(TrackState(t, attempts[..i]), attempts[i].item, attempts[i].outcome, attempts[i].now).0
    ensures TrackPerItem(t, attempts[..i + 1])
            == TrackPerItem(t, attempts[..i])
               + [Track(TrackState(t, attempts[..i]), attempts[i].item, attempts[i].outcome, attempts[i].now).1]
  {
    var next := attempts[..i + 1];
    assert next[..|next| - 1] == attempts[..i];
    assert next[|next| - 1] == attempts[i];
  }

  /** The tables and the per-item results after one more item whose check produced `after` and `result`. */
  lemma TrackBatchStep(t: Tables, attempts: seq<Attempt>, i: nat,
                       before: Tables, after: Tables, result: Option<PriceCheckResult>)
    requires i < |attempts| && before == TrackState(t, attempts[..i])
    requires (after, result) == Track(before, attempts[i].item, attempts[i].outcome, attempts[i].now)
    ensures TrackState(t, attempts[..i + 1]) == after
    ensures TrackPerItem(t, attempts[..i + 1]) == TrackPerItem(t, attempts[..i]) + [result]
  {
    TrackPrefixStep(t, attempts, i);
  }

  /** One `onProgress(completed, total)` call. */
  datatype ProgressCall = ProgressCall(completed: nat, total: nat)

  /** The `onProgress` calls after the first `done` of `total` items. */
  function Counts(done: nat, total: nat): (r: seq<ProgressCall>)
    ensures |r| == done
    ensures forall i :: 0 <= i < done ==> r[i] == ProgressCall(i + 1, total)
  {
    seq(done, i requires 0 <= i < done => ProgressCall(i + 1, total))
  }

  lemma CountsStep(done: nat, total: nat)
    ensures Counts(done + 1, total) == Counts(done, total) + [ProgressCall(done + 1, total)]
  {
  }

  class PriceTracker {
    var status: Status
    var error: Option<string>
    /** Every status the hook has been set to, in order. */
    ghost var statusLog: seq<Status>

    constructor()
      ensures status == Idle && error.None? && statusLog == []
    {
      status := Idle;
      error := None;
      statusLog := [];
    }

    method SetStatus(s: Status)
      modifies this
      ensures status == s && error == old(error) && statusLog == old(statusLog) + [s]
    {
      status := s;
      statusLog := statusLog + [s];
    }

    /**
     * checkPrice: "checking" on entry, then "success" with the result, or "error" with a
     * message and a null result; the tables change as Track says.
     */
    method CheckPrice(db: Database, item: Item, outcome: Outcome, now: int)
      returns (r: Option<PriceCheckResult>)
      modifies this, db
      ensures (db.State(), r) == Track(old(db.State()), item, outcome, now)
      ensures status == TrackStatus(outcome) && error == TrackError(outcome)
      ensures statusLog == old(statusLog) + [Checking, status]
    {
      SetStatus(Checking);
      error := None;
      match outcome
      case Throws(message) =>
        error := Some(message.GetOr("Price check failed"));
        SetStatus(Error);
        return None;
      case Scraped(scraped) =>
        if !scraped.success || scraped.price.None? {
          SetStatus(Error);
          error := Some(scraped.error.GetOr("Could not extract price"));
          return None;
        }
        var newPrice := scraped.price.value;
        db.InsertPrice(PriceRow(item.id, newPrice, scraped.currency, now));
        db.InsertAvailability(AvailabilityRow(item.id, true, now));
        db.UpdateChecked(item.id, newPrice, scraped.currency, now);
        r := Some(ResultFor(item, newPrice, scraped.currency, now));
        SetStatus(Success);
    }

    /**
     * checkMultiplePrices: checks the items in order, reports progress after each, and
     * returns the non-null results in order; it ends in "success" iff some check
     * succeeded, keeping the error of the last check.
     */
    method CheckMultiplePrices(db: Database, attempts: seq<Attempt>)
      returns (results: seq<PriceCheckResult>, progress: seq<ProgressCall>)
      modifies this, db
      ensures db.State() == TrackState(old(db.State()), attempts)
      ensures results == Somes(TrackPerItem(old(db.State()), attempts))
      ensures progress == Counts(|attempts|, |attempts|)
      ensures status == (if |results| > 0 then Success else Error)
      ensures error == (if attempts == [] then None else TrackError(attempts[|attempts| - 1].outcome))
    {
      ghost var t0 := db.State();
      ghost var perItem: seq<Option<PriceCheckResult>> := [];
      SetStatus(Checking);
      error := None;
      results := [];
      progress := [];
      for i := 0 to |attempts|
        invariant db.State() == TrackState(t0, attempts[..i])
        invariant perItem == TrackPerItem(t0, attempts[..i])
        invariant results == Somes(perItem)
        invariant progress == Counts(i, |attempts|)
        invariant error == (if i == 0 then None else TrackError(attempts[i - 1].outcome))
      {
        ghost var before := db.State();
        var result := CheckPrice(db, attempts[i].item, attempts[i].outcome, attempts[i].now);
        TrackBatchStep(t0, attempts, i, before, db.State(), result);
        SomesSnoc(perItem, result);
        perItem := perItem + [result];
        if result.Some? {
          results := results + [result.value];
        }
        progress := progress + [ProgressCall(i + 1, |attempts|)];
        CountsStep(i, |attempts|);
      }
      assert attempts[..|attempts|] == attempts;
      SetStatus(if |results| > 0 then Success else Error);
    }
  }

  // ---------------------------------------------------------------------------
  // getPriceSummary
  // ---------------------------------------------------------------------------

  datatype PriceSummary = PriceSummary(
    current: real,
    lowest: real,
    highest: real,
    average: real,
    totalChange: real,
    dataPoints: nat,
    firstChecked: int,
    lastChecked: int)

  /** `history.map(h => h.price)` */
  function Prices(history: seq<PriceRow>): (r: seq<real>)
    ensures |r| == |history|
    ensures forall i :: 0 <= i < |r| ==> r[i] == history[i].price
  {
    seq(|history|, i requires 0 <= i < |history| => history[i].price)
  }

  /** `Math.min(...s)` */
  function MinOf(s: seq<real>): (m: real)
    requires s != []
    ensures forall i :: 0 <= i < |s| ==> m <= s[i]
    ensures exists i :: 0 <= i < |s| && m == s[i]
  {
    if |s| == 1 then s[0]
    else
      var rest := MinOf(s[1..]);
      assert forall i :: 1 <= i < |s| ==> s[i] == s[1..][i - 1];
      if s[0] <= rest then s[0] else rest
  }

  /** `Math.max(...s)` */
  function MaxOf(s: seq<real>): (m: real)
    requires s != []
    ensures forall i :: 0 <= i < |s| ==> s[i] <= m
    ensures exists i :: 0 <= i < |s| && m == s[i]
  {
    if |s| == 1 then s[0]
    else
      var rest := MaxOf(s[1..]);
      assert forall i :: 1 <= i < |s| ==> s[i] == s[1..][i - 1];
      if s[0] >= rest then s[0] else rest
  }

  /** `s.reduce((a, b) => a + b, 0)` */
  function SumOf(s: seq<real>): real {
    if s == [] then 0.0 else s[0] + SumOf(s[1..])
  }

  /** A sum of values between `lo` and `hi` lies between |s|·lo and |s|·hi. */
  lemma {:induction false} SumBounds(s: seq<real>, lo: real, hi: real)
    requires forall i :: 0 <= i < |s| ==> lo <= s[i] <= hi
    ensures |s| as real * lo <= SumOf(s) <= |s| as real * hi
    decreases |s|
  {
    if s != [] {
      assert forall i :: 0 <= i < |s[1..]| ==> s[1..][i] == s[i + 1];
      SumBounds(s[1..], lo, hi);
    }
  }

  /** `s.reduce((a, b) => a + b, 0) / s.length` */
  function Mean(s: seq<real>): real
    requires s != []
  {
    SumOf(s) / (|s| as real)
  }

  /** A mean of values between `lo` and `hi` lies between them. */
  lemma MeanBetween(sum: real, n: real, lo: real, hi: real)
    requires n > 0.0 && n * lo <= sum <= n * hi
    ensures lo <= sum / n <= hi
  {
    assert (sum / n) * n == sum;
  }

  lemma MeanOf(s: seq<real>, lo: real, hi: real)
    requires s != []
    requires forall i :: 0 <= i < |s| ==> lo <= s[i] <= hi
    ensures lo <= Mean(s) <= hi
  {
    var n := |s| as real;
    var sum := SumOf(s);
    SumBounds(s, lo, hi);
    assert n * lo <= sum <= n * hi;
    MeanBetween(sum, n, lo, hi);
  }

  /**
   * getPriceSummary: null for an empty history; otherwise the last price, the change
   * from first to last, the count, the first and last check times, and the mean price,
   * which lies between the lowest and the highest.
   */
  function GetPriceSummary(history: seq<PriceRow>): (r: Option<PriceSummary>)
    ensures r.None? <==> history == []
    ensures r.Some? ==>
              && r.value.current == history[|history| - 1].price
              && r.value.totalChange == history[|history| - 1].price - history[0].price
              && r.value.dataPoints == |history|
              && r.value.firstChecked == history[0].checkedAt
              && r.value.lastChecked == history[|history| - 1].checkedAt
              && r.value.average == Mean(Prices(history))
              && r.value.lowest <= r.value.average <= r.value.highest
  {
    if history == [] then None
    else
      var prices := Prices(history);
      var lowest := MinOf(prices);
      var highest := MaxOf(prices);
      MeanOf(prices, lowest, highest);
      var latest := history[|history| - 1];
      var oldest := history[0];
      Some(PriceSummary(latest.price, lowest, highest, Mean(prices), latest.price - oldest.price,
                        |history|, oldest.checkedAt, latest.checkedAt))
  }

  /** The lowest and highest of a summary are prices of the history and bound all of them. */
  lemma SummaryBounds(history: seq<PriceRow>)
    requires history != []
    ensures var r := GetPriceSummary(history).value;
            && (forall i :: 0 <= i < |history| ==> r.lowest <= history[i].price <= r.highest)
            && (exists i :: 0 <= i < |history| && r.lowest == history[i].price)
            && (exists i :: 0 <= i < |history| && r.highest == history[i].price)
  {
    var prices := Prices(history);
    var lowest := MinOf(prices);
    var highest := MaxOf(prices);
    assert GetPriceSummary(history).value.lowest == lowest;
    assert GetPriceSummary(history).value.highest == highest;
  }
}
