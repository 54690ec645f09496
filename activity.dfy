/**
 * The activity timeline (src/lib/activity.ts): price and availability history rows are
 * turned into display events, merged newest first, and grouped by UTC day, by merchant
 * or by collection.
 */
module Activity {
  import opened Common
  import opened Web
  import opened Scraper

  // ---------------------------------------------------------------------------
  // Rows and events
  // ---------------------------------------------------------------------------

  /** The item columns joined onto a history row. */
  datatype JoinedItem = JoinedItem(
    id: Option<string>,
    title: Option<string>,
    listId: Option<string>,
    merchant: Option<string>)

  /** What the `items` join holds: null/absent, one object, or an array of them. */
  datatype Join = NoJoin | One(item: JoinedItem) | Many(items: seq<JoinedItem>)

  /** A price_history row; `checkedAt` is the time the row's timestamp denotes, in epoch ms. */
  datatype PriceRow = PriceRow(id: string, checkedAt: int, price: real, currency: Option<string>, items: Join)

  datatype AvailabilityRow = AvailabilityRow(id: string, checkedAt: int, isAvailable: bool, items: Join)

  datatype ActivityType = PriceActivity | AvailabilityActivity

  datatype Tone = Good | Bad | Neutral

  datatype ActivityEvent = ActivityEvent(
    id: string,
    kind: ActivityType,
    checkedAt: int,
    itemId: Option<string>,
    listId: Option<string>,
    merchant: Option<string>,
    itemTitle: string,
    listName: string,
    message: string,
    tone: Tone)

  /** normalizeItem: the joined item, if any; an array contributes its first element. */
  function NormalizeItem(j: Join): (r: Option<JoinedItem>)
    ensures r.None? <==> j.NoJoin? || (j.Many? && j.items == [])
    ensures j.One? ==> r == Some(j.item)
    ensures j.Many? && j.items != [] ==> r == Some(j.items[0])
  {
    match j
    case NoJoin => None
    case One(item) => Some(item)
    case Many(items) => if items == [] then None else Some(items[0])
  }

  /** The collection name: the name of a truthy list id found in `names`, else "Unassigned". */
  function ListName(item: Option<JoinedItem>, names: map<string, string>): (r: string)
    ensures (item.Some? && Truthy(item.value.listId) && item.value.listId.value in names)
            ==> r == names[item.value.listId.value]
    ensures !(item.Some? && Truthy(item.value.listId) && item.value.listId.value in names)
            ==> r == Unassigned
  {
    if item.Some? && Truthy(item.value.listId) then
      var id := item.value.listId.value;
      if id in names then names[id] else Unassigned
    else Unassigned
  }

  /** `item?.title || 'Unknown item'` */
  function ItemTitle(item: Option<JoinedItem>): (r: string)
    ensures r != ""
    ensures (item.Some? && Truthy(item.value.title)) ==> r == item.value.title.value
    ensures !(item.Some? && Truthy(item.value.title)) ==> r == UnknownItem
  {
    if item.Some? && Truthy(item.value.title) then item.value.title.value else UnknownItem
  }

  /** `item?.field ?? null` for the three copied columns. */
  function ItemIdOf(item: Option<JoinedItem>): Option<string> {
    if item.Some? then item.value.id else None
  }

  function ListIdOf(item: Option<JoinedItem>): Option<string> {
    if item.Some? then item.value.listId else None
  }

  function MerchantOf(item: Option<JoinedItem>): Option<string> {
    if item.Some? then item.value.merchant else None
  }

  // ---------------------------------------------------------------------------
  // formatCurrency
  // ---------------------------------------------------------------------------

  function Abs(x: real): (r: real)
    ensures r >= 0.0 && (r == x || r == -x)
  {
    if x < 0.0 then -x else x
  }

  /** The cents `toFixed(2)` shows for a non-negative amount: the nearest, a half rounding up. */
  function Cents(x: real): (c: nat)
    requires x >= 0.0
    ensures c as real - 0.5 <= x * 100.0 < c as real + 0.5
  {
    (x * 100.0 + 0.5).Floor
  }

  function DigitChar(d: nat): (c: char)
    requires d < 10
    ensures IsDigit(c) && DigitValue(c) == d
  {
    ('0' as int + d) as char
  }

  /** The decimal numeral of `n`, without leading zeros. */
  function NatDigits(n: nat): (r: string)
    ensures |r| >= 1 && AllDigits(r) && DigitsValue(r) == n
    ensures r[0] == '0' ==> r == "0"
    decreases n
  {
    if n < 10 then [DigitChar(n)]
    else
      var r := NatDigits(n / 10) + [DigitChar(n % 10)];
      assert r[..|r| - 1] == NatDigits(n / 10);
      r
  }

  lemma TwoDigitsValue(f: string)
    requires |f| == 2 && AllDigits(f)
    ensures DigitsValue(f) == 10 * DigitValue(f[0]) + DigitValue(f[1])
  {
    var a := f[..1];
    assert a[..0] == [];
    assert DigitsValue(a) == DigitValue(f[0]);
  }

  /** Cents are the dollars times a hundred plus the tens and the units digit. */
  lemma CentsSplit(c: nat)
    ensures (c / 100) * 100 + (10 * (c / 10 % 10) + c % 10) == c
  {
    var q, r := c / 100, c % 100;
    assert c == q * 100 + r;
    assert c / 10 == q * 10 + r / 10;
    assert c / 10 % 10 == r / 10;
    assert c % 10 == r % 10;
  }

  /** A count of cents written as a whole part, a point and two decimals. */
  function CentsText(c: nat): (u: string)
    ensures |u| >= 4 && u[|u| - 3] == '.'
    ensures AllDigits(u[..|u| - 3]) && AllDigits(u[|u| - 2..])
    ensures u[0] == '0' ==> |u| == 4
    ensures DigitsValue(u[..|u| - 3]) * 100 + DigitsValue(u[|u| - 2..]) == c
  {
    var whole := NatDigits(c / 100);
    var fraction := [DigitChar(c / 10 % 10), DigitChar(c % 10)];
    TwoDigitsValue(fraction);
    CentsSplit(c);
    var u := whole + "." + fraction;
    assert u[..|u| - 3] == whole && u[|u| - 2..] == fraction;
    u
  }

  /**
   * `x.toFixed(2)` on an exact amount: a minus sign exactly for a negative amount,
   * followed by the cents nearest to its magnitude.
   */
  function Fixed2(x: real): (r: string)
    ensures |r| >= 4 && r[|r| - 3] == '.'
    ensures (r[0] == '-') <==> x < 0.0
    ensures (if x < 0.0 then r[1..] else r) == CentsText(Cents(Abs(x)))
  {
    var u := CentsText(Cents(Abs(x)));
    if x < 0.0 then
      assert ("-" + u)[1..] == u;
      "-" + u
    else u
  }

  /** formatCurrency: "$" for a missing currency or USD, else the upper-cased code and a space. */
  function FormatCurrency(price: real, currency: Option<string>): (r: string)
    ensures (!Truthy(currency) || currency.value == "USD") ==> r == "$" + Fixed2(price)
    ensures (Truthy(currency) && currency.value != "USD")
            ==> r == ToUpper(currency.value) + " " + Fixed2(price)
  {
    if !Truthy(currency) || currency.value == "USD" then "$" + Fixed2(price)
    else ToUpper(currency.value) + " " + Fixed2(price)
  }

  /** A prefix without lower-case letters, followed by the amount. */
  predicate PrefixedAmount(r: string, f: string) {
    && |r| > |f|
    && r[|r| - |f|..] == f
    && (forall i :: 0 <= i < |r| - |f| ==> !IsLowerAscii(r[i]))
  }

  lemma PrefixedBy(p: string, f: string)
    requires p != [] && forall i :: 0 <= i < |p| ==> !IsLowerAscii(p[i])
    ensures PrefixedAmount(p + f, f)
  {
    var r := p + f;
    assert r[|p|..] == f;
    assert forall i :: 0 <= i < |p| ==> r[i] == p[i];
  }

  /** Whatever the currency, the amount closes the display and the prefix has no lower-case letter. */
  lemma FormatCurrencyShape(price: real, currency: Option<string>)
    ensures PrefixedAmount(FormatCurrency(price, currency), Fixed2(price))
  {
    var f := Fixed2(price);
    if !Truthy(currency) || currency.value == "USD" {
      PrefixedBy("$", f);
    } else {
      var p := ToUpper(currency.value) + " ";
      assert forall i :: 0 <= i < |p| ==> !IsLowerAscii(p[i]) by {
        forall i | 0 <= i < |p| ensures !IsLowerAscii(p[i]) {
          if i < |currency.value| { assert p[i] == ToUpper(currency.value)[i]; }
        }
      }
      PrefixedBy(p, f);
    }
  }

  // ---------------------------------------------------------------------------
  // buildActivityEvents
  // ---------------------------------------------------------------------------

  const UnknownItem := "Unknown item"
  const Unassigned := "Unassigned"
  const InStock := "Item is in stock"
  const OutOfStock := "Item is out of stock"

  function PriceEvent(row: PriceRow, names: map<string, string>): (e: ActivityEvent)
    ensures e.id == "price-" + row.id && e.kind == PriceActivity && e.checkedAt == row.checkedAt
    ensures var item := NormalizeItem(row.items);
            && e.itemId == ItemIdOf(item) && e.listId == ListIdOf(item) && e.merchant == MerchantOf(item)
            && e.itemTitle == ItemTitle(item) && e.listName == ListName(item, names)
    ensures e.message == "Price checked at " + FormatCurrency(row.price, row.currency)
    ensures e.tone == Neutral
  {
    var item := NormalizeItem(row.items);
    ActivityEvent("price-" + row.id, PriceActivity, row.checkedAt, ItemIdOf(item), ListIdOf(item),
                  MerchantOf(item), ItemTitle(item), ListName(item, names),
                  "Price checked at " + FormatCurrency(row.price, row.currency), Neutral)
  }

  function AvailabilityEvent(row: AvailabilityRow, names: map<string, string>): (e: ActivityEvent)
    ensures e.id == "availability-" + row.id && e.kind == AvailabilityActivity && e.checkedAt == row.checkedAt
    ensures var item := NormalizeItem(row.items);
            && e.itemId == ItemIdOf(item) && e.listId == ListIdOf(item) && e.merchant == MerchantOf(item)
            && e.itemTitle == ItemTitle(item) && e.listName == ListName(item, names)
    ensures e.message == (if row.isAvailable then InStock else OutOfStock)
    ensures e.tone == (if row.isAvailable then Good else Bad)
  {
    var item := NormalizeItem(row.items);
    ActivityEvent("availability-" + row.id, AvailabilityActivity, row.checkedAt, ItemIdOf(item),
                  ListIdOf(item), MerchantOf(item), ItemTitle(item), ListName(item, names),
                  if row.isAvailable then InStock else OutOfStock,
                  if row.isAvailable then Good else Bad)
  }

  function PriceEvents(rows: seq<PriceRow>, names: map<string, string>): (r: seq<ActivityEvent>)
    ensures |r| == |rows|
    ensures forall i :: 0 <= i < |rows| ==> r[i] == PriceEvent(rows[i], names)
  {
    seq(|rows|, i requires 0 <= i < |rows| => PriceEvent(rows[i], names))
  }

  function AvailabilityEvents(rows: seq<AvailabilityRow>, names: map<string, string>): (r: seq<ActivityEvent>)
    ensures |r| == |rows|
    ensures forall i :: 0 <= i < |rows| ==> r[i] == AvailabilityEvent(rows[i], names)
  {
    seq(|rows|, i requires 0 <= i < |rows| => AvailabilityEvent(rows[i], names))
  }

  function CheckedAt(e: ActivityEvent): int {
    e.checkedAt
  }

  /** Newest first. */
  predicate SortedDesc(s: seq<ActivityEvent>) {
    forall i, j :: 0 <= i < j < |s| ==> s[j].checkedAt <= s[i].checkedAt
  }

  /** The events of `s` with key `k`, in the order of `s`. */
  function Select<T, K(==)>(s: seq<T>, key: T -> K, k: K): (r: seq<T>)
    ensures |r| <= |s|
    ensures forall i :: 0 <= i < |r| ==> key(r[i]) == k
  {
    if s == [] then []
    else
      assert s == [s[0]] + s[1..];
      (if key(s[0]) == k then [s[0]] else []) + Select(s[1..], key, k)
  }

  lemma SelectCons<T, K>(x: T, s: seq<T>, key: T -> K, k: K)
    ensures Select([x] + s, key, k) == (if key(x) == k then [x] else []) + Select(s, key, k)
  {
    assert ([x] + s)[1..] == s;
  }

  lemma {:induction false} SelectConcat<T, K>(a: seq<T>, b: seq<T>, key: T -> K, k: K)
    ensures Select(a + b, key, k) == Select(a, key, k) + Select(b, key, k)
    decreases |a|
  {
    if a == [] {
      assert a + b == b;
    } else {
      SelectConcat(a[1..], b, key, k);
      assert a + b == [a[0]] + (a[1..] + b);
      assert a == [a[0]] + a[1..];
      SelectCons(a[0], a[1..] + b, key, k);
      SelectCons(a[0], a[1..], key, k);
    }
  }

  lemma SelectSnoc<T, K>(s: seq<T>, x: T, key: T -> K, k: K)
    ensures Select(s + [x], key, k) == Select(s, key, k) + (if key(x) == k then [x] else [])
  {
    SelectConcat(s, [x], key, k);
    SelectCons(x, [], key, k);
    assert [x] + [] == [x];
  }

  lemma {:induction false} SelectNone<T, K>(s: seq<T>, key: T -> K, k: K)
    requires forall i :: 0 <= i < |s| ==> key(s[i]) != k
    ensures Select(s, key, k) == []
    decreases |s|
  {
    if s != [] {
      SelectNone(s[1..], key, k);
    }
  }

  /** Places `x` after every event at least as new, so an event inserted later stays behind its equals. */
  function Insert(x: ActivityEvent, t: seq<ActivityEvent>): (r: seq<ActivityEvent>)
    requires SortedDesc(t)
    ensures SortedDesc(r)
    ensures multiset(r) == multiset(t) + multiset{x}
    ensures |r| == |t| + 1
  {
    if t == [] then [x]
    else if x.checkedAt > t[0].checkedAt then [x] + t
    else
      var rest := Insert(x, t[1..]);
      InsertBelow(x, t[1..], rest, t[0].checkedAt);
      assert t == [t[0]] + t[1..];
      [t[0]] + rest
  }

  /** Everything Insert places after a head at least as new as `x` and as `t` stays below that head. */
  lemma InsertBelow(x: ActivityEvent, t: seq<ActivityEvent>, rest: seq<ActivityEvent>, top: int)
    requires multiset(rest) == multiset(t) + multiset{x}
    requires x.checkedAt <= top && forall k :: 0 <= k < |t| ==> t[k].checkedAt <= top
    ensures forall k :: 0 <= k < |rest| ==> rest[k].checkedAt <= top
  {
    forall k | 0 <= k < |rest| ensures rest[k].checkedAt <= top {
      assert rest[k] in multiset(rest);
      if rest[k] != x {
        assert rest[k] in multiset(t);
        var j :| 0 <= j < |t| && t[j] == rest[k];
      }
    }
  }

  /** The comparator `b - a` under a stable sort: newest first, ties in input order. */
  function SortDesc(s: seq<ActivityEvent>): (r: seq<ActivityEvent>)
    ensures SortedDesc(r)
    ensures multiset(r) == multiset(s)
    ensures |r| == |s|
    decreases |s|
  {
    if s == [] then []
    else
      assert s == s[..|s| - 1] + [s[|s| - 1]];
      Insert(s[|s| - 1], SortDesc(s[..|s| - 1]))
  }

  lemma {:induction false} InsertStable(x: ActivityEvent, t: seq<ActivityEvent>, k: int)
    requires SortedDesc(t)
    ensures Select(Insert(x, t), CheckedAt, k) == Select(t + [x], CheckedAt, k)
    decreases |t|
  {
    if t == [] {
      assert t + [x] == [x];
    } else if x.checkedAt > t[0].checkedAt {
      SelectConcat(t, [x], CheckedAt, k);
      SelectCons(x, t, CheckedAt, k);
      SelectCons(x, [], CheckedAt, k);
      assert [x] + [] == [x];
      if x.checkedAt == k {
        SelectNone(t, CheckedAt, k);
      }
    } else {
      var rest := Insert(x, t[1..]);
      assert Insert(x, t) == [t[0]] + rest;
      InsertStable(x, t[1..], k);
      SelectCons(t[0], rest, CheckedAt, k);
      SelectCons(t[0], t[1..] + [x], CheckedAt, k);
      assert t + [x] == [t[0]] + (t[1..] + [x]);
    }
  }

  /** Sorting keeps, for every timestamp, the input order of the events carrying it. */
  lemma {:induction false} SortStable(s: seq<ActivityEvent>, k: int)
    ensures Select(SortDesc(s), CheckedAt, k) == Select(s, CheckedAt, k)
    decreases |s|
  {
    if s != [] {
      var init, last := s[..|s| - 1], s[|s| - 1];
      var sorted := SortDesc(init);
      assert init + [last] == s;
      calc {
        Select(SortDesc(s), CheckedAt, k);
        Select(Insert(last, sorted), CheckedAt, k);
        { InsertStable(last, sorted, k); }
        Select(sorted + [last], CheckedAt, k);
        { SelectConcat(sorted, [last], CheckedAt, k); }
        Select(sorted, CheckedAt, k) + Select([last], CheckedAt, k);
        { SortStable(init, k); }
        Select(init, CheckedAt, k) + Select([last], CheckedAt, k);
        { SelectConcat(init, [last], CheckedAt, k); }
        Select(s, CheckedAt, k);
      }
    }
  }

  /**
   * buildActivityEvents: every price and availability row becomes one event, and the
   * events come newest first.
   */
  function BuildActivityEvents(priceRows: seq<PriceRow>, availabilityRows: seq<AvailabilityRow>,
                               names: map<string, string>): (r: seq<ActivityEvent>)
    ensures |r| == |priceRows| + |availabilityRows|
    ensures multiset(r) == multiset(PriceEvents(priceRows, names) + AvailabilityEvents(availabilityRows, names))
    ensures SortedDesc(r)
  {
    SortDesc(PriceEvents(priceRows, names) + AvailabilityEvents(availabilityRows, names))
  }

  /** Events with the same timestamp keep their order: price events first, each kind in row order. */
  lemma BuildActivityEventsStable(priceRows: seq<PriceRow>, availabilityRows: seq<AvailabilityRow>,
                                  names: map<string, string>, k: int)
    ensures Select(BuildActivityEvents(priceRows, availabilityRows, names), CheckedAt, k)
            == Select(PriceEvents(priceRows, names), CheckedAt, k)
               + Select(AvailabilityEvents(availabilityRows, names), CheckedAt, k)
  {
    var merged := PriceEvents(priceRows, names) + AvailabilityEvents(availabilityRows, names);
    SortStable(merged, k);
    SelectConcat(PriceEvents(priceRows, names), AvailabilityEvents(availabilityRows, names), CheckedAt, k);
  }

  // ---------------------------------------------------------------------------
  // Grouping
  // ---------------------------------------------------------------------------

  /** A labelled group of events. */
  datatype Group<L> = Group(name: L, events: seq<ActivityEvent>)

  /** One group per label of `ls`, in that order, each holding the events with that label. */
  function Groups<L(==)>(s: seq<ActivityEvent>, key: ActivityEvent -> L, ls: seq<L>): (r: seq<Group<L>>)
    ensures |r| == |ls|
    ensures forall i :: 0 <= i < |ls| ==> r[i] == Group(ls[i], Select(s, key, ls[i]))
  {
    if ls == [] then [] else [Group(ls[0], Select(s, key, ls[0]))] + Groups(s, key, ls[1..])
  }

  /** The events of all groups, one group after the other. */
  function AllEvents<L>(gs: seq<Group<L>>): seq<ActivityEvent> {
    if gs == [] then [] else gs[0].events + AllEvents(gs[1..])
  }

  predicate Distinct<L(==)>(ls: seq<L>) {
    forall i, j :: 0 <= i < j < |ls| ==> ls[i] != ls[j]
  }

  lemma {:induction false} GroupsCons<L>(x: ActivityEvent, s: seq<ActivityEvent>, key: ActivityEvent -> L, ls: seq<L>)
    requires Distinct(ls)
    ensures multiset(AllEvents(Groups([x] + s, key, ls)))
            == multiset(AllEvents(Groups(s, key, ls))) + (if key(x) in ls then multiset{x} else multiset{})
    decreases |ls|
  {
    if ls != [] {
      assert Distinct(ls[1..]);
      GroupsCons(x, s, key, ls[1..]);
      SelectCons(x, s, key, ls[0]);
      assert key(x) in ls <==> key(x) == ls[0] || key(x) in ls[1..];
      assert key(x) == ls[0] ==> key(x) !in ls[1..];
    }
  }

  /** Over distinct labels that cover every event, the groups together hold each event exactly once. */
  lemma {:induction false} GroupsPartition<L>(s: seq<ActivityEvent>, key: ActivityEvent -> L, ls: seq<L>)
    requires Distinct(ls)
    requires forall i :: 0 <= i < |s| ==> key(s[i]) in ls
    ensures multiset(AllEvents(Groups(s, key, ls))) == multiset(s)
    decreases |s|
  {
    if s == [] {
      EmptyGroups(key, ls);
    } else {
      var x, rest := s[0], s[1..];
      assert s == [x] + rest;
      assert key(x) in ls;
      assert forall i :: 0 <= i < |rest| ==> rest[i] == s[i + 1];
      calc {
        multiset(AllEvents(Groups(s, key, ls)));
        { GroupsCons(x, rest, key, ls); }
        multiset(AllEvents(Groups(rest, key, ls))) + multiset{x};
        { GroupsPartition(rest, key, ls); }
        multiset(rest) + multiset{x};
        multiset(s);
      }
    }
  }

  lemma {:induction false} EmptyGroups<L>(key: ActivityEvent -> L, ls: seq<L>)
    ensures AllEvents(Groups([], key, ls)) == []
    decreases |ls|
  {
    if ls != [] {
      EmptyGroups(key, ls[1..]);
    }
  }

  // --- groupActivityEventsByDay ----------------------------------------------

  const DayMs := 24 * 60 * 60 * 1000

  /** getUtcStartOfDay: midnight UTC of the day `t` falls in. */
  function UtcStartOfDay(t: int): (r: int)
    ensures r % DayMs == 0 && r <= t < r + DayMs
  {
    t - t % DayMs
  }

  datatype DayLabel = Today | Yesterday | Earlier

  function DayOf(t: int, now: int): DayLabel {
    var todayStart := UtcStartOfDay(now);
    var start := UtcStartOfDay(t);
    if start == todayStart then Today
    else if start == todayStart - DayMs then Yesterday
    else Earlier
  }

  /** An event is labelled Today or Yesterday exactly when it falls in that UTC day; all else, the future included, is Earlier. */
  lemma DayOfWindows(t: int, now: int)
    ensures var todayStart := UtcStartOfDay(now);
            && (DayOf(t, now) == Today <==> todayStart <= t < todayStart + DayMs)
            && (DayOf(t, now) == Yesterday <==> todayStart - DayMs <= t < todayStart)
            && (DayOf(t, now) == Earlier <==> t < todayStart - DayMs || todayStart + DayMs <= t)
  {
    var todayStart := UtcStartOfDay(now);
    var start := UtcStartOfDay(t);
    if todayStart <= t < todayStart + DayMs {
      StartOfDayWithin(t, todayStart);
    }
    if todayStart - DayMs <= t < todayStart {
      StartOfDayWithin(t, todayStart - DayMs);
    }
  }

  /** Every time within a day starting at midnight `m` has `m` as its start of day. */
  lemma StartOfDayWithin(t: int, m: int)
    requires m % DayMs == 0 && m <= t < m + DayMs
    ensures UtcStartOfDay(t) == m
  {
    var k := m / DayMs;
    assert m == k * DayMs;
    assert t == k * DayMs + (t - m);
    assert t / DayMs == k && t % DayMs == t - m;
  }

  function DayKey(now: int): ActivityEvent -> DayLabel {
    (e: ActivityEvent) => DayOf(e.checkedAt, now)
  }

  const DayLabels := [Today, Yesterday, Earlier]

  /** `groups.filter(g => g.events.length > 0)` */
  function NonEmpty<L>(gs: seq<Group<L>>): (r: seq<Group<L>>)
    ensures |r| <= |gs|
    ensures forall i :: 0 <= i < |r| ==> r[i].events != []
  {
    if gs == [] then []
    else
      var rest := NonEmpty(gs[1..]);
      if gs[0].events == [] then rest else [gs[0]] + rest
  }

  /** Filtering keeps exactly the non-empty groups and drops no event. */
  lemma {:induction false} NonEmptyKeeps<L>(gs: seq<Group<L>>)
    ensures forall g :: g in NonEmpty(gs) <==> g in gs && g.events != []
    ensures AllEvents(NonEmpty(gs)) == AllEvents(gs)
    decreases |gs|
  {
    if gs != [] {
      NonEmptyKeeps(gs[1..]);
      assert gs == [gs[0]] + gs[1..];
    }
  }

  /** The day groups: Today, Yesterday, Earlier, in that order, each kept only when non-empty. */
  function GroupsByDay(events: seq<ActivityEvent>, now: int): seq<Group<DayLabel>> {
    NonEmpty(Groups(events, DayKey(now), DayLabels))
  }

  function Rank(d: DayLabel): nat {
    match d
    case Today => 0
    case Yesterday => 1
    case Earlier => 2
  }

  predicate RankAscending(gs: seq<Group<DayLabel>>) {
    forall i, j :: 0 <= i < j < |gs| ==> Rank(gs[i].name) < Rank(gs[j].name)
  }

  lemma {:induction false} NonEmptyKeepsOrder(gs: seq<Group<DayLabel>>)
    requires RankAscending(gs)
    ensures RankAscending(NonEmpty(gs))
    ensures gs != [] ==> forall i :: 0 <= i < |NonEmpty(gs)| ==> Rank(gs[0].name) <= Rank(NonEmpty(gs)[i].name)
    decreases |gs|
  {
    if gs != [] {
      var tail := gs[1..];
      assert RankAscending(tail);
      NonEmptyKeepsOrder(tail);
      var rest := NonEmpty(tail);
      assert tail != [] ==> Rank(gs[0].name) < Rank(tail[0].name);
      assert tail == [] ==> rest == [];
      assert forall i :: 0 <= i < |rest| ==> Rank(gs[0].name) < Rank(rest[i].name);
    }
  }

  /** groupActivityEventsByDay: the groups are non-empty and come in the order Today, Yesterday, Earlier. */
  lemma GroupsByDayOrder(events: seq<ActivityEvent>, now: int)
    ensures var r := GroupsByDay(events, now);
            && (forall i :: 0 <= i < |r| ==> r[i].events != [])
            && (forall i, j :: 0 <= i < j < |r| ==> Rank(r[i].name) < Rank(r[j].name))
  {
    var all := Groups(events, DayKey(now), DayLabels);
    assert RankAscending(all);
    NonEmptyKeepsOrder(all);
  }

  /** Each day group holds exactly the events of its day, in input order. */
  lemma GroupsByDayContents(events: seq<ActivityEvent>, now: int)
    ensures var r := GroupsByDay(events, now);
            forall i :: 0 <= i < |r| ==> r[i].events == Select(events, DayKey(now), r[i].name)
  {
    var all := Groups(events, DayKey(now), DayLabels);
    var r := NonEmpty(all);
    NonEmptyKeeps(all);
    forall i | 0 <= i < |r|
      ensures r[i].events == Select(events, DayKey(now), r[i].name)
    {
      assert r[i] in all;
    }
  }

  /** Every event's day has a group. */
  lemma GroupsByDayCovers(events: seq<ActivityEvent>, now: int)
    ensures var r := GroupsByDay(events, now);
            forall i :: 0 <= i < |events| ==> exists g :: g in r && g.name == DayOf(events[i].checkedAt, now)
  {
    var all := Groups(events, DayKey(now), DayLabels);
    var r := NonEmpty(all);
    NonEmptyKeeps(all);
    forall i | 0 <= i < |events|
      ensures exists g :: g in r && g.name == DayOf(events[i].checkedAt, now)
    {
      var d := DayOf(events[i].checkedAt, now);
      var k := Rank(d);
      assert all[k].name == d;
      SelectHas(events, DayKey(now), i);
      assert all[k].events != [] && all[k] in all;
    }
  }

  /** Together the day groups hold every event exactly once. */
  lemma GroupsByDayPartition(events: seq<ActivityEvent>, now: int)
    ensures multiset(AllEvents(GroupsByDay(events, now))) == multiset(events)
  {
    var all := Groups(events, DayKey(now), DayLabels);
    assert Distinct(DayLabels);
    forall i | 0 <= i < |events|
      ensures DayKey(now)(events[i]) in DayLabels
    {
      var d := DayKey(now)(events[i]);
      assert d == DayLabels[Rank(d)];
    }
    GroupsPartition(events, DayKey(now), DayLabels);
    NonEmptyKeeps(all);
  }

  /** An event is in the selection for its own key. */
  lemma {:induction false} SelectHas<T, K>(s: seq<T>, key: T -> K, i: nat)
    requires i < |s|
    ensures s[i] in Select(s, key, key(s[i]))
    decreases |s|
  {
    SelectCons(s[0], s[1..], key, key(s[i]));
    assert s == [s[0]] + s[1..];
    if i > 0 {
      SelectHas(s[1..], key, i - 1);
    }
  }

  /** groupActivityEventsByDay, bucket by bucket. */
  method GroupByDay(events: seq<ActivityEvent>, now: int) returns (groups: seq<Group<DayLabel>>)
    ensures groups == GroupsByDay(events, now)
  {
    var todayStart := UtcStartOfDay(now);
    var yesterdayStart := todayStart - DayMs;
    var today: seq<ActivityEvent> := [];
    var yesterday: seq<ActivityEvent> := [];
    var earlier: seq<ActivityEvent> := [];
    for i := 0 to |events|
      invariant today == Select(events[..i], DayKey(now), Today)
      invariant yesterday == Select(events[..i], DayKey(now), Yesterday)
      invariant earlier == Select(events[..i], DayKey(now), Earlier)
    {
      var event := events[i];
      var eventStart := UtcStartOfDay(event.checkedAt);
      assert events[..i + 1] == events[..i] + [event];
      assert DayKey(now)(event) == DayOf(event.checkedAt, now);
      SelectSnoc(events[..i], event, DayKey(now), Today);
      SelectSnoc(events[..i], event, DayKey(now), Yesterday);
      SelectSnoc(events[..i], event, DayKey(now), Earlier);
      if eventStart == todayStart {
        today := today + [event];
      } else if eventStart == yesterdayStart {
        yesterday := yesterday + [event];
      } else {
        earlier := earlier + [event];
      }
    }
    assert events[..|events|] == events;
    var buckets := [Group(Today, today), Group(Yesterday, yesterday), Group(Earlier, earlier)];
    ghost var all := Groups(events, DayKey(now), DayLabels);
    assert all[0] == buckets[0] && all[1] == buckets[1] && all[2] == buckets[2];
    assert all == buckets;
    groups := NonEmpty(buckets);
  }

  // --- groupActivityEventsByLabel --------------------------------------------

  /** The distinct labels of `s`, in order of first appearance (the key order of a `Map`). */
  function FirstOccurrences(s: seq<ActivityEvent>, key: ActivityEvent -> string): seq<string>
    decreases |s|
  {
    if s == [] then []
    else
      var p := FirstOccurrences(s[..|s| - 1], key);
      var l := key(s[|s| - 1]);
      if l in p then p else p + [l]
  }

  /** The map's keys are distinct and are exactly the labels of the events. */
  lemma {:induction false} FirstOccurrencesFacts(s: seq<ActivityEvent>, key: ActivityEvent -> string)
    ensures Distinct(FirstOccurrences(s, key))
    ensures forall l :: l in FirstOccurrences(s, key) <==> exists i :: 0 <= i < |s| && key(s[i]) == l
    decreases |s|
  {
    if s != [] {
      var init := s[..|s| - 1];
      FirstOccurrencesFacts(init, key);
      assert forall i :: 0 <= i < |init| ==> s[i] == init[i];
    }
  }

  lemma FirstOccurrencesSnoc(s: seq<ActivityEvent>, x: ActivityEvent, key: ActivityEvent -> string)
    ensures FirstOccurrences(s + [x], key)
            == (if key(x) in FirstOccurrences(s, key) then FirstOccurrences(s, key)
                else FirstOccurrences(s, key) + [key(x)])
  {
    assert (s + [x])[..|s|] == s;
  }

  /** An event with a label not seen before adds that label at the end. */
  lemma FirstOccurrencesNew(s: seq<ActivityEvent>, x: ActivityEvent, key: ActivityEvent -> string, p: seq<string>)
    requires FirstOccurrences(s, key) == p && key(x) !in p
    ensures FirstOccurrences(s + [x], key) == p + [key(x)]
  {
    FirstOccurrencesSnoc(s, x, key);
  }

  predicate StrictlyAscending(ls: seq<string>) {
    forall i, j :: 0 <= i < j < |ls| ==> LexLess(ls[i], ls[j])
  }

  /** Inserts a new label into an ascending list of labels. */
  function InsertLabel(x: string, t: seq<string>): (r: seq<string>)
    ensures multiset(r) == multiset(t) + multiset{x}
  {
    if t == [] || LexLess(x, t[0]) then [x] + t
    else
      assert t == [t[0]] + t[1..];
      [t[0]] + InsertLabel(x, t[1..])
  }

  /** The entries' sort by `localeCompare` of the labels. */
  function SortLabels(ls: seq<string>): (r: seq<string>)
    ensures multiset(r) == multiset(ls)
  {
    if ls == [] then []
    else
      assert ls == [ls[0]] + ls[1..];
      InsertLabel(ls[0], SortLabels(ls[1..]))
  }

  lemma {:induction false} InsertLabelAscending(x: string, t: seq<string>)
    requires StrictlyAscending(t) && x !in t
    ensures StrictlyAscending(InsertLabel(x, t))
    decreases |t|
  {
    if t == [] {
    } else if LexLess(x, t[0]) {
      forall j | 0 <= j < |t|
        ensures LexLess(x, t[j])
      {
        if j > 0 {
          LexLessTransitive(x, t[0], t[j]);
        }
      }
    } else {
      LexLessTotal(x, t[0]);
      InsertLabelAscending(x, t[1..]);
      var rest := InsertLabel(x, t[1..]);
      assert forall k :: 0 <= k < |rest| ==> rest[k] in multiset(t[1..]) + multiset{x};
      forall k | 0 <= k < |rest|
        ensures LexLess(t[0], rest[k])
      {
        if rest[k] != x {
          assert rest[k] in t[1..];
        }
      }
    }
  }

  /** Sorting distinct labels gives them in strictly ascending order. */
  lemma {:induction false} SortLabelsAscending(ls: seq<string>)
    requires Distinct(ls)
    ensures StrictlyAscending(SortLabels(ls))
    decreases |ls|
  {
    if ls != [] {
      assert Distinct(ls[1..]);
      SortLabelsAscending(ls[1..]);
      assert ls[0] !in multiset(ls[1..]);
      InsertLabelAscending(ls[0], SortLabels(ls[1..]));
    }
  }

  /** groupActivityEventsByLabel as a value: one group per distinct label, labels ascending. */
  function GroupsByLabel(events: seq<ActivityEvent>, key: ActivityEvent -> string): seq<Group<string>> {
    Groups(events, key, SortLabels(FirstOccurrences(events, key)))
  }

  lemma SameMembers<T>(a: seq<T>, b: seq<T>)
    requires multiset(a) == multiset(b)
    ensures forall x :: x in a <==> x in b
  {
    assert forall x :: x in a <==> x in multiset(a);
    assert forall x :: x in b <==> x in multiset(b);
  }

  lemma AscendingDistinct(ls: seq<string>)
    requires StrictlyAscending(ls)
    ensures Distinct(ls)
  {
    forall i, j | 0 <= i < j < |ls|
      ensures ls[i] != ls[j]
    {
      LexLessIrreflexive(ls[i]);
    }
  }

  /** The sorted labels are exactly the labels of the events, each once. */
  lemma SortedLabelsFacts(events: seq<ActivityEvent>, key: ActivityEvent -> string)
    ensures var ls := SortLabels(FirstOccurrences(events, key));
            && StrictlyAscending(ls) && Distinct(ls)
            && (forall l :: l in ls <==> exists i :: 0 <= i < |events| && key(events[i]) == l)
  {
    var first := FirstOccurrences(events, key);
    var ls := SortLabels(first);
    FirstOccurrencesFacts(events, key);
    SortLabelsAscending(first);
    AscendingDistinct(ls);
    SameMembers(ls, first);
  }

  /** groupActivityEventsByLabel: the labels are strictly ascending, hence distinct. */
  lemma GroupsByLabelOrder(events: seq<ActivityEvent>, key: ActivityEvent -> string)
    ensures var r := GroupsByLabel(events, key);
            forall i, j :: 0 <= i < j < |r| ==> LexLess(r[i].name, r[j].name)
  {
    SortedLabelsFacts(events, key);
  }

  /** Each label group is non-empty and holds exactly the events with its label, in input order. */
  lemma GroupsByLabelContents(events: seq<ActivityEvent>, key: ActivityEvent -> string)
    ensures var r := GroupsByLabel(events, key);
            forall i :: 0 <= i < |r| ==> r[i].events != [] && r[i].events == Select(events, key, r[i].name)
  {
    var ls := SortLabels(FirstOccurrences(events, key));
    var r := GroupsByLabel(events, key);
    SortedLabelsFacts(events, key);
    forall i | 0 <= i < |r|
      ensures r[i].events != []
    {
      assert ls[i] in ls;
      var w :| 0 <= w < |events| && key(events[w]) == ls[i];
      SelectHas(events, key, w);
    }
  }

  /** Every event's label has a group, and together the groups hold every event exactly once. */
  lemma GroupsByLabelPartition(events: seq<ActivityEvent>, key: ActivityEvent -> string)
    ensures var r := GroupsByLabel(events, key);
            && (forall i :: 0 <= i < |events| ==> exists g :: g in r && g.name == key(events[i]))
            && multiset(AllEvents(r)) == multiset(events)
  {
    var ls := SortLabels(FirstOccurrences(events, key));
    var r := GroupsByLabel(events, key);
    SortedLabelsFacts(events, key);
    forall i | 0 <= i < |events|
      ensures exists g :: g in r && g.name == key(events[i])
    {
      assert key(events[i]) in ls;
      var k :| 0 <= k < |ls| && ls[k] == key(events[i]);
      assert r[k] in r;
    }
    GroupsPartition(events, key, ls);
  }

  /** The state of the bucketing loop after the first `i` events. */
  ghost predicate Buckets(events: seq<ActivityEvent>, key: ActivityEvent -> string, i: nat,
                    grouped: map<string, seq<ActivityEvent>>, order: seq<string>)
    requires i <= |events|
  {
    && order == FirstOccurrences(events[..i], key)
    && (forall l :: l in grouped <==> l in order)
    && (forall l :: l in grouped ==> grouped[l] == Select(events[..i], key, l))
  }

  /** One more event: pushed onto its label's bucket, or opening a new bucket and a new key. */
  lemma BucketStep(events: seq<ActivityEvent>, key: ActivityEvent -> string, i: nat,
                   grouped: map<string, seq<ActivityEvent>>, order: seq<string>)
    requires i < |events| && Buckets(events, key, i, grouped, order)
    ensures var name := key(events[i]);
            name in grouped ==> Buckets(events, key, i + 1, grouped[name := grouped[name] + [events[i]]], order)
    ensures var name := key(events[i]);
            name !in grouped ==> Buckets(events, key, i + 1, grouped[name := [events[i]]], order + [name])
  {
    var name := key(events[i]);
    var prefix := events[..i + 1];
    assert prefix[..i] == events[..i] && prefix[i] == events[i];
    assert prefix[..|prefix| - 1] == events[..i];
    forall l
      ensures Select(prefix, key, l) == Select(events[..i], key, l) + (if name == l then [events[i]] else [])
    {
      assert prefix == events[..i] + [events[i]];
      SelectSnoc(events[..i], events[i], key, l);
    }
    if name !in grouped {
      FirstOccurrencesFacts(events[..i], key);
      forall w | 0 <= w < i
        ensures key(events[..i][w]) != name
      {
        assert key(events[..i][w]) in order;
      }
      SelectNone(events[..i], key, name);
    }
  }

  /** groupActivityEventsByLabel: buckets in a map keyed by label, then the labels sorted. */
  method GroupByLabel(events: seq<ActivityEvent>, key: ActivityEvent -> string)
    returns (groups: seq<Group<string>>)
    ensures groups == GroupsByLabel(events, key)
  {
    var grouped: map<string, seq<ActivityEvent>> := map[];
    var order: seq<string> := [];
    for i := 0 to |events|
      invariant Buckets(events, key, i, grouped, order)
    {
      BucketStep(events, key, i, grouped, order);
      var event := events[i];
      var name := key(event);
      if name in grouped {
        grouped := grouped[name := grouped[name] + [event]];
      } else {
        grouped := grouped[name := [event]];
        order := order + [name];
      }
    }
    var labels := SortLabels(order);
    BucketsDone(events, key, grouped, order, labels);
    groups := seq(|labels|, k requires 0 <= k < |labels| => Group(labels[k], grouped[labels[k]]));
  }

  /** Once every event is bucketed, the sorted labels read off the buckets give GroupsByLabel. */
  lemma BucketsDone(events: seq<ActivityEvent>, key: ActivityEvent -> string,
                    grouped: map<string, seq<ActivityEvent>>, order: seq<string>, labels: seq<string>)
    requires Buckets(events, key, |events|, grouped, order) && labels == SortLabels(order)
    ensures forall l :: l in labels ==> l in grouped
    ensures |GroupsByLabel(events, key)| == |labels|
    ensures forall k :: 0 <= k < |labels| ==> GroupsByLabel(events, key)[k] == Group(labels[k], grouped[labels[k]])
  {
    assert events[..|events|] == events;
    SameMembers(labels, order);
  }

  const UnknownMerchant := "Unknown merchant"

  /** `event.merchant || 'Unknown merchant'` */
  function MerchantLabel(e: ActivityEvent): (l: string)
    ensures l != ""
    ensures Truthy(e.merchant) ==> l == e.merchant.value
    ensures !Truthy(e.merchant) ==> l == UnknownMerchant
  {
    if Truthy(e.merchant) then e.merchant.value else UnknownMerchant
  }

  /** `event.listName || 'Unassigned'` */
  function CollectionLabel(e: ActivityEvent): (l: string)
    ensures l != ""
    ensures e.listName != "" ==> l == e.listName
    ensures e.listName == "" ==> l == Unassigned
  {
    if e.listName != "" then e.listName else Unassigned
  }

  method GroupByMerchant(events: seq<ActivityEvent>) returns (groups: seq<Group<string>>)
    ensures groups == GroupsByLabel(events, MerchantLabel)
  {
    groups := GroupByLabel(events, MerchantLabel);
  }

  method GroupByCollection(events: seq<ActivityEvent>) returns (groups: seq<Group<string>>)
    ensures groups == GroupsByLabel(events, CollectionLabel)
  {
    groups := GroupByLabel(events, CollectionLabel);
  }

  // ---------------------------------------------------------------------------
  // The examples of src/lib/activity.test.ts
  // ---------------------------------------------------------------------------

  /** Two events out of order are swapped. */
  lemma SortPair(older: ActivityEvent, newer: ActivityEvent)
    requires older.checkedAt < newer.checkedAt
    ensures SortDesc([older, newer]) == [newer, older]
  {
    var s := [older, newer];
    assert s[..1] == [older];
    assert SortDesc([older]) == [older] by {
      assert [older][..0] == [];
    }
    assert SortDesc(s) == Insert(newer, [older]);
  }

  /** An availability check newer than a price check comes first. */
  lemma NewerEventFirst(p: PriceRow, a: AvailabilityRow, names: map<string, string>)
    requires p.checkedAt < a.checkedAt
    ensures BuildActivityEvents([p], [a], names) == [AvailabilityEvent(a, names), PriceEvent(p, names)]
  {
    var pe := PriceEvent(p, names);
    var ae := AvailabilityEvent(a, names);
    OneRowEach(p, a, names);
    assert [pe] + [ae] == [pe, ae];
    SortPair(pe, ae);
  }

  lemma OneRowEach(p: PriceRow, a: AvailabilityRow, names: map<string, string>)
    ensures PriceEvents([p], names) == [PriceEvent(p, names)]
    ensures AvailabilityEvents([a], names) == [AvailabilityEvent(a, names)]
  {
  }

  const TechList := map["l1" := "Tech Upgrades"]
  const Headphones := One(JoinedItem(Some("i1"), Some("Headphones"), Some("l1"), None))
  const HeadphonesPrice := PriceRow("p1", 1771232400000, 249.99, Some("USD"), Headphones)
  const HeadphonesStock := AvailabilityRow("a1", 1771236000000, false, Headphones)

  lemma CentsOfHeadphones()
    ensures Fixed2(249.99) == "249.99"
  {
    assert Cents(249.99) == 24999;
    assert NatDigits(2) == "2";
    assert NatDigits(24) == "24";
    assert NatDigits(249) == "249";
    assert CentsText(24999) == "249.99";
  }

  /** 'builds and sorts price and availability events' */
  lemma BuildsAndSortsExample()
    ensures var events := BuildActivityEvents([HeadphonesPrice], [HeadphonesStock], TechList);
            && |events| == 2
            && events[0].kind == AvailabilityActivity
            && events[0].listName == "Tech Upgrades"
            && events[0].itemId == Some("i1") && events[0].listId == Some("l1")
            && events[1].kind == PriceActivity
            && events[1].message == "Price checked at $249.99"
  {
    NewerEventFirst(HeadphonesPrice, HeadphonesStock, TechList);
    HeadphonesStockEvent();
    HeadphonesPriceEvent();
  }

  lemma HeadphonesStockEvent()
    ensures var e := AvailabilityEvent(HeadphonesStock, TechList);
            e.listName == "Tech Upgrades" && e.itemId == Some("i1") && e.listId == Some("l1")
  {
    assert NormalizeItem(HeadphonesStock.items) == Some(Headphones.item);
  }

  lemma HeadphonesPriceEvent()
    ensures PriceEvent(HeadphonesPrice, TechList).message == "Price checked at $249.99"
  {
    CentsOfHeadphones();
    assert FormatCurrency(249.99, Some("USD")) == "$249.99";
  }

  /** 'handles missing joins gracefully' */
  lemma MissingJoinExample(id: string, t: int, price: real, currency: Option<string>)
    ensures var e := BuildActivityEvents([PriceRow(id, t, price, currency, NoJoin)], [], map[])[0];
            && e.itemTitle == UnknownItem && e.listName == Unassigned
            && e.itemId.None? && e.listId.None?
  {
    var row := PriceRow(id, t, price, currency, NoJoin);
    assert PriceEvents([row], map[]) + AvailabilityEvents([], map[]) == [PriceEvent(row, map[])];
    assert SortDesc([PriceEvent(row, map[])]) == Insert(PriceEvent(row, map[]), []);
  }

  /** A fixture event: the test's id, type, timestamp, merchant and list name; the other fields are placeholders the groupings do not read. */
  function Sample(id: string, kind: ActivityType, t: int, merchant: Option<string>, listName: string): ActivityEvent {
    ActivityEvent(id, kind, t, None, None, merchant, UnknownItem, listName, "", Neutral)
  }

  lemma SelectPair<K>(x: ActivityEvent, y: ActivityEvent, key: ActivityEvent -> K, l: K)
    ensures Select([x, y], key, l) == (if key(x) == l then [x] else []) + (if key(y) == l then [y] else [])
  {
    SelectSnoc([], x, key, l);
    SelectSnoc([x], y, key, l);
    assert [] + [x] == [x] && [x] + [y] == [x, y];
  }

  lemma SelectTriple<K>(x: ActivityEvent, y: ActivityEvent, z: ActivityEvent, key: ActivityEvent -> K, l: K)
    ensures Select([x, y, z], key, l)
            == (if key(x) == l then [x] else []) + (if key(y) == l then [y] else []) + (if key(z) == l then [z] else [])
  {
    SelectPair(x, y, key, l);
    SelectSnoc([x, y], z, key, l);
    assert [x, y] + [z] == [x, y, z];
  }

  /** Three events, one per day label, in the order of the labels. */
  lemma ThreeDayGroups(x: ActivityEvent, y: ActivityEvent, z: ActivityEvent, now: int)
    requires DayOf(x.checkedAt, now) == Today && DayOf(y.checkedAt, now) == Yesterday
    requires DayOf(z.checkedAt, now) == Earlier
    ensures GroupsByDay([x, y, z], now) == [Group(Today, [x]), Group(Yesterday, [y]), Group(Earlier, [z])]
  {
    var key := DayKey(now);
    SelectTriple(x, y, z, key, Today);
    SelectTriple(x, y, z, key, Yesterday);
    SelectTriple(x, y, z, key, Earlier);
    var buckets := [Group(Today, [x]), Group(Yesterday, [y]), Group(Earlier, [z])];
    var all := Groups([x, y, z], key, DayLabels);
    assert all[0] == buckets[0] && all[1] == buckets[1] && all[2] == buckets[2];
    assert all == buckets;
    assert NonEmpty(buckets[2..]) == buckets[2..];
    assert NonEmpty(buckets[1..]) == buckets[1..];
  }

  const FixtureNow := 1771272000000
  const MouseToday := Sample("price-p-today", PriceActivity, 1771232400000, Some("LogiTech"), "Tech Upgrades")
  const CableYesterday := Sample("availability-a-yesterday", AvailabilityActivity, 1771180200000, Some("LogiTech"), "Tech Upgrades")
  const MonitorEarlier := Sample("price-p-old", PriceActivity, 1770886800000, Some("Dell"), "Tech Upgrades")

  lemma FixtureDays()
    ensures DayOf(MouseToday.checkedAt, FixtureNow) == Today
    ensures DayOf(CableYesterday.checkedAt, FixtureNow) == Yesterday
    ensures DayOf(MonitorEarlier.checkedAt, FixtureNow) == Earlier
  {
    assert UtcStartOfDay(FixtureNow) == 1771200000000;
  }

  /** 'groups events into Today, Yesterday, and Earlier' */
  lemma GroupsByDayExample()
    ensures GroupsByDay([MouseToday, CableYesterday, MonitorEarlier], FixtureNow)
            == [Group(Today, [MouseToday]), Group(Yesterday, [CableYesterday]), Group(Earlier, [MonitorEarlier])]
  {
    FixtureDays();
    ThreeDayGroups(MouseToday, CableYesterday, MonitorEarlier, FixtureNow);
  }

  const LogiTech := "LogiTech"
  const Ikea := "IKEA"
  const MouseCheck := Sample("price-p-1", PriceActivity, 1771232400000, Some(LogiTech), "Tech Upgrades")
  const LampCheck := Sample("price-p-2", PriceActivity, 1771228800000, Some(Ikea), "Tech Upgrades")
  const CableCheck := Sample("availability-a-1", AvailabilityActivity, 1771225200000, None, "Tech Upgrades")

  lemma OneFirstOccurrence(x: ActivityEvent, key: ActivityEvent -> string)
    ensures FirstOccurrences([x], key) == [key(x)]
  {
    var none: seq<ActivityEvent> := [];
    assert FirstOccurrences(none, key) == [];
    FirstOccurrencesNew(none, x, key, []);
    assert none + [x] == [x];
  }

  lemma TwoFirstOccurrences(x: ActivityEvent, y: ActivityEvent, key: ActivityEvent -> string)
    requires key(x) != key(y)
    ensures FirstOccurrences([x, y], key) == [key(x), key(y)]
  {
    OneFirstOccurrence(x, key);
    FirstOccurrencesNew([x], y, key, [key(x)]);
    assert [x] + [y] == [x, y];
  }

  lemma ThreeFirstOccurrences(x: ActivityEvent, y: ActivityEvent, z: ActivityEvent, key: ActivityEvent -> string)
    requires key(x) != key(y) && key(x) != key(z) && key(y) != key(z)
    ensures FirstOccurrences([x, y, z], key) == [key(x), key(y), key(z)]
  {
    TwoFirstOccurrences(x, y, key);
    FirstOccurrencesNew([x, y], z, key, [key(x), key(y)]);
    assert [x, y] + [z] == [x, y, z];
  }

  lemma SortMiddleFirst(a: string, b: string, c: string)
    requires LexLess(a, b) && LexLess(b, c)
    ensures SortLabels([b, a, c]) == [a, b, c]
  {
    LexLessTransitive(a, b, c);
    SortAscendingPair(a, c);
    assert [b, a, c][1..] == [a, c];
    InsertBetween(a, b, c);
  }

  lemma InsertBetween(a: string, b: string, c: string)
    requires LexLess(a, b) && LexLess(b, c)
    ensures InsertLabel(b, [a, c]) == [a, b, c]
  {
    LexLessAsymmetric(a, b);
    assert [a, c][1..] == [c];
    assert InsertLabel(b, [c]) == [b, c];
  }

  lemma ThreeLabelOrder(x: ActivityEvent, y: ActivityEvent, z: ActivityEvent, key: ActivityEvent -> string)
    requires LexLess(key(y), key(x)) && LexLess(key(x), key(z))
    ensures SortLabels(FirstOccurrences([x, y, z], key)) == [key(y), key(x), key(z)]
  {
    LexLessIrreflexive(key(x));
    LexLessIrreflexive(key(y));
    LexLessIrreflexive(key(z));
    LexLessTransitive(key(y), key(x), key(z));
    ThreeFirstOccurrences(x, y, z, key);
    SortMiddleFirst(key(y), key(x), key(z));
  }

  /** Three events under three labels: the groups come in label order whatever the event order. */
  lemma ThreeLabelGroups(x: ActivityEvent, y: ActivityEvent, z: ActivityEvent, key: ActivityEvent -> string)
    requires LexLess(key(y), key(x)) && LexLess(key(x), key(z))
    ensures GroupsByLabel([x, y, z], key) == [Group(key(y), [y]), Group(key(x), [x]), Group(key(z), [z])]
  {
    var a, b, c := key(y), key(x), key(z);
    LexLessIrreflexive(a);
    LexLessTransitive(a, b, c);
    LexLessIrreflexive(c);
    LexLessIrreflexive(b);
    ThreeLabelOrder(x, y, z, key);
    var s := [x, y, z];
    SelectTriple(x, y, z, key, a);
    SelectTriple(x, y, z, key, b);
    SelectTriple(x, y, z, key, c);
    assert Select(s, key, a) == [y] && Select(s, key, b) == [x] && Select(s, key, c) == [z];
    ThreeGroups(s, key, a, b, c);
  }

  lemma ThreeGroups(s: seq<ActivityEvent>, key: ActivityEvent -> string, a: string, b: string, c: string)
    ensures Groups(s, key, [a, b, c]) == [Group(a, Select(s, key, a)), Group(b, Select(s, key, b)), Group(c, Select(s, key, c))]
  {
  }

  lemma SortAscendingPair(a: string, b: string)
    requires LexLess(a, b)
    ensures SortLabels([a, b]) == [a, b]
  {
    LexLessAsymmetric(a, b);
    assert [a, b][1..] == [b];
    assert SortLabels([b]) == [b];
  }

  lemma TwoLabelOrder(x: ActivityEvent, y: ActivityEvent, key: ActivityEvent -> string)
    requires LexLess(key(x), key(y))
    ensures SortLabels(FirstOccurrences([x, y], key)) == [key(x), key(y)]
  {
    LexLessIrreflexive(key(x));
    TwoFirstOccurrences(x, y, key);
    SortAscendingPair(key(x), key(y));
  }

  lemma TwoGroups(s: seq<ActivityEvent>, key: ActivityEvent -> string, a: string, b: string)
    ensures Groups(s, key, [a, b]) == [Group(a, Select(s, key, a)), Group(b, Select(s, key, b))]
  {
  }

  /** Two events under two labels: the groups come in label order. */
  lemma TwoLabelGroups(x: ActivityEvent, y: ActivityEvent, key: ActivityEvent -> string)
    requires LexLess(key(x), key(y))
    ensures GroupsByLabel([x, y], key) == [Group(key(x), [x]), Group(key(y), [y])]
  {
    var a, b := key(x), key(y);
    LexLessIrreflexive(a);
    TwoLabelOrder(x, y, key);
    var s := [x, y];
    SelectPair(x, y, key, a);
    SelectPair(x, y, key, b);
    assert Select(s, key, a) == [x] && Select(s, key, b) == [y];
    TwoGroups(s, key, a, b);
  }

  /** 'groups events by merchant and keeps unknown values together' */
  lemma GroupsByMerchantExample()
    ensures GroupsByLabel([MouseCheck, LampCheck, CableCheck], MerchantLabel)
            == [Group(Ikea, [LampCheck]), Group(LogiTech, [MouseCheck]), Group(UnknownMerchant, [CableCheck])]
  {
    assert MerchantLabel(MouseCheck) == LogiTech;
    assert MerchantLabel(LampCheck) == Ikea;
    assert MerchantLabel(CableCheck) == UnknownMerchant;
    assert LexLess(Ikea, LogiTech);
    assert LexLess(LogiTech, UnknownMerchant);
    ThreeLabelGroups(MouseCheck, LampCheck, CableCheck, MerchantLabel);
  }

  const TechMouse := Sample("price-p-1", PriceActivity, 1771232400000, Some(LogiTech), "Tech Upgrades")
  const LooseCable := Sample("availability-a-1", AvailabilityActivity, 1771225200000, Some("Generic"), Unassigned)

  /** 'groups events by collection name with unassigned fallback' */
  lemma GroupsByCollectionExample()
    ensures GroupsByLabel([TechMouse, LooseCable], CollectionLabel)
            == [Group("Tech Upgrades", [TechMouse]), Group(Unassigned, [LooseCable])]
  {
    assert CollectionLabel(TechMouse) == "Tech Upgrades";
    assert CollectionLabel(LooseCable) == Unassigned;
    assert LexLess("Tech Upgrades", Unassigned);
    TwoLabelGroups(TechMouse, LooseCable, CollectionLabel);
  }
}
