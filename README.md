# Wishlist price tracking: scraping, rechecking and the activity timeline

This project models the core of a wishlist application in Dafny. The application saves product links, reads product facts from the linked pages, rechecks prices later and turns the recorded checks into an activity timeline. Five pieces are modelled:

- **Client scraper** (`src/lib/scraper.ts`, module `Scraper`): `scrapeProductUrl` and its extractors.
  - Title: Open Graph, then Twitter card, then `<title>` with a trailing `" | Shop"` / `" - Shop"` removed, then `<h1>`, then `"Product from <host>"`.
  - Price: meta tags, then schema.org, then four CSS selectors, with `parsePrice`.
  - Currency, image (made absolute), merchant name (with its table of known shops), and `isLikelyProductUrl`.
- **Edge scraper** (`supabase/functions/scrape-product/index.ts`, module `EdgeScraper`): the HTTP handler and its own variants of the extractors. It uses different selector orders and truthiness tests, and it has no merchant table. Lemmas show inputs on which the two scrapers give different answers.
- **Price recheck** (`src/lib/priceChecker.ts`, module `PriceChecker`):
  - `recheckItemPrice` writes a price-history row only when the price moved, and always updates the item.
  - `recheckAllPrices` processes the items one at a time, in order. It skips items whose check throws and reports progress after each item.
- **Price tracking hook** (`src/hooks/usePriceTracking.ts`, module `PriceTracking`): a `PriceTracker` class.
  - Its fields are the hook's `status` and `error` state.
  - `CheckPrice` always writes both history tables and the item.
  - `CheckMultiplePrices` runs `CheckPrice` on each item in turn.
  - `GetPriceSummary` is the summary statistics over a price history.
- **Activity timeline** (`src/lib/activity.ts`, module `Activity`):
  - `buildActivityEvents` builds events from price and availability rows. It resolves item, list and merchant through the possibly missing join, and sorts newest first.
  - Events are grouped into Today / Yesterday / Earlier by UTC calendar day.
  - Events are grouped by merchant and by collection. The labels come out in ascending order, and each group keeps the events in their original order.

Supporting modules:

- `Common`: `Option`, `Completion` (normal value or thrown message), JavaScript `trim`, ASCII case mapping, and the string order that stands in for `localeCompare`.
- `Web`: the parsed page as a map from the extractors' selector strings to elements, plus the URL parser and resolver as a `UrlApi` value.
- `Store`: the `items`, `price_history` and `availability_history` tables, held by a `Database` class whose methods are the inserts and the keyed update the checkers issue.

Each loop in the source is a method with loop invariants, proved against a recursive specification function. The extractor loops are `Scraper.ExtractPrice`, `Scraper.ExtractImage`, `EdgeScraper.ExtractPrice` and `EdgeScraper.ExtractImage`; the batch loops are `RecheckAllPrices` and `CheckMultiplePrices`; the grouping loops are `GroupByDay` and `GroupByLabel`. Lemmas then state what the source promises about those functions. Pure helpers are functions.

Behaviour of the code that a reader might not expect, as the model states it:

- **Availability rows.** `recheckItemPrice` never writes an availability-history row; only the hook's `checkPrice` does (`PriceTracking.HookAndCheckerAgree`).
- **Sort order.** The comparator sorts newest first and keeps equal timestamps in input order, because ECMAScript `Array.prototype.sort` is stable. The order is non-increasing, not strict (`Activity.SortStable`).
- **Write failures.** The store client returns write errors as values, and the code never inspects them. So a write cannot throw, and the model treats each write as succeeding.
- **Comma decimals.** The comment on `parsePrice` lists `€123,45` as a handled format. The code removes every comma before matching, so `"€129,99"` parses to `12999` (`Scraper.ParsePriceEuroComma`).

## Model

| member | source | states |
|---|---|---|
| Common.Trim | src/lib/scraper.ts:75 | `trim()` returns the slice of the input between its leading and trailing white-space runs; everything outside the slice is white space. The result starts and ends with non-space, and it is non-empty exactly when the input has a non-space character. |
| Common.ToUpper | src/lib/scraper.ts:171 | `toUpperCase()` keeps the length, leaves no lower-case ASCII letter, and changes only lower-case letters, each to its capital (code point minus 32, so `'a'` becomes `'A'`). |
| Common.ToLower | src/lib/scraper.ts:237 | `toLowerCase()` keeps the length, leaves no upper-case ASCII letter, and changes only upper-case letters, each to its small letter (code point plus 32, so `'A'` becomes `'a'`). |
| Common.ToLowerOfLower | src/lib/scraper.ts:237 | Lower-casing a string with no upper-case letter gives back the same string. |
| Common.LexLessIrreflexive | src/lib/activity.ts:163 | The label order never puts a label before itself. |
| Common.LexLessTransitive | src/lib/activity.ts:163 | The label order is transitive. |
| Common.LexLessTotal | src/lib/activity.ts:163 | Any two distinct labels are ordered one way or the other. |
| Common.LexLessAsymmetric | src/lib/activity.ts:163 | No two labels are each before the other. |
| Web.Or | src/lib/scraper.ts:107-108 | JavaScript `a \|\| b` on optional strings: the result is truthy iff either operand is, it is `a` whenever `a` is truthy, and it is `b` whenever `a` is falsy. |
| Scraper.StripPriceNoise | src/lib/scraper.ts:149 | After removing currency symbols, commas and white space, none of those characters is left and the string is no longer. |
| Scraper.StripClean | src/lib/scraper.ts:149 | Text with no currency symbol, comma or white space is left unchanged. |
| Scraper.StripKept | src/lib/scraper.ts:149 | Any character that is not noise is kept, in place: stripping `before + [c] + after` gives the stripped `before`, then `c`, then the stripped `after`. With `StripConcat`, every non-noise character is kept in order. |
| Scraper.StripDropped | src/lib/scraper.ts:149 | A noise character is dropped: stripping `before + [c] + after` gives the stripped `before`, then the stripped `after`. |
| Scraper.StripKeepsDigits | src/lib/scraper.ts:149-152 | Removing the price noise keeps a digit exactly when the original text had one. |
| Scraper.StripConcat | src/lib/scraper.ts:149 | The global replace acts piecewise: stripping `a + b` equals stripping `a`, then `b`. |
| Scraper.MatchNumber | src/lib/scraper.ts:152 | `/\d+\.?\d*/` matches iff the text has a digit. The match starts at the first digit, has a non-empty digit run, an optional point and digits after the point only when the point is present. Each part is as long as it can be: the integer digits end at a non-digit, the point is taken whenever it follows them, and the fraction digits end at a non-digit. |
| Scraper.MatchNumberIs | src/lib/scraper.ts:152 | For digit-free text, then a token, then text that cannot extend the token, the match is exactly that token. |
| Scraper.ParsePrice | src/lib/scraper.ts:147-160 | `parsePrice` gives null exactly when the text has no digit; otherwise it gives a non-negative number. The value itself is stated for all inputs by `Scraper.ParsePriceValue`. |
| Scraper.ParsePriceValue | src/lib/scraper.ts:147-157 | For every text whose stripped form is digit-free text, the digits `w`, optionally a point and the digits `f`, then text that cannot extend the number, the price is `w + f / 10^|f|` as an exact decimal. |
| Scraper.ParsePriceDollar | src/lib/scraper.ts:145-157 | `"$123.45"` parses to 123.45. |
| Scraper.ParsePriceSuffixed | src/lib/scraper.ts:145-157 | `"123.45 USD"` parses to 123.45; the currency code after the number is ignored. |
| Scraper.ParsePriceOfDigits | src/lib/scraper.ts:147-157 | When the stripped text is a plain digit string, the price is that string's decimal value. |
| Scraper.ParsePriceEuroComma | src/lib/scraper.ts:145-157 | `"€129,99"` parses to 12999: the comma is removed as noise, not read as a decimal separator. |
| Scraper.ParsePriceNoDigits | src/lib/scraper.ts:154-159 | Text with no digits (`"no numbers here"`) parses to null. |
| Scraper.FirstSuffixMatch | src/lib/scraper.ts:85 | Finds the leftmost position where `\s+[\|-]\s+.+$` matches, and reports no match only when none exists. |
| Scraper.StripTitleSuffix | src/lib/scraper.ts:85 | The result is a prefix of the title. It equals the title iff the pattern matches nowhere; otherwise it is cut at the leftmost match. A trimmed, non-empty title stays non-empty and trimmed. |
| Scraper.LeftmostMatchBoundary | src/lib/scraper.ts:85 | The leftmost match begins at the start of a white-space run. |
| Scraper.StripAtLeftmost | src/lib/scraper.ts:85 | Given the leftmost match position `i`, the stripped title is exactly the first `i` characters. |
| Scraper.TitleSuffixExample | src/lib/scraper.ts:84-85 | `"Widget \| Shop"` becomes `"Widget"`. |
| Scraper.StripWww | src/lib/scraper.ts:94 | `replace(/^www\./, '')` removes a leading `www.` and nothing else. |
| Scraper.ExtractTitle | src/lib/scraper.ts:72-99 | The first non-blank source wins, trimmed: `og:title`, then `twitter:title`, then `<title>` with the suffix stripped, then `<h1>`. Otherwise the result is `"Product from <host without www.>"`, or `"Unknown Product"` when the URL does not parse. The result is never empty and never starts with white space. |
| Scraper.FirstPriceNone | src/lib/scraper.ts:105-141 | The price search ends with null iff no candidate is truthy and parses. |
| Scraper.FirstPriceAt | src/lib/scraper.ts:105-141 | When candidate `k` is the first that parses, the price search returns its price. |
| Scraper.ExtractPrice | src/lib/scraper.ts:105-141 | The method returns the first parsing candidate in the order og/product meta, schema.org (content, then text), then `.price`, `[class*="price"]`, `[id*="price"]`, `span[class*="Price"]`. A parsing meta price always wins. |
| Scraper.ExtractCurrency | src/lib/scraper.ts:166-179 | The og/product meta currency upper-cased, else the schema.org currency upper-cased, else `"USD"`. The result is never empty and has no lower-case ASCII letter. |
| Scraper.MakeAbsoluteUrl | src/lib/scraper.ts:247-260 | `http://` and `https://` URLs come back unchanged. Otherwise the result is the URL resolved against the base's origin when both parse, and the input unchanged when either fails. |
| Scraper.FirstTruthyNone | src/lib/scraper.ts:185-216 | The image search finds nothing iff every candidate is missing or empty, and what it finds is non-empty. |
| Scraper.FirstTruthyAt | src/lib/scraper.ts:185-216 | When candidate `k` is the first non-empty one, the image search returns it. |
| Scraper.ExtractImage | src/lib/scraper.ts:185-216 | The method returns the first non-empty image among `og:image`, `twitter:image`, schema.org content or src, and the four image selectors' `src` or `data-src`, made absolute. It returns null iff none of them is non-empty. |
| Scraper.FirstLabel | src/lib/scraper.ts:225 | `split('.')[0]`: the longest dot-free prefix, followed by a dot when it is not the whole string. |
| Scraper.Capitalize | src/lib/scraper.ts:238 | Same length, first character upper-cased, the rest unchanged. |
| Scraper.MerchantName | src/lib/scraper.ts:225-238 | A known shop's display name when the lower-cased first label is in the table. Otherwise the label capitalized. Never contains a dot. |
| Scraper.ExtractMerchant | src/lib/scraper.ts:221-242 | Null exactly when the URL does not parse; otherwise the merchant name of its host. |
| Scraper.MerchantIgnoresWww | src/lib/scraper.ts:225 | A leading `www.` does not change the merchant name. |
| Scraper.EbayMerchantName | src/lib/scraper.ts:230 | `www.ebay.com` is shown as `"eBay"`. |
| Scraper.ShopMerchantName | src/lib/scraper.ts:237-238 | A host not in the table, `shop.example.com`, is shown as `"Shop"`. |
| Scraper.ExtractMerchantAsWritten | src/lib/scraper.ts:237 | The merchant lookup as written: a plain object read, which also finds members inherited from `Object.prototype`. |
| Scraper.ConstructorHostYieldsFunction | src/lib/scraper.ts:237 | For `constructor.io` the as-written lookup yields the `Object` function, not a string; the corrected lookup yields `"Constructor"`. |
| Scraper.AsWrittenAgreesElsewhere | src/lib/scraper.ts:237-238 | Away from inherited member names, the as-written lookup agrees with the corrected one. |
| Scraper.SomeSegmentIff | src/lib/scraper.ts:276 | The split has at least one non-empty part iff the path has a character other than `/`. |
| Scraper.DeepPathIff | src/lib/scraper.ts:276 | At least two non-empty segments iff some `/` has a non-slash character somewhere before it and somewhere after it. |
| Scraper.IsLikelyProductUrl | src/lib/scraper.ts:266-282 | True iff the URL parses and its lower-cased path contains one of `/product/`, `/item/`, `/p/`, `/dp/`, `/listing/`, or has a `/` with a non-slash character both before and after it (two non-empty segments). |
| Scraper.ProductPathExamples | src/lib/scraper.ts:272-278 | `/product/123` qualifies by indicator and `/shop/chairs` by depth. |
| Scraper.ScrapeProductUrl | src/lib/scraper.ts:21-66 | Success iff the URL parses and the page was fetched. On success the title, price, currency and image are the extractors' results. On failure all four are null or the `"USD"` default, with the thrown message as the error. The merchant is always extracted from the URL. |
| EdgeScraper.ExtractTitle | supabase/functions/scrape-product/index.ts:86-110 | The first truthy source, trimmed (og, twitter, `<title>`, `<h1>`); the host is kept with its `www.`. |
| EdgeScraper.BlankOgTitleDiverges | supabase/functions/scrape-product/index.ts:88-89 | A white-space-only `og:title` makes the edge title empty, while the client scraper falls through to the next source. |
| EdgeScraper.HostTitleKeepsWww | supabase/functions/scrape-product/index.ts:104-106 | The edge fallback title keeps `www.`, and the client's removes it. |
| EdgeScraper.FirstPriceAppend | supabase/functions/scrape-product/index.ts:122-139 | Searching a concatenation finds the first list's price if it has one, else the second list's. |
| EdgeScraper.ElementPrice | supabase/functions/scrape-product/index.ts:123-138 | For one element: the content attribute's price, else the text's. |
| EdgeScraper.ExtractPrice | supabase/functions/scrape-product/index.ts:112-142 | The first parsing price over the five selectors in order, trying each one's content before its text. |
| EdgeScraper.PriceOrderDiverges | supabase/functions/scrape-product/index.ts:114-120 | When both an og price and a schema.org price parse, the client returns the og price and the edge function returns the schema.org one. |
| EdgeScraper.ExtractImage | supabase/functions/scrape-product/index.ts:157-183 | The first non-empty image among og, twitter and the four selectors (schema.org first), made absolute; null iff none is non-empty. |
| EdgeScraper.ExtractMerchant | supabase/functions/scrape-product/index.ts:185-195 | Null iff the URL does not parse; otherwise the host's first label, with `www.` removed and the first letter upper-cased. |
| EdgeScraper.MerchantAgreesOffTheMap | supabase/functions/scrape-product/index.ts:189-191 | For hosts outside the client's table, the two merchant extractors agree. |
| EdgeScraper.EbayDiverges | supabase/functions/scrape-product/index.ts:191 | `www.ebay.com` is `"eBay"` on the client and `"Ebay"` at the edge. |
| EdgeScraper.Serve | supabase/functions/scrape-product/index.ts:20-84 | The handler's responses: OPTIONS gets 200 `"ok"`; a missing or empty url gets 400; parsed pages get 200 with the extracted product and currency `"USD"`. An unreadable body, a rejected or non-ok fetch, or an unparsed page gets a 500 error body with the thrown message. The status is 200 on a product body exactly when it succeeded. |
| Store.MarkChecked | src/lib/priceChecker.ts:33-41 | The update by id sets price, currency, availability and check time on that row only. The key set is unchanged, and an unknown id changes nothing. |
| Store.Database.InsertPrice | src/lib/priceChecker.ts:24-29 | Appends one row to `price_history` and changes nothing else. |
| Store.Database.InsertAvailability | src/hooks/usePriceTracking.ts:58-62 | Appends one row to `availability_history` and changes nothing else. |
| Store.Database.UpdateChecked | src/lib/priceChecker.ts:33-41 | The `items` table becomes the keyed update; the history tables are unchanged. |
| PriceChecker.PriceChange | src/lib/priceChecker.ts:43 | No change without a previous price; otherwise previous plus change equals the new price. |
| PriceChecker.Movement | src/lib/priceChecker.ts:43-49 | `down`, `up` and `same` hold exactly when the new price is below, above or equal to the previous one; null when there is none. |
| PriceChecker.ResultFor | src/lib/priceChecker.ts:51-60 | The result carries the item id, the new price and currency, availability true, the check time, the pre-update previous price, and its change and direction. |
| PriceChecker.Recheck | src/lib/priceChecker.ts:9-61 | No result and no write when the scrape failed or found no price. Otherwise there is a history row iff the price changed or was unknown; the availability history is untouched; the item gets the keyed update. |
| PriceChecker.UnchangedPriceWritesNoHistory | src/lib/priceChecker.ts:20-30 | Rechecking at the same price writes no history row and reports `same`. |
| PriceChecker.RecheckItemPrice | src/lib/priceChecker.ts:9-61 | A throwing scrape throws and leaves the store untouched. Otherwise the store and the result are those of `Recheck`. |
| PriceChecker.SomesMembers | src/lib/priceChecker.ts:77 | A value is among the collected results iff some item produced it. |
| PriceChecker.SomesAppend | src/lib/priceChecker.ts:77 | Collecting results distributes over concatenation, so results stay in input order. |
| PriceChecker.PerItemAt | src/lib/priceChecker.ts:73-82 | The i-th outcome is the recheck of item i against the store left by the items before it. |
| PriceChecker.ThrownItemIsSkipped | src/lib/priceChecker.ts:75-80 | A throwing item produces no result and changes nothing. |
| PriceChecker.RunOnlyAppends | src/lib/priceChecker.ts:67-85 | A batch only appends to the price history, never writes availability, and keeps the set of item ids. |
| PriceChecker.RecheckAllPrices | src/lib/priceChecker.ts:67-85 | The loop leaves the store as the sequential run over the items. It returns the non-null results in input order and one progress report per item. |
| PriceTracking.Track | src/hooks/usePriceTracking.ts:24-93 | No result and no write when the scrape throws, fails or finds no price. Otherwise one price row, one availability row (true) and the keyed item update are written, and the result is the recheck result. |
| PriceTracking.TrackStatus | src/hooks/usePriceTracking.ts:31-35 | The hook ends in `success` iff a price was found, otherwise `error`. |
| PriceTracking.TrackError | src/hooks/usePriceTracking.ts:31-34 | An error message is set iff the status is `error`. |
| PriceTracking.HookAndCheckerAgree | src/hooks/usePriceTracking.ts:47-73 | The hook and the recheck engine return the same result and make the same item update. The hook always appends one price and one availability row; the engine appends a price row only on a change and never an availability row. |
| PriceTracking.PriceTracker.SetStatus | src/hooks/usePriceTracking.ts:7 | Sets the status and logs it; the error is unchanged. |
| PriceTracking.PriceTracker.CheckPrice | src/hooks/usePriceTracking.ts:24-94 | The store and result are those of `Track`. The status goes `checking` then `success` or `error`, and the error state matches the outcome. |
| PriceTracking.PriceTracker.CheckMultiplePrices | src/hooks/usePriceTracking.ts:96-112 | The store is the sequential run of `Track` over the items. It returns the non-null results in order, one progress call per item, and a final status of `success` iff some result came back; the error is the last item's. |
| PriceTracking.MinOf | src/hooks/usePriceTracking.ts:123 | `Math.min` of a non-empty list is one of its elements and no element is below it. |
| PriceTracking.MaxOf | src/hooks/usePriceTracking.ts:124 | `Math.max` of a non-empty list is one of its elements and no element is above it. |
| PriceTracking.SumBounds | src/hooks/usePriceTracking.ts:125 | A sum of n terms between `lo` and `hi` lies between `n * lo` and `n * hi`. |
| PriceTracking.MeanOf | src/hooks/usePriceTracking.ts:125 | The average lies within any bounds that hold for every price. |
| PriceTracking.GetPriceSummary | src/hooks/usePriceTracking.ts:114-131 | Null iff the history is empty. Otherwise current price, total change, data points and first/last check come from the first and last rows; the average of the prices lies between lowest and highest. |
| PriceTracking.SummaryBounds | src/hooks/usePriceTracking.ts:123-124 | Lowest and highest are attained by some row and bound every row's price. |
| Activity.NormalizeItem | src/lib/activity.ts:48-52 | No item for a missing join or an empty array; the object itself, or the array's first element. |
| Activity.ListName | src/lib/activity.ts:69 | The mapped list name when the item has a truthy list id present in the map; otherwise `"Unassigned"`. |
| Activity.ItemTitle | src/lib/activity.ts:78 | The item's truthy title, else `"Unknown item"`; never empty. |
| Activity.Cents | src/lib/activity.ts:56 | `toFixed(2)` rounds to the nearest cent: the cent count is within half a cent of `100 * x`. |
| Activity.NatDigits | src/lib/activity.ts:56 | Decimal digits with no leading zero whose value is the number. |
| Activity.CentsText | src/lib/activity.ts:56 | `<units>.<two digits>`, whose value is the cent count, with no leading zero on the units. |
| Activity.Fixed2 | src/lib/activity.ts:56 | A minus sign iff the price is negative, followed by the rounded absolute amount with two decimals. |
| Activity.FormatCurrency | src/lib/activity.ts:54-60 | `"$" + amount` for a missing, empty or `"USD"` currency. Otherwise the upper-cased currency, a space and the amount. |
| Activity.FormatCurrencyShape | src/lib/activity.ts:54-60 | Every formatted price ends with the two-decimal amount, preceded by a non-empty prefix with no lower-case letter. |
| Activity.PriceEvent | src/lib/activity.ts:67-83 | A price row's event: id `price-<id>`, its time, the resolved item, list and merchant, the message `"Price checked at <formatted price>"`, and neutral tone. |
| Activity.AvailabilityEvent | src/lib/activity.ts:85-101 | An availability row's event: id `availability-<id>`, the resolved fields, and in-stock good / out-of-stock bad. |
| Activity.Insert | src/lib/activity.ts:103-105 | Inserting into a newest-first list keeps it newest first and adds exactly that event. |
| Activity.SortDesc | src/lib/activity.ts:103-105 | The sort is newest first and a permutation of its input. |
| Activity.InsertStable | src/lib/activity.ts:103-105 | Insertion places an event after those with the same timestamp. |
| Activity.SortStable | src/lib/activity.ts:103-105 | The sort is stable: events with equal timestamps keep their input order. |
| Activity.BuildActivityEvents | src/lib/activity.ts:62-106 | All price and availability events, each exactly once, newest first. |
| Activity.BuildActivityEventsStable | src/lib/activity.ts:103-105 | Among events with equal timestamps, price events come before availability events, each in row order. |
| Activity.NewerEventFirst | src/lib/activity.ts:103-105 | The newer of a price and an availability event comes first. |
| Activity.Groups | src/lib/activity.ts:119-139 | One group per label, holding the events with that label in input order. |
| Activity.GroupsPartition | src/lib/activity.ts:125-139 | When every event's label is among the distinct labels, the groups together hold exactly the input events. |
| Activity.UtcStartOfDay | src/lib/activity.ts:108-110 | The start of the UTC day: a multiple of one day, at or before the time and less than a day before it. |
| Activity.StartOfDayWithin | src/lib/activity.ts:108-110 | A day boundary that the time falls into within one day is that time's start of day. |
| Activity.DayOfWindows | src/lib/activity.ts:116-138 | Today iff the time is in the current UTC day, Yesterday iff it is in the day before, Earlier otherwise (future days included). |
| Activity.NonEmpty | src/lib/activity.ts:141 | Filtering leaves only groups with events. |
| Activity.NonEmptyKeeps | src/lib/activity.ts:141 | Filtering keeps exactly the non-empty groups and loses no event. |
| Activity.GroupsByDayOrder | src/lib/activity.ts:119-141 | The day groups are non-empty and ordered Today, Yesterday, Earlier. |
| Activity.GroupsByDayContents | src/lib/activity.ts:125-139 | Each day group holds exactly the events of its day, in input order. |
| Activity.GroupsByDayCovers | src/lib/activity.ts:125-141 | Every event's day appears as a group. |
| Activity.GroupsByDayPartition | src/lib/activity.ts:125-141 | The day groups together hold exactly the input events. |
| Activity.GroupByDay | src/lib/activity.ts:112-142 | The loop over events, pushing each into its bucket, then dropping empty buckets, yields the day grouping. |
| Activity.ThreeDayGroups | src/lib/activity.ts:125-141 | One event each in today, yesterday and earlier gives three singleton groups in that order. |
| Activity.GroupsByDayExample | src/lib/activity.test.ts:68-106 | The test fixture, at 20:00 on the 16th, gives one Today, one Yesterday and one Earlier group. |
| Activity.FirstOccurrencesFacts | src/lib/activity.ts:148-160 | The map's keys, in first-insertion order, are distinct and are exactly the labels of the events. |
| Activity.SortLabels | src/lib/activity.ts:162-163 | Sorting the labels permutes them. |
| Activity.SortLabelsAscending | src/lib/activity.ts:162-163 | Sorting distinct labels gives a strictly ascending list. |
| Activity.GroupsByLabelOrder | src/lib/activity.ts:162-163 | Label groups come in strictly ascending label order. |
| Activity.GroupsByLabelContents | src/lib/activity.ts:150-167 | Each label group is non-empty and holds exactly the events with that label, in input order. |
| Activity.GroupsByLabelPartition | src/lib/activity.ts:148-167 | Every event's label has a group, and the groups together hold exactly the input events. |
| Activity.GroupByLabel | src/lib/activity.ts:144-168 | The loop that appends each event to its bucket in the map, then sorts the entries by label, yields the label grouping. |
| Activity.MerchantLabel | src/lib/activity.ts:173 | The truthy merchant, else `"Unknown merchant"`; never empty. |
| Activity.CollectionLabel | src/lib/activity.ts:179 | The non-empty list name, else `"Unassigned"`; never empty. |
| Activity.GroupByMerchant | src/lib/activity.ts:170-174 | Grouping by merchant label. |
| Activity.GroupByCollection | src/lib/activity.ts:176-180 | Grouping by collection label. |
| Activity.ThreeLabelGroups | src/lib/activity.ts:162-167 | Three events with distinct labels give three singleton groups sorted by label. |
| Activity.TwoLabelGroups | src/lib/activity.ts:162-167 | Two events with distinct labels give two singleton groups sorted by label. |
| Activity.GroupsByMerchantExample | src/lib/activity.test.ts:110-148 | The fixture groups as IKEA, LogiTech, then Unknown merchant, one event each. |
| Activity.GroupsByCollectionExample | src/lib/activity.test.ts:152-181 | The fixture groups as Tech Upgrades, then Unassigned, one event each. |
| Activity.CentsOfHeadphones | src/lib/activity.test.ts:42 | `249.99` formats as `"249.99"`. |
| Activity.BuildsAndSortsExample | src/lib/activity.test.ts:14-43 | The test's two rows give the availability event first, with list `"Tech Upgrades"` and ids `i1`/`l1`, then the price event `"Price checked at $249.99"`. |
| Activity.MissingJoinExample | src/lib/activity.test.ts:45-64 | A row with no join gets `"Unknown item"`, `"Unassigned"` and null ids. |

## Left out

- Fetching, HTML parsing and URL parsing are not modelled. The page is a map from the extractors' selector strings to elements. The URL parser and resolver, with the invalid-URL message, are a `UrlApi` parameter. The fetch outcome is a parameter of `Scraper.ScrapeProductUrl` and `EdgeScraper.Serve`. A real `querySelector` matches CSS selectors against a DOM tree; here a selector finds at most the one element the map gives it.
- The CORS proxy URL, request headers, CORS response headers and JSON serialization are left out. The response is a status plus a structured body.
- `console.error` logging is left out.
- Clocks: `new Date()` and `toISOString()` become a `now` parameter. Timestamps are integer milliseconds since the epoch, so parsing ISO strings in `new Date(checkedAt)` is not modelled.
- Numbers are exact reals, not IEEE doubles.
  - Scraper.ParsePrice: `parseFloat` is the exact decimal value of the matched digits, so double rounding of long inputs is not modelled. The `isNaN` branch cannot fire on a match of the pattern and is not represented.
  - Activity.Fixed2: `toFixed(2)` rounds the exact value half up, whereas JavaScript rounds the nearest double. Exponent notation for values of 1e21 and above is not modelled.
  - PriceTracking.GetPriceSummary: `Math.min`, `Math.max` and the average are computed on exact reals.
- Activity.ListName: looks up only the map's own entries (`id in names`). The source reads `listNameById[item.list_id]` from a plain object, which would also find members inherited from `Object.prototype` for a list id such as `"constructor"`. List ids are generated by the store, not chosen by users, so the model assumes that no list id names an inherited member.
- Common.ToUpper: upper-cases ASCII letters only; Unicode case mapping (and `toLowerCase` in `Common.ToLower`) is not modelled.
- Common.LexLess: stands in for `localeCompare`, as code-point order. Locale collation is not modelled. The grouping lemmas need only a strict total order.
- Store write errors are left out. The store client returns errors as values that the code never reads, so every insert and update is modelled as succeeding.
- A scrape that throws is modelled as throwing before any write. As written, `scrapeProductUrl` never throws: its try/catch (src/lib/scraper.ts:22-65) turns every error into a `success: false` value. So the thrown outcome is never produced by the source's own scraper. It exists only to model the checkers' defensive catch blocks (src/lib/priceChecker.ts:75-80 in `PriceChecker.RecheckAllPrices`, src/hooks/usePriceTracking.ts:86-93 in `PriceTracking.PriceTracker.CheckPrice`).
- Store.Item keeps only the item columns the checkers read or write (id, url, current price, currency, availability, last check). The other columns are left out, as are the `lists`/`folders` tables.
- `fetchPriceHistory` (src/hooks/usePriceTracking.ts:10-22) is a store query with ordering, and the store's query engine is not part of this model. `GetPriceSummary` takes the history as its input.
- React state mechanics are left out: `useState`, `useCallback`, re-rendering, and the asynchronous interleaving of `await`s. The hook is a `PriceTracker` object whose `status` and `error` fields are the state. `statusLog` records the sequence of status updates.
- The progress callbacks are modelled as the returned sequence of calls made (`progress`). A callback that throws is not modelled.
- The optional `onProgress` callback is modelled as always present; leaving it out changes nothing else in the source.
- Activity events built for the grouping examples carry only the fields the groupings read (id, type, time, merchant, list name). Event construction itself is covered by `Activity.BuildsAndSortsExample` and `Activity.MissingJoinExample`.

## Findings

| source | as written | input that shows it | evidently intended | confidence | as-written member | corrected member |
|---|---|---|---|---|---|---|
| src/lib/scraper.ts:237 | `merchantMap[domain.toLowerCase()]` reads a plain object literal, so inherited `Object.prototype` members such as `constructor` are found too | `https://constructor.io/` yields the `Object` function as the merchant instead of a string | look up only the six listed shops, so `constructor.io` gives `"Constructor"` | high; not executed | Scraper.ExtractMerchantAsWritten, Scraper.ConstructorHostYieldsFunction | Scraper.ExtractMerchant, Scraper.MerchantName |
