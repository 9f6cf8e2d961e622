# Bond price tracker: verified model of the scraper and the chart report

`server.js` polls a bond listing page on a timer, keeps the price of two watched
Ukrainian government bonds (`ISINS`), appends each observation to a MongoDB
collection, and serves a page that charts the stored history, one line per bond.
This project models the two pieces of sequential logic in it and proves their
properties in Dafny:

- **Row extraction** (`scrapePrice`): the fetched table is a sequence of rows of
  trimmed cell texts. A row counts only when cell 1 is a watched ISIN. Its cell 5
  is normalised by `replace(',', '')`, which removes only the FIRST comma, and then
  parsed. A row whose price does not parse (NaN) is skipped. Every other watched
  row appends one sample to an append-only store. A watched row with fewer than
  six cells makes `priceStr` undefined. `.replace` then throws, which ends the row
  loop. The `catch` logs the error and keeps it from escaping. Samples stored
  before that row remain.
- **Report aggregation** (`GET /`): the samples, sorted by timestamp, are grouped
  by ISIN. The keys keep the order in which each ISIN first appears. Each group
  becomes one chart series of `(date, price)` points. The dates of all samples are
  collected in a set and sorted into `labels`. The handler computes `labels` but
  never uses it: the page embeds only the keys and the series.

Files (all verified together, no `include`):

- `prices.dfy`, module `Prices`: the `PriceSample` entity, the watch-list `Isins`,
  and `PriceStore`, the append-only collection (a class whose `samples` field
  only grows).
- `order.dfy`, module `StringOrder`: the character-by-character string order of
  JavaScript's default `sort`. It proves that this is a total order, defines an
  insertion sort specified as a sorted permutation, and proves that a strictly
  sorted sequence is determined by its members.
- `scraper.dfy`, module `Scraper`: comma stripping, the per-row decision
  `ExamineRow`, the loop-shaped specification `Scan`, the reference `Kept`, and
  the imperative `ScrapePrice` proved against `Scan`.
- `report.dfy`, module `Report`: `DatePrefix`, the grouping specification
  (`Ids`, `RecordsOf`), the partition and order lemmas, and the imperative
  `GroupByIsin`, `AddAll` and `BuildReport` proved against them.

Behaviour of the code that the model keeps as written:

- `replace(',', '')` removes only the first comma, so `"1,234,567.8"` becomes
  `"1234,567.8"`.
- A watched row that is too short throws and ends the scan. It is not skipped,
  and every later row of that scan is left unread.
- Rows whose price is NaN are skipped without a log line.

## Model

| member | source | states |
|---|---|---|
| `Prices.PriceStore.Create` | server.js:42 | `Price.create` appends exactly one document after all existing ones; nothing is updated or removed |
| `Scraper.StripFirstComma` | server.js:40 | without a comma the price text is unchanged; with one, the result is one character shorter and holds exactly one comma fewer |
| `Scraper.StripFirstCommaAt` | server.js:40 | the character removed is the first comma: the result is the text before it followed by the text after it |
| `Scraper.ExamineRow` | server.js:35-45 | a row whose cell 1 is missing or not a watched ISIN yields nothing. A watched row throws exactly when it has fewer than six cells. A watched row with six or more cells is kept exactly when its normalised cell 5 parses: it then yields the sample with the row's cell 1 as ISIN, the capture time and the parsed price. If the price parses to NaN the row yields nothing |
| `Scraper.Scan` | server.js:34-49 | the scan handles rows in order and stops at the first row that throws, and only there. It stores at most one sample per handled row. Every stored sample names a watched ISIN and carries the capture time |
| `Scraper.ScanKeepsPrefix` | server.js:34-46 | the samples a scan stores are exactly the kept samples of the rows before the throwing row (of all rows if none throws), in row order |
| `Scraper.ScanConcat` | server.js:34-49 | scanning two blocks of rows is scanning the first and, only if it did not throw, continuing with the second: a skipped row does not stop the scan, a throw ends it |
| `Scraper.ScanStopsAtThrow` | server.js:34-49 | once a prefix of the rows has thrown, the remaining rows change nothing |
| `Scraper.ScanClockIndependent` | server.js:18 | the capture time only stamps the samples: two scans of the same rows store the same ISINs and prices in the same order |
| `Scraper.ScrapePrice` | server.js:29-50 | the store grows by exactly the samples of `Scan`, one `Price.create` per kept row in row order. Once the rows are known, the method reports whether the `catch` ran, which is then exactly when a row threw. No exception escapes. A store holding only watched ISINs keeps holding only watched ISINs |
| `Scraper.ScrapeTwice` | server.js:53 | two scheduled runs over the same table append both scans' samples (no de-duplication). The second run stores the same ISINs and prices in the same order, differing only in the timestamp, and the watch-list invariant of the store holds throughout |
| `StringOrder.LessEqReflexive` | server.js:133 | the default sort order is reflexive |
| `StringOrder.LessEqAntisymmetric` | server.js:133 | the default sort order is antisymmetric |
| `StringOrder.LessEqTransitive` | server.js:133 | the default sort order is transitive |
| `StringOrder.LessEqTotal` | server.js:133 | any two strings are comparable in the default sort order |
| `StringOrder.Insert` | server.js:133 | inserting into a sorted sequence keeps it sorted and adds exactly the one element |
| `StringOrder.Sort` | server.js:133 | `.sort()` returns a sorted permutation of its input |
| `StringOrder.SortDistinct` | server.js:133 | sorting the members of a `Set` gives a strictly increasing sequence with exactly those members |
| `StringOrder.StrictlySortedUnique` | server.js:116-133 | a strictly sorted sequence is determined by its members, so the labels do not depend on the order in which the set was filled |
| `Report.DatePrefix` | server.js:120 | the label is a prefix of the ISO timestamp, holds no `'T'`, and ends at the first `'T'` when there is one |
| `Report.Ids` | server.js:109-114 | the keys of `grouped` are distinct and are exactly the ISINs that occur in the input |
| `Report.RecordsOf` | server.js:111-114 | every member of a group is an input sample with that group's ISIN |
| `Report.GroupMembership` | server.js:111-114 | a sample is in the group of an ISIN exactly when it is an input sample with that ISIN: each sample lies in its own group and in no other |
| `Report.EmptyGroup` | server.js:112 | an ISIN that never occurs has an empty group |
| `Report.GroupSizesPartition` | server.js:111-114 | the sizes of the groups over all keys add up to the number of input samples |
| `Report.IdsFirstSeen` | server.js:111-119 | if one key comes before another in `Object.entries(grouped)`, the first key occurs in the input before any occurrence of the second |
| `Report.GroupsKeepTimestampOrder` | server.js:108-114 | when the input is in ascending timestamp order, so is every group |
| `Report.GroupByIsin` | server.js:109-114 | the `forEach` loop yields exactly the keys `Ids` in first-seen order and, for each key, exactly the group `RecordsOf` |
| `Report.GroupSnoc` | server.js:111-114 | helper for the loop invariant of `GroupByIsin`: unfolds `Ids` and `RecordsOf` by one sample, so that one `forEach` step adds a new ISIN at the end of the keys and pushes the sample onto its own group only |
| `Report.AddAll` | server.js:121 | adding the labels of a group to the `Set` keeps its members distinct and its earlier insertion order, and its members become the old members plus the labels |
| `Report.LabelsOfGroups` | server.js:119-121 | a date label of the input is exactly a date label of some group's sample |
| `Report.BuildReport` | server.js:107-133 | one series per key, in key order. Each series is labelled with its ISIN and has one point per sample of its group, with x = the sample's date label and y = its price; it is not hidden, has tension 0.1 and is not filled. The labels are strictly sorted (sorted, no duplicates) and are exactly the date labels of all samples (the handler never uses them; see "Left out") |

## Left out

- The page download with `axios.get` (server.js:31): network I/O. The table arrives as a sequence of rows. A failing download or `cheerio.load` (server.js:32) also lands in the `catch` (server.js:47), with nothing stored; that path is not modelled.
- HTML parsing with `cheerio` (server.js:32-35): a foreign library. Each row is taken to be the trimmed text of its `td` cells.
- `parseFloat` (server.js:40): floating point. It is the parameter `parse : string -> Option<real>`, where `None` stands for NaN, and prices are `real`.
- The MongoDB connection and schema (server.js:10-20), and the query `Price.find().sort({ timestamp: 1 })` (server.js:108): persistence. The store is a sequence that only grows. The report takes the samples as a sequence, and its sortedness is a hypothesis of `Report.GroupsKeepTimestampOrder`.
- The un-awaited promise of `Price.create` (server.js:42) and its possible failure: `PriceStore.Create` completes at once and always succeeds.
- `Date.now` and `toISOString` (server.js:18, 120, 125): the clock. A timestamp is its ISO string. All samples of one scan share one capture time `now`; in the source each document reads the clock itself, which can differ by milliseconds.
- Timestamp order is the string order of ISO strings. That matches chronological order for the four-digit years `Date.now` gives, but not for the extended six-digit years.
- String comparison in `.sort()` compares UTF-16 code units, while the model compares Unicode scalar values. The two differ only for characters outside the Basic Multilingual Plane, which ISO date labels never contain.
- JavaScript objects list integer-like keys first, and keys such as `constructor` are inherited from `Object.prototype`. The grouping is modelled as insertion order over a fresh dictionary. This holds for every ISIN the scraper stores, since each is a watched ISIN beginning with a letter.
- `console.log` and `console.error` (server.js:43, 48): logging. `ScrapePrice` only returns whether the `catch` ran.
- The random `borderColor` (server.js:126): nondeterministic. It is omitted from `Dataset`.
- `cron.schedule` (server.js:53) and `app.listen` (server.js:193-195): scheduling and server lifecycle. Two scheduled runs are modelled by `ScrapeTwice` only.
- `Chart.labels` models the variable `labels` (server.js:133), which the handler computes but never uses. The page embeds only the keys (server.js:147) and the datasets (server.js:154); the chart is given no `labels`. The proved properties of `labels` therefore say nothing about the axis the chart draws.
- The HTML template, the `<select>` options and the client-side change handler (server.js:135-188): user interface. The keys they list are returned as `Chart.keys`.
- The commented-out former handler (server.js:55-105): dead code.
