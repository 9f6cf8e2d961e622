/**
 * The row loop of `scrapePrice`: which rows of the fetched listing table become
 * stored price samples, and what happens when a row is malformed.
 *
 * The page download and the HTML parser are not modelled: the table arrives as a
 * sequence of rows, each the trimmed text of its cells. `parseFloat` is the
 * parameter `parse`, which answers `None` where JavaScript would give NaN.
 */
module Scraper {
  import opened Prices

  /** One body row of the listing table: the trimmed text of each cell. */
  type Row = seq<string>

  /** Cell index of the instrument identifier. */
  const IsinColumn := 1
  /** Cell index of the price text. */
  const PriceColumn := 5

  /** The row has an identifier cell and it names a watched instrument (`ISINS.includes(isin)`). */
  predicate WatchListed(row: Row) {
    |row| > IsinColumn && row[IsinColumn] in Isins
  }

  /**
   * `priceStr.replace(',', '')`: with a string pattern JavaScript replaces only
   * the FIRST occurrence, so at most one comma is removed.
   */
  function StripFirstComma(s: string): (r: string)
    ensures ',' !in s ==> r == s
    ensures ',' in s ==> |r| == |s| - 1 && multiset(r)[','] == multiset(s)[','] - 1
  {
    if s == [] then []
    else if s[0] == ',' then
      assert s == [s[0]] + s[1..];
      s[1..]
    else
      assert s == [s[0]] + s[1..];
      [s[0]] + StripFirstComma(s[1..])
  }

  /** The comma removed is the first one; every other character stays, in order. */
  lemma {:induction false} StripFirstCommaAt(s: string, i: nat)
    requires i < |s| && s[i] == ',' && ',' !in s[..i]
    ensures StripFirstComma(s) == s[..i] + s[i + 1..]
  {
    if i > 0 {
      assert s[0] != ',' by { assert s[0] == s[..i][0]; }
      assert s[1..][..i - 1] == s[1..i];
      StripFirstCommaAt(s[1..], i - 1);
    }
  }

  /** What one row does to the scan. */
  datatype RowOutcome =
    | Skip                       // nothing stored, next row
    | Keep(sample: PriceSample)  // one `Price.create`, next row
    | Throw                      // `priceStr` is undefined, so `.replace` throws

  /** The body of the `.each` callback for one row, captured at time `now`. */
  function ExamineRow(row: Row, parse: string -> Option<real>, now: Timestamp): (r: RowOutcome)
    ensures !WatchListed(row) ==> r == Skip
    ensures r.Throw? <==> WatchListed(row) && |row| <= PriceColumn
    ensures r.Keep? ==> WatchListed(row) && r.sample.isin == row[IsinColumn] && r.sample.timestamp == now
    ensures r.Keep? ==> |row| > PriceColumn && parse(StripFirstComma(row[PriceColumn])) == Some(r.sample.price)
    ensures WatchListed(row) && |row| > PriceColumn && parse(StripFirstComma(row[PriceColumn])).None? ==> r == Skip
    ensures WatchListed(row) && |row| > PriceColumn && parse(StripFirstComma(row[PriceColumn])).Some? ==>
      r == Keep(PriceSample(row[IsinColumn], now, parse(StripFirstComma(row[PriceColumn])).value))
  {
    if !WatchListed(row) then Skip
    else if |row| <= PriceColumn then Throw
    else match parse(StripFirstComma(row[PriceColumn]))
      case None => Skip
      case Some(p) => Keep(PriceSample(row[IsinColumn], now, p))
  }

  /**
   * The state of a scan: the samples created so far, how many rows were handled
   * without an exception, and whether an exception ended the scan.
   */
  datatype ScanResult = ScanResult(added: seq<PriceSample>, examined: nat, failed: bool)

  /** Every sample names a watched instrument. */
  predicate AllWatchListed(samples: seq<PriceSample>) {
    forall k :: 0 <= k < |samples| ==> samples[k].isin in Isins
  }

  /** Every sample names a watched instrument and carries the capture time `now`. */
  predicate CapturedAt(samples: seq<PriceSample>, now: Timestamp) {
    AllWatchListed(samples) && forall k :: 0 <= k < |samples| ==> samples[k].timestamp == now
  }

  /**
   * The whole `.each` loop inside the `try`: rows in order, stopping at the
   * first row that throws. Defined on the last row so that it follows the loop.
   */
  function Scan(rows: seq<Row>, parse: string -> Option<real>, now: Timestamp): (r: ScanResult)
    ensures r.examined <= |rows| && |r.added| <= r.examined
    ensures r.failed ==> r.examined < |rows| && ExamineRow(rows[r.examined], parse, now) == Throw
    ensures !r.failed ==> r.examined == |rows|
    ensures forall i :: 0 <= i < r.examined ==> ExamineRow(rows[i], parse, now) != Throw
    ensures CapturedAt(r.added, now)
  {
    if rows == [] then ScanResult([], 0, false)
    else
      var prev := Scan(rows[..|rows| - 1], parse, now);
      if prev.failed then prev
      else match ExamineRow(rows[|rows| - 1], parse, now)
        case Throw => prev.(failed := true)
        case Skip => prev.(examined := prev.examined + 1)
        case Keep(s) => ScanResult(prev.added + [s], prev.examined + 1, false)
  }

  /** Reference reading of the rows with no exception at all: the kept samples of every row, in row order. */
  function Kept(rows: seq<Row>, parse: string -> Option<real>, now: Timestamp): seq<PriceSample> {
    if rows == [] then []
    else
      var last := ExamineRow(rows[|rows| - 1], parse, now);
      Kept(rows[..|rows| - 1], parse, now) + (if last.Keep? then [last.sample] else [])
  }

  /** The samples of a scan are exactly the kept samples of the rows before the one that threw. */
  lemma {:induction false} ScanKeepsPrefix(rows: seq<Row>, parse: string -> Option<real>, now: Timestamp)
    ensures Scan(rows, parse, now).added == Kept(rows[..Scan(rows, parse, now).examined], parse, now)
  {
    if rows != [] {
      var init := rows[..|rows| - 1];
      ScanKeepsPrefix(init, parse, now);
      var prev := Scan(init, parse, now);
      assert init[..prev.examined] == rows[..prev.examined];
      if !prev.failed {
        assert rows[..|rows|] == rows;
      }
    }
  }

  /** Sequencing two scans: the second only runs when the first did not throw. */
  function AndThen(first: ScanResult, second: ScanResult): ScanResult {
    if first.failed then first
    else ScanResult(first.added + second.added, first.examined + second.examined, second.failed)
  }

  /**
   * Scanning `a + b` is scanning `a` and then, if nothing was thrown, `b`:
   * a skipped row lets the scan continue, a throwing row ends it for good.
   */
  lemma {:induction false} ScanConcat(a: seq<Row>, b: seq<Row>, parse: string -> Option<real>, now: Timestamp)
    ensures Scan(a + b, parse, now) == AndThen(Scan(a, parse, now), Scan(b, parse, now))
  {
    if b == [] {
      assert a + b == a;
    } else {
      var b' := b[..|b| - 1];
      assert (a + b)[..|a + b| - 1] == a + b';
      assert (a + b)[|a + b| - 1] == b[|b| - 1];
      ScanConcat(a, b', parse, now);
    }
  }

  /** Once a prefix has thrown, the rest of the rows change nothing. */
  lemma ScanStopsAtThrow(rows: seq<Row>, k: nat, parse: string -> Option<real>, now: Timestamp)
    requires k <= |rows| && Scan(rows[..k], parse, now).failed
    ensures Scan(rows, parse, now) == Scan(rows[..k], parse, now)
  {
    assert rows == rows[..k] + rows[k..];
    ScanConcat(rows[..k], rows[k..], parse, now);
  }

  /** The capture time only stamps the samples: the same rows keep the same instruments and prices. */
  lemma {:induction false} ScanClockIndependent(rows: seq<Row>, parse: string -> Option<real>, t1: Timestamp, t2: Timestamp)
    ensures Scan(rows, parse, t1).examined == Scan(rows, parse, t2).examined
    ensures Scan(rows, parse, t1).failed == Scan(rows, parse, t2).failed
    ensures |Scan(rows, parse, t1).added| == |Scan(rows, parse, t2).added|
    ensures forall k :: 0 <= k < |Scan(rows, parse, t1).added| ==>
      Scan(rows, parse, t1).added[k] == Scan(rows, parse, t2).added[k].(timestamp := t1)
  {
    if rows != [] {
      ScanClockIndependent(rows[..|rows| - 1], parse, t1, t2);
    }
  }

  /**
   * `scrapePrice` from the point where the table rows are known: each kept
   * row is stored at once, and an exception from a malformed watched row is
   * caught (and logged) instead of escaping. `caught` tells whether the
   * `catch` block ran.
   */
  method ScrapePrice(store: PriceStore, rows: seq<Row>, parse: string -> Option<real>, now: Timestamp)
    returns (caught: bool)
    modifies store
    ensures store.samples == old(store.samples) + Scan(rows, parse, now).added
    ensures caught == Scan(rows, parse, now).failed
    ensures AllWatchListed(old(store.samples)) ==> AllWatchListed(store.samples)
  {
    caught := false;
    var i := 0;
    while i < |rows|
      invariant 0 <= i <= |rows|
      invariant !Scan(rows[..i], parse, now).failed
      invariant store.samples == old(store.samples) + Scan(rows[..i], parse, now).added
    {
      var cells := rows[i];
      assert rows[..i + 1][..i] == rows[..i];
      // cells[1] and cells[5] are undefined when the row is too short
      var isin: Option<string> := if |cells| > IsinColumn then Some(cells[IsinColumn]) else None;
      var priceStr: Option<string> := if |cells| > PriceColumn then Some(cells[PriceColumn]) else None;
      if isin.Some? && isin.value in Isins {
        if priceStr.None? {
          caught := true;
          ScanStopsAtThrow(rows, i + 1, parse, now);
          return;
        }
        var price := parse(StripFirstComma(priceStr.value));
        if price.Some? {
          store.Create(PriceSample(isin.value, now, price.value));
        }
      }
      i := i + 1;
    }
    assert rows[..|rows|] == rows;
  }

  /**
   * Two firings of the schedule over the same table: nothing prevents the
   * second from storing the same instruments and prices again, and the
   * store keeps only watched instruments.
   */
  method ScrapeTwice(store: PriceStore, rows: seq<Row>, parse: string -> Option<real>, t1: Timestamp, t2: Timestamp)
    modifies store
    ensures store.samples == old(store.samples) + Scan(rows, parse, t1).added + Scan(rows, parse, t2).added
    ensures |store.samples| == |old(store.samples)| + 2 * |Scan(rows, parse, t1).added|
    ensures forall k :: 0 <= k < |Scan(rows, parse, t1).added| ==>
      Scan(rows, parse, t2).added[k] == Scan(rows, parse, t1).added[k].(timestamp := t2)
    ensures AllWatchListed(old(store.samples)) ==> AllWatchListed(store.samples)
  {
    var _ := ScrapePrice(store, rows, parse, t1);
    var _ := ScrapePrice(store, rows, parse, t2);
    ScanClockIndependent(rows, parse, t1, t2);
  }
}
