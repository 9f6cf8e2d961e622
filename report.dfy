/**
 * The `GET /` handler up to the HTML template: the stored samples, read in
 * ascending timestamp order, are grouped by instrument into chart series, and
 * the distinct capture dates are collected into a set and sorted into `labels`,
 * which the handler computes but never passes to the page.
 */
module Report {
  import opened Prices
  import opened StringOrder

  /** `timestamp.toISOString().split('T')[0]`: the text before the first `'T'`, or all of it. */
  function DatePrefix(ts: Timestamp): (r: string)
    ensures |r| <= |ts| && r == ts[..|r|]
    ensures 'T' !in r
    ensures |r| < |ts| ==> ts[|r|] == 'T'
  {
    if ts == [] then []
    else if ts[0] == 'T' then []
    else
      var t := DatePrefix(ts[1..]);
      assert [ts[0]] + t == ts[..|t| + 1];
      [ts[0]] + t
  }

  /** The samples are in the order `Price.find().sort({ timestamp: 1 })` returns them. */
  predicate TimestampSorted(records: seq<PriceSample>) {
    forall i, j :: 0 <= i < j < |records| ==> LessEq(records[i].timestamp, records[j].timestamp)
  }

  /** The keys of `grouped` in the order `Object.entries` lists them: each identifier once, in order of first occurrence. */
  function Ids(records: seq<PriceSample>): (keys: seq<string>)
    ensures Distinct(keys)
    ensures forall id :: id in keys <==> exists i :: 0 <= i < |records| && records[i].isin == id
  {
    if records == [] then []
    else
      var init := records[..|records| - 1];
      var id := records[|records| - 1].isin;
      var prev := Ids(init);
      assert forall i :: 0 <= i < |init| ==> init[i] == records[i];
      if id in prev then prev else prev + [id]
  }

  /** `grouped[id]`: the samples of one instrument, in input order. */
  function RecordsOf(records: seq<PriceSample>, id: string): (g: seq<PriceSample>)
    ensures |g| <= |records|
    ensures forall k :: 0 <= k < |g| ==> g[k].isin == id && g[k] in records
  {
    if records == [] then []
    else
      var init := records[..|records| - 1];
      var last := records[|records| - 1];
      assert forall r :: r in init ==> r in records;
      RecordsOf(init, id) + (if last.isin == id then [last] else [])
  }

  /** A sample is in the group of an identifier exactly when it is an input sample with that identifier. */
  lemma {:induction false} GroupMembership(records: seq<PriceSample>, r: PriceSample, id: string)
    ensures r in RecordsOf(records, id) <==> r in records && r.isin == id
  {
    if records != [] {
      var init := records[..|records| - 1];
      GroupMembership(init, r, id);
      assert records == init + [records[|records| - 1]];
    }
  }

  /** An identifier that never occurs has an empty group. */
  lemma {:induction false} EmptyGroup(records: seq<PriceSample>, id: string)
    requires id !in Ids(records)
    ensures RecordsOf(records, id) == []
  {
    if records != [] {
      var init := records[..|records| - 1];
      assert records[|records| - 1].isin in Ids(records);
      assert forall k :: 0 <= k < |init| ==> init[k] == records[k];
      EmptyGroup(init, id);
    }
  }

  /** Sum of the group sizes over the given keys. */
  function GroupSizes(records: seq<PriceSample>, keys: seq<string>): nat {
    if keys == [] then 0
    else GroupSizes(records, keys[..|keys| - 1]) + |RecordsOf(records, keys[|keys| - 1])|
  }

  /** One more sample grows the group of its own identifier by one and no other group. */
  lemma {:induction false} GroupSizesSnoc(init: seq<PriceSample>, r: PriceSample, keys: seq<string>)
    requires Distinct(keys)
    ensures GroupSizes(init + [r], keys) == GroupSizes(init, keys) + (if r.isin in keys then 1 else 0)
  {
    if keys != [] {
      var front := keys[..|keys| - 1];
      assert (init + [r])[..|init + [r]| - 1] == init;
      assert Distinct(front);
      GroupSizesSnoc(init, r, front);
      assert r.isin in keys <==> r.isin in front || r.isin == keys[|keys| - 1];
      assert keys[|keys| - 1] !in front;
    }
  }

  /** Grouping is a partition: the group sizes add up to the number of samples. */
  lemma {:induction false} GroupSizesPartition(records: seq<PriceSample>)
    ensures GroupSizes(records, Ids(records)) == |records|
  {
    if records != [] {
      var init := records[..|records| - 1];
      var r := records[|records| - 1];
      assert records == init + [r];
      GroupSizesPartition(init);
      var prev := Ids(init);
      GroupSizesSnoc(init, r, prev);
      if r.isin !in prev {
        assert Ids(records) == prev + [r.isin];
        assert (prev + [r.isin])[..|prev|] == prev;
        EmptyGroup(init, r.isin);
      }
    }
  }

  /** `Object.entries(grouped)` lists the identifiers in order of first occurrence. */
  lemma {:induction false} IdsFirstSeen(records: seq<PriceSample>, i: nat, j: nat, q: nat)
    requires i < j < |Ids(records)| && q < |records| && records[q].isin == Ids(records)[j]
    ensures exists p :: 0 <= p < q && records[p].isin == Ids(records)[i]
  {
    var init := records[..|records| - 1];
    var last := records[|records| - 1];
    var prev := Ids(init);
    var keys := Ids(records);
    assert forall k :: 0 <= k < |init| ==> init[k] == records[k];
    assert prev == keys[..|prev|];
    if j < |prev| {
      if q < |records| - 1 {
        IdsFirstSeen(init, i, j, q);
      } else {
        var q' :| 0 <= q' < |init| && init[q'].isin == prev[j];
        IdsFirstSeen(init, i, j, q');
      }
    } else {
      assert keys == prev + [last.isin] && j == |prev|;
      assert keys[i] in prev;
      var p :| 0 <= p < |init| && init[p].isin == keys[i];
      assert last.isin !in prev;
    }
  }

  /** Each series keeps the input order, so an ascending input gives ascending series. */
  lemma {:induction false} GroupsKeepTimestampOrder(records: seq<PriceSample>, id: string)
    requires TimestampSorted(records)
    ensures TimestampSorted(RecordsOf(records, id))
  {
    if records != [] {
      var init := records[..|records| - 1];
      var last := records[|records| - 1];
      assert TimestampSorted(init);
      GroupsKeepTimestampOrder(init, id);
      var g := RecordsOf(init, id);
      forall k | 0 <= k < |g| ensures LessEq(g[k].timestamp, last.timestamp) {
        var p :| 0 <= p < |init| && init[p] == g[k];
        assert records[p] == g[k];
      }
    }
  }

  /**
   * The `forEach` building `grouped`: a new identifier gets an empty array (and
   * thereby its place among the keys), then the sample is pushed onto it.
   */
  method GroupByIsin(records: seq<PriceSample>) returns (keys: seq<string>, grouped: map<string, seq<PriceSample>>)
    ensures keys == Ids(records)
    ensures forall id :: id in grouped <==> id in keys
    ensures forall id :: id in grouped ==> grouped[id] == RecordsOf(records, id)
  {
    keys, grouped := [], map[];
    for i := 0 to |records|
      invariant keys == Ids(records[..i])
      invariant forall id :: id in grouped <==> id in keys
      invariant forall id :: id in grouped ==> grouped[id] == RecordsOf(records[..i], id)
    {
      var p := records[i];
      GroupSnoc(records, i);
      if p.isin !in grouped {
        EmptyGroup(records[..i], p.isin);
        grouped := grouped[p.isin := []];
        keys := keys + [p.isin];
      }
      grouped := grouped[p.isin := grouped[p.isin] + [p]];
    }
    assert records[..|records|] == records;
  }

  /** Helper for the loop invariant of `GroupByIsin`: unfolds `Ids` and `RecordsOf` by one sample. */
  lemma GroupSnoc(records: seq<PriceSample>, i: nat)
    requires i < |records|
    ensures Ids(records[..i + 1]) == if records[i].isin in Ids(records[..i]) then Ids(records[..i]) else Ids(records[..i]) + [records[i].isin]
    ensures forall id :: RecordsOf(records[..i + 1], id) == RecordsOf(records[..i], id) + (if records[i].isin == id then [records[i]] else [])
  {
    assert records[..i + 1][..i] == records[..i];
  }

  /** The distinct date labels of some samples. */
  function LabelsOf(records: seq<PriceSample>): set<string> {
    set k | 0 <= k < |records| :: DatePrefix(records[k].timestamp)
  }

  /** `records.map(r => ...split('T')[0])`. */
  function DateLabels(records: seq<PriceSample>): seq<string> {
    seq(|records|, k requires 0 <= k < |records| => DatePrefix(records[k].timestamp))
  }

  /**
   * `items.forEach(l => labelsSet.add(l))` on a JavaScript `Set`, held as its
   * insertion-ordered sequence of distinct members.
   */
  method AddAll(labelsSet: seq<string>, items: seq<string>) returns (s: seq<string>)
    requires Distinct(labelsSet)
    ensures Distinct(s)
    ensures forall x :: x in s <==> x in labelsSet || x in items
    ensures |labelsSet| <= |s| && s[..|labelsSet|] == labelsSet
  {
    s := labelsSet;
    for k := 0 to |items|
      invariant Distinct(s)
      invariant forall x :: x in s <==> x in labelsSet || x in items[..k]
      invariant |labelsSet| <= |s| && s[..|labelsSet|] == labelsSet
    {
      assert items[..k + 1] == items[..k] + [items[k]];
      if items[k] !in s {
        s := s + [items[k]];
      }
    }
    assert items[..|items|] == items;
  }

  /** One chart point: the capture date and the price. */
  datatype Point = Point(x: string, y: real)

  /** One chart series; the random `borderColor` is not modelled. */
  datatype Dataset = Dataset(seriesLabel: string, data: seq<Point>, hidden: bool, tension: real, fill: bool)

  /**
   * What the handler computes: the keys (listed as the select options), the
   * series (embedded in the page) and the sorted date labels. The handler
   * computes `labels` but never passes it to the page.
   */
  datatype Chart = Chart(keys: seq<string>, datasets: seq<Dataset>, labels: seq<string>)

  /** The series pushed for one group. */
  function DatasetOf(isin: string, records: seq<PriceSample>): Dataset {
    Dataset(isin, seq(|records|, k requires 0 <= k < |records| => Point(DatePrefix(records[k].timestamp), records[k].price)), false, 0.1, false)
  }

  /** Every date label of the input is the label of a sample in one of the groups, and conversely. */
  lemma LabelsOfGroups(records: seq<PriceSample>, l: string)
    ensures l in LabelsOf(records) <==> exists m :: 0 <= m < |Ids(records)| && l in LabelsOf(RecordsOf(records, Ids(records)[m]))
  {
    var keys := Ids(records);
    if l in LabelsOf(records) {
      var i :| 0 <= i < |records| && DatePrefix(records[i].timestamp) == l;
      var r := records[i];
      assert r.isin in keys;
      var m :| 0 <= m < |keys| && keys[m] == r.isin;
      GroupMembership(records, r, r.isin);
      var g := RecordsOf(records, r.isin);
      var k :| 0 <= k < |g| && g[k] == r;
      assert l in LabelsOf(g);
      assert 0 <= m < |keys| && l in LabelsOf(RecordsOf(records, keys[m]));
      assert exists m' :: 0 <= m' < |Ids(records)| && l in LabelsOf(RecordsOf(records, Ids(records)[m']));
    } else {
      forall m | 0 <= m < |keys| ensures l !in LabelsOf(RecordsOf(records, keys[m])) {
        var g := RecordsOf(records, keys[m]);
        forall k | 0 <= k < |g| ensures DatePrefix(g[k].timestamp) != l {
          var i :| 0 <= i < |records| && records[i] == g[k];
        }
      }
    }
  }

  /**
   * The `GET /` handler without its I/O: group the samples, push one series per
   * group while collecting every date label in a set, then sort the labels.
   */
  method BuildReport(records: seq<PriceSample>) returns (chart: Chart)
    ensures chart.keys == Ids(records)
    ensures |chart.datasets| == |chart.keys|
    ensures forall j :: 0 <= j < |chart.datasets| ==> chart.datasets[j] == DatasetOf(chart.keys[j], RecordsOf(records, chart.keys[j]))
    ensures StrictlySorted(chart.labels)
    ensures forall l :: l in chart.labels <==> l in LabelsOf(records)
  {
    var keys, grouped := GroupByIsin(records);
    var labelsSet: seq<string> := [];
    var datasets: seq<Dataset> := [];
    for j := 0 to |keys|
      invariant |datasets| == j
      invariant forall m :: 0 <= m < j ==> datasets[m] == DatasetOf(keys[m], RecordsOf(records, keys[m]))
      invariant Distinct(labelsSet)
      invariant forall l :: l in labelsSet <==> exists m :: 0 <= m < j && l in LabelsOf(RecordsOf(records, keys[m]))
    {
      var isin := keys[j];
      var group := grouped[isin];
      var labelPoints := DateLabels(group);
      labelsSet := AddAll(labelsSet, labelPoints);
      datasets := datasets + [DatasetOf(isin, group)];
      forall l ensures l in labelPoints <==> l in LabelsOf(group) {
        if l in LabelsOf(group) {
          var k :| 0 <= k < |group| && DatePrefix(group[k].timestamp) == l;
          assert labelPoints[k] == l;
        }
      }
    }
    var labels := Sort(labelsSet);
    SortDistinct(labelsSet);
    forall l ensures l in labels <==> l in LabelsOf(records) {
      LabelsOfGroups(records, l);
    }
    chart := Chart(keys, datasets, labels);
  }
}
