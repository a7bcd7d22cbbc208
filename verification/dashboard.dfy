/** What the dashboard derives from its four datasets and the selected
    quarter on every render: one summary card and one bar series per view,
    the customer-type doughnut, and the quarters offered by the selector. */
module Dashboard {
  import opened Records
  import opened Seqs
  import opened QuarterFilter
  import opened Summaries
  import opened Grouping
  import opened Sorting

  /** The four datasets as fetched; one that has not arrived is empty. */
  datatype Datasets = Datasets(customer: seq<Row>, team: seq<Row>, industry: seq<Row>, acvRange: seq<Row>)

  /** A summary card with its bar series. */
  datatype Section = Section(summary: Summary, bar: seq<Entry>)

  datatype View = View(
    customer: Section, doughnut: seq<Entry>,
    team: Section, industry: Section, acvRange: Section,
    quarters: seq<string>)

  // ---------------------------------------------------------------------
  // The generic helper

  /** `getSummaryAndBar(data, labelKey, valueKey = 'acv', countKey = 'count')`.
      The label key is each row's dimension. The card sums `countKey` and
      `valueKey` over the selected rows, an absent field counting as 0; the
      series has one entry per distinct dimension, in first-seen order,
      holding that dimension's fold; and when every selected row carries
      the value field, the series adds up to the card's `acv`. */
  method GetSummaryAndBar(data: seq<Row>, selected: string, valueKey: Field := Acv, countKey: Field := Count)
    returns (summary: Summary, bar: seq<Entry>)
    ensures data == [] ==> summary == Summary(Number(0), Number(0)) && bar == []
    ensures bar == Bar(FilterByQuarter(data, selected), valueKey)
    ensures summary.count == Number(Sum(FilterByQuarter(data, selected), countKey))
    ensures summary.acv == Number(Sum(FilterByQuarter(data, selected), valueKey))
    ensures Names(bar) == Distinct(Dimensions(FilterByQuarter(data, selected)))
    ensures forall i :: 0 <= i < |bar| ==>
              bar[i].value == LabelFold(FilterByQuarter(data, selected), bar[i].name, valueKey)
    ensures AllPresent(FilterByQuarter(data, selected), valueKey) ==>
              (forall i :: 0 <= i < |bar| ==> bar[i].value.Number?) && Total(bar) == summary.acv.n
  {
    var filtered := FilterByQuarter(data, selected);
    summary := Summarize(filtered, countKey, valueKey);
    bar := GroupSums(filtered, valueKey);
    BarSpec(filtered, valueKey);
    BarLabels(filtered, valueKey);
    if AllPresent(filtered, valueKey) {
      BarTotal(filtered, valueKey);
    }
  }

  // ---------------------------------------------------------------------
  // The customer-type view

  /** `customerBar`: one entry per selected row, in order, labelled
      `"<quarter> (<Cust_Type>)"` and valued by the row's `acv` as it is
      (absent stays `undefined`). */
  function CustomerBar(filtered: seq<Row>): (bar: seq<Entry>)
    ensures |bar| == |filtered|
    ensures forall i :: 0 <= i < |bar| ==>
              bar[i] == Entry(filtered[i].quarter + " (" + filtered[i].dimension + ")", Get(filtered[i], Acv))
  {
    seq(|filtered|, i requires 0 <= i < |filtered| =>
      Entry(filtered[i].quarter + " (" + filtered[i].dimension + ")", Get(filtered[i], Acv)))
  }

  /** With a quarter selected, every customer bar label starts with that
      quarter, and ends with the row's customer type in parentheses. */
  lemma CustomerBarLabels(data: seq<Row>, q: string)
    requires q != ALL
    ensures forall i :: 0 <= i < |CustomerBar(FilterByQuarter(data, q))| ==>
              var name, row := CustomerBar(FilterByQuarter(data, q))[i].name, FilterByQuarter(data, q)[i];
              |name| == |q| + |row.dimension| + 3
              && name[..|q| + 2] == q + " ("
              && name[|q| + 2..] == row.dimension + ")"
  {
    var filtered := FilterByQuarter(data, q);
    var bar := CustomerBar(filtered);
    forall i | 0 <= i < |bar|
      ensures |bar[i].name| == |q| + |filtered[i].dimension| + 3
      ensures bar[i].name[..|q| + 2] == q + " ("
      ensures bar[i].name[|q| + 2..] == filtered[i].dimension + ")"
    {
      var row := filtered[i];
      assert row.quarter == q;
      assert bar[i].name == (q + " (") + (row.dimension + ")");
    }
  }

  /** When every selected customer row has an `acv`, the customer bars add
      up to the plain `acv` total of the customer card. */
  lemma {:induction false} CustomerBarTotal(filtered: seq<Row>)
    requires AllPresent(filtered, Acv)
    ensures Total(CustomerBar(filtered)) == Sum(filtered, Acv)
  {
    if filtered != [] {
      var p := filtered[..|filtered| - 1];
      assert AllPresent(p, Acv) by {
        forall i | 0 <= i < |p| ensures Get(p[i], Acv).Number? { assert p[i] == filtered[i]; }
      }
      CustomerBarTotal(p);
      assert CustomerBar(filtered)[..|p|] == CustomerBar(p);
    }
  }

  /** The customer-type view: the unguarded card of `customerSummary`, the
      per-row `customerBar`, and `customerDoughnut`, which groups the same
      rows by customer type exactly as the generic helper groups by label,
      so it has one entry per distinct type in first-seen order and, when
      every row has an `acv`, adds up to the card's `acv`. */
  method CustomerView(data: seq<Row>, selected: string) returns (summary: Summary, bar: seq<Entry>, doughnut: seq<Entry>)
    ensures summary.count == if AllPresent(FilterByQuarter(data, selected), Count)
                             then Number(Sum(FilterByQuarter(data, selected), Count)) else NaN
    ensures summary.acv == if AllPresent(FilterByQuarter(data, selected), Acv)
                           then Number(Sum(FilterByQuarter(data, selected), Acv)) else NaN
    ensures bar == CustomerBar(FilterByQuarter(data, selected))
    ensures doughnut == Bar(FilterByQuarter(data, selected), Acv)
    ensures Names(doughnut) == Distinct(Dimensions(FilterByQuarter(data, selected)))
    ensures forall i :: 0 <= i < |doughnut| ==>
              doughnut[i].value == LabelFold(FilterByQuarter(data, selected), doughnut[i].name, Acv)
    ensures AllPresent(FilterByQuarter(data, selected), Acv) ==>
              Total(doughnut) == summary.acv.n && Total(bar) == summary.acv.n
  {
    var filtered := FilterByQuarter(data, selected);
    summary := CustomerSummarize(filtered);
    bar := CustomerBar(filtered);
    doughnut := GroupSums(filtered, Acv);
    BarSpec(filtered, Acv);
    if AllPresent(filtered, Acv) {
      BarTotal(filtered, Acv);
      CustomerBarTotal(filtered);
    }
  }

  // ---------------------------------------------------------------------
  // The quarter selector

  /** `uniqueQuarters`: the quarters of all four unfiltered datasets,
      de-duplicated through a `Set` and sorted. */
  function UniqueQuarters(d: Datasets): seq<string>
  {
    SortStrings(Distinct(Quarters(d.customer + d.team + d.industry + d.acvRange)))
  }

  /** A quarter is offered exactly when some row of some dataset has it. */
  predicate AnyHasQuarter(d: Datasets, q: string)
  {
    q in Quarters(d.customer) || q in Quarters(d.team) || q in Quarters(d.industry) || q in Quarters(d.acvRange)
  }

  lemma {:induction false} QuartersAppend(a: seq<Row>, b: seq<Row>)
    ensures Quarters(a + b) == Quarters(a) + Quarters(b)
  {
    assert |Quarters(a + b)| == |Quarters(a) + Quarters(b)|;
    forall i | 0 <= i < |a + b| ensures Quarters(a + b)[i] == (Quarters(a) + Quarters(b))[i] {
      if i < |a| { assert (a + b)[i] == a[i]; } else { assert (a + b)[i] == b[i - |a|]; }
    }
  }

  /** The selector lists every quarter present in the data once, strictly
      ascending, and nothing else. */
  lemma UniqueQuartersSpec(d: Datasets)
    ensures Ascending(UniqueQuarters(d))
    ensures forall q :: q in UniqueQuarters(d) ==> AnyHasQuarter(d, q)
    ensures forall q :: AnyHasQuarter(d, q) ==> q in UniqueQuarters(d)
  {
    var all := Quarters(d.customer + d.team + d.industry + d.acvRange);
    QuartersAppend(d.customer, d.team);
    QuartersAppend(d.customer + d.team, d.industry);
    QuartersAppend(d.customer + d.team + d.industry, d.acvRange);
    assert all == Quarters(d.customer) + Quarters(d.team) + Quarters(d.industry) + Quarters(d.acvRange);
    DistinctSpec(all);
    var u := Distinct(all);
    SortSpec(u);
    forall q ensures q in UniqueQuarters(d) <==> q in u {
      assert q in UniqueQuarters(d) <==> q in multiset(UniqueQuarters(d));
    }
  }

  /** The selector's list is the only strictly ascending list of exactly
      those quarters: it depends on which quarters occur, not on the order
      of rows or datasets, nor on the selected quarter. */
  lemma UniqueQuartersCanonical(d: Datasets, qs: seq<string>)
    requires Ascending(qs)
    requires forall q :: q in qs ==> AnyHasQuarter(d, q)
    requires forall q :: AnyHasQuarter(d, q) ==> q in qs
    ensures qs == UniqueQuarters(d)
  {
    UniqueQuartersSpec(d);
    AscendingUnique(qs, UniqueQuarters(d));
  }

  // ---------------------------------------------------------------------
  // Quarter cards add up to the "All" card

  /** Sum of the cards one gets by selecting each quarter of `qs` in turn. */
  function PerQuarterSum(rows: seq<Row>, qs: seq<string>, f: Field): int
  {
    if qs == [] then 0
    else PerQuarterSum(rows, qs[..|qs| - 1], f) + Sum(FilterByQuarter(rows, qs[|qs| - 1]), f)
  }

  lemma QuarterSumAppendRow(rows: seq<Row>, r: Row, q: string, f: Field)
    requires q != ALL
    ensures Sum(FilterByQuarter(rows + [r], q), f) ==
              Sum(FilterByQuarter(rows, q), f) + if r.quarter == q then OrZero(Get(r, f)) else 0
  {
    var o := Only(rows, q);
    assert (rows + [r])[..|rows|] == rows;
    if r.quarter == q {
      assert Only(rows + [r], q) == o + [r];
      assert (o + [r])[..|o|] == o;
    } else {
      assert Only(rows + [r], q) == o;
    }
  }

  lemma {:induction false} PerQuarterSumAppendRow(rows: seq<Row>, r: Row, qs: seq<string>, f: Field)
    requires NoDup(qs) && ALL !in qs
    ensures PerQuarterSum(rows + [r], qs, f) ==
              PerQuarterSum(rows, qs, f) + if r.quarter in qs then OrZero(Get(r, f)) else 0
  {
    if qs != [] {
      var qs', q := qs[..|qs| - 1], qs[|qs| - 1];
      assert qs == qs' + [q];
      assert NoDup(qs') by {
        forall i, j | 0 <= i < j < |qs'| ensures qs'[i] != qs'[j] { assert qs'[i] == qs[i] && qs'[j] == qs[j]; }
      }
      assert ALL !in qs' && q != ALL;
      assert q !in qs';
      PerQuarterSumAppendRow(rows, r, qs', f);
      QuarterSumAppendRow(rows, r, q, f);
    }
  }

  /** When the quarters `qs` (none of them the sentinel) cover every row
      once, the cards of the individual quarters add up to the card of
      "All": selecting a quarter partitions the rows. */
  lemma {:induction false} PerQuarterTotal(rows: seq<Row>, qs: seq<string>, f: Field)
    requires NoDup(qs) && ALL !in qs
    requires forall i :: 0 <= i < |rows| ==> rows[i].quarter in qs
    ensures PerQuarterSum(rows, qs, f) == Sum(rows, f)
  {
    if rows == [] {
      PerQuarterEmpty(qs, f);
    } else {
      var p, r := rows[..|rows| - 1], rows[|rows| - 1];
      assert forall i :: 0 <= i < |p| ==> p[i].quarter in qs by {
        forall i | 0 <= i < |p| ensures p[i].quarter in qs { assert p[i] == rows[i]; }
      }
      PerQuarterTotal(p, qs, f);
      assert rows == p + [r] && r.quarter in qs;
      PerQuarterSumAppendRow(p, r, qs, f);
      assert Sum(rows, f) == Sum(p, f) + OrZero(Get(r, f));
    }
  }

  lemma {:induction false} PerQuarterEmpty(qs: seq<string>, f: Field)
    ensures PerQuarterSum([], qs, f) == 0
  {
    if qs != [] {
      PerQuarterEmpty(qs[..|qs| - 1], f);
    }
  }

  /** For the quarters the selector offers, the team, industry and ACV-range
      cards of the individual quarters add up to their "All" cards. */
  lemma SelectorPartitions(d: Datasets, f: Field)
    requires ALL !in UniqueQuarters(d)
    ensures PerQuarterSum(d.team, UniqueQuarters(d), f) == Sum(FilterByQuarter(d.team, ALL), f)
    ensures PerQuarterSum(d.industry, UniqueQuarters(d), f) == Sum(FilterByQuarter(d.industry, ALL), f)
    ensures PerQuarterSum(d.acvRange, UniqueQuarters(d), f) == Sum(FilterByQuarter(d.acvRange, ALL), f)
  {
    var qs := UniqueQuarters(d);
    UniqueQuartersSpec(d);
    StrictTotalOrder();
    assert NoDup(qs);
    forall i | 0 <= i < |d.team| ensures d.team[i].quarter in qs {
      assert Quarters(d.team)[i] in Quarters(d.team);
    }
    forall i | 0 <= i < |d.industry| ensures d.industry[i].quarter in qs {
      assert Quarters(d.industry)[i] in Quarters(d.industry);
    }
    forall i | 0 <= i < |d.acvRange| ensures d.acvRange[i].quarter in qs {
      assert Quarters(d.acvRange)[i] in Quarters(d.acvRange);
    }
    PerQuarterTotal(d.team, qs, f);
    PerQuarterTotal(d.industry, qs, f);
    PerQuarterTotal(d.acvRange, qs, f);
  }

  // ---------------------------------------------------------------------
  // One render

  /** Everything the dashboard shows for `selected`. The ACV-range view
      passes `'count'` as its value field, so its card shows the same total
      twice and its bars are per-range counts; the selector's quarters come
      from the unfiltered data alone. */
  method Render(d: Datasets, selected: string) returns (v: View)
    ensures v.customer.summary.count == if AllPresent(FilterByQuarter(d.customer, selected), Count)
                                        then Number(Sum(FilterByQuarter(d.customer, selected), Count)) else NaN
    ensures v.customer.summary.acv == if AllPresent(FilterByQuarter(d.customer, selected), Acv)
                                      then Number(Sum(FilterByQuarter(d.customer, selected), Acv)) else NaN
    ensures v.customer.bar == CustomerBar(FilterByQuarter(d.customer, selected))
    ensures v.doughnut == Bar(FilterByQuarter(d.customer, selected), Acv)
    ensures Names(v.doughnut) == Distinct(Dimensions(FilterByQuarter(d.customer, selected)))
    ensures v.team.summary == Summary(Number(Sum(FilterByQuarter(d.team, selected), Count)),
                                      Number(Sum(FilterByQuarter(d.team, selected), Acv)))
    ensures v.team.bar == Bar(FilterByQuarter(d.team, selected), Acv)
    ensures Names(v.team.bar) == Distinct(Dimensions(FilterByQuarter(d.team, selected)))
    ensures v.industry.summary == Summary(Number(Sum(FilterByQuarter(d.industry, selected), Count)),
                                          Number(Sum(FilterByQuarter(d.industry, selected), Acv)))
    ensures v.industry.bar == Bar(FilterByQuarter(d.industry, selected), Acv)
    ensures Names(v.industry.bar) == Distinct(Dimensions(FilterByQuarter(d.industry, selected)))
    ensures v.acvRange.summary.count == v.acvRange.summary.acv
              == Number(Sum(FilterByQuarter(d.acvRange, selected), Count))
    ensures v.acvRange.bar == Bar(FilterByQuarter(d.acvRange, selected), Count)
    ensures Names(v.acvRange.bar) == Distinct(Dimensions(FilterByQuarter(d.acvRange, selected)))
    ensures forall i :: 0 <= i < |v.acvRange.bar| ==>
              v.acvRange.bar[i].value == LabelFold(FilterByQuarter(d.acvRange, selected), v.acvRange.bar[i].name, Count)
    ensures v.quarters == UniqueQuarters(d)
    ensures Ascending(v.quarters)
  {
    var customerSummary, customerBar, customerDoughnut := CustomerView(d.customer, selected);
    var teamSummary, teamBar := GetSummaryAndBar(d.team, selected);
    var industrySummary, industryBar := GetSummaryAndBar(d.industry, selected);
    var acvRangeSummary, acvRangeBar := GetSummaryAndBar(d.acvRange, selected, Count);
    UniqueQuartersSpec(d);
    v := View(
      Section(customerSummary, customerBar), customerDoughnut,
      Section(teamSummary, teamBar), Section(industrySummary, industryBar),
      Section(acvRangeSummary, acvRangeBar),
      UniqueQuarters(d));
  }
}
