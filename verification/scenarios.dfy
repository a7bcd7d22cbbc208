/** Worked examples on small concrete datasets. */
module Scenarios {
  import opened Records
  import opened QuarterFilter
  import opened Grouping
  import opened Dashboard
  import opened Seqs
  import opened Sorting

  const AlphaQ1 := Row("Q1", "Alpha", Some(2), Some(100))
  const BetaQ1 := Row("Q1", "Beta", Some(1), Some(50))
  const AlphaQ2 := Row("Q2", "Alpha", Some(3), Some(200))

  /** Two teams in the first quarter and one team again in the second. */
  const Teams: seq<Row> := [AlphaQ1, BetaQ1, AlphaQ2]

  /** Selecting Q1 keeps the first two rows, in order. */
  lemma TeamFilterExample()
    ensures FilterByQuarter(Teams, "Q1") == [AlphaQ1, BetaQ1]
  {
    var none: seq<Row> := [];
    assert Teams[..2] == [AlphaQ1, BetaQ1];
    assert [AlphaQ1, BetaQ1][..1] == [AlphaQ1];
    assert [AlphaQ1][..0] == none;
    assert Only([AlphaQ1], "Q1") == Only(none, "Q1") + [AlphaQ1] == [AlphaQ1];
    assert Only([AlphaQ1, BetaQ1], "Q1") == [AlphaQ1, BetaQ1];
  }

  /** For Q1 the card shows 3 deals worth 150, and the bars are Alpha 100
      and Beta 50, in first-seen order. */
  lemma TeamSectionExample()
    ensures Sum([AlphaQ1, BetaQ1], Count) == 3
    ensures Sum([AlphaQ1, BetaQ1], Acv) == 150
    ensures Bar([AlphaQ1, BetaQ1], Acv) == [Entry("Alpha", Number(100)), Entry("Beta", Number(50))]
  {
    var none: seq<Row> := [];
    assert [AlphaQ1, BetaQ1][..1] == [AlphaQ1];
    assert [AlphaQ1][..0] == none && Grouped(none, Acv) == Dict([], map[]);
    assert Sum([AlphaQ1], Count) == Sum(none, Count) + 2 == 2;
    assert Sum([AlphaQ1], Acv) == Sum(none, Acv) + 100 == 100;
    var g1 := Grouped([AlphaQ1], Acv);
    assert g1 == Step(Grouped(none, Acv), AlphaQ1, Acv);
    assert [] + ["Alpha"] == ["Alpha"];
    assert g1 == Dict(["Alpha"], map["Alpha" := Number(100)]);
    var g2 := Grouped([AlphaQ1, BetaQ1], Acv);
    assert g2 == Dict(["Alpha", "Beta"], map["Alpha" := Number(100), "Beta" := Number(50)]);
    assert Entries(g2) == [Entry("Alpha", Number(100)), Entry("Beta", Number(50))];
  }

  /** The quarters of the team rows, first occurrences only. */
  lemma TeamQuartersDistinct()
    ensures Distinct(Quarters(Teams)) == ["Q1", "Q2"]
  {
    var qs: seq<string> := ["Q1", "Q1", "Q2"];
    assert Quarters(Teams) == qs;
    var none: seq<string> := [];
    var one: seq<string> := ["Q1"];
    assert one[..0] == none;
    assert Distinct(one) == one;
    assert qs[..2][..1] == one;
    assert Distinct(qs[..2]) == one;
    assert "Q2" !in one;
    assert Distinct(qs) == one + ["Q2"];
  }

  /** Sorting leaves the already ordered pair as it is. */
  lemma QuarterPairSorted()
    ensures SortStrings(["Q1", "Q2"]) == ["Q1", "Q2"]
  {
    assert "Q2"[1..] == "2" && "Q1"[1..] == "1";
    assert !Below("Q2", "Q1");
    assert ["Q1", "Q2"][1..] == ["Q2"] && ["Q2"][1..] == [];
    assert SortStrings(["Q2"]) == ["Q2"];
  }

  /** The selector offers Q1 and Q2. */
  lemma TeamQuartersExample()
    ensures UniqueQuarters(Datasets([], Teams, [], [])) == ["Q1", "Q2"]
  {
    assert [] + Teams + [] + [] == Teams;
    TeamQuartersDistinct();
    QuarterPairSorted();
  }

  const First := Row("Q1", "Alpha", Some(1), Some(7))
  const Missing := Row("Q1", "Alpha", Some(1), None)
  const Last := Row("Q1", "Alpha", Some(1), Some(5))

  /** Three Alpha rows, the middle one without an `acv`: the card counts the
      missing value as 0 and shows 12, while the bar restarts after the
      `NaN` and shows 5. With the missing row last, the bar is `NaN`. */
  lemma MissingValueExample()
    ensures Sum([First, Missing, Last], Acv) == 12
    ensures Bar([First, Missing, Last], Acv) == [Entry("Alpha", Number(5))]
    ensures Bar([First, Last, Missing], Acv) == [Entry("Alpha", NaN)]
  {
    assert [First, Missing, Last][..2] == [First, Missing];
    assert [First, Last, Missing][..2] == [First, Last];
    assert [First, Missing][..1] == [First] && [First, Last][..1] == [First];
    var none: seq<Row> := [];
    assert [First][..0] == none;
    assert Sum([First], Acv) == Sum(none, Acv) + 7 == 7;
    assert Sum([First, Missing], Acv) == Sum([First], Acv) + 0 == 7;
    assert Grouped(none, Acv) == Dict([], map[]);
    assert Grouped([First], Acv) == Step(Grouped(none, Acv), First, Acv);
    assert Step(Dict([], map[]), First, Acv) == Dict([] + ["Alpha"], map["Alpha" := Number(7)]);
    assert [] + ["Alpha"] == ["Alpha"];
    assert Grouped([First], Acv) == Dict(["Alpha"], map["Alpha" := Number(7)]);
    assert Grouped([First, Missing], Acv) == Dict(["Alpha"], map["Alpha" := NaN]);
    assert Grouped([First, Last], Acv) == Dict(["Alpha"], map["Alpha" := Number(12)]);
  }
}
