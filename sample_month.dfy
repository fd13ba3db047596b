/** A worked sample: three records, two of them in November 2022, and what
    the statistics, bar-chart and pie-chart endpoints answer for that month. */
module SampleMonth {
  import opened Wrappers
  import opened Calendar
  import opened Collection
  import opened Statistics
  import opened BarChart
  import opened PieChart

  const A: Transaction := Transaction("a", "1", "", "", 50.0, Instant(2022, 11, 5, 0), "X", true)
  const B: Transaction := Transaction("b", "2", "", "", 150.0, Instant(2022, 11, 20, 0), "Y", false)
  const C: Transaction := Transaction("c", "3", "", "", 999.0, Instant(2022, 12, 1, 0), "X", true)

  /** November 2022 holds A and B; C, sold on 1 December, is in the next
      month's window. */
  lemma SampleWindows()
    ensures MonthRecords([A, B, C], 2022, 11) == [A, B]
    ensures MonthRecords([A, B, C], 2022, 12) == [C]
  {
    var db := [A, B, C];
    var w := DateQuery(MonthWindow(2022, 11));
    assert db[1..] == [B, C] && [B, C][1..] == [C] && [C][1..] == [];
    assert MonthWindow(2022, 11) == Window(Instant(2022, 11, 1, 0), Instant(2022, 12, 1, 0));
    assert MonthWindow(2022, 12) == Window(Instant(2022, 12, 1, 0), Instant(2023, 1, 1, 0));
    assert Find([C], w) == [];
    assert Find([B, C], w) == [B];
    var w12 := DateQuery(MonthWindow(2022, 12));
    assert Find([C], w12) == [C];
    assert Find([B, C], w12) == [C];
  }

  /** The statistics of November 2022: 50 + 150, one sold, one unsold. */
  lemma SampleStatistics()
    ensures GetStatistics([A, B, C], 2022, 11) == Stats(200.0, 1, 1)
  {
    SampleWindows();
    var db := [A, B, C];
    assert Find([A, B], MatchAll.(sold := Some(true))) == [A] by {
      assert [A, B][1..] == [B];
    }
    assert Find([A, B], MatchAll.(sold := Some(false))) == [B] by {
      assert [A, B][1..] == [B];
    }
    SoldCounts(db, 2022, 11);
    assert [A, B][1..] == [B];
    assert SumPrices([B]) == 150.0;
    assert SumPrices([A, B]) == 200.0;
  }

  /** A falls in "0-100" and B in "101-200". */
  lemma SampleBarChart()
    ensures GetBarChart([A, B, C], 2022, 11)[0].count == 1
    ensures GetBarChart([A, B, C], 2022, 11)[1].count == 1
  {
    SampleWindows();
    BarCountIsBucketOfMonth([A, B, C], 2022, 11, 0);
    BarCountIsBucketOfMonth([A, B, C], 2022, 11, 1);
    SampleBuckets();
  }

  lemma SampleBuckets()
    ensures CountInBucket([A, B], Buckets[0].bounds) == 1
    ensures CountInBucket([A, B], Buckets[1].bounds) == 1
  {
    var q0, q1 := MatchAll.(price := Some(Buckets[0].bounds)), MatchAll.(price := Some(Buckets[1].bounds));
    assert [A, B][1..] == [B] && [B][1..] == [];
    assert Find([B], q0) == [] && Find([B], q1) == [B];
    assert Find([A, B], q0) == [A] && Find([A, B], q1) == [B];
  }

  /** The pie chart has two groups, X and Y, with one record each, in
      whatever order. */
  lemma SamplePieChart()
    ensures |GetPieChart([A, B, C], 2022, 11)| == 2
    ensures GroupCount(GetPieChart([A, B, C], 2022, 11), "X") == 1
    ensures GroupCount(GetPieChart([A, B, C], 2022, 11), "Y") == 1
  {
    SampleWindows();
    var m := [A, B];
    assert m[1..] == [B] && [B][1..] == [];
    assert GroupByCategory([B]) == [CategoryCount("Y", 1)];
    assert Tally([CategoryCount("Y", 1)], "X") == [CategoryCount("Y", 1)] + Tally([], "X");
    assert Occurrences(m, "X") == 1 && Occurrences(m, "Y") == 1;
  }
}
