/** `GET /api/pie-chart`: the month's records grouped by `category`, with the
    number of records in each group. */
module PieChart {
  import opened Collection
  import opened Statistics

  /** One group of `{ $group: { _id: "$category", count: { $sum: 1 } } }`,
      sent as `{ _id: <category>, count }`: the JSON key of `category` is `_id`. */
  datatype CategoryCount = CategoryCount(category: string, count: nat)

  /** No two groups share a category. */
  predicate DistinctCategories(gs: seq<CategoryCount>) {
    forall i, j :: 0 <= i < j < |gs| ==> gs[i].category != gs[j].category
  }

  /** Every group counts at least one record. */
  predicate NonEmptyGroups(gs: seq<CategoryCount>) {
    forall i :: 0 <= i < |gs| ==> gs[i].count >= 1
  }

  /** The count the groups give to category `c` (0 when no group has it). */
  function GroupCount(gs: seq<CategoryCount>, c: string): nat {
    if gs == [] then 0 else (if gs[0].category == c then gs[0].count else 0) + GroupCount(gs[1..], c)
  }

  /** The sum of all the groups' counts. */
  function TotalGroupCount(gs: seq<CategoryCount>): nat {
    if gs == [] then 0 else gs[0].count + TotalGroupCount(gs[1..])
  }

  /** The number of records of category `c`. */
  function Occurrences(xs: seq<Transaction>, c: string): nat {
    if xs == [] then 0 else (if xs[0].category == c then 1 else 0) + Occurrences(xs[1..], c)
  }

  /** Adds one record of category `c` to the groups: the group of `c` counts
      one more, or a new group of count 1 is opened for it at the end. */
  function Tally(gs: seq<CategoryCount>, c: string): (r: seq<CategoryCount>)
    ensures TotalGroupCount(r) == TotalGroupCount(gs) + 1
  {
    if gs == [] then [CategoryCount(c, 1)]
    else if gs[0].category == c then [CategoryCount(c, gs[0].count + 1)] + gs[1..]
    else [gs[0]] + Tally(gs[1..], c)
  }

  /** Tallying `c` adds one to the count of `c` and leaves every other
      category's count as it was. */
  lemma {:induction false} TallyCount(gs: seq<CategoryCount>, c: string, d: string)
    ensures GroupCount(Tally(gs, c), d) == GroupCount(gs, d) + (if d == c then 1 else 0)
  {
    if gs != [] && gs[0].category != c {
      TallyCount(gs[1..], c, d);
      assert ([gs[0]] + Tally(gs[1..], c))[1..] == Tally(gs[1..], c);
    } else if gs != [] {
      assert ([CategoryCount(c, gs[0].count + 1)] + gs[1..])[1..] == gs[1..];
    }
  }

  /** A category with a positive count has a group. */
  lemma {:induction false} GroupOfPositiveCount(gs: seq<CategoryCount>, c: string)
    requires GroupCount(gs, c) > 0
    ensures exists i :: 0 <= i < |gs| && gs[i].category == c
  {
    if gs[0].category != c {
      GroupOfPositiveCount(gs[1..], c);
      var i :| 0 <= i < |gs[1..]| && gs[1..][i].category == c;
      assert gs[i + 1] == gs[1..][i];
    }
  }

  /** Tallying keeps the groups distinct and non-empty. */
  lemma {:induction false} TallyKeepsGroups(gs: seq<CategoryCount>, c: string)
    requires DistinctCategories(gs) && NonEmptyGroups(gs)
    ensures DistinctCategories(Tally(gs, c)) && NonEmptyGroups(Tally(gs, c))
  {
    var r := Tally(gs, c);
    if gs == [] {
    } else if gs[0].category == c {
      forall i, j | 0 <= i < j < |r| ensures r[i].category != r[j].category {
        assert r[j] == gs[j];
        if i > 0 { assert r[i] == gs[i]; }
      }
    } else {
      var rest := gs[1..];
      assert DistinctCategories(rest) && NonEmptyGroups(rest) by {
        forall i, j | 0 <= i < j < |rest| ensures rest[i].category != rest[j].category {
          assert rest[i] == gs[i + 1] && rest[j] == gs[j + 1];
        }
        forall i | 0 <= i < |rest| ensures rest[i].count >= 1 {
          assert rest[i] == gs[i + 1];
        }
      }
      TallyKeepsGroups(rest, c);
      var tail := Tally(rest, c);
      assert r == [gs[0]] + tail;
      forall j | 0 <= j < |tail| ensures tail[j].category != gs[0].category {
        TallyCount(rest, c, gs[0].category);
        GroupCountAbsent(rest, gs[0].category) by {
          forall k | 0 <= k < |rest| ensures rest[k].category != gs[0].category {
            assert rest[k] == gs[k + 1];
          }
        }
        if tail[j].category == gs[0].category {
          GroupCountOfMember(tail, j);
        }
      }
      forall i, j | 0 <= i < j < |r| ensures r[i].category != r[j].category {
        assert r[j] == tail[j - 1];
        if i > 0 { assert r[i] == tail[i - 1]; }
      }
    }
  }

  /** `$group` by category: one group per category of `xs`, each holding the
      number of records of that category. */
  function GroupByCategory(xs: seq<Transaction>): (r: seq<CategoryCount>)
    ensures DistinctCategories(r) && NonEmptyGroups(r)
    ensures forall c :: GroupCount(r, c) == Occurrences(xs, c)
    ensures TotalGroupCount(r) == |xs|
  {
    if xs == [] then []
    else
      var rest := GroupByCategory(xs[1..]);
      TallyKeepsGroups(rest, xs[0].category);
      assert forall c :: GroupCount(Tally(rest, xs[0].category), c) == Occurrences(xs, c) by {
        forall c ensures GroupCount(Tally(rest, xs[0].category), c) == Occurrences(xs, c) {
          TallyCount(rest, xs[0].category, c);
        }
      }
      Tally(rest, xs[0].category)
  }

  /** The handler: the month's records grouped by category, one group per
      category that occurs in the month, counting that category's records.
      The database gives the groups in no defined order. */
  function GetPieChart(db: seq<Transaction>, year: int, month: int): (r: seq<CategoryCount>)
    ensures DistinctCategories(r) && NonEmptyGroups(r)
    ensures forall c :: GroupCount(r, c) == Occurrences(MonthRecords(db, year, month), c)
    ensures TotalGroupCount(r) == |MonthRecords(db, year, month)|
  {
    GroupByCategory(MonthRecords(db, year, month))
  }

  /** In distinct groups the count of a group is the group's own count. */
  lemma {:induction false} GroupCountOfMember(gs: seq<CategoryCount>, i: int)
    requires DistinctCategories(gs) && 0 <= i < |gs|
    ensures GroupCount(gs, gs[i].category) == gs[i].count
  {
    if i == 0 {
      GroupCountAbsent(gs[1..], gs[0].category);
    } else {
      assert DistinctCategories(gs[1..]) by {
        forall a, b | 0 <= a < b < |gs[1..]| ensures gs[1..][a].category != gs[1..][b].category {
          assert gs[1..][a] == gs[a + 1] && gs[1..][b] == gs[b + 1];
        }
      }
      assert gs[1..][i - 1] == gs[i];
      GroupCountOfMember(gs[1..], i - 1);
    }
  }

  lemma {:induction false} GroupCountAbsent(gs: seq<CategoryCount>, c: string)
    requires forall i :: 0 <= i < |gs| ==> gs[i].category != c
    ensures GroupCount(gs, c) == 0
  {
    if gs != [] {
      GroupCountAbsent(gs[1..], c);
    }
  }

  /** Each record of the month is counted in exactly one group, each group
      counts the month's records of its category and at least one of them,
      and the counts add up to the number of the month's records. */
  lemma PieChartPartitionsMonth(db: seq<Transaction>, year: int, month: int)
    ensures var r, m := GetPieChart(db, year, month), MonthRecords(db, year, month);
      && TotalGroupCount(r) == |m|
      && (forall i :: 0 <= i < |r| ==> 1 <= r[i].count == Occurrences(m, r[i].category))
      && (forall t :: t in m ==>
            exists i :: 0 <= i < |r| && r[i].category == t.category &&
              forall j :: 0 <= j < |r| && r[j].category == t.category ==> j == i)
  {
    GroupsPartition(MonthRecords(db, year, month), GetPieChart(db, year, month));
  }

  /** Distinct groups whose counts are the records' occurrences give each
      record exactly one group. */
  lemma GroupsPartition(m: seq<Transaction>, r: seq<CategoryCount>)
    requires DistinctCategories(r)
    requires forall c :: GroupCount(r, c) == Occurrences(m, c)
    ensures forall i :: 0 <= i < |r| ==> r[i].count == Occurrences(m, r[i].category)
    ensures forall t :: t in m ==>
      exists i :: 0 <= i < |r| && r[i].category == t.category &&
        forall j :: 0 <= j < |r| && r[j].category == t.category ==> j == i
  {
    forall i | 0 <= i < |r| ensures r[i].count == Occurrences(m, r[i].category) {
      GroupCountOfMember(r, i);
    }
    forall t | t in m
      ensures exists i :: 0 <= i < |r| && r[i].category == t.category &&
                forall j :: 0 <= j < |r| && r[j].category == t.category ==> j == i
    {
      OccursOfMember(m, t);
      GroupOfPositiveCount(r, t.category);
      var i :| 0 <= i < |r| && r[i].category == t.category;
    }
  }

  lemma {:induction false} OccursOfMember(xs: seq<Transaction>, t: Transaction)
    requires t in xs
    ensures Occurrences(xs, t.category) >= 1
  {
    if xs[0] != t {
      OccursOfMember(xs[1..], t);
    }
  }

  /** A month without records has no groups. */
  lemma EmptyMonthNoGroups(db: seq<Transaction>, year: int, month: int)
    requires MonthRecords(db, year, month) == []
    ensures GetPieChart(db, year, month) == []
  {
  }
}
