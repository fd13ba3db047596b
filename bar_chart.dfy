/** `GET /api/bar-chart`: ten price-range counts over the month's records,
    with the server's own bucket bounds, which leave gaps between buckets. */
module BarChart {
  import opened Wrappers
  import opened Calendar
  import opened Collection
  import opened Statistics

  /** One price bucket: the `range` label and the `price` condition. */
  datatype Bucket = Bucket(name: string, bounds: PriceBounds)

  /** One entry of the JSON array `{ range, count }`. */
  datatype RangeCount = RangeCount(range: string, count: nat)

  /** The ten buckets in the order of the response. Each is half-open; the
      lower bounds from the second bucket on are one above the previous
      upper bound, and the last bucket starts at 901. */
  const Buckets: seq<Bucket> := [
    Bucket("0-100", PriceBounds(0.0, Some(100.0))),
    Bucket("101-200", PriceBounds(101.0, Some(200.0))),
    Bucket("201-300", PriceBounds(201.0, Some(300.0))),
    Bucket("301-400", PriceBounds(301.0, Some(400.0))),
    Bucket("401-500", PriceBounds(401.0, Some(500.0))),
    Bucket("501-600", PriceBounds(501.0, Some(600.0))),
    Bucket("601-700", PriceBounds(601.0, Some(700.0))),
    Bucket("701-800", PriceBounds(701.0, Some(800.0))),
    Bucket("801-900", PriceBounds(801.0, Some(900.0))),
    Bucket("900-above", PriceBounds(901.0, None))
  ]

  /** `countDocuments({ dateOfSale: window, price: bounds })` for each bucket,
      in bucket order. */
  function GetBarChart(db: seq<Transaction>, year: int, month: int): (r: seq<RangeCount>)
    ensures |r| == 10
    ensures forall i :: 0 <= i < 10 ==> r[i].range == Buckets[i].name
  {
    var window := DateQuery(MonthWindow(year, month));
    seq(|Buckets|, i requires 0 <= i < |Buckets| =>
      RangeCount(Buckets[i].name, CountDocuments(db, window.(price := Some(Buckets[i].bounds)))))
  }

  /** The number of records whose price meets `b`. */
  function CountInBucket(xs: seq<Transaction>, b: PriceBounds): nat {
    CountDocuments(xs, MatchAll.(price := Some(b)))
  }

  /** Each count is the number of the month's records whose price lies in
      that bucket: the price condition is intersected with the month window. */
  lemma BarCountIsBucketOfMonth(db: seq<Transaction>, year: int, month: int, i: int)
    requires 0 <= i < 10
    ensures GetBarChart(db, year, month)[i].count == CountInBucket(MonthRecords(db, year, month), Buckets[i].bounds)
  {
    FindMerge(db, DateQuery(MonthWindow(year, month)), MatchAll.(price := Some(Buckets[i].bounds)));
  }

  /** The labels of the response, in order. */
  lemma BarChartLabels(db: seq<Transaction>, year: int, month: int)
    ensures var r := GetBarChart(db, year, month);
      [r[0].range, r[1].range, r[2].range, r[3].range, r[4].range,
       r[5].range, r[6].range, r[7].range, r[8].range, r[9].range] ==
      ["0-100", "101-200", "201-300", "301-400", "401-500",
       "501-600", "601-700", "701-800", "801-900", "900-above"]
  {
  }

  /** The shape of bucket `i`: [0, 100) for the first, [100i + 1, 100(i + 1))
      for the second to the ninth, and [901, infinity) for the last. */
  lemma BucketBounds(i: int)
    requires 0 <= i < 10
    ensures i == 0 ==> Buckets[i].bounds == PriceBounds(0.0, Some(100.0))
    ensures 1 <= i <= 8 ==> Buckets[i].bounds == PriceBounds((100 * i + 1) as real, Some((100 * i + 100) as real))
    ensures i == 9 ==> Buckets[i].bounds == PriceBounds(901.0, None)
  {
    if i == 0 {} else if i == 1 {} else if i == 2 {} else if i == 3 {} else if i == 4 {}
    else if i == 5 {} else if i == 6 {} else if i == 7 {} else if i == 8 {} else {}
  }

  /** No price lies in two buckets. */
  lemma BucketsDisjoint(i: int, j: int, p: real)
    requires 0 <= i < j < 10
    ensures !(InBounds(p, Buckets[i].bounds) && InBounds(p, Buckets[j].bounds))
  {
    BucketBounds(i);
    BucketBounds(j);
  }

  /** Some bucket holds price `p`. */
  predicate Covered(p: real) {
    exists i :: 0 <= i < |Buckets| && InBounds(p, Buckets[i].bounds)
  }

  /** The prices no bucket holds: the negative ones, and [100, 101), [200, 201),
      ..., [900, 901), whose integer part is a multiple of 100. */
  predicate InGap(p: real) {
    p < 0.0 || (100.0 <= p < 901.0 && p.Floor % 100 == 0)
  }

  /** A price is counted by the bar chart exactly when it is not in a gap. */
  lemma CoveredIffNotInGap(p: real)
    ensures Covered(p) <==> !InGap(p)
  {
    if !InGap(p) {
      if p < 100.0 {
        assert InBounds(p, Buckets[0].bounds);
      } else if p >= 901.0 {
        assert InBounds(p, Buckets[9].bounds);
      } else {
        var f := p.Floor;
        var i := f / 100;
        assert 1 <= i <= 8;
        assert 100 * i + 1 <= f < 100 * i + 100;
        BucketBounds(i);
        assert InBounds(p, Buckets[i].bounds);
      }
    }
    if Covered(p) {
      var i :| 0 <= i < |Buckets| && InBounds(p, Buckets[i].bounds);
      BucketBounds(i);
      if 1 <= i <= 8 {
        var f := p.Floor;
        assert 100 * i + 1 <= f < 100 * i + 100;
        assert f / 100 == i;
      }
    }
  }

  /** The gap prices the response leaves out, and neighbours that it counts. */
  lemma GapExamples()
    ensures !Covered(100.0) && !Covered(200.0) && !Covered(900.0) && !Covered(100.5) && !Covered(-1.0)
    ensures InBounds(99.99, Buckets[0].bounds) && InBounds(150.0, Buckets[1].bounds)
    ensures InBounds(901.0, Buckets[9].bounds) && !InBounds(900.5, Buckets[8].bounds)
  {
    CoveredIffNotInGap(100.0);
    CoveredIffNotInGap(200.0);
    CoveredIffNotInGap(900.0);
    CoveredIffNotInGap(100.5);
    CoveredIffNotInGap(-1.0);
  }

  /** The number of buckets of `bs` that hold price `p`. */
  function Hits(bs: seq<Bucket>, p: real): nat {
    if bs == [] then 0 else (if InBounds(p, bs[0].bounds) then 1 else 0) + Hits(bs[1..], p)
  }

  /** The sum of the bucket counts of `bs` over the records `xs`. */
  function SumOfCounts(xs: seq<Transaction>, bs: seq<Bucket>): nat {
    if bs == [] then 0 else CountInBucket(xs, bs[0].bounds) + SumOfCounts(xs, bs[1..])
  }

  /** The sum over records of the number of buckets each one falls into. */
  function SumOfHits(xs: seq<Transaction>, bs: seq<Bucket>): nat {
    if xs == [] then 0 else Hits(bs, xs[0].price) + SumOfHits(xs[1..], bs)
  }

  /** The number of records whose price some bucket holds. */
  function CountCovered(xs: seq<Transaction>): (n: nat)
    ensures n <= |xs|
  {
    if xs == [] then 0 else (if Covered(xs[0].price) then 1 else 0) + CountCovered(xs[1..])
  }

  /** The sum of the `count` fields of a response. */
  function TotalBarCount(r: seq<RangeCount>): nat {
    if r == [] then 0 else r[0].count + TotalBarCount(r[1..])
  }

  /** Summing a response whose entries count the buckets `bs` one by one. */
  lemma {:induction false} TotalBarCountOfBuckets(r: seq<RangeCount>, xs: seq<Transaction>, bs: seq<Bucket>)
    requires |r| == |bs|
    requires forall i :: 0 <= i < |r| ==> r[i].count == CountInBucket(xs, bs[i].bounds)
    ensures TotalBarCount(r) == SumOfCounts(xs, bs)
  {
    if r != [] {
      TotalBarCountOfBuckets(r[1..], xs, bs[1..]);
    }
  }

  /** Counting bucket by bucket and counting record by record agree. */
  lemma {:induction false} SumOfCountsByRecord(xs: seq<Transaction>, bs: seq<Bucket>)
    ensures SumOfCounts(xs, bs) == SumOfHits(xs, bs)
  {
    if bs != [] {
      SumOfCountsByRecord(xs, bs[1..]);
      PeelFirstBucket(xs, bs);
    } else {
      NoBucketsNoHits(xs);
    }
  }

  lemma {:induction false} NoBucketsNoHits(xs: seq<Transaction>)
    ensures SumOfHits(xs, []) == 0
  {
    if xs != [] {
      NoBucketsNoHits(xs[1..]);
    }
  }

  lemma {:induction false} PeelFirstBucket(xs: seq<Transaction>, bs: seq<Bucket>)
    requires bs != []
    ensures SumOfHits(xs, bs) == CountInBucket(xs, bs[0].bounds) + SumOfHits(xs, bs[1..])
  {
    if xs != [] {
      PeelFirstBucket(xs[1..], bs);
    }
  }

  /** No price lies in two buckets of `bs`. */
  predicate PairwiseDisjoint(bs: seq<Bucket>, p: real) {
    forall i, j :: 0 <= i < j < |bs| ==> !(InBounds(p, bs[i].bounds) && InBounds(p, bs[j].bounds))
  }

  /** In disjoint buckets a price is hit once when some bucket holds it and
      never otherwise. */
  lemma {:induction false} HitsOfDisjoint(bs: seq<Bucket>, p: real)
    requires PairwiseDisjoint(bs, p)
    ensures Hits(bs, p) == if exists i :: 0 <= i < |bs| && InBounds(p, bs[i].bounds) then 1 else 0
  {
    if bs != [] {
      var rest := bs[1..];
      assert PairwiseDisjoint(rest, p) by {
        forall i, j | 0 <= i < j < |rest| ensures !(InBounds(p, rest[i].bounds) && InBounds(p, rest[j].bounds)) {
          assert rest[i] == bs[i + 1] && rest[j] == bs[j + 1];
        }
      }
      HitsOfDisjoint(rest, p);
      if exists i :: 0 <= i < |rest| && InBounds(p, rest[i].bounds) {
        var i :| 0 <= i < |rest| && InBounds(p, rest[i].bounds);
        assert bs[i + 1] == rest[i];
      }
      if exists i :: 0 <= i < |bs| && InBounds(p, bs[i].bounds) {
        var i :| 0 <= i < |bs| && InBounds(p, bs[i].bounds);
        if i > 0 {
          assert rest[i - 1] == bs[i];
        }
      }
    }
  }

  /** Because the buckets are disjoint, a price falls into one bucket when it
      is covered and into none otherwise. */
  lemma HitsOfBuckets(p: real)
    ensures Hits(Buckets, p) == if Covered(p) then 1 else 0
  {
    forall i, j | 0 <= i < j < |Buckets| ensures !(InBounds(p, Buckets[i].bounds) && InBounds(p, Buckets[j].bounds)) {
      BucketsDisjoint(i, j, p);
    }
    HitsOfDisjoint(Buckets, p);
  }

  lemma {:induction false} SumOfHitsIsCovered(xs: seq<Transaction>)
    ensures SumOfHits(xs, Buckets) == CountCovered(xs)
  {
    if xs != [] {
      HitsOfBuckets(xs[0].price);
      SumOfHitsIsCovered(xs[1..]);
    }
  }

  /** The ten counts add up to the number of the month's records whose price
      is in no gap, and so to at most the number of the month's records. */
  lemma BarCountsSum(db: seq<Transaction>, year: int, month: int)
    ensures TotalBarCount(GetBarChart(db, year, month)) == CountCovered(MonthRecords(db, year, month))
    ensures TotalBarCount(GetBarChart(db, year, month)) <= |MonthRecords(db, year, month)|
  {
    var m := MonthRecords(db, year, month);
    var r := GetBarChart(db, year, month);
    forall i | 0 <= i < |r| ensures r[i].count == CountInBucket(m, Buckets[i].bounds) {
      BarCountIsBucketOfMonth(db, year, month, i);
    }
    TotalBarCountOfBuckets(r, m, Buckets);
    SumOfCountsByRecord(m, Buckets);
    SumOfHitsIsCovered(m);
  }
}
