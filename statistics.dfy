/** `GET /api/statistics`: the month's total sale amount and its sold and
    unsold counts. */
module Statistics {
  import opened Wrappers
  import opened Calendar
  import opened Collection

  /** The JSON body `{ totalSaleAmount, totalSoldItems, totalNotSoldItems }`. */
  datatype Stats = Stats(totalSaleAmount: real, totalSoldItems: nat, totalNotSoldItems: nat)

  /** The records of the month window, in collection order. */
  function MonthRecords(db: seq<Transaction>, year: int, month: int): seq<Transaction> {
    Find(db, DateQuery(MonthWindow(year, month)))
  }

  /** `aggregate([{ $match: q }, { $group: { _id: null, total: { $sum: "$price" } } }])`:
      one group holding the sum when something matches, and no group at all
      when nothing does. */
  function TotalGroups(db: seq<Transaction>, q: Query): (groups: seq<real>)
    ensures |groups| <= 1
    ensures groups == [] <==> Find(db, q) == []
  {
    var matched := Find(db, q);
    if matched == [] then [] else [SumPrices(matched)]
  }

  /** The handler. `totalSaleAmount[0]?.total || 0` reads a missing group as 0. */
  function GetStatistics(db: seq<Transaction>, year: int, month: int): (r: Stats)
    ensures r.totalSaleAmount == SumPrices(MonthRecords(db, year, month))
    ensures MonthRecords(db, year, month) == [] ==> r.totalSaleAmount == 0.0
  {
    var window := DateQuery(MonthWindow(year, month));
    var groups := TotalGroups(db, window);
    Stats(
      if groups == [] then 0.0 else groups[0],
      CountDocuments(db, window.(sold := Some(true))),
      CountDocuments(db, window.(sold := Some(false))))
  }

  /** The sold count is the number of the month's records with `sold`
      true, and the unsold count the number with `sold` false. */
  lemma SoldCounts(db: seq<Transaction>, year: int, month: int)
    ensures GetStatistics(db, year, month).totalSoldItems ==
            |Find(MonthRecords(db, year, month), MatchAll.(sold := Some(true)))|
    ensures GetStatistics(db, year, month).totalNotSoldItems ==
            |Find(MonthRecords(db, year, month), MatchAll.(sold := Some(false)))|
  {
    var window := DateQuery(MonthWindow(year, month));
    FindMerge(db, window, MatchAll.(sold := Some(true)));
    FindMerge(db, window, MatchAll.(sold := Some(false)));
  }

  /** With a boolean `sold` every record of the month is counted exactly once:
      the sold and unsold counts add up to the number of records in the window. */
  lemma SoldPlusUnsold(db: seq<Transaction>, year: int, month: int)
    ensures GetStatistics(db, year, month).totalSoldItems + GetStatistics(db, year, month).totalNotSoldItems
            == |MonthRecords(db, year, month)|
  {
    CountSoldSplit(db, DateQuery(MonthWindow(year, month)));
  }

  /** With non-negative prices the total sale amount is non-negative. */
  lemma TotalNonNegative(db: seq<Transaction>, year: int, month: int)
    requires forall t :: t in db ==> t.price >= 0.0
    ensures GetStatistics(db, year, month).totalSaleAmount >= 0.0
  {
  }

  /** Records outside the month change none of the three figures. */
  lemma {:induction false} OtherMonthsIgnored(db: seq<Transaction>, t: Transaction, year: int, month: int)
    requires !InWindow(t.dateOfSale, MonthWindow(year, month))
    ensures GetStatistics(db + [t], year, month) == GetStatistics(db, year, month)
  {
    var window := DateQuery(MonthWindow(year, month));
    FindAppend(db, [t], window);
    FindAppend(db, [t], window.(sold := Some(true)));
    FindAppend(db, [t], window.(sold := Some(false)));
    assert Find([t], window) == [];
    assert Find([t], window.(sold := Some(true))) == [];
    assert Find([t], window.(sold := Some(false))) == [];
    assert Find(db + [t], window) == Find(db, window);
  }
}
