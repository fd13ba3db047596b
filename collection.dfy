/** The option and reply shapes shared by the endpoints. */
module Wrappers {

  datatype Option<T> = None | Some(value: T) {
    function GetOr(default: T): T {
      match this
      case Some(v) => v
      case None => default
    }
  }

  /** What an endpoint sends back: the JSON body with status 200, or the
      status-500 `{ error: 'Internal server error' }` of its catch block. */
  datatype Reply<T> = Ok(body: T) | InternalServerError
}

/** The `Transaction` collection and the part of the document database's
    query language that the server uses: equality and range conditions that
    a record must all meet (`find`, `countDocuments`, `$match`). */
module Collection {
  import opened Wrappers
  import opened Calendar

  /** One document of the collection, with the fields of the schema and the
      database-assigned `_id`. */
  datatype Transaction = Transaction(
    id: string,
    productId: string,
    title: string,
    description: string,
    price: real,
    dateOfSale: Instant,
    category: string,
    sold: bool)

  /** The `{ $gte: lo, $lt: hi }` or `{ $gte: lo }` condition on `price`. */
  datatype PriceBounds = PriceBounds(gte: real, lt: Option<real>)

  predicate InBounds(p: real, b: PriceBounds) {
    b.gte <= p && (b.lt.Some? ==> p < b.lt.value)
  }

  /** A query document: each present field is one condition, and a record
      matches when it meets all of them. */
  datatype Query = Query(
    dateOfSale: Option<Window>,
    id: Option<string>,
    sold: Option<bool>,
    price: Option<PriceBounds>)

  const MatchAll: Query := Query(None, None, None, None)

  predicate Matches(q: Query, t: Transaction) {
    && (q.dateOfSale.Some? ==> InWindow(t.dateOfSale, q.dateOfSale.value))
    && (q.id.Some? ==> t.id == q.id.value)
    && (q.sold.Some? ==> t.sold == q.sold.value)
    && (q.price.Some? ==> InBounds(t.price, q.price.value))
  }

  /** `{ ...a, ...b }`: the fields of `b` override those of `a`. */
  function Merge(a: Query, b: Query): (r: Query)
    ensures b.dateOfSale.None? && b.sold.None? && b.price.None? && b.id.Some? ==>
              r == a.(id := b.id)
    ensures forall t :: Matches(r, t) ==> Matches(b, t)
  {
    Query(
      if b.dateOfSale.Some? then b.dateOfSale else a.dateOfSale,
      if b.id.Some? then b.id else a.id,
      if b.sold.Some? then b.sold else a.sold,
      if b.price.Some? then b.price else a.price)
  }

  /** No condition is given by both queries. */
  predicate Disjoint(a: Query, b: Query) {
    && (a.dateOfSale.None? || b.dateOfSale.None?)
    && (a.id.None? || b.id.None?)
    && (a.sold.None? || b.sold.None?)
    && (a.price.None? || b.price.None?)
  }

  /** Merging two queries with no field in common asks for both. */
  lemma MergeIsConjunction(a: Query, b: Query, t: Transaction)
    requires Disjoint(a, b)
    ensures Matches(Merge(a, b), t) <==> Matches(a, t) && Matches(b, t)
  {
  }

  /** `{ dateOfSale: { $gte: w.start, $lt: w.end } }`. */
  function DateQuery(w: Window): Query {
    MatchAll.(dateOfSale := Some(w))
  }

  /** `find(q)`: the matching records, in collection order. */
  function Find(xs: seq<Transaction>, q: Query): (r: seq<Transaction>)
    ensures |r| <= |xs|
    ensures forall t :: t in r <==> t in xs && Matches(q, t)
  {
    if xs == [] then []
    else (if Matches(q, xs[0]) then [xs[0]] else []) + Find(xs[1..], q)
  }

  /** `countDocuments(q)`. */
  function CountDocuments(xs: seq<Transaction>, q: Query): (r: nat)
    ensures r <= |xs|
    ensures r == 0 <==> forall t :: t in xs ==> !Matches(q, t)
  {
    var found := Find(xs, q);
    assert found != [] ==> found[0] in found;
    |found|
  }

  /** Filtering the result of a filter again keeps what meets both queries:
      a merged query and two successive `find`s select the same records in
      the same order. */
  lemma {:induction false} FindMerge(xs: seq<Transaction>, a: Query, b: Query)
    requires Disjoint(a, b)
    ensures Find(xs, Merge(a, b)) == Find(Find(xs, a), b)
  {
    if xs != [] {
      FindMerge(xs[1..], a, b);
      MergeIsConjunction(a, b, xs[0]);
      FindAppend(if Matches(a, xs[0]) then [xs[0]] else [], Find(xs[1..], a), b);
      assert Find(if Matches(a, xs[0]) then [xs[0]] else [], b) ==
             (if Matches(Merge(a, b), xs[0]) then [xs[0]] else []) by {
        if Matches(a, xs[0]) { assert [xs[0]][1..] == []; }
      }
    }
  }

  /** `find` distributes over concatenation. */
  lemma {:induction false} FindAppend(xs: seq<Transaction>, ys: seq<Transaction>, q: Query)
    ensures Find(xs + ys, q) == Find(xs, q) + Find(ys, q)
  {
    if xs == [] {
      assert xs + ys == ys;
    } else {
      assert (xs + ys)[1..] == xs[1..] + ys;
      FindAppend(xs[1..], ys, q);
    }
  }

  /** A query that matches everything leaves the collection as it is. */
  lemma {:induction false} FindAll(xs: seq<Transaction>, q: Query)
    requires forall t :: t in xs ==> Matches(q, t)
    ensures Find(xs, q) == xs
  {
    if xs != [] {
      FindAll(xs[1..], q);
    }
  }

  /** A query that matches nothing finds nothing. */
  lemma {:induction false} FindNone(xs: seq<Transaction>, q: Query)
    requires forall t :: t in xs ==> !Matches(q, t)
    ensures Find(xs, q) == []
  {
    if xs != [] {
      FindNone(xs[1..], q);
    }
  }

  /** The records with `sold: true` and those with `sold: false` together are
      all the matching records. */
  lemma {:induction false} CountSoldSplit(xs: seq<Transaction>, q: Query)
    requires q.sold.None?
    ensures CountDocuments(xs, q.(sold := Some(true))) + CountDocuments(xs, q.(sold := Some(false)))
            == CountDocuments(xs, q)
  {
    if xs != [] {
      CountSoldSplit(xs[1..], q);
    }
  }

  /** The `$sum` of the prices of a sequence of records. With non-negative
      prices the sum is non-negative and no smaller than any one price. */
  function SumPrices(xs: seq<Transaction>): (r: real)
    ensures (forall t :: t in xs ==> t.price >= 0.0) ==> r >= 0.0
    ensures (forall t :: t in xs ==> t.price >= 0.0) ==> forall t :: t in xs ==> t.price <= r
  {
    if xs == [] then 0.0 else xs[0].price + SumPrices(xs[1..])
  }

  /** `$sum` over two runs of records is the sum of the two sums. */
  lemma {:induction false} SumPricesAppend(xs: seq<Transaction>, ys: seq<Transaction>)
    ensures SumPrices(xs + ys) == SumPrices(xs) + SumPrices(ys)
  {
    if xs == [] {
      assert xs + ys == ys;
    } else {
      assert (xs + ys)[1..] == xs[1..] + ys;
      SumPricesAppend(xs[1..], ys);
    }
  }

  /** Every `_id` occurs at most once in the collection. */
  predicate UniqueIds(xs: seq<Transaction>) {
    forall i, j :: 0 <= i < j < |xs| ==> xs[i].id != xs[j].id
  }

  /** An exact `_id` condition selects at most one record of a collection
      whose ids are unique, whatever else the query asks. */
  lemma {:induction false} FindByIdAtMostOne(xs: seq<Transaction>, q: Query)
    requires UniqueIds(xs) && q.id.Some?
    ensures |Find(xs, q)| <= 1
  {
    if xs != [] {
      assert UniqueIds(xs[1..]) by {
        forall i, j | 0 <= i < j < |xs[1..]| ensures xs[1..][i].id != xs[1..][j].id {
          assert xs[1..][i] == xs[i + 1] && xs[1..][j] == xs[j + 1];
        }
      }
      FindByIdAtMostOne(xs[1..], q);
      if Matches(q, xs[0]) {
        forall t | t in xs[1..] ensures t.id != xs[0].id {
          var k :| 0 <= k < |xs[1..]| && xs[1..][k] == t;
          assert xs[k + 1] == t;
        }
        FindNone(xs[1..], q);
      }
    }
  }
}
