/**
 * The numeric clean-up and the two estimated columns: drop rows with a
 * missing price, minimum nights or review count, coerce those columns to
 * numbers (a non-numeric cell becomes missing), drop again, then add
 * estimated nights booked and estimated income.
 */
module Derivation {
  import opened Wrappers
  import opened Listings
  import opened Seqs

  /** A row that survived the clean-up, with its coerced numbers and estimates. */
  datatype Derived = Derived(
    row: Row,
    price: real,
    minimumNights: real,
    numberOfReviews: real,
    nightsBooked: real,
    income: real)

  /** None of the three numeric cells is missing. */
  predicate Present(row: Row) {
    !row.price.Missing? && !row.minimumNights.Missing? && !row.numberOfReviews.Missing?
  }

  /** All three numeric cells hold numbers. */
  predicate Coercible(row: Row) {
    row.price.Num? && row.minimumNights.Num? && row.numberOfReviews.Num?
  }

  /** `to_numeric(errors='coerce')` on one cell. */
  function CoerceCell(c: Raw): (r: Raw)
    ensures r.Num? <==> c.Num?
    ensures r.Num? ==> r == c
    ensures !r.NonNumeric?
  {
    match c
    case NonNumeric => Missing
    case _ => c
  }

  /** Coerces the three numeric cells of a row. */
  function CoerceRow(row: Row): (r: Row)
    ensures Present(r) <==> Coercible(row)
    ensures Coercible(row) ==> r == row
  {
    row.(price := CoerceCell(row.price),
         minimumNights := CoerceCell(row.minimumNights),
         numberOfReviews := CoerceCell(row.numberOfReviews))
  }

  function CoerceAll(rows: seq<Row>): (r: seq<Row>)
    ensures |r| == |rows|
    ensures forall i :: 0 <= i < |rows| ==> r[i] == CoerceRow(rows[i])
  {
    if |rows| == 0 then [] else [CoerceRow(rows[0])] + CoerceAll(rows[1..])
  }

  /** The row's coerced numbers and the two estimates. */
  function DeriveRow(row: Row): (d: Derived)
    requires Coercible(row)
  {
    var nights := row.numberOfReviews.v * row.minimumNights.v;
    Derived(row, row.price.v, row.minimumNights.v, row.numberOfReviews.v, nights, nights * row.price.v)
  }

  /**
   * A derived row carries its own row's numbers, nights booked is reviews
   * times minimum nights, and income is nights booked times price.
   */
  predicate WellDerived(d: Derived) {
    && d.row.price == Num(d.price)
    && d.row.minimumNights == Num(d.minimumNights)
    && d.row.numberOfReviews == Num(d.numberOfReviews)
    && d.nightsBooked == d.numberOfReviews * d.minimumNights
    && d.income == d.nightsBooked * d.price
  }

  function DeriveAll(rows: seq<Row>): (ds: seq<Derived>)
    requires forall i :: 0 <= i < |rows| ==> Coercible(rows[i])
    ensures |ds| == |rows|
    ensures forall i :: 0 <= i < |ds| ==> ds[i].row == rows[i] && WellDerived(ds[i])
  {
    if |rows| == 0 then [] else [DeriveRow(rows[0])] + DeriveAll(rows[1..])
  }

  /** The source rows of derived rows, in order. */
  function RowsOf(ds: seq<Derived>): (rows: seq<Row>)
    ensures |rows| == |ds|
    ensures forall i :: 0 <= i < |ds| ==> rows[i] == ds[i].row
  {
    seq(|ds|, i requires 0 <= i < |ds| => ds[i].row)
  }

  /**
   * Drop the two passes of missing numbers on either side of the coercion:
   * the survivors are exactly the rows whose three cells all hold numbers.
   */
  lemma {:induction false} CleanUpKeepsCoercible(rows: seq<Row>)
    ensures Filter(CoerceAll(Filter(rows, Present)), Present) == Filter(rows, Coercible)
  {
    if |rows| > 0 {
      CleanUpKeepsCoercible(rows[1..]);
      var row := rows[0];
      if Present(row) {
        assert Filter(rows, Present) == [row] + Filter(rows[1..], Present);
        assert CoerceAll(Filter(rows, Present)) == [CoerceRow(row)] + CoerceAll(Filter(rows[1..], Present));
      }
    }
  }

  /**
   * The clean-up and the estimates. Exactly the rows with a missing or
   * non-numeric price, minimum nights or review count are dropped, the
   * survivors keep their order, and every survivor carries the estimates.
   */
  function Derive(rows: seq<Row>): (ds: seq<Derived>)
    ensures RowsOf(ds) == Filter(rows, Coercible)
    ensures forall row :: multiset(RowsOf(ds))[row] == if Coercible(row) then multiset(rows)[row] else 0
    ensures IsSubsequence(RowsOf(ds), rows)
    ensures forall i :: 0 <= i < |ds| ==> WellDerived(ds[i])
  {
    var present := Filter(rows, Present);
    var numeric := Filter(CoerceAll(present), Present);
    CleanUpKeepsCoercible(rows);
    var ds := DeriveAll(numeric);
    assert RowsOf(ds) == numeric;
    ds
  }

  /** A table whose three numeric cells are all numbers loses no row. */
  lemma DeriveKeepsNumericTable(rows: seq<Row>)
    requires forall i :: 0 <= i < |rows| ==> Coercible(rows[i])
    ensures Derive(rows) == DeriveAll(rows)
  {
    FilterKeepsAll(rows, Coercible);
    CleanUpKeepsCoercible(rows);
  }
}
