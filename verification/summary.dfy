/**
 * The summary cards and the map placement: the two averages (shown as
 * "N/A" when nothing is left), the listing count, the zoom level and the
 * map centre.
 */
module Summary {
  import opened Wrappers
  import opened Listings
  import opened Selection
  import opened Derivation

  /** A column mean; the mean of no values is NaN, displayed as "N/A". */
  datatype Average = NotAvailable | Avg(value: real)

  function Sum(xs: seq<real>): real {
    if |xs| == 0 then 0.0 else xs[0] + Sum(xs[1..])
  }

  /** The mean of `xs`, not available when `xs` is empty. */
  function MeanOf(xs: seq<real>): (m: Average)
    ensures m.NotAvailable? <==> |xs| == 0
    ensures m.Avg? ==> m.value * (|xs| as real) == Sum(xs)
  {
    if |xs| == 0 then NotAvailable else Avg(Sum(xs) / (|xs| as real))
  }

  lemma {:induction false} SumBounds(xs: seq<real>, lo: real, hi: real)
    requires forall i :: 0 <= i < |xs| ==> lo <= xs[i] <= hi
    ensures lo * (|xs| as real) <= Sum(xs) <= hi * (|xs| as real)
  {
    if |xs| > 0 {
      SumBounds(xs[1..], lo, hi);
    }
  }

  /** A mean lies between the least and the greatest value. */
  lemma MeanWithinBounds(xs: seq<real>, lo: real, hi: real)
    requires |xs| > 0
    requires forall i :: 0 <= i < |xs| ==> lo <= xs[i] <= hi
    ensures lo <= MeanOf(xs).value <= hi
  {
    SumBounds(xs, lo, hi);
    var n := |xs| as real;
    var m := MeanOf(xs).value;
    assert (m - lo) * n >= 0.0;
    assert (hi - m) * n >= 0.0;
  }

  function Incomes(ds: seq<Derived>): (xs: seq<real>)
    ensures |xs| == |ds| && forall i :: 0 <= i < |ds| ==> xs[i] == ds[i].income
  {
    seq(|ds|, i requires 0 <= i < |ds| => ds[i].income)
  }

  function NightsBooked(ds: seq<Derived>): (xs: seq<real>)
    ensures |xs| == |ds| && forall i :: 0 <= i < |ds| ==> xs[i] == ds[i].nightsBooked
  {
    seq(|ds|, i requires 0 <= i < |ds| => ds[i].nightsBooked)
  }

  /** The three summary cards. */
  datatype Cards = Cards(averageIncome: Average, averageNights: Average, totalListings: nat)

  /**
   * Average income and average nights booked over the derived rows, and
   * their number. The averages are "N/A" exactly when no row is left; the
   * count is always shown.
   */
  function SummaryCards(ds: seq<Derived>): (c: Cards)
    ensures c.totalListings == |ds|
    ensures c.averageIncome.NotAvailable? <==> |ds| == 0
    ensures c.averageNights.NotAvailable? <==> |ds| == 0
    ensures c.averageIncome.Avg? ==> c.averageIncome.value * (|ds| as real) == Sum(Incomes(ds))
    ensures c.averageNights.Avg? ==> c.averageNights.value * (|ds| as real) == Sum(NightsBooked(ds))
  {
    Cards(MeanOf(Incomes(ds)), MeanOf(NightsBooked(ds)), |ds|)
  }

  /** Fine zoom for one neighbourhood, coarse zoom for the whole state. */
  function Zoom(neighbourhood: Option<string>): (z: nat)
    ensures z == 12 || z == 9
    ensures z == 12 <==> Narrows(neighbourhood)
  {
    if Narrows(neighbourhood) then 12 else 9
  }

  /** The coarse zoom is used exactly when the neighbourhood filter keeps every row. */
  lemma ZoomMatchesFilter(rows: seq<Row>, neighbourhood: Option<string>)
    ensures Zoom(neighbourhood) == 9 ==> FilterNeighbourhood(rows, neighbourhood) == rows
    ensures Zoom(neighbourhood) == 12 ==>
      forall i :: 0 <= i < |FilterNeighbourhood(rows, neighbourhood)| ==>
        FilterNeighbourhood(rows, neighbourhood)[i].neighbourhood == neighbourhood
  {
  }

  /** The latitudes present in `rows` (a column mean skips missing cells). */
  function Latitudes(rows: seq<Row>): (xs: seq<real>)
    ensures |xs| <= |rows|
    ensures (forall i :: 0 <= i < |rows| ==> Located(rows[i])) ==>
      |xs| == |rows| && forall i :: 0 <= i < |rows| ==> rows[i].latitude == Some(xs[i])
  {
    if |rows| == 0 then []
    else
      match rows[0].latitude
      case Some(lat) => [lat] + Latitudes(rows[1..])
      case None => Latitudes(rows[1..])
  }

  /** The longitudes present in `rows`. */
  function Longitudes(rows: seq<Row>): (xs: seq<real>)
    ensures |xs| <= |rows|
    ensures (forall i :: 0 <= i < |rows| ==> Located(rows[i])) ==>
      |xs| == |rows| && forall i :: 0 <= i < |rows| ==> rows[i].longitude == Some(xs[i])
  {
    if |rows| == 0 then []
    else
      match rows[0].longitude
      case Some(lon) => [lon] + Longitudes(rows[1..])
      case None => Longitudes(rows[1..])
  }

  /** The map centre; a component is NaN (not available) when averaged over nothing. */
  datatype MapCentre = MapCentre(lat: Average, lon: Average)

  /**
   * The mean position of the shown rows, or of the state's rows with
   * coordinates when nothing is shown.
   */
  function Centre(shown: seq<Row>, located: seq<Row>): (c: MapCentre)
    ensures |shown| > 0 ==> c.lat == MeanOf(Latitudes(shown)) && c.lon == MeanOf(Longitudes(shown))
    ensures |shown| == 0 ==> c.lat == MeanOf(Latitudes(located)) && c.lon == MeanOf(Longitudes(located))
    ensures (forall i :: 0 <= i < |shown| ==> Located(shown[i])) &&
            (forall i :: 0 <= i < |located| ==> Located(located[i])) ==>
      (c.lat.Avg? <==> |shown| > 0 || |located| > 0) &&
      (c.lon.Avg? <==> |shown| > 0 || |located| > 0)
  {
    var source := if |shown| > 0 then shown else located;
    MapCentre(MeanOf(Latitudes(source)), MeanOf(Longitudes(source)))
  }

  /** With rows shown, the centre lies inside any box holding all of them. */
  lemma CentreWithinShownRows(shown: seq<Row>, located: seq<Row>, south: real, north: real, west: real, east: real)
    requires |shown| > 0
    requires forall i :: 0 <= i < |shown| ==>
      Located(shown[i]) &&
      south <= shown[i].latitude.value <= north && west <= shown[i].longitude.value <= east
    ensures south <= Centre(shown, located).lat.value <= north
    ensures west <= Centre(shown, located).lon.value <= east
  {
    var lats, lons := Latitudes(shown), Longitudes(shown);
    assert forall i :: 0 <= i < |lats| ==> lats[i] == shown[i].latitude.value;
    assert forall i :: 0 <= i < |lons| ==> lons[i] == shown[i].longitude.value;
    MeanWithinBounds(lats, south, north);
    MeanWithinBounds(lons, west, east);
  }
}
