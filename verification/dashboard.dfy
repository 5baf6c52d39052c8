/**
 * The graph callback as one pure function: from the state tables and the
 * three dropdown values to everything the page shows, all computed from
 * the same set of derived rows.
 */
module Dashboard {
  import opened Wrappers
  import opened Listings
  import opened Seqs
  import opened ValueCounts
  import opened Binning
  import opened Selection
  import opened Derivation
  import opened Summary
  import opened Charts

  /** Everything the graph callback returns, before it is drawn. */
  datatype Bundle = Bundle(
    points: seq<Derived>,
    zoom: nat,
    centre: MapCentre,
    cards: Cards,
    roomTypes: seq<(string, nat)>,
    minimumNights: seq<(real, nat)>,
    hostsByListings: seq<(string, nat)>,
    occupancy: seq<(string, nat)>)

  /** The bundle for one state's table and the two narrowing dropdowns. */
  function BuildBundle(rows: seq<Row>, neighbourhood: Option<string>, roomType: Option<string>): (b: Bundle)
    ensures b.points == Derive(Select(rows, neighbourhood, roomType))
    ensures b.cards == SummaryCards(b.points)
    ensures b.centre == Centre(RowsOf(b.points), DropMissingCoordinates(rows))
    ensures b.zoom == Zoom(neighbourhood)
    ensures b.roomTypes == RoomTypeCounts(b.points)
    ensures b.minimumNights == MinimumNightsTop(b.points)
    ensures b.hostsByListings == HostHistogram(b.points)
    ensures b.occupancy == OccupancyHistogram(b.points)
  {
    var located := DropMissingCoordinates(rows);
    var shown := Select(rows, neighbourhood, roomType);
    var ds := Derive(shown);
    Bundle(
      ds,
      Zoom(neighbourhood),
      Centre(RowsOf(ds), located),
      SummaryCards(ds),
      RoomTypeCounts(ds),
      MinimumNightsTop(ds),
      HostHistogram(ds),
      OccupancyHistogram(ds))
  }

  /**
   * The graph callback. The state must be one of the loaded ones (a
   * missing or unknown state is a lookup error); the other two dropdowns
   * narrow only when set to something other than "" or "All".
   */
  function UpdateGraph(store: Store, state: Option<string>, neighbourhood: Option<string>, roomType: Option<string>)
    : (r: Result<Bundle, StateError>)
    ensures r.Success? <==> state.Some? && KnownState(state.value)
    ensures r.Success? ==> r.value == BuildBundle(StateTable(store, state.value).value, neighbourhood, roomType)
  {
    match state
    case None => Failure(UnknownState)
    case Some(key) =>
      match StateTable(store, key)
      case Failure(e) => Failure(e)
      case Success(rows) => Success(BuildBundle(rows, neighbourhood, roomType))
  }

  /** The map points keep the table order of the rows with coordinates. */
  lemma PointsKeepTableOrder(rows: seq<Row>, neighbourhood: Option<string>, roomType: Option<string>)
    ensures IsSubsequence(RowsOf(Derive(Select(rows, neighbourhood, roomType))), DropMissingCoordinates(rows))
  {
    var shown := Select(rows, neighbourhood, roomType);
    SubsequenceTransitive(RowsOf(Derive(shown)), shown, DropMissingCoordinates(rows));
  }

  /**
   * The map points are exactly the selected rows whose price, minimum
   * nights and review count are numbers, each with its multiplicity.
   */
  lemma PointsAreSelectedNumericRows(rows: seq<Row>, neighbourhood: Option<string>, roomType: Option<string>)
    ensures var points := RowsOf(Derive(Select(rows, neighbourhood, roomType)));
      forall row :: multiset(points)[row] ==
        if Selected(neighbourhood, roomType, row) && Coercible(row) then multiset(rows)[row] else 0
  {
  }

  /** Every map point is selected and carries its estimates. */
  lemma PointsSelectedAndDerived(rows: seq<Row>, neighbourhood: Option<string>, roomType: Option<string>)
    ensures var points := Derive(Select(rows, neighbourhood, roomType));
      forall i :: 0 <= i < |points| ==> Selected(neighbourhood, roomType, points[i].row) && WellDerived(points[i])
  {
    var shown := Select(rows, neighbourhood, roomType);
    var points := Derive(shown);
    assert forall i :: 0 <= i < |points| ==> RowsOf(points)[i] in multiset(shown);
  }

  /**
   * Cross-table consistency: the cards, the room-type table, the
   * minimum-nights table and both histograms describe the same derived
   * rows, entry by entry.
   */
  lemma BundleConsistent(rows: seq<Row>, neighbourhood: Option<string>, roomType: Option<string>)
    ensures var b := BuildBundle(rows, neighbourhood, roomType);
      && b.cards.totalListings == |b.points|
      && (b.cards.averageIncome.NotAvailable? <==> |b.points| == 0)
      && (b.cards.averageNights.NotAvailable? <==> |b.points| == 0)
      && RoomTypesDescribe(b.roomTypes, b.points)
      && MinimumNightsDescribe(b.minimumNights, b.points)
      && HostsDescribe(b.hostsByListings, b.points)
      && OccupancyDescribes(b.occupancy, b.points)
      && (b.zoom == 12 <==> Narrows(neighbourhood))
  {
    var b := BuildBundle(rows, neighbourhood, roomType);
    RoomTypesFacts(b.points);
    MinimumNightsFacts(b.points);
    HostsFacts(b.points);
    OccupancyFacts(b.points);
  }

  /**
   * The room-type table lists each room type of the points with its number
   * of points; it adds up to the listing count when every point is typed,
   * and never exceeds it.
   */
  ghost predicate RoomTypesDescribe(t: seq<(string, nat)>, ds: seq<Derived>) {
    && (forall i :: 0 <= i < |t| ==>
          t[i].1 == RoomTypeOccurrences(ds, t[i].0) && t[i].1 >= 1)
    && (forall k :: k in KeysOf(t) <==> exists i :: 0 <= i < |ds| && ds[i].row.roomType == Some(k))
    && CountsTotal(t) <= |ds|
    && ((forall i :: 0 <= i < |ds| ==> ds[i].row.roomType.Some?) ==> CountsTotal(t) == |ds|)
  }

  lemma RoomTypesFacts(ds: seq<Derived>)
    ensures RoomTypesDescribe(RoomTypeCounts(ds), ds)
  {
    var t := RoomTypeCounts(ds);
    assert CountsTotal(t) == |RoomTypesOf(ds)|;
  }

  /**
   * The minimum-nights table holds at most ten entries, each a minimum-nights
   * value of some point with its number of points, most common first.
   */
  ghost predicate MinimumNightsDescribe(t: seq<(real, nat)>, ds: seq<Derived>) {
    && |t| <= TopMinimumNights
    && (forall i :: 0 <= i < |t| ==>
          (exists j :: 0 <= j < |ds| && ds[j].minimumNights == t[i].0)
          && t[i].1 == multiset(MinimumNightsOf(ds))[t[i].0])
    && SortedByCount(t, false)
  }

  lemma MinimumNightsFacts(ds: seq<Derived>)
    ensures MinimumNightsDescribe(MinimumNightsTop(ds), ds)
  {
    var t := MinimumNightsTop(ds);
    var xs := MinimumNightsOf(ds);
    forall i | 0 <= i < |t|
      ensures exists j :: 0 <= j < |ds| && ds[j].minimumNights == t[i].0
    {
      var j :| 0 <= j < |xs| && xs[j] == t[i].0;
      assert ds[j].minimumNights == t[i].0;
    }
  }

  /**
   * The host histogram has the ten bins in order, each counting the hosts
   * of the points with that many listings, and adds up to the number of
   * distinct hosts.
   */
  ghost predicate HostsDescribe(h: seq<(string, nat)>, ds: seq<Derived>) {
    && |h| == 10
    && (forall i :: 0 <= i < 10 ==>
          h[i].0 == HostBinLabels[i] && h[i].1 == HostsInBin(ListingsPerHost(ds), i))
    && CountsFrom(h, 0) == |Hosts(ds)|
  }

  lemma HostsFacts(ds: seq<Derived>)
    ensures HostsDescribe(HostHistogram(ds), ds)
  {
  }

  /**
   * The occupancy histogram has the six bins in order, each counting the
   * points whose nights-booked estimate falls in it, and adds up to the
   * points with a non-negative estimate, at most the listing count.
   */
  ghost predicate OccupancyDescribes(h: seq<(string, nat)>, ds: seq<Derived>) {
    && |h| == 6
    && (forall i :: 0 <= i < 6 ==>
          h[i].0 == OccupancyBinLabels[i] && h[i].1 == CountInBin(OccupancyBinEdges, NightsBooked(ds), i))
    && CountsFrom(h, 0) == NonNegativeNights(ds)
    && CountsFrom(h, 0) <= |ds|
  }

  lemma OccupancyFacts(ds: seq<Derived>)
    ensures OccupancyDescribes(OccupancyHistogram(ds), ds)
  {
  }

  /**
   * The map centre is defined unless the state has no row with
   * coordinates; it is the mean position of the points when there are
   * any.
   */
  lemma CentreDefinedness(rows: seq<Row>, neighbourhood: Option<string>, roomType: Option<string>)
    ensures var points := RowsOf(Derive(Select(rows, neighbourhood, roomType)));
      var c := Centre(points, DropMissingCoordinates(rows));
      && (c.lat.Avg? <==> |DropMissingCoordinates(rows)| > 0)
      && (c.lon.Avg? <==> |DropMissingCoordinates(rows)| > 0)
  {
    PointsLocated(rows, neighbourhood, roomType);
    PointsNeedLocatedRows(rows, neighbourhood, roomType);
  }

  /** Every map point has coordinates. */
  lemma PointsLocated(rows: seq<Row>, neighbourhood: Option<string>, roomType: Option<string>)
    ensures var points := RowsOf(Derive(Select(rows, neighbourhood, roomType)));
      forall i :: 0 <= i < |points| ==> Located(points[i])
  {
    PointsSelectedAndDerived(rows, neighbourhood, roomType);
  }

  /** A map point is one of the state's rows with coordinates. */
  lemma PointsNeedLocatedRows(rows: seq<Row>, neighbourhood: Option<string>, roomType: Option<string>)
    ensures |RowsOf(Derive(Select(rows, neighbourhood, roomType)))| > 0 ==> |DropMissingCoordinates(rows)| > 0
  {
    var points := RowsOf(Derive(Select(rows, neighbourhood, roomType)));
    if |points| > 0 {
      PointsLocated(rows, neighbourhood, roomType);
      PointsAreSelectedNumericRows(rows, neighbourhood, roomType);
      assert multiset(points)[points[0]] > 0;
      assert points[0] in multiset(DropMissingCoordinates(rows));
    }
  }

  lemma SumOfThree(a: real, b: real, c: real)
    ensures Sum([a, b, c]) == a + b + c
  {
    assert [a, b, c][1..] == [b, c];
    assert [b, c][1..] == [c];
    assert [c][1..] == [];
    assert Sum([c]) == c;
    assert Sum([b, c]) == b + c;
  }

  lemma EachOfThree(r1: Row, r2: Row, r3: Row, p: Row -> bool)
    requires p(r1) && p(r2) && p(r3)
    ensures forall i :: 0 <= i < |[r1, r2, r3]| ==> p([r1, r2, r3][i])
  {
  }

  lemma DeriveAllThree(r1: Row, r2: Row, r3: Row)
    requires Coercible(r1) && Coercible(r2) && Coercible(r3)
    ensures DeriveAll([r1, r2, r3]) == [DeriveRow(r1), DeriveRow(r2), DeriveRow(r3)]
  {
    assert [r1, r2, r3][1..] == [r2, r3];
    assert [r2, r3][1..] == [r3];
    assert [r3][1..] == [];
    assert DeriveAll([r3]) == [DeriveRow(r3)];
    assert DeriveAll([r2, r3]) == [DeriveRow(r2), DeriveRow(r3)];
  }

  /** With neither dropdown narrowing, three located rows with numeric cells are all derived. */
  lemma DeriveThree(r1: Row, r2: Row, r3: Row)
    requires Located(r1) && Located(r2) && Located(r3)
    requires Coercible(r1) && Coercible(r2) && Coercible(r3)
    ensures Derive(Select([r1, r2, r3], Some("All"), Some("All"))) == [DeriveRow(r1), DeriveRow(r2), DeriveRow(r3)]
  {
    EachOfThree(r1, r2, r3, Located);
    FilterKeepsAll([r1, r2, r3], Located);
    SelectAllKeepsLocated([r1, r2, r3], Some("All"), Some("All"));
    EachOfThree(r1, r2, r3, Coercible);
    DeriveKeepsNumericTable([r1, r2, r3]);
    DeriveAllThree(r1, r2, r3);
  }

  lemma EstimatesOfThree(r1: Row, r2: Row, r3: Row)
    requires r1.price == Num(100.0) && r1.minimumNights == Num(2.0) && r1.numberOfReviews == Num(5.0)
    requires r2.price == Num(200.0) && r2.minimumNights == Num(3.0) && r2.numberOfReviews == Num(0.0)
    requires r3.price == Num(300.0) && r3.minimumNights == Num(4.0) && r3.numberOfReviews == Num(10.0)
    ensures Incomes([DeriveRow(r1), DeriveRow(r2), DeriveRow(r3)]) == [1000.0, 0.0, 12000.0]
    ensures NightsBooked([DeriveRow(r1), DeriveRow(r2), DeriveRow(r3)]) == [10.0, 0.0, 40.0]
  {
  }

  lemma CardsOfThree(ds: seq<Derived>)
    requires Incomes(ds) == [1000.0, 0.0, 12000.0]
    requires NightsBooked(ds) == [10.0, 0.0, 40.0]
    ensures SummaryCards(ds) == Cards(Avg(13000.0 / 3.0), Avg(50.0 / 3.0), 3)
  {
    SumOfThree(1000.0, 0.0, 12000.0);
    SumOfThree(10.0, 0.0, 40.0);
  }

  /**
   * The three-row example: a listing without reviews is still a listing,
   * with no nights and no income, so it lowers both averages.
   */
  lemma ThreeListingExample(r1: Row, r2: Row, r3: Row)
    requires Located(r1) && Located(r2) && Located(r3)
    requires r1.price == Num(100.0) && r1.minimumNights == Num(2.0) && r1.numberOfReviews == Num(5.0)
    requires r2.price == Num(200.0) && r2.minimumNights == Num(3.0) && r2.numberOfReviews == Num(0.0)
    requires r3.price == Num(300.0) && r3.minimumNights == Num(4.0) && r3.numberOfReviews == Num(10.0)
    ensures SummaryCards(Derive(Select([r1, r2, r3], Some("All"), Some("All"))))
         == Cards(Avg(13000.0 / 3.0), Avg(50.0 / 3.0), 3)
  {
    DeriveThree(r1, r2, r3);
    EstimatesOfThree(r1, r2, r3);
    CardsOfThree([DeriveRow(r1), DeriveRow(r2), DeriveRow(r3)]);
  }
}
