/**
 * The listing records and the per-state tables they live in. A table is
 * loaded once per state and only ever read afterwards.
 */
module Listings {
  import opened Wrappers

  /**
   * A raw numeric cell as the CSV loader hands it over: absent, present
   * but not a number, or a number. Coercing a cell to a number turns the
   * first two into a missing value.
   */
  datatype Raw = Missing | NonNumeric | Num(v: real)

  /** One listing row: the columns the dashboard reads. */
  datatype Row = Row(
    name: string,
    hostId: Option<int>,
    neighbourhood: Option<string>,
    roomType: Option<string>,
    latitude: Option<real>,
    longitude: Option<real>,
    price: Raw,
    minimumNights: Raw,
    numberOfReviews: Raw)

  /** The three state tables, loaded once at start-up. */
  datatype Store = Store(sydney: seq<Row>, melbourne: seq<Row>, brisbane: seq<Row>)

  /** Looking up a state key that is not one of the three loaded ones. */
  datatype StateError = UnknownState

  /** The keys of the state table map. */
  predicate KnownState(key: string) {
    key == "Sydney" || key == "Melbourne" || key == "Brisbane"
  }

  /** The table behind a state key; any other key is a lookup error. */
  function StateTable(store: Store, key: string): (r: Result<seq<Row>, StateError>)
    ensures r.Success? <==> KnownState(key)
    ensures key == "Sydney" ==> r == Success(store.sydney)
    ensures key == "Melbourne" ==> r == Success(store.melbourne)
    ensures key == "Brisbane" ==> r == Success(store.brisbane)
  {
    if key == "Sydney" then Success(store.sydney)
    else if key == "Melbourne" then Success(store.melbourne)
    else if key == "Brisbane" then Success(store.brisbane)
    else Failure(UnknownState)
  }

  /** A row that can be placed on the map. */
  predicate Located(row: Row) {
    row.latitude.Some? && row.longitude.Some?
  }
}
