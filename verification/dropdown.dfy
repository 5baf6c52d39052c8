/**
 * The neighbourhood dropdown callback: when the state changes, offer
 * "All" followed by the state's neighbourhoods in sorted order, and reset
 * the selection to "All".
 */
module NeighbourhoodDropdown {
  import opened Wrappers
  import opened Listings
  import opened Lexical

  /** New options and value of the neighbourhood dropdown. */
  datatype DropdownUpdate = DropdownUpdate(options: seq<string>, value: Option<string>)

  /** The non-missing neighbourhood cells of a table, in row order (`dropna()`). */
  function NeighbourhoodNames(rows: seq<Row>): (names: seq<string>)
    ensures forall n :: n in names <==> exists i :: 0 <= i < |rows| && rows[i].neighbourhood == Some(n)
  {
    if |rows| == 0 then []
    else
      var rest := NeighbourhoodNames(rows[1..]);
      assert forall i :: 0 < i < |rows| ==> rows[i] == rows[1..][i - 1];
      match rows[0].neighbourhood
      case Some(n) => [n] + rest
      case None => rest
  }

  /**
   * The options for a state's table: "All" first, then its distinct
   * neighbourhoods sorted (`sorted(unique())`).
   */
  function OptionsFor(rows: seq<Row>): (options: seq<string>)
    ensures |options| >= 1 && options[0] == "All"
    ensures StrictlySorted(options[1..])
    ensures forall n :: n in options[1..] <==> exists i :: 0 <= i < |rows| && rows[i].neighbourhood == Some(n)
  {
    ["All"] + SortUnique(NeighbourhoodNames(rows))
  }

  /**
   * The callback. No state gives no options and no value; a state outside
   * the table map is a lookup error.
   */
  function UpdateNeighbourhoodDropdown(store: Store, state: Option<string>): (r: Result<DropdownUpdate, StateError>)
    ensures state.None? ==> r == Success(DropdownUpdate([], None))
    ensures state.Some? ==> (r.Success? <==> KnownState(state.value))
    ensures state.Some? && r.Success? ==>
      var rows := StateTable(store, state.value).value;
      && r.value.value == Some("All")
      && |r.value.options| >= 1 && r.value.options[0] == "All"
      && StrictlySorted(r.value.options[1..])
      && (forall n :: n in r.value.options[1..] <==>
            exists i :: 0 <= i < |rows| && rows[i].neighbourhood == Some(n))
  {
    match state
    case None => Success(DropdownUpdate([], None))
    case Some(key) =>
      match StateTable(store, key)
      case Failure(e) => Failure(e)
      case Success(rows) => Success(DropdownUpdate(OptionsFor(rows), Some("All")))
  }

  /**
   * The options offered for a table are the only list with that shape:
   * "All" followed by the strictly sorted neighbourhood names.
   */
  lemma OptionsCanonical(rows: seq<Row>, options: seq<string>)
    requires |options| >= 1 && options[0] == "All"
    requires StrictlySorted(options[1..])
    requires forall n :: n in options[1..] <==> exists i :: 0 <= i < |rows| && rows[i].neighbourhood == Some(n)
    ensures options == OptionsFor(rows)
  {
    var mine := OptionsFor(rows);
    StrictlySortedUnique(options[1..], mine[1..]);
    assert options == [options[0]] + options[1..];
    assert mine == [mine[0]] + mine[1..];
  }
}
