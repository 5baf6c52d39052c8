/**
 * Narrowing a state's table to the rows the dashboard shows: rows with
 * coordinates, then the selected neighbourhood, then the selected room type.
 */
module Selection {
  import opened Wrappers
  import opened Listings
  import opened Seqs

  /**
   * A dropdown value narrows the table only when it is set, non-empty and
   * not "All" (the truthiness test of the callback).
   */
  predicate Narrows(selected: Option<string>) {
    selected.Some? && selected.value != "" && selected.value != "All"
  }

  /** A cell passes a dropdown filter: no narrowing, or exactly the selected value. */
  predicate Admits(selected: Option<string>, cell: Option<string>) {
    !Narrows(selected) || cell == Some(selected.value)
  }

  /** Drops rows without a latitude or a longitude. */
  function DropMissingCoordinates(rows: seq<Row>): (r: seq<Row>)
    ensures forall i :: 0 <= i < |r| ==> Located(r[i])
    ensures forall row :: multiset(r)[row] == if Located(row) then multiset(rows)[row] else 0
    ensures IsSubsequence(r, rows)
  {
    Filter(rows, Located)
  }

  /** Keeps the rows of the selected neighbourhood. */
  function FilterNeighbourhood(rows: seq<Row>, selected: Option<string>): (r: seq<Row>)
    ensures !Narrows(selected) ==> r == rows
    ensures forall i :: 0 <= i < |r| ==> Admits(selected, r[i].neighbourhood)
    ensures forall row :: multiset(r)[row] == if Admits(selected, row.neighbourhood) then multiset(rows)[row] else 0
    ensures IsSubsequence(r, rows)
  {
    if Narrows(selected) then Filter(rows, (row: Row) => row.neighbourhood == Some(selected.value))
    else SubsequenceReflexive(rows); rows
  }

  /** Keeps the rows of the selected room type. */
  function FilterRoomType(rows: seq<Row>, selected: Option<string>): (r: seq<Row>)
    ensures !Narrows(selected) ==> r == rows
    ensures forall i :: 0 <= i < |r| ==> Admits(selected, r[i].roomType)
    ensures forall row :: multiset(r)[row] == if Admits(selected, row.roomType) then multiset(rows)[row] else 0
    ensures IsSubsequence(r, rows)
  {
    if Narrows(selected) then Filter(rows, (row: Row) => row.roomType == Some(selected.value))
    else SubsequenceReflexive(rows); rows
  }

  /** A row survives selection: it has coordinates and passes both dropdowns. */
  predicate Selected(neighbourhood: Option<string>, roomType: Option<string>, row: Row) {
    Located(row) && Admits(neighbourhood, row.neighbourhood) && Admits(roomType, row.roomType)
  }

  /**
   * All three steps. The result is an order-preserving subsequence of the
   * rows with coordinates and keeps exactly the selected rows, each with
   * its multiplicity.
   */
  function Select(rows: seq<Row>, neighbourhood: Option<string>, roomType: Option<string>): (r: seq<Row>)
    ensures IsSubsequence(r, DropMissingCoordinates(rows))
    ensures forall i :: 0 <= i < |r| ==> Selected(neighbourhood, roomType, r[i])
    ensures forall row :: multiset(r)[row] ==
                          if Selected(neighbourhood, roomType, row) then multiset(rows)[row] else 0
  {
    var located := DropMissingCoordinates(rows);
    var inArea := FilterNeighbourhood(located, neighbourhood);
    var r := FilterRoomType(inArea, roomType);
    SubsequenceTransitive(r, inArea, located);
    StepsKeepSelected(rows, neighbourhood, roomType, located, inArea, r);
    r
  }

  lemma StepsKeepSelected(rows: seq<Row>, neighbourhood: Option<string>, roomType: Option<string>,
                          located: seq<Row>, inArea: seq<Row>, r: seq<Row>)
    requires located == DropMissingCoordinates(rows)
    requires inArea == FilterNeighbourhood(located, neighbourhood)
    requires r == FilterRoomType(inArea, roomType)
    ensures forall i :: 0 <= i < |r| ==> Selected(neighbourhood, roomType, r[i])
    ensures forall row :: multiset(r)[row] ==
                          if Selected(neighbourhood, roomType, row) then multiset(rows)[row] else 0
  {
    forall i | 0 <= i < |r|
      ensures Selected(neighbourhood, roomType, r[i])
    {
      assert r[i] in multiset(r);
      assert r[i] in multiset(inArea);
      assert r[i] in multiset(located);
    }
  }

  /** With neither dropdown narrowing, selection keeps every row with coordinates. */
  lemma SelectAllKeepsLocated(rows: seq<Row>, neighbourhood: Option<string>, roomType: Option<string>)
    requires !Narrows(neighbourhood) && !Narrows(roomType)
    ensures Select(rows, neighbourhood, roomType) == DropMissingCoordinates(rows)
  {
  }
}
