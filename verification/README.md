# Inside Airbnb dashboard: a Dafny model of the callbacks

The dashboard loads one table of short-term rental listings for each of
three states: Sydney, Melbourne and Brisbane. It offers three dropdowns:
state, neighbourhood and room type. Two callbacks react to them:

- The neighbourhood dropdown callback. When the state changes, it offers
  "All" followed by the state's neighbourhoods in sorted order, and resets
  the selection to "All".
- The graph callback. It narrows the state's table to the selected rows,
  cleans up the three numeric columns and derives two estimates:
  - nights booked, which is reviews × minimum nights;
  - income, which is nights booked × price.

  From those rows it computes everything the page shows:
  - the three summary cards (average income, average nights booked, number of listings);
  - the zoom level and the centre of the map;
  - the room-type counts;
  - the ten most common minimum-night settings;
  - the histogram of hosts by number of listings;
  - the histogram of listings by estimated occupancy.

The model is pure Dafny. Each table is a `seq<Row>`. A missing cell is an
`Option` or a `Raw` value, where `Raw` distinguishes a missing cell from a
non-numeric one. Each callback is a function whose result is a `Result`:
looking up a state key that is not loaded is an error and is modelled as
one. Modules follow the steps of the callbacks:

- `Listings`: rows, the per-state store, the state lookup.
- `Seqs`: order-preserving filtering, subsequences, distinct elements.
- `Lexical`: Python's string ordering and `sorted(set(...))`.
- `ValueCounts`: `value_counts`, its sorting by count, and `head`.
- `Binning`: `pd.cut` with `right=False` on explicit edges, then a zero-filled count per label.
- `NeighbourhoodDropdown`: the first callback.
- `Selection`, `Derivation`, `Summary`, `Charts`: the steps of the graph callback.
- `Dashboard`: the graph callback as a whole, and properties that span its outputs.

Some decisions follow the code:

- A dropdown value narrows the table only when it passes the callback's
  truthiness test and is not "All". So `None`, `""` and `"All"` all mean
  "no narrowing".
- A mean over no values is NaN in pandas and "N/A" on the page. The model writes it as `Average.NotAvailable`.
- The map centre is the mean position of the shown rows. When no row is
  shown, it falls back to the mean position of the state's rows that have
  coordinates. Either component is `NotAvailable` when it is averaged over
  nothing.
- The occupancy counts are reindexed without a `fillna`. The binned
  column is categorical, though, so `value_counts` already lists every
  label, with zero for an empty bin. Both histograms are therefore
  zero-filled.
- A value that falls below the first edge is left unbinned. `pd.cut`
  makes that value NaN, and `value_counts` drops it. So the host histogram
  sums to the number of distinct hosts. The occupancy histogram sums to
  the number of rows with a non-negative estimate.

## Model

| member | source | states |
|---|---|---|
| Listings.StateTable | app.py:23-27 | Exactly the three loaded state keys resolve to their tables. Any other key is a lookup error. |
| NeighbourhoodDropdown.UpdateNeighbourhoodDropdown | app.py:253-261 | With no state, the result is no options and no value. An unknown state is an error. Otherwise the value is "All" and the options are "All" followed by a strictly sorted list that holds exactly the non-missing neighbourhoods of the state's table. |
| NeighbourhoodDropdown.OptionsFor | app.py:258-259 | "All" comes first. The rest is strictly sorted and holds exactly the neighbourhoods that appear in the table. |
| NeighbourhoodDropdown.OptionsCanonical | app.py:258-259 | Any list with "All" first followed by the table's neighbourhoods in strictly sorted order is the list offered. So the options have no duplicates and no other order. |
| Lexical.SortUnique | app.py:258-259 | `sorted(unique())`: the result is strictly increasing in Python's string order and has the same members as the input. |
| Lexical.StrictlySortedUnique | app.py:259 | Two strictly sorted lists with the same members are equal. |
| Lexical.BelowTotal | app.py:259 | Python's string order is total: of two distinct strings, one sorts before the other. |
| Lexical.BelowTransitive | app.py:259 | Python's string order is transitive. |
| Selection.DropMissingCoordinates | app.py:286 | Keeps exactly the rows that have both coordinates, each with its multiplicity, in table order. |
| Selection.FilterNeighbourhood | app.py:293-296 | A narrowing value keeps exactly the rows whose neighbourhood equals it, in order. None, "" or "All" keeps the table unchanged. |
| Selection.FilterRoomType | app.py:300-301 | A narrowing value keeps exactly the rows whose room type equals it, in order. Otherwise the table is unchanged. |
| Selection.Select | app.py:285-301 | The selected rows form a subsequence of the rows with coordinates. Every selected row passes both dropdowns, and every such row of the table is kept with its multiplicity. |
| Derivation.CoerceRow | app.py:307-309 | After coercion, a row has no missing numeric cell exactly when its three cells held numbers. Such a row is unchanged. |
| Derivation.CleanUpKeepsCoercible | app.py:305-310 | Dropping missing cells, coercing, then dropping again keeps exactly the rows whose three cells are numbers. |
| Derivation.Derive | app.py:305-315 | Exactly the rows with a missing or non-numeric price, minimum nights or review count are dropped, and order is kept. Each survivor has nights booked = reviews × minimum nights and income = nights booked × price. |
| Derivation.DeriveKeepsNumericTable | app.py:305-315 | A table whose numeric cells are all numbers loses no row in the clean-up. |
| Summary.MeanOf | app.py:319-320 | A mean is unavailable exactly when there are no values. Otherwise it times the count equals the sum. |
| Summary.MeanWithinBounds | app.py:319-320 | A mean lies between any lower and upper bound of the values. |
| Summary.SummaryCards | app.py:319-321 | The listing count is the number of derived rows. Both averages are unavailable exactly when no row is left. Otherwise each average times the count equals the sum of its column. |
| Summary.Zoom | app.py:330 | The zoom is 12 exactly when the neighbourhood dropdown narrows, and 9 otherwise. |
| Summary.ZoomMatchesFilter | app.py:293-330 | With zoom 9 the neighbourhood filter keeps every row. With zoom 12 every kept row is in the selected neighbourhood. |
| Summary.Centre | app.py:333-342 | With rows shown, the centre is the mean of their coordinates. Otherwise it is the mean over the state's located rows. Over located rows, each component is defined exactly when one of the two tables is non-empty. |
| Summary.CentreWithinShownRows | app.py:333-337 | With rows shown, the centre lies inside every latitude/longitude box that holds all of them. |
| ValueCounts.Tally | app.py:374 | `value_counts`: one entry per distinct value. Each entry's count is the value's number of occurrences, at least one. |
| ValueCounts.TallyTotal | app.py:374 | The counts of a tally add up to the number of values counted. |
| ValueCounts.SortByCount | app.py:374 | Sorting a count table by count gives a permutation of it that is ordered by count, with the same total. |
| ValueCounts.CountTable | app.py:374 | A count table sorted in the requested direction has distinct keys, exactly the values present, and their exact counts. Its total is the number of values. |
| Charts.RoomTypeCounts | app.py:374 | The room-type table has one entry per room type present among the derived rows and gives its exact number of rows, least common first. Its total is the number of rows that have a room type. |
| Charts.RoomTypeCountsCoverListings | app.py:374 | When every derived row has a room type, the room-type counts add up to the listing count. |
| ValueCounts.TopCounts | app.py:404 | `value_counts().head(n)`: at most n distinct values with their exact counts, most common first. A value left out means the table is full and is no more common than the last entry. |
| Charts.MinimumNightsTop | app.py:404 | The short-term chart has at most ten distinct minimum-night values with their exact counts, most common first. Any value left out is no more common than the last one shown. |
| Charts.ListingsPerHost | app.py:431 | `groupby('host_id').size()`: one entry per distinct host, with its exact number of listings, counted row by row. The entry count is the number of distinct hosts. |
| Binning.BinIndex | app.py:438-444 | A value is placed in a right-open bin that holds it. It is left unbinned exactly when it lies below the first edge. |
| Binning.BinIndexExact | app.py:438-444 | With increasing edges, a value is placed in bin i exactly when it lies in bin i. |
| Binning.HistogramTotal | app.py:487-494 | The zero-filled bin counts add up to the number of values at or above the first edge. |
| Charts.HostBinExact | app.py:433-444 | A host with k listings lands in bin "k" when k < 10, and in bin "10+" otherwise. |
| Charts.HostHistogram | app.py:431-446 | Ten bins labelled "1" to "9" and "10+" in order, zero-filled. Each count is the number of hosts with that many listings. The counts add up to the number of distinct hosts. |
| Charts.OccupancyBinExact | app.py:484-492 | An estimate is binned in range ⌊x/50⌋ below 250 and in "250+" from 250 on. A negative estimate is not binned. |
| Charts.OccupancyHistogram | app.py:482-494 | Six bins labelled "0-49" to "250+" in order, zero-filled. The counts add up to the number of derived rows with a non-negative estimate. |
| Dashboard.UpdateGraph | app.py:283-494 | The graph callback succeeds exactly when the state is one of the three loaded keys. It then builds every output from that state's table and the two other dropdowns. |
| Dashboard.BuildBundle | app.py:285-494 | Every output is computed from the same derived rows. The map points are the derived selected rows, and the cards, the room-type table, the minimum-nights table and both histograms are each built from those points. The zoom follows the neighbourhood dropdown. The centre is computed from the points, falling back to the state's located rows. |
| Dashboard.PointsKeepTableOrder | app.py:286-310 | The map points appear in the order of the state's rows that have coordinates. |
| Dashboard.PointsAreSelectedNumericRows | app.py:286-310 | The map points are exactly the table's rows that are selected and have three numeric cells, each with its multiplicity. |
| Dashboard.PointsSelectedAndDerived | app.py:286-315 | Every map point passes the dropdowns and carries correctly derived estimates. |
| Dashboard.BundleConsistent | app.py:319-494 | All outputs describe the same derived rows, entry by entry: <br>- the card count is the number of points, and both averages are unavailable exactly when there are no points; <br>- each room-type entry is a room type of the points with its number of points, and every such type is listed; the total is at most the listing count, and equal when every point has a room type; <br>- the minimum-nights table has at most ten entries, most common first, each a minimum-nights value of some point with its number of points; <br>- the host histogram has the ten bins in order, each counting the hosts of the points with that many listings, and sums to the number of distinct hosts; <br>- the occupancy histogram has the six bins in order, each counting the points whose estimate falls in it, and sums to the points with a non-negative estimate, at most the listing count; <br>- the zoom follows the neighbourhood filter. |
| Dashboard.CentreDefinedness | app.py:333-342 | Both centre components are defined exactly when the state has a row with coordinates. |
| Dashboard.ThreeListingExample | app.py:305-321 | Three listings with prices 100, 200 and 300, minimum nights 2, 3 and 4, and 5, 0 and 10 reviews give an average income of 13000/3, an average of 50/3 nights and 3 listings. The listing without reviews still counts. |

## Left out

- Loading the CSV files and building the Dash app (app.py:1-19, 542-543): I/O. The store is a parameter.
- The page layout, the dropdown and card helpers and the styling (app.py:32-244): presentation only.
- The plotly figures and their styling (the `px.scatter_mapbox` and `px.bar` calls): presentation only. The model stops at the data each figure is built from.
- The hover data of the map points: presentation only.
- The text of the summary cards (app.py:325-327), meaning the currency and thousands formatting: presentation only. The model keeps the values and whether they are available.
- How `to_numeric` parses a string: a cell is abstracted to `Missing`, `NonNumeric` or `Num(v)`.
- Derivation.Derive: the estimates are exact products. When price, minimum nights and review count are all integer columns, pandas keeps them as 64-bit integers and their product wraps around past 2^63 - 1 (app.py:314-315). The model does not reproduce that wrap; listing data stays far below the bound.
- Floating-point arithmetic: means and estimates use exact `real` arithmetic, so rounding in sums and products is not modelled.
- NaN as a numeric value: a cell that parses to NaN counts as missing. Infinities are not modelled.
- Charts.RoomTypeCounts: the order among room types with equal counts is not stated. pandas does not document it; the model fixes one order and states only the order by count.
- Charts.MinimumNightsTop: among minimum-night values with equal counts, which ones make the top ten and in what order is not stated, for the same reason. The contract states only that no value left out is more common than the last one shown.
- The `reset_index` calls and column renaming only change the shape of a table. The model gives each chart's rows as (key, count) pairs.
- The `isnan` test on the listing count (app.py:327): the count is an integer and is never NaN, so the card always shows it.
- The unused row count of the state table after dropping missing coordinates (app.py:289): it has no effect on any output.
- A neighbourhood or room type literally named "All" or "": as in the code, choosing it in a dropdown means no narrowing.
- The room-type dropdown's option list: it is part of the layout and not derived from the data.
