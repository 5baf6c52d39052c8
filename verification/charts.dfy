/**
 * The tables behind the four bar charts: room-type counts, the ten most
 * common minimum-night settings, hosts by number of listings, and
 * listings by estimated nights booked.
 */
module Charts {
  import opened Wrappers
  import opened Seqs
  import opened ValueCounts
  import opened Binning
  import opened Derivation
  import opened Summary

  // ---------------------------------------------------------------- room types

  /** Number of derived rows of room type `k`. */
  function RoomTypeOccurrences(ds: seq<Derived>, k: string): nat {
    if |ds| == 0 then 0
    else (if ds[0].row.roomType == Some(k) then 1 else 0) + RoomTypeOccurrences(ds[1..], k)
  }

  /** The non-missing room types of the derived rows, in row order. */
  function RoomTypesOf(ds: seq<Derived>): (ts: seq<string>)
    ensures forall k :: multiset(ts)[k] == RoomTypeOccurrences(ds, k)
    ensures forall k :: k in ts <==> exists i :: 0 <= i < |ds| && ds[i].row.roomType == Some(k)
    ensures |ts| <= |ds|
    ensures (forall i :: 0 <= i < |ds| ==> ds[i].row.roomType.Some?) ==> |ts| == |ds|
  {
    if |ds| == 0 then []
    else
      var rest := RoomTypesOf(ds[1..]);
      assert forall i :: 0 < i < |ds| ==> ds[i] == ds[1..][i - 1];
      match ds[0].row.roomType
      case Some(t) => [t] + rest
      case None => rest
  }

  /**
   * `value_counts().sort_values(ascending=True)`: one entry per room type
   * present, with its number of rows, least common first.
   */
  function RoomTypeCounts(ds: seq<Derived>): (t: seq<(string, nat)>)
    ensures NoDup(KeysOf(t))
    ensures forall k :: k in KeysOf(t) <==> exists i :: 0 <= i < |ds| && ds[i].row.roomType == Some(k)
    ensures forall i :: 0 <= i < |t| ==> t[i].1 == RoomTypeOccurrences(ds, t[i].0) && t[i].1 >= 1
    ensures SortedByCount(t, true)
    ensures CountsTotal(t) == |RoomTypesOf(ds)|
  {
    CountTable(RoomTypesOf(ds), true)
  }

  /** With every derived row typed, the room-type counts add up to the listing count. */
  lemma RoomTypeCountsCoverListings(ds: seq<Derived>)
    requires forall i :: 0 <= i < |ds| ==> ds[i].row.roomType.Some?
    ensures CountsTotal(RoomTypeCounts(ds)) == |ds|
  {
  }

  // ------------------------------------------------------------ minimum nights

  function MinimumNightsOf(ds: seq<Derived>): (xs: seq<real>)
    ensures |xs| == |ds| && forall i :: 0 <= i < |ds| ==> xs[i] == ds[i].minimumNights
  {
    seq(|ds|, i requires 0 <= i < |ds| => ds[i].minimumNights)
  }

  /** Number of entries of the short-term rental chart. */
  const TopMinimumNights: nat := 10

  /**
   * `value_counts().head(10)` on minimum nights: at most ten distinct
   * values, each with its number of rows, most common first, and no value
   * left out is more common than the last one listed.
   */
  function MinimumNightsTop(ds: seq<Derived>): (t: seq<(real, nat)>)
    ensures |t| <= TopMinimumNights
    ensures NoDup(KeysOf(t))
    ensures forall i :: 0 <= i < |t| ==>
      t[i].0 in MinimumNightsOf(ds) && t[i].1 == multiset(MinimumNightsOf(ds))[t[i].0]
    ensures SortedByCount(t, false)
    ensures forall v :: v in MinimumNightsOf(ds) && v !in KeysOf(t) ==>
      |t| == TopMinimumNights && multiset(MinimumNightsOf(ds))[v] <= t[|t| - 1].1
  {
    TopCounts(MinimumNightsOf(ds), TopMinimumNights)
  }

  // --------------------------------------------------------- listings per host

  /** Number of derived rows listed by host `h`. */
  function HostOccurrences(ds: seq<Derived>, h: int): nat {
    if |ds| == 0 then 0
    else (if ds[0].row.hostId == Some(h) then 1 else 0) + HostOccurrences(ds[1..], h)
  }

  /** The non-missing host ids of the derived rows, in row order. */
  function HostIdsOf(ds: seq<Derived>): (hs: seq<int>)
    ensures forall h :: multiset(hs)[h] == HostOccurrences(ds, h)
    ensures forall h :: h in hs <==> exists i :: 0 <= i < |ds| && ds[i].row.hostId == Some(h)
  {
    if |ds| == 0 then []
    else
      var rest := HostIdsOf(ds[1..]);
      assert forall i :: 0 < i < |ds| ==> ds[i] == ds[1..][i - 1];
      match ds[0].row.hostId
      case Some(h) => [h] + rest
      case None => rest
  }

  /** The distinct hosts among the derived rows (a missing id is no host). */
  function Hosts(ds: seq<Derived>): set<int> {
    set i | 0 <= i < |ds| && ds[i].row.hostId.Some? :: ds[i].row.hostId.value
  }

  /** `groupby('host_id').size()`: each host with its number of listings. */
  function ListingsPerHost(ds: seq<Derived>): (t: seq<(int, nat)>)
    ensures NoDup(KeysOf(t))
    ensures forall h :: h in KeysOf(t) <==> h in Hosts(ds)
    ensures forall i :: 0 <= i < |t| ==> t[i].1 == HostOccurrences(ds, t[i].0) && t[i].1 >= 1
    ensures |t| == |Hosts(ds)|
  {
    HostIdsAreHosts(ds);
    HostsCardinality(ds);
    Tally(HostIdsOf(ds))
  }

  /** One tally entry per distinct host. */
  lemma HostsCardinality(ds: seq<Derived>)
    ensures |Tally(HostIdsOf(ds))| == |Hosts(ds)|
  {
    var t := Tally(HostIdsOf(ds));
    HostIdsAreHosts(ds);
    NoDupCardinality(KeysOf(t));
    assert (set h | h in KeysOf(t)) == Hosts(ds);
  }

  lemma HostIdsAreHosts(ds: seq<Derived>)
    ensures forall h :: h in Hosts(ds) <==> h in HostIdsOf(ds)
  {
    forall h | h in HostIdsOf(ds)
      ensures h in Hosts(ds)
    {
      var i :| 0 <= i < |ds| && ds[i].row.hostId == Some(h);
    }
  }

  /** Left edges of the listings-per-host bins: 1, 2, ..., 9, then 10 and above. */
  const HostBinEdges: seq<int> := [1, 2, 3, 4, 5, 6, 7, 8, 9, 10]

  const HostBinLabels: seq<string> := ["1", "2", "3", "4", "5", "6", "7", "8", "9", "10+"]

  function ListingCounts(t: seq<(int, nat)>): (xs: seq<real>)
    ensures |xs| == |t| && forall i :: 0 <= i < |t| ==> xs[i] == t[i].1 as real
  {
    seq(|t|, i requires 0 <= i < |t| => t[i].1 as real)
  }

  /** The bin a host with `k` listings belongs to. */
  function HostBin(k: nat): (b: nat)
    requires k >= 1
  {
    if k < 10 then k - 1 else 9
  }

  /** A host with `k` listings is binned under "k" below ten and under "10+" from ten on. */
  lemma HostBinExact(k: nat)
    requires k >= 1
    ensures BinIndex(HostBinEdges, k as real) == Some(HostBin(k))
    ensures HostBinLabels[HostBin(k)] == if k < 10 then HostBinLabels[k - 1] else "10+"
  {
    BinIndexExact(HostBinEdges, k as real, HostBin(k));
  }

  /** Number of hosts whose listing count falls in bin `b`, counted directly. */
  function HostsInBin(t: seq<(int, nat)>, b: nat): nat {
    if |t| == 0 then 0
    else (if t[0].1 >= 1 && HostBin(t[0].1) == b then 1 else 0) + HostsInBin(t[1..], b)
  }

  /**
   * The listings-per-host histogram: the ten labels "1" to "9" and "10+"
   * in order, zero-filled, each with the number of hosts in that bin; the
   * counts add up to the number of distinct hosts.
   */
  function HostHistogram(ds: seq<Derived>): (h: seq<(string, nat)>)
    ensures |h| == 10
    ensures forall i :: 0 <= i < 10 ==> h[i].0 == HostBinLabels[i]
    ensures forall i :: 0 <= i < 10 ==> h[i].1 == HostsInBin(ListingsPerHost(ds), i)
    ensures CountsFrom(h, 0) == |Hosts(ds)|
  {
    var perHost := ListingsPerHost(ds);
    var counts := ListingCounts(perHost);
    var h := Histogram(HostBinEdges, HostBinLabels, counts);
    HistogramTotal(HostBinEdges, HostBinLabels, counts);
    CountBinnedAbove(HostBinEdges, counts);
    forall i | 0 <= i < 10
      ensures h[i].1 == HostsInBin(perHost, i)
    {
      HostsInBinIsCountInBin(perHost, i);
    }
    h
  }

  lemma {:induction false} HostsInBinIsCountInBin(t: seq<(int, nat)>, b: nat)
    ensures HostsInBin(t, b) == CountInBin(HostBinEdges, ListingCounts(t), b)
  {
    if |t| > 0 {
      HostsInBinIsCountInBin(t[1..], b);
      assert ListingCounts(t)[1..] == ListingCounts(t[1..]);
      if t[0].1 >= 1 {
        HostBinExact(t[0].1);
      }
    }
  }

  // ------------------------------------------------------------------ occupancy

  /** Left edges of the occupancy bins, 50 nights wide, the last one open-ended. */
  const OccupancyBinEdges: seq<int> := [0, 50, 100, 150, 200, 250]

  const OccupancyBinLabels: seq<string> := ["0-49", "50-99", "100-149", "150-199", "200-249", "250+"]

  /** The occupancy range of a nights-booked estimate, by arithmetic; none below zero. */
  function OccupancyRange(x: real): Option<nat> {
    if x < 0.0 then None
    else if x >= 250.0 then Some(5)
    else Some((x / 50.0).Floor as nat)
  }

  /** Binning on the edges agrees with the arithmetic occupancy range. */
  lemma OccupancyBinExact(x: real)
    ensures BinIndex(OccupancyBinEdges, x) == OccupancyRange(x)
  {
    var r := OccupancyRange(x);
    if r.Some? {
      var i := r.value;
      if x < 250.0 {
        var q := x / 50.0;
        assert q.Floor as real <= q < q.Floor as real + 1.0;
        assert 50.0 * (i as real) <= x < 50.0 * (i as real) + 50.0;
        assert i < 5;
      }
      BinIndexExact(OccupancyBinEdges, x, i);
    }
  }

  /** Number of derived rows whose nights-booked estimate is not negative. */
  function NonNegativeNights(ds: seq<Derived>): (n: nat)
    ensures n <= |ds|
  {
    if |ds| == 0 then 0
    else (if ds[0].nightsBooked >= 0.0 then 1 else 0) + NonNegativeNights(ds[1..])
  }

  /**
   * The occupancy histogram: the six labels in order, zero-filled; its
   * counts add up to the rows with a non-negative estimate.
   */
  function OccupancyHistogram(ds: seq<Derived>): (h: seq<(string, nat)>)
    ensures |h| == 6
    ensures forall i :: 0 <= i < 6 ==> h[i].0 == OccupancyBinLabels[i]
    ensures forall i :: 0 <= i < 6 ==> h[i].1 == CountInBin(OccupancyBinEdges, NightsBooked(ds), i)
    ensures CountsFrom(h, 0) == NonNegativeNights(ds)
  {
    var nights := NightsBooked(ds);
    HistogramTotal(OccupancyBinEdges, OccupancyBinLabels, nights);
    OccupancyBinnedAreNonNegative(ds);
    Histogram(OccupancyBinEdges, OccupancyBinLabels, nights)
  }

  lemma {:induction false} OccupancyBinnedAreNonNegative(ds: seq<Derived>)
    ensures CountBinned(OccupancyBinEdges, NightsBooked(ds)) == NonNegativeNights(ds)
  {
    if |ds| > 0 {
      OccupancyBinnedAreNonNegative(ds[1..]);
      assert NightsBooked(ds)[1..] == NightsBooked(ds[1..]);
    }
  }
}
