/**
 * `value_counts()`: one (value, occurrences) entry per distinct value,
 * then ordered by count, then optionally cut to its first entries.
 */
module ValueCounts {
  import opened Seqs

  /** The values of a count table, in table order. */
  function KeysOf<K>(t: seq<(K, nat)>): (ks: seq<K>)
    ensures |ks| == |t|
    ensures forall i :: 0 <= i < |t| ==> ks[i] == t[i].0
  {
    if |t| == 0 then [] else [t[0].0] + KeysOf(t[1..])
  }

  /** The sum of the counts of a count table. */
  function CountsTotal<K>(t: seq<(K, nat)>): nat {
    if |t| == 0 then 0 else t[0].1 + CountsTotal(t[1..])
  }

  /** Each entry's count is the number of occurrences of its value in `xs`. */
  ghost predicate CountsOf<K>(t: seq<(K, nat)>, xs: seq<K>) {
    forall i :: 0 <= i < |t| ==> t[i].1 == multiset(xs)[t[i].0]
  }

  /** One entry per distinct value of `xs`, each carrying its occurrence count. */
  function Tally<K(==,!new)>(xs: seq<K>): (t: seq<(K, nat)>)
    ensures NoDup(KeysOf(t))
    ensures forall k :: k in KeysOf(t) <==> k in xs
    ensures CountsOf(t, xs)
    ensures forall i :: 0 <= i < |t| ==> t[i].1 >= 1
  {
    var d := Distinct(xs);
    var t := seq(|d|, i requires 0 <= i < |d| => (d[i], multiset(xs)[d[i]]));
    assert forall i :: 0 <= i < |d| ==> d[i] in xs;
    assert KeysOf(t) == d;
    t
  }

  /** Sum over the values of `ks` of their occurrence counts in `xs`. */
  ghost function OccurrencesOver<K>(ks: seq<K>, xs: seq<K>): nat {
    if |ks| == 0 then 0 else multiset(xs)[ks[0]] + OccurrencesOver(ks[1..], xs)
  }

  lemma {:induction false} OccurrencesOverSnoc<K>(ks: seq<K>, xs: seq<K>, x: K)
    ensures OccurrencesOver(ks, xs + [x]) == OccurrencesOver(ks, xs) + multiset(ks)[x]
  {
    if |ks| > 0 {
      assert ks == [ks[0]] + ks[1..];
      OccurrencesOverSnoc(ks[1..], xs, x);
    }
  }

  lemma {:induction false} OccurrencesOverNothing<K>(ks: seq<K>)
    ensures OccurrencesOver(ks, []) == 0
  {
    if |ks| > 0 {
      OccurrencesOverNothing(ks[1..]);
    }
  }

  /** Counting every value of `xs` once over a list covering it gives `|xs|`. */
  lemma {:induction false} OccurrencesOverCover<K>(ks: seq<K>, xs: seq<K>)
    requires NoDup(ks)
    requires forall x :: x in xs ==> x in ks
    ensures OccurrencesOver(ks, xs) == |xs|
  {
    if |xs| == 0 {
      OccurrencesOverNothing(ks);
    } else {
      var init, last := xs[..|xs| - 1], xs[|xs| - 1];
      assert xs == init + [last];
      OccurrencesOverCover(ks, init);
      OccurrencesOverSnoc(ks, init, last);
      NoDupMultiplicity(ks, last);
    }
  }

  lemma {:induction false} CountsTotalIsOccurrences<K>(t: seq<(K, nat)>, xs: seq<K>)
    requires CountsOf(t, xs)
    ensures CountsTotal(t) == OccurrencesOver(KeysOf(t), xs)
  {
    if |t| > 0 {
      CountsTotalIsOccurrences(t[1..], xs);
      assert KeysOf(t)[1..] == KeysOf(t[1..]);
    }
  }

  /** A tally accounts for every element exactly once. */
  lemma TallyTotal<K(!new)>(xs: seq<K>)
    ensures CountsTotal(Tally(xs)) == |xs|
  {
    var t := Tally(xs);
    CountsTotalIsOccurrences(t, xs);
    OccurrencesOverCover(KeysOf(t), xs);
  }

  /** Order of two counts: ascending or descending. */
  predicate InOrder(a: nat, b: nat, ascending: bool) {
    if ascending then a <= b else a >= b
  }

  /** Counts follow the requested order along the table. */
  predicate SortedByCount<K>(t: seq<(K, nat)>, ascending: bool) {
    forall i, j :: 0 <= i < j < |t| ==> InOrder(t[i].1, t[j].1, ascending)
  }

  /** An entry ordered before every entry of a sorted table can go in front of it. */
  lemma PrependSorted<K>(x: (K, nat), s: seq<(K, nat)>, ascending: bool)
    requires SortedByCount(s, ascending)
    requires forall i :: 0 <= i < |s| ==> InOrder(x.1, s[i].1, ascending)
    ensures SortedByCount([x] + s, ascending)
  {
    var r := [x] + s;
    forall i, j | 0 <= i < j < |r|
      ensures InOrder(r[i].1, r[j].1, ascending)
    {
      if i > 0 {
        assert r[i] == s[i - 1] && r[j] == s[j - 1];
      }
    }
  }

  function InsertByCount<K(==)>(e: (K, nat), t: seq<(K, nat)>, ascending: bool): (r: seq<(K, nat)>)
    requires SortedByCount(t, ascending)
    ensures SortedByCount(r, ascending)
    ensures multiset(r) == multiset(t) + multiset{e}
    ensures CountsTotal(r) == CountsTotal(t) + e.1
  {
    if |t| == 0 then [e]
    else if InOrder(e.1, t[0].1, ascending) then
      assert t == [t[0]] + t[1..];
      PrependSorted(e, t, ascending);
      [e] + t
    else
      assert t == [t[0]] + t[1..];
      var rest := InsertByCount(e, t[1..], ascending);
      forall i | 0 <= i < |rest|
        ensures InOrder(t[0].1, rest[i].1, ascending)
      {
        assert rest[i] in multiset(rest);
        if rest[i] != e {
          assert rest[i] in multiset(t[1..]);
        }
      }
      PrependSorted(t[0], rest, ascending);
      [t[0]] + rest
  }

  /**
   * The table reordered by count (`sort_values` / the order `value_counts`
   * returns); the order among equal counts is left open.
   */
  function SortByCount<K(==)>(t: seq<(K, nat)>, ascending: bool): (r: seq<(K, nat)>)
    ensures SortedByCount(r, ascending)
    ensures multiset(r) == multiset(t)
    ensures CountsTotal(r) == CountsTotal(t)
  {
    if |t| == 0 then []
    else
      assert t == [t[0]] + t[1..];
      InsertByCount(t[0], SortByCount(t[1..], ascending), ascending)
  }

  /** Two positions holding the same entry give it multiplicity at least two. */
  lemma RepeatedEntry<K>(r: seq<(K, nat)>, i: nat, j: nat)
    requires i < j < |r| && r[i] == r[j]
    ensures multiset(r)[r[i]] >= 2
  {
    assert r[..j] + r[j..] == r;
    assert r[i] in multiset(r[..j]);
    assert r[j] in multiset(r[j..]);
    assert multiset(r) == multiset(r[..j]) + multiset(r[j..]);
  }

  /** Reordering keeps the values of a table distinct. */
  lemma {:induction false} PermutationKeepsKeysDistinct<K>(t: seq<(K, nat)>, r: seq<(K, nat)>)
    requires NoDup(KeysOf(t))
    requires multiset(r) == multiset(t)
    ensures NoDup(KeysOf(r))
  {
    forall i, j | 0 <= i < j < |r|
      ensures r[i].0 != r[j].0
    {
      assert r[i] in multiset(t) && r[j] in multiset(t);
      var a :| 0 <= a < |t| && t[a] == r[i];
      var b :| 0 <= b < |t| && t[b] == r[j];
      if r[i].0 == r[j].0 {
        assert KeysOf(t)[a] == KeysOf(t)[b];
        RepeatedEntry(r, i, j);
        MultiplicityOfEntryBounded(t, r[i]);
        assert false;
      }
    }
  }

  /** With distinct values, an entry occurs at most once in the table. */
  lemma {:induction false} MultiplicityOfEntryBounded<K>(t: seq<(K, nat)>, e: (K, nat))
    requires NoDup(KeysOf(t))
    ensures multiset(t)[e] <= 1
  {
    if |t| > 0 {
      assert t == [t[0]] + t[1..];
      assert KeysOf(t)[1..] == KeysOf(t[1..]);
      MultiplicityOfEntryBounded(t[1..], e);
      if t[0] == e {
        forall i | 0 <= i < |t[1..]|
          ensures t[1..][i] != e
        {
          assert KeysOf(t)[0] != KeysOf(t)[i + 1];
        }
        assert e !in t[1..];
      }
    }
  }

  /** Reordering keeps the set of values of a table. */
  lemma PermutationKeepsKeys<K>(t: seq<(K, nat)>, r: seq<(K, nat)>)
    requires multiset(r) == multiset(t)
    ensures forall k :: k in KeysOf(r) <==> k in KeysOf(t)
  {
    forall k
      ensures k in KeysOf(r) <==> k in KeysOf(t)
    {
      if k in KeysOf(t) {
        var j :| 0 <= j < |t| && t[j].0 == k;
        assert t[j] in multiset(r);
      }
      if k in KeysOf(r) {
        var j :| 0 <= j < |r| && r[j].0 == k;
        assert r[j] in multiset(t);
      }
    }
  }

  /** Reordering keeps every entry's count right. */
  lemma PermutationKeepsCounts<K>(t: seq<(K, nat)>, r: seq<(K, nat)>, xs: seq<K>)
    requires multiset(r) == multiset(t)
    requires CountsOf(t, xs)
    ensures CountsOf(r, xs)
    ensures (forall i :: 0 <= i < |t| ==> t[i].1 >= 1) ==> forall i :: 0 <= i < |r| ==> r[i].1 >= 1
  {
    assert forall i :: 0 <= i < |r| ==> r[i] in multiset(t);
  }

  /**
   * `value_counts()` in a chosen order: one entry per distinct value of
   * `xs` with its number of occurrences, ordered by count; the counts add
   * up to `|xs|`.
   */
  function CountTable<K(==,!new)>(xs: seq<K>, ascending: bool): (t: seq<(K, nat)>)
    ensures NoDup(KeysOf(t))
    ensures forall k :: k in KeysOf(t) <==> k in xs
    ensures CountsOf(t, xs)
    ensures forall i :: 0 <= i < |t| ==> t[i].1 >= 1
    ensures SortedByCount(t, ascending)
    ensures CountsTotal(t) == |xs|
  {
    var tally := Tally(xs);
    var t := SortByCount(tally, ascending);
    PermutationKeepsKeysDistinct(tally, t);
    PermutationKeepsKeys(tally, t);
    PermutationKeepsCounts(tally, t, xs);
    TallyTotal(xs);
    t
  }

  /** The first `n` entries (`head(n)`). */
  function Head<K>(t: seq<(K, nat)>, n: nat): (r: seq<(K, nat)>)
    ensures |r| <= n && |r| <= |t|
    ensures |t| <= n ==> r == t
    ensures |t| > n ==> |r| == n
    ensures forall i :: 0 <= i < |r| ==> r[i] == t[i]
  {
    if |t| <= n then t else t[..n]
  }

  /** A prefix keeps the order, the distinctness and the counts of a table. */
  lemma HeadKeepsShape<K>(t: seq<(K, nat)>, n: nat, xs: seq<K>, ascending: bool)
    requires NoDup(KeysOf(t)) && SortedByCount(t, ascending) && CountsOf(t, xs)
    ensures NoDup(KeysOf(Head(t, n))) && SortedByCount(Head(t, n), ascending)
    ensures forall k :: k in KeysOf(Head(t, n)) ==> k in KeysOf(t)
    ensures CountsOf(Head(t, n), xs)
  {
    assert KeysOf(Head(t, n)) == KeysOf(t)[..|Head(t, n)|];
  }

  /** In a table sorted most common first, an entry cut off by a prefix is no more common than the prefix's last. */
  lemma HeadOmitsLessCommon<K>(t: seq<(K, nat)>, n: nat, k: nat)
    requires SortedByCount(t, false)
    requires k < |t| && t[k].0 !in KeysOf(Head(t, n))
    ensures |Head(t, n)| == n && (0 < n ==> t[k].1 <= Head(t, n)[n - 1].1)
  {
  }

  lemma {:induction false} HeadOmitsLessCommonValues<K>(t: seq<(K, nat)>, n: nat, xs: seq<K>)
    requires SortedByCount(t, false) && CountsOf(t, xs)
    requires forall k :: k in KeysOf(t) <==> k in xs
    ensures forall v :: v in xs && v !in KeysOf(Head(t, n)) ==>
      |Head(t, n)| == n && (0 < n ==> multiset(xs)[v] <= Head(t, n)[n - 1].1)
  {
    forall v | v in xs && v !in KeysOf(Head(t, n))
      ensures |Head(t, n)| == n && (0 < n ==> multiset(xs)[v] <= Head(t, n)[n - 1].1)
    {
      var k :| 0 <= k < |t| && KeysOf(t)[k] == v;
      HeadOmitsLessCommon(t, n, k);
    }
  }

  /**
   * `value_counts().head(n)`: at most `n` distinct values of `xs`, each
   * with its number of occurrences, most common first; a value left out
   * occurs no more often than the last one listed.
   */
  function TopCounts<K(==,!new)>(xs: seq<K>, n: nat): (t: seq<(K, nat)>)
    ensures |t| <= n
    ensures NoDup(KeysOf(t))
    ensures forall k :: k in KeysOf(t) ==> k in xs
    ensures CountsOf(t, xs)
    ensures SortedByCount(t, false)
    ensures forall v :: v in xs && v !in KeysOf(t) ==> |t| == n && (0 < n ==> multiset(xs)[v] <= t[n - 1].1)
  {
    var sorted := CountTable(xs, false);
    HeadKeepsShape(sorted, n, xs, false);
    HeadOmitsLessCommonValues(sorted, n, xs);
    Head(sorted, n)
  }
}
