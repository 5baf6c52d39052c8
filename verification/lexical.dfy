/**
 * Python's ordering of strings (code point by code point, a proper prefix
 * first) and the sorted list of distinct strings that `sorted(unique())`
 * produces.
 */
module Lexical {
  import opened Seqs

  /** `a` sorts strictly before `b`. */
  predicate Below(a: string, b: string)
    decreases |a|
  {
    if |b| == 0 then false
    else if |a| == 0 then true
    else if a[0] != b[0] then a[0] < b[0]
    else Below(a[1..], b[1..])
  }

  lemma {:induction false} BelowIrreflexive(a: string)
    ensures !Below(a, a)
  {
    if |a| > 0 {
      BelowIrreflexive(a[1..]);
    }
  }

  lemma {:induction false} BelowTransitive(a: string, b: string, c: string)
    requires Below(a, b) && Below(b, c)
    ensures Below(a, c)
    decreases |a|
  {
    if |a| > 0 && a[0] == b[0] && b[0] == c[0] {
      BelowTransitive(a[1..], b[1..], c[1..]);
    }
  }

  lemma {:induction false} BelowTotal(a: string, b: string)
    requires a != b
    ensures Below(a, b) || Below(b, a)
    decreases |a|
  {
    if |a| > 0 && |b| > 0 && a[0] == b[0] {
      assert a == [a[0]] + a[1..] && b == [b[0]] + b[1..];
      BelowTotal(a[1..], b[1..]);
    }
  }

  /** Strictly increasing in Python's string order: sorted and duplicate-free. */
  predicate StrictlySorted(s: seq<string>) {
    forall i, j :: 0 <= i < j < |s| ==> Below(s[i], s[j])
  }

  /** Adds `x` to a strictly sorted list unless it is already there. */
  function InsertUnique(x: string, s: seq<string>): (r: seq<string>)
    requires StrictlySorted(s)
    ensures StrictlySorted(r)
    ensures forall v :: v in r <==> v in s || v == x
  {
    if |s| == 0 then [x]
    else if x == s[0] then s
    else if Below(x, s[0]) then
      assert forall j :: 0 < j < |s| ==> Below(x, s[j]) by {
        forall j | 0 < j < |s| {
          BelowTransitive(x, s[0], s[j]);
        }
      }
      [x] + s
    else
      BelowTotal(x, s[0]);
      var rest := InsertUnique(x, s[1..]);
      assert forall v :: v in rest ==> Below(s[0], v);
      [s[0]] + rest
  }

  /** The distinct values of `xs` in ascending order. */
  function SortUnique(xs: seq<string>): (r: seq<string>)
    ensures StrictlySorted(r)
    ensures forall v :: v in r <==> v in xs
  {
    if |xs| == 0 then []
    else
      assert xs == xs[..|xs| - 1] + [xs[|xs| - 1]];
      InsertUnique(xs[|xs| - 1], SortUnique(xs[..|xs| - 1]))
  }

  /** A strictly sorted list holds no value twice. */
  lemma StrictlySortedNoDup(s: seq<string>)
    requires StrictlySorted(s)
    ensures NoDup(s)
  {
    forall i, j | 0 <= i < j < |s|
      ensures s[i] != s[j]
    {
      BelowIrreflexive(s[i]);
    }
  }

  /**
   * A strictly sorted list is determined by its values: the sorted distinct
   * form does not depend on how it was computed.
   */
  lemma {:induction false} StrictlySortedUnique(s: seq<string>, t: seq<string>)
    requires StrictlySorted(s) && StrictlySorted(t)
    requires forall v :: v in s <==> v in t
    ensures s == t
    decreases |s|
  {
    StrictlySortedNoDup(s);
    StrictlySortedNoDup(t);
    NoDupCardinality(s);
    NoDupCardinality(t);
    assert (set v | v in s) == (set v | v in t);
    if |s| > 0 {
      assert s[0] in t;
      assert t[0] in s;
      if s[0] != t[0] {
        var i :| 0 <= i < |t| && t[i] == s[0];
        var j :| 0 <= j < |s| && s[j] == t[0];
        assert i > 0 && j > 0;
        assert Below(t[0], s[0]) && Below(s[0], t[0]);
        BelowTransitive(s[0], t[0], s[0]);
        BelowIrreflexive(s[0]);
      }
      forall v
        ensures v in s[1..] <==> v in t[1..]
      {
        if v in s[1..] {
          var k :| 1 <= k < |s| && s[k] == v;
          assert v in t && Below(s[0], v);
          BelowIrreflexive(v);
          if v == t[0] {
            assert false;
          }
        }
        if v in t[1..] {
          var k :| 1 <= k < |t| && t[k] == v;
          assert v in s && Below(t[0], v);
          BelowIrreflexive(v);
          if v == s[0] {
            assert false;
          }
        }
      }
      StrictlySortedUnique(s[1..], t[1..]);
    }
  }
}
