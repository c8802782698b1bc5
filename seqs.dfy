/**
 * Sequence operations shared by the table model: `find`, `filter`,
 * counting, reversal and the inclusive index window of a ranged query.
 */
module Seqs {

  /** `s.findIndex(p)`, with `|s|` standing for "not found". */
  function FirstIndex<T>(s: seq<T>, p: T -> bool): (i: nat)
    ensures i <= |s|
    ensures forall j :: 0 <= j < i ==> !p(s[j])
    ensures i < |s| ==> p(s[i])
    decreases |s|
  {
    if s == [] then 0
    else if p(s[0]) then 0
    else 1 + FirstIndex(s[1..], p)
  }

  /** `s.filter(p)`, keeping the order of `s`. */
  function Filter<T>(s: seq<T>, p: T -> bool): (r: seq<T>)
    ensures |r| <= |s|
    ensures forall x :: x in r ==> x in s && p(x)
    decreases |s|
  {
    if s == [] then []
    else if p(s[0]) then [s[0]] + Filter(s[1..], p)
    else Filter(s[1..], p)
  }

  /** Every element of `s` that satisfies `p` is kept by the filter. */
  lemma {:induction false} FilterKeeps<T>(s: seq<T>, p: T -> bool, x: T)
    requires x in s && p(x)
    ensures x in Filter(s, p)
    decreases |s|
  {
    if s[0] != x {
      FilterKeeps(s[1..], p, x);
    }
  }

  lemma {:induction false} FilterAppend<T>(s: seq<T>, t: seq<T>, p: T -> bool)
    ensures Filter(s + t, p) == Filter(s, p) + Filter(t, p)
    decreases |s|
  {
    if s != [] {
      var u := s + t;
      assert u[0] == s[0] && u[1..] == s[1..] + t;
      FilterAppend(s[1..], t, p);
      if p(s[0]) {
        calc {
          Filter(u, p);
          [s[0]] + Filter(s[1..] + t, p);
          [s[0]] + (Filter(s[1..], p) + Filter(t, p));
          ([s[0]] + Filter(s[1..], p)) + Filter(t, p);
        }
      } else {
        assert Filter(u, p) == Filter(s[1..] + t, p);
      }
    } else {
      assert s + t == t;
    }
  }

  lemma FilterNone<T>(s: seq<T>, p: T -> bool)
    requires forall i :: 0 <= i < |s| ==> !p(s[i])
    ensures Filter(s, p) == []
  {
  }

  /** Number of elements of `s` satisfying `p`: a `count` query. */
  function Count<T>(s: seq<T>, p: T -> bool): nat {
    |Filter(s, p)|
  }

  /** A weaker condition counts at least as many elements. */
  lemma {:induction false} CountMonotone<T>(s: seq<T>, p: T -> bool, q: T -> bool)
    requires forall i :: 0 <= i < |s| && p(s[i]) ==> q(s[i])
    ensures Count(s, p) <= Count(s, q)
    decreases |s|
  {
    if s != [] {
      var rest := s[1..];
      assert forall i :: 0 <= i < |rest| ==> rest[i] == s[i + 1];
      CountMonotone(rest, p, q);
    }
  }

  /** With no two distinct positions both satisfying `p`, at most one element does. */
  lemma {:induction false} CountAtMostOne<T>(s: seq<T>, p: T -> bool)
    requires forall i, j :: 0 <= i < j < |s| && p(s[i]) ==> !p(s[j])
    ensures Count(s, p) <= 1
    decreases |s|
  {
    if s != [] {
      var rest := s[1..];
      forall i, j | 0 <= i < j < |rest| && p(rest[i]) ensures !p(rest[j]) {
        assert rest[i] == s[i + 1] && rest[j] == s[j + 1];
      }
      CountAtMostOne(rest, p);
      if p(s[0]) {
        FilterNone(rest, p);
      }
    }
  }

  function Reverse<T>(s: seq<T>): (r: seq<T>)
    ensures |r| == |s|
    ensures forall i :: 0 <= i < |s| ==> r[i] == s[|s| - 1 - i]
    decreases |s|
  {
    if s == [] then [] else Reverse(s[1..]) + [s[0]]
  }

  /**
   * The rows a `.range(from, to)` query returns: positions `from` through
   * `to` inclusive, cut at the end of the result.
   */
  function Window<T>(s: seq<T>, from: nat, to: int): (r: seq<T>)
    requires to >= from - 1
    ensures |r| <= to - from + 1
    ensures from + |r| <= |s| || r == []
    ensures forall i :: 0 <= i < |r| ==> r[i] == s[from + i]
    ensures |r| == if from >= |s| then 0 else if to + 1 < |s| then to + 1 - from else |s| - from
  {
    if from >= |s| then []
    else if to + 1 < |s| then s[from..to + 1]
    else s[from..]
  }

  /** Filtering keeps a strictly increasing key strictly increasing. */
  lemma {:induction false} FilterSorted<T>(s: seq<T>, p: T -> bool, key: T -> int)
    requires forall i, j :: 0 <= i < j < |s| ==> key(s[i]) < key(s[j])
    ensures forall i, j :: 0 <= i < j < |Filter(s, p)| ==> key(Filter(s, p)[i]) < key(Filter(s, p)[j])
    decreases |s|
  {
    if s != [] {
      var rest := s[1..];
      assert forall i, j :: 0 <= i < j < |rest| ==> rest[i] == s[i + 1] && rest[j] == s[j + 1];
      FilterSorted(rest, p, key);
      if p(s[0]) {
        var f := Filter(s, p);
        var fr := Filter(rest, p);
        assert f == [s[0]] + fr;
        forall j | 0 <= j < |fr| ensures key(s[0]) < key(fr[j]) {
          assert fr[j] in rest;
          var k :| 0 <= k < |rest| && rest[k] == fr[j];
          assert rest[k] == s[k + 1];
        }
        forall i, j | 0 <= i < j < |f| ensures key(f[i]) < key(f[j]) {
          assert f[j] == fr[j - 1];
          if i > 0 {
            assert f[i] == fr[i - 1];
            assert key(fr[i - 1]) < key(fr[j - 1]);
          }
        }
      } else {
        assert Filter(s, p) == Filter(rest, p);
      }
    }
  }

  /** Two adjacent windows make up the window spanning both. */
  lemma WindowConcat<T>(s: seq<T>, from: nat, n: nat, m: nat)
    ensures Window(s, from, from + n - 1) + Window(s, from + n, from + n + m - 1) == Window(s, from, from + n + m - 1)
  {
    var a := Window(s, from, from + n - 1);
    var b := Window(s, from + n, from + n + m - 1);
    var c := Window(s, from, from + n + m - 1);
    if |a| < n {
      assert b == [];
    } else {
      assert |a + b| == |c|;
      forall i | 0 <= i < |c| ensures (a + b)[i] == c[i] {
        if i >= |a| {
          assert (a + b)[i] == b[i - |a|];
        }
      }
    }
  }
}
