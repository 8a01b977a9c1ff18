/**
 * Python's ordering of strings (character code by character code) and `sorted` applied to a
 * set of strings or of integers: the ascending, duplicate-free list of its elements.
 */
module Ordering {

  /** `a <= b` on Python strings: lexicographic by character code, a prefix first. */
  predicate StrLe(a: string, b: string)
    decreases |a|
  {
    a == [] || (b != [] && (a[0] < b[0] || (a[0] == b[0] && StrLe(a[1..], b[1..]))))
  }

  lemma {:induction false} StrLeTotal(a: string, b: string)
    ensures StrLe(a, b) || StrLe(b, a)
    decreases |a|
  {
    if a != [] && b != [] && a[0] == b[0] {
      StrLeTotal(a[1..], b[1..]);
    }
  }

  lemma {:induction false} StrLeAntisymmetric(a: string, b: string)
    requires StrLe(a, b) && StrLe(b, a)
    ensures a == b
    decreases |a|
  {
    if a != [] {
      StrLeAntisymmetric(a[1..], b[1..]);
      assert a == [a[0]] + a[1..];
      assert b == [b[0]] + b[1..];
    }
  }

  lemma {:induction false} StrLeTransitive(a: string, b: string, c: string)
    requires StrLe(a, b) && StrLe(b, c)
    ensures StrLe(a, c)
    decreases |a|
  {
    if a != [] && a[0] == b[0] && b[0] == c[0] {
      StrLeTransitive(a[1..], b[1..], c[1..]);
    }
  }

  /** `m` is the smallest string of `s`. */
  predicate IsLeastString(m: string, s: set<string>) {
    m in s && forall x :: x in s ==> StrLe(m, x)
  }

  lemma {:induction false} LeastStringExists(s: set<string>)
    requires s != {}
    ensures exists m :: IsLeastString(m, s)
    decreases |s|
  {
    var y :| y in s;
    StrLeTotal(y, y);
    if s != {y} {
      LeastStringExists(s - {y});
      var m :| IsLeastString(m, s - {y});
      StrLeTotal(m, y);
      if StrLe(m, y) {
        assert IsLeastString(m, s);
      } else {
        forall x | x in s
          ensures StrLe(y, x)
        {
          if x != y {
            StrLeTransitive(y, m, x);
          }
        }
        assert IsLeastString(y, s);
      }
    } else {
      assert IsLeastString(y, s);
    }
  }

  lemma LeastStringUnique(s: set<string>)
    ensures forall a, b :: IsLeastString(a, s) && IsLeastString(b, s) ==> a == b
  {
    forall a, b | IsLeastString(a, s) && IsLeastString(b, s)
      ensures a == b
    {
      StrLeAntisymmetric(a, b);
    }
  }

  function MinString(s: set<string>): (m: string)
    requires s != {}
    ensures m in s && forall x :: x in s ==> StrLe(m, x)
  {
    LeastStringExists(s);
    LeastStringUnique(s);
    var m :| IsLeastString(m, s);
    m
  }

  /** Strictly ascending: every string is smaller than, and different from, each later one. */
  predicate StrictlyAscendingStrings(r: seq<string>) {
    forall i, j :: 0 <= i < j < |r| ==> StrLe(r[i], r[j]) && r[i] != r[j]
  }

  /** `sorted(s)` for a set of strings. */
  function SortedStrings(s: set<string>): (r: seq<string>)
    ensures |r| == |s|
    ensures forall x :: x in r <==> x in s
    ensures StrictlyAscendingStrings(r)
    decreases |s|
  {
    if s == {} then []
    else
      var m := MinString(s);
      [m] + SortedStrings(s - {m})
  }

  /** Strictly ascending integers. */
  predicate StrictlyAscendingInts(r: seq<int>) {
    forall i, j :: 0 <= i < j < |r| ==> r[i] < r[j]
  }

  /** `m` is the smallest integer of `s`. */
  predicate IsLeastInt(m: int, s: set<int>) {
    m in s && forall x :: x in s ==> m <= x
  }

  lemma {:induction false} LeastIntExists(s: set<int>)
    requires s != {}
    ensures exists m :: IsLeastInt(m, s)
    decreases |s|
  {
    if forall z :: z !in s {
      assert false;
    }
    var y :| y in s;
    if s != {y} {
      LeastIntExists(s - {y});
      var m :| IsLeastInt(m, s - {y});
      var least := if m <= y then m else y;
      forall x | x in s
        ensures least <= x
      {
        if x != y {
          assert x in s - {y};
        }
      }
      assert IsLeastInt(least, s);
    } else {
      assert IsLeastInt(y, s);
    }
  }

  function MinInt(s: set<int>): (m: int)
    requires s != {}
    ensures m in s && forall x :: x in s ==> m <= x
  {
    LeastIntExists(s);
    var m :| IsLeastInt(m, s);
    m
  }

  /** `sorted(s)` for a set of integers. */
  function SortedInts(s: set<int>): (r: seq<int>)
    ensures |r| == |s|
    ensures forall x :: x in r <==> x in s
    ensures StrictlyAscendingInts(r)
    decreases |s|
  {
    if s == {} then []
    else
      var m := MinInt(s);
      var rest := SortedInts(s - {m});
      assert forall k :: 0 <= k < |rest| ==> m < rest[k];
      [m] + rest
  }
}
