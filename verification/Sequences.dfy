/** Facts about sequences and finite sets that several models share. */
module Sequences {

  ghost predicate NoRepeats<T>(s: seq<T>) {
    forall i, j :: 0 <= i < j < |s| ==> s[i] != s[j]
  }

  lemma HeadIn<T>(s: seq<T>)
    ensures s == [] || s[0] in s
  {
  }

  function Reverse<T>(s: seq<T>): (r: seq<T>)
    ensures |r| == |s|
    ensures forall k :: 0 <= k < |s| ==> r[k] == s[|s| - 1 - k]
  {
    seq(|s|, k requires 0 <= k < |s| => s[|s| - 1 - k])
  }

  /** The sequence without the occurrences of x. */
  function Minus<T(==,!new)>(s: seq<T>, x: T): (r: seq<T>)
    ensures forall y :: y in r <==> y in s && y != x
    ensures x !in s ==> r == s
  {
    if s == [] then [] else if s[0] == x then Minus(s[1..], x) else [s[0]] + Minus(s[1..], x)
  }

  lemma MinusAppend<T(!new)>(a: seq<T>, b: seq<T>, x: T)
    ensures Minus(a + b, x) == Minus(a, x) + Minus(b, x)
  {
    if a == [] {
      assert a + b == b;
    } else {
      assert (a + b)[0] == a[0] && (a + b)[1..] == a[1..] + b;
      MinusAppend(a[1..], b, x);
    }
  }

  lemma MinusNoRepeats<T(!new)>(s: seq<T>, x: T)
    requires NoRepeats(s)
    ensures NoRepeats(Minus(s, x))
  {
    if s != [] && s[0] != x {
      MinusNoRepeats(s[1..], x);
      var r := Minus(s[1..], x);
      assert Minus(s, x) == [s[0]] + r;
      forall j | 0 <= j < |r| ensures s[0] != r[j] {
        assert r[j] in s[1..];
      }
    } else if s != [] {
      MinusNoRepeats(s[1..], x);
    }
  }

  lemma MinusBetween<T(!new)>(a: seq<T>, x: T, b: seq<T>)
    requires x !in a && x !in b
    ensures Minus(a + ([x] + b), x) == a + b
  {
    assert Minus([x], x) == [];
    hide Minus;
    MinusAppend(a, [x] + b, x);
    MinusAppend([x], b, x);
  }

  lemma OnlyAt<T(!new)>(s: seq<T>, k: nat)
    requires NoRepeats(s) && k < |s|
    ensures s[k] !in s[..k] && s[k] !in s[k + 1..]
  {
  }

  lemma SplitAt<T(!new)>(s: seq<T>, k: nat)
    requires k < |s|
    ensures s == s[..k] + ([s[k]] + s[k + 1..])
  {
  }

  /** Removing the element at a known position. */
  lemma MinusAt<T(!new)>(s: seq<T>, k: nat)
    requires NoRepeats(s) && k < |s|
    ensures Minus(s, s[k]) == s[..k] + s[k + 1..]
  {
    hide Minus, NoRepeats;
    OnlyAt(s, k);
    SplitAt(s, k);
    MinusBetween(s[..k], s[k], s[k + 1..]);
  }

  /** As many elements as members. */
  lemma DistinctCount<T>(s: seq<T>)
    requires NoRepeats(s)
    ensures |set x | x in s| == |s|
  {
    if s == [] {
      assert (set x | x in s) == {};
    } else {
      DistinctCount(s[1..]);
      assert (set x | x in s) == {s[0]} + (set x | x in s[1..]);
      assert s[0] !in s[1..];
    }
  }

  // Finite sets.

  function Below(n: nat): (r: set<nat>)
    ensures forall i: nat :: i in r <==> i < n
    ensures |r| == n
  {
    if n == 0 then {} else Below(n - 1) + {n - 1}
  }

  lemma SubsetFull<T>(a: set<T>, b: set<T>)
    requires a <= b && |a| == |b|
    ensures a == b
  {
    if x :| x in b && x !in a {
      assert a <= b - {x};
      SubsetSize(a, b - {x});
    }
  }

  lemma SubsetSize<T>(a: set<T>, b: set<T>)
    requires a <= b
    ensures |a| <= |b|
  {
    if a != {} {
      var x :| x in a;
      SubsetSize(a - {x}, b - {x});
    }
  }
}
