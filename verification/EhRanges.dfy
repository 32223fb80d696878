/** The exception ranges of a method: a tree that is built from the outside in, and a search that remembers where it
    stopped. */
module EhRanges {
  import opened Sequences

  type Id = nat

  /** The ranges by number, in the order in which they were added; range 0 is the whole method. Children are listed by
      address. */
  datatype Tree = Tree(startPc: seq<int>, endPc: seq<int>, outer: seq<Id>, kids: seq<seq<Id>>)

  function Size(t: Tree): nat {
    |t.startPc|
  }

  predicate Sizes(t: Tree) {
    |t.startPc| == |t.endPc| == |t.outer| == |t.kids| > 0
  }

  predicate Covers(t: Tree, i: Id, pc: int)
    requires Sizes(t) && i < Size(t)
  {
    t.startPc[i] <= pc < t.endPc[i]
  }

  /** A child is older than its parent, because a range is added around the ranges it encloses. */
  function Rank(t: Tree, i: Id): nat {
    if i == 0 then Size(t) else i
  }

  /** The children of i: inside it, in address order, and disjoint. */
  ghost predicate KidsOk(t: Tree, i: Id)
    requires Sizes(t) && i < Size(t)
  {
    var l := t.kids[i];
    && (forall j :: 0 <= j < |l| ==>
          && 0 < l[j] < Size(t) && Rank(t, l[j]) < Rank(t, i) && t.outer[l[j]] == i
          && t.startPc[i] <= t.startPc[l[j]] < t.endPc[l[j]] <= t.endPc[i])
    && (forall j, k :: 0 <= j < k < |l| ==> t.endPc[l[j]] <= t.startPc[l[k]])
  }

  ghost predicate TreeOk(t: Tree) {
    && Sizes(t) && t.startPc[0] == 0 && t.endPc[0] > 0 && t.outer[0] == 0
    && (forall i: Id :: i < Size(t) ==> KidsOk(t, i))
    && (forall i: Id :: 0 < i < Size(t) ==> t.outer[i] < Size(t) && i in t.kids[t.outer[i]])
  }

  // Searching.

  /** The most specific range around pc: it covers pc and none of its children does. */
  ghost predicate Innermost(t: Tree, h: Id, pc: int)
    requires Sizes(t) && h < Size(t) && KidsOk(t, h)
  {
    Covers(t, h, pc) && forall c :: c in t.kids[h] ==> !Covers(t, c, pc)
  }

  /** The ranges around a range, from the inside out. */
  ghost function Chain(t: Tree, i: Id): (s: seq<Id>)
    requires TreeOk(t) && i < Size(t)
    ensures s != [] && s[0] == i && s[|s| - 1] == 0
    decreases Size(t) - Rank(t, i)
  {
    if i == 0 then [0] else (OuterFacts(t, i); [i] + Chain(t, t.outer[i]))
  }

  lemma OuterFacts(t: Tree, i: Id)
    requires TreeOk(t) && 0 < i < Size(t)
    ensures t.outer[i] < Size(t) && Rank(t, t.outer[i]) > Rank(t, i) && i in t.kids[t.outer[i]]
    ensures forall pc :: Covers(t, i, pc) ==> Covers(t, t.outer[i], pc)
    ensures t.startPc[t.outer[i]] <= t.startPc[i] < t.endPc[i] <= t.endPc[t.outer[i]]
  {
    var o := t.outer[i];
    assert KidsOk(t, o);
    var j :| 0 <= j < |t.kids[o]| && t.kids[o][j] == i;
  }

  /** Every range on the way out covers what the range covers, and was added later. */
  lemma {:induction false} ChainCovers(t: Tree, i: Id, pc: int)
    requires TreeOk(t) && i < Size(t) && Covers(t, i, pc)
    ensures forall c :: c in Chain(t, i) ==> c < Size(t) && Covers(t, c, pc)
    ensures forall j, k :: 0 <= j < k < |Chain(t, i)| ==> Rank(t, Chain(t, i)[j]) < Rank(t, Chain(t, i)[k])
    decreases Size(t) - Rank(t, i)
  {
    if i != 0 {
      OuterFacts(t, i);
      ChainCovers(t, t.outer[i], pc);
      var s := Chain(t, t.outer[i]);
      forall k | 0 <= k < |s| ensures Rank(t, i) < Rank(t, s[k]) {
        if k > 0 { assert Rank(t, s[0]) < Rank(t, s[k]); }
      }
    }
  }

  /** On the way out from h, the last range before a given one is a child of that one. */
  lemma {:induction false} StepBelow(t: Tree, h: Id, o: Id, pc: int) returns (c: Id)
    requires TreeOk(t) && h < Size(t) && o in Chain(t, h) && o != h && Covers(t, h, pc)
    ensures o < Size(t) && 0 < c < Size(t) && c in Chain(t, h) && t.outer[c] == o && c in t.kids[o] && Covers(t, c, pc)
    decreases Size(t) - Rank(t, h)
  {
    OuterFacts(t, h);
    if t.outer[h] == o {
      c := h;
    } else {
      c := StepBelow(t, t.outer[h], o, pc);
    }
  }

  lemma SameKid(t: Tree, o: Id, c: Id, d: Id, pc: int)
    requires TreeOk(t) && o < Size(t) && c in t.kids[o] && d in t.kids[o] && c < Size(t) && d < Size(t)
    requires Covers(t, c, pc) && Covers(t, d, pc)
    ensures c == d
  {
    assert KidsOk(t, o);
    var j :| 0 <= j < |t.kids[o]| && t.kids[o][j] == c;
    var k :| 0 <= k < |t.kids[o]| && t.kids[o][k] == d;
  }

  /** The way out from the outer range of i continues the way out from i. */
  lemma OnTheWay(t: Tree, h: Id, i: Id)
    requires TreeOk(t) && 0 < i < Size(t) && t.outer[i] < Size(t) && h in Chain(t, t.outer[i])
    ensures h in Chain(t, i)
  {
  }

  /** Of two ranges that cover pc, one is around the other. */
  lemma {:induction false} Nested(t: Tree, i: Id, h: Id, pc: int)
    requires TreeOk(t) && i < Size(t) && h < Size(t) && Covers(t, i, pc) && Covers(t, h, pc)
    ensures i in Chain(t, h) || h in Chain(t, i)
    decreases 2 * Size(t) - Rank(t, i) - Rank(t, h)
  {
    if i != h {
      if Rank(t, i) < Rank(t, h) {
        OneNested(t, i, h, pc);
      } else {
        OneNested(t, h, i, pc);
      }
    }
  }

  lemma {:induction false} OneNested(t: Tree, i: Id, h: Id, pc: int)
    requires TreeOk(t) && 0 < i < Size(t) && h < Size(t) && Covers(t, i, pc) && Covers(t, h, pc)
    requires Rank(t, i) < Rank(t, h)
    ensures i in Chain(t, h) || h in Chain(t, i)
    decreases 2 * Size(t) - Rank(t, i) - Rank(t, h), 0
  {
    OuterFacts(t, i);
    var o := t.outer[i];
    Nested(t, o, h, pc);
    if h in Chain(t, o) {
      OnTheWay(t, h, i);
    } else {
      var c := StepBelow(t, h, o, pc);
      SameKid(t, o, c, i, pc);
    }
  }

  /** Walking outward from the innermost range lists exactly the ranges that cover pc, in the order they were added, and
      the whole method last. */
  lemma ChainIsCover(t: Tree, h: Id, pc: int)
    requires TreeOk(t) && h < Size(t) && Innermost(t, h, pc)
    ensures forall i: Id :: i < Size(t) ==> (i in Chain(t, h) <==> Covers(t, i, pc))
    ensures forall j, k :: 0 <= j < k < |Chain(t, h)| ==> Chain(t, h)[j] < Chain(t, h)[k] || k == |Chain(t, h)| - 1
  {
    ChainCovers(t, h, pc);
    forall i: Id | i < Size(t) && Covers(t, i, pc) ensures i in Chain(t, h) {
      Nested(t, i, h, pc);
      if i !in Chain(t, h) {
        var c := StepBelow(t, i, h, pc);
      }
    }
    var s := Chain(t, h);
    forall j, k | 0 <= j < k < |s| - 1 ensures s[j] < s[k] {
      assert Rank(t, s[k]) < Rank(t, s[|s| - 1]);
    }
  }

  // Adding a range.

  /** The ranges at the head of the list that start below x. */
  function Lower(t: Tree, l: seq<Id>, x: int): (k: nat)
    requires forall j :: 0 <= j < |l| ==> l[j] < |t.startPc|
    ensures k <= |l| && (k < |l| ==> t.startPc[l[k]] >= x)
    ensures forall j :: 0 <= j < k ==> t.startPc[l[j]] < x
  {
    if l == [] || t.startPc[l[0]] >= x then 0 else 1 + Lower(t, l[1..], x)
  }

  /** A new range encloses every range at the top level or is disjoint from it, so none is split. */
  ghost predicate NoSplit(t: Tree, start: int, end: int)
    requires TreeOk(t)
  {
    && 0 <= start < end <= t.endPc[0]
    && forall j :: 0 <= j < |t.kids[0]| ==>
         var c := t.kids[0][j];
         KidsOk(t, 0) && (t.endPc[c] <= start || end <= t.startPc[c] || (start <= t.startPc[c] && t.endPc[c] <= end))
  }

  lemma TopIds(t: Tree)
    requires TreeOk(t)
    ensures forall j :: 0 <= j < |t.kids[0]| ==> 0 < t.kids[0][j] < Size(t)
  {
    assert KidsOk(t, 0);
  }

  function Moved(outer: seq<Id>, l: seq<Id>, h: Id): (r: seq<Id>)
    ensures |r| == |outer| && forall i :: 0 <= i < |r| ==> r[i] == if i in l then h else outer[i]
  {
    seq(|outer|, i requires 0 <= i < |outer| => if i in l then h else outer[i])
  }

  /** The tree with a new range at the top level, around the ranges that it encloses. */
  ghost function Inserted(t: Tree, start: int, end: int): Tree
    requires TreeOk(t)
  {
    TopIds(t);
    var l, h := t.kids[0], Size(t);
    var a, b := Lower(t, l, start), Lower(t, l, end);
    var mid := if a <= b then l[a..b] else [];
    Tree(t.startPc + [start], t.endPc + [end], Moved(t.outer, mid, h) + [0],
         t.kids[0 := l[..a] + [h] + l[if a <= b then b else a..]] + [mid])
  }

  /** Adding a range that needs no split keeps the tree a tree. */
  lemma InsertedOk(t: Tree, start: int, end: int)
    requires TreeOk(t) && NoSplit(t, start, end)
    ensures TreeOk(Inserted(t, start, end)) && Size(Inserted(t, start, end)) == Size(t) + 1
  {
    hide Inserted, TreeOk, KidsOk, NoSplit, IsInserted, Lower;
    TreeSizes(t);
    InsertedParts(t, start, end);
    InsertedTree(t, Inserted(t, start, end), start, end, Lower(t, t.kids[0], start), Lower(t, t.kids[0], end));
  }

  lemma InsertedParts(t: Tree, start: int, end: int)
    requires TreeOk(t) && NoSplit(t, start, end)
    ensures 0 <= start < end <= t.endPc[0]
    ensures forall j :: 0 <= j < |t.kids[0]| ==> 0 < t.kids[0][j] < |t.startPc|
    ensures var l, a, b := t.kids[0], Lower(t, t.kids[0], start), Lower(t, t.kids[0], end);
            && a <= b <= |l| && IsInserted(t, Inserted(t, start, end), start, end, a, b)
            && (forall j :: 0 <= j < a ==> t.endPc[l[j]] <= start)
            && (forall j :: a <= j < b ==> start <= t.startPc[l[j]] && t.endPc[l[j]] <= end)
            && (forall j :: b <= j < |l| ==> end <= t.startPc[l[j]])
  {
    hide Lower, KidsOk;
    TopIds(t);
    LowerOrder(t, start, end);
  }

  lemma InsertedTree(t: Tree, r: Tree, start: int, end: int, a: nat, b: nat)
    requires TreeOk(t) && IsInserted(t, r, start, end, a, b) && 0 <= start < end <= t.endPc[0]
    requires forall j :: 0 <= j < |t.kids[0]| ==> 0 < t.kids[0][j] < Size(t)
    requires forall j :: 0 <= j < a ==> t.endPc[t.kids[0][j]] <= start
    requires forall j :: a <= j < b ==> start <= t.startPc[t.kids[0][j]] && t.endPc[t.kids[0][j]] <= end
    requires forall j :: b <= j < |t.kids[0]| ==> end <= t.startPc[t.kids[0][j]]
    ensures TreeOk(r) && Size(r) == Size(t) + 1
  {
    hide KidsOk;
    InsertedSizes(t, r, start, end, a, b);
    forall i: Id | i < Size(r) ensures KidsOk(r, i) {
      if i == 0 {
        InsertedTop(t, r, start, end, a, b);
      } else if i == Size(t) {
        InsertedNew(t, r, start, end, a, b);
      } else {
        InsertedOther(t, r, i, t.kids[0][a..b]);
      }
    }
    hide TreeOk;
    forall i: Id | 0 < i < Size(r) ensures r.outer[i] < Size(r) && i in r.kids[r.outer[i]] {
      InsertedOuter(t, r, a, b, i);
    }
    TreeFrom(r);
  }

  lemma InsertedSizes(t: Tree, r: Tree, start: int, end: int, a: nat, b: nat)
    requires IsInserted(t, r, start, end, a, b)
    ensures Sizes(t) && Sizes(r) && Size(r) == Size(t) + 1 && r.startPc[0] == 0 && r.endPc[0] > 0 && r.outer[0] == 0
    ensures r.startPc[|r.startPc| - 1] == start && r.endPc[|r.endPc| - 1] == end
    ensures t.startPc <= r.startPc && t.endPc <= r.endPc && r.outer == Moved(t.outer, t.kids[0][a..b], Size(t)) + [0]
    ensures forall i :: 0 < i < Size(t) ==> r.kids[i] == t.kids[i]
    ensures forall x :: x in t.kids[0][a..b] ==> x in t.kids[0]
  {
    assert KidsOk(t, 0);
  }

  lemma TreeFrom(r: Tree)
    requires Sizes(r) && r.startPc[0] == 0 && r.endPc[0] > 0 && r.outer[0] == 0
    requires forall i: Id :: i < Size(r) ==> KidsOk(r, i)
    requires forall i: Id :: 0 < i < Size(r) ==> r.outer[i] < Size(r) && i in r.kids[r.outer[i]]
    ensures TreeOk(r)
  {
  }

  /** The parts of the inserted tree. */
  ghost predicate IsInserted(t: Tree, r: Tree, start: int, end: int, a: nat, b: nat) {
    && TreeOk(t) && a <= b <= |t.kids[0]| && r.startPc == t.startPc + [start] && r.endPc == t.endPc + [end]
    && r.outer == Moved(t.outer, t.kids[0][a..b], Size(t)) + [0]
    && r.kids == t.kids[0 := t.kids[0][..a] + [Size(t)] + t.kids[0][b..]] + [t.kids[0][a..b]]
  }

  lemma TopDistinct(t: Tree)
    requires TreeOk(t)
    ensures NoRepeats(t.kids[0]) && forall j :: 0 <= j < |t.kids[0]| ==> 0 < t.kids[0][j] < Size(t) && t.outer[t.kids[0][j]] == 0
  {
    assert KidsOk(t, 0);
    var l := t.kids[0];
    forall j, k | 0 <= j < k < |l| ensures l[j] != l[k] {
      assert t.endPc[l[j]] <= t.startPc[l[k]];
    }
  }

  /** The new list of the top level, place by place. */
  function TopAt(l: seq<Id>, h: Id, a: nat, b: nat, j: nat): Id
    requires a <= b <= |l| && j <= a + |l| - b
  {
    if j < a then l[j] else if j == a then h else l[j - a - 1 + b]
  }

  lemma TopList(l: seq<Id>, h: Id, a: nat, b: nat)
    requires a <= b <= |l|
    ensures var m := l[..a] + [h] + l[b..];
            |m| == a + 1 + |l| - b && forall j :: 0 <= j < |m| ==> m[j] == TopAt(l, h, a, b, j)
  {
  }

  lemma TopOrdered(t: Tree, r: Tree, start: int, end: int, a: nat, b: nat)
    requires IsInserted(t, r, start, end, a, b) && Sizes(t) && KidsOk(t, 0) && start < end
    requires forall j :: 0 <= j < |t.kids[0]| ==> t.kids[0][j] < Size(t)
    requires forall j :: 0 <= j < a ==> t.endPc[t.kids[0][j]] <= start
    requires forall j :: b <= j < |t.kids[0]| ==> end <= t.startPc[t.kids[0][j]]
    ensures Sizes(r) && Size(r) == Size(t) + 1 && forall j :: 0 <= j < |r.kids[0]| ==> r.kids[0][j] < Size(r)
    ensures forall j, k :: 0 <= j < k < |r.kids[0]| ==> r.endPc[r.kids[0][j]] <= r.startPc[r.kids[0][k]]
  {
    hide TreeOk;
    TopList(t.kids[0], Size(t), a, b);
    assert r.kids[0] == t.kids[0][..a] + [Size(t)] + t.kids[0][b..];
  }

  lemma TopElements(t: Tree, r: Tree, start: int, end: int, a: nat, b: nat)
    requires IsInserted(t, r, start, end, a, b) && Sizes(t) && KidsOk(t, 0) && NoRepeats(t.kids[0]) && start < end
    requires 0 <= start && end <= t.endPc[0] && t.startPc[0] == 0
    ensures Sizes(r) && Size(r) == Size(t) + 1
    ensures forall j :: 0 <= j < |r.kids[0]| ==>
              var c := r.kids[0][j];
              0 < c < Size(r) && r.outer[c] == 0 && r.startPc[0] <= r.startPc[c] < r.endPc[c] <= r.endPc[0]
  {
    hide TreeOk;
    var l, h := t.kids[0], Size(t);
    var mid := l[a..b];
    TopList(l, h, a, b);
    assert r.kids[0] == l[..a] + [h] + l[b..];
    forall j | 0 <= j < |l| && (j < a || b <= j) ensures l[j] !in mid {
    }
    forall j | 0 <= j < |r.kids[0]| ensures
      var c := r.kids[0][j];
      0 < c < Size(r) && r.outer[c] == 0 && r.startPc[0] <= r.startPc[c] < r.endPc[c] <= r.endPc[0]
    {
      var i := if j < a then j else j - a - 1 + b;
      if j != a { assert r.kids[0][j] == l[i] && l[i] !in mid; }
    }
  }

  lemma InsertedTop(t: Tree, r: Tree, start: int, end: int, a: nat, b: nat)
    requires IsInserted(t, r, start, end, a, b) && 0 <= start < end <= t.endPc[0]
    requires forall j :: 0 <= j < |t.kids[0]| ==> 0 < t.kids[0][j] < Size(t)
    requires forall j :: 0 <= j < a ==> t.endPc[t.kids[0][j]] <= start
    requires forall j :: b <= j < |t.kids[0]| ==> end <= t.startPc[t.kids[0][j]]
    ensures Sizes(r) && KidsOk(r, 0)
  {
    TopDistinct(t);
    assert KidsOk(t, 0);
    TopOrdered(t, r, start, end, a, b);
    TopElements(t, r, start, end, a, b);
    hide TreeOk, IsInserted, NoRepeats;
  }

  lemma InsertedNew(t: Tree, r: Tree, start: int, end: int, a: nat, b: nat)
    requires IsInserted(t, r, start, end, a, b)
    requires forall j :: 0 <= j < |t.kids[0]| ==> 0 < t.kids[0][j] < Size(t)
    requires forall j :: a <= j < b ==> start <= t.startPc[t.kids[0][j]] && t.endPc[t.kids[0][j]] <= end
    ensures Sizes(r) && KidsOk(r, Size(t))
  {
    assert KidsOk(t, 0);
    hide TreeOk;
    var l, h := t.kids[0], Size(t);
    var mid := l[a..b];
    forall j | 0 <= j < |mid| ensures mid[j] == l[a + j] && r.outer[mid[j]] == h {
      assert mid[j] in mid;
    }
  }

  lemma InsertedOther(t: Tree, r: Tree, i: Id, mid: seq<Id>)
    requires TreeOk(t) && Sizes(r) && Size(r) == Size(t) + 1 && 0 < i < Size(t)
    requires t.startPc <= r.startPc && t.endPc <= r.endPc && r.outer == Moved(t.outer, mid, Size(t)) + [0]
    requires r.kids[i] == t.kids[i] && forall x :: x in mid ==> x in t.kids[0]
    ensures KidsOk(r, i)
  {
    TopDistinct(t);
    assert KidsOk(t, i);
    hide TreeOk;
    forall j | 0 <= j < |t.kids[i]| ensures t.kids[i][j] !in mid {
    }
  }

  lemma InsertedOuter(t: Tree, r: Tree, a: nat, b: nat, i: Id)
    requires |r.startPc| > 0 && |r.endPc| > 0 && 0 < i <= Size(t)
    requires IsInserted(t, r, r.startPc[|r.startPc| - 1], r.endPc[|r.endPc| - 1], a, b)
    ensures Sizes(r) && r.outer[i] < Size(r) && i in r.kids[r.outer[i]]
  {
    var l, h := t.kids[0], Size(t);
    var mid := l[a..b];
    assert l == l[..a] + mid + l[b..];
    if i == h {
      assert r.kids[0][a] == h;
    } else if i in mid {
      assert r.outer[i] == h && r.kids[h] == mid;
    } else {
      assert r.outer[i] == t.outer[i];
      if t.outer[i] == 0 {
        assert i in l[..a] || i in l[b..];
      }
    }
  }

  lemma LowerOrder(t: Tree, start: int, end: int)
    requires TreeOk(t) && NoSplit(t, start, end)
    ensures (forall j :: 0 <= j < |t.kids[0]| ==> t.kids[0][j] < Size(t))
    ensures Lower(t, t.kids[0], start) <= Lower(t, t.kids[0], end) <= |t.kids[0]|
    ensures var l, a, b := t.kids[0], Lower(t, t.kids[0], start), Lower(t, t.kids[0], end);
            && (forall j :: 0 <= j < a ==> t.endPc[l[j]] <= start)
            && (forall j :: a <= j < b ==> start <= t.startPc[l[j]] && t.endPc[l[j]] <= end)
            && (forall j :: b <= j < |l| ==> end <= t.startPc[l[j]])
  {
    hide Lower;
    TopIds(t);
    KidsInOrder(t);
    hide TreeOk, KidsOk;
    LowerRest(t, t.kids[0], start);
    LowerRest(t, t.kids[0], end);
  }

  ghost predicate LeftToRight(t: Tree, l: seq<Id>) {
    && (forall j :: 0 <= j < |l| ==> l[j] < |t.startPc| && l[j] < |t.endPc| && t.startPc[l[j]] < t.endPc[l[j]])
    && (forall j, k :: 0 <= j < k < |l| ==> t.endPc[l[j]] <= t.startPc[l[k]])
  }

  lemma KidsInOrder(t: Tree)
    requires TreeOk(t)
    ensures LeftToRight(t, t.kids[0])
  {
    assert KidsOk(t, 0);
  }

  lemma LowerRest(t: Tree, l: seq<Id>, x: int)
    requires LeftToRight(t, l)
    ensures forall j :: Lower(t, l, x) <= j < |l| ==> x <= t.startPc[l[j]]
  {
    hide Lower;
    var a := Lower(t, l, x);
    forall j | a <= j < |l| ensures x <= t.startPc[l[j]] {
      if a < j { assert t.endPc[l[a]] <= t.startPc[l[j]]; }
    }
  }

  // The ranges of a whole method.

  /** The tree after adding the ranges rs, one after another, to a method of the given length. */
  ghost predicate Built(t: Tree, rs: seq<(int, int)>, codeLength: nat)
    decreases |rs|
  {
    if rs == [] then
      t == Tree([0], [codeLength + 1], [0], [[]])
    else
      var last := rs[|rs| - 1];
      exists before: Tree ::
        && Built(before, rs[..|rs| - 1], codeLength) && TreeOk(before) && NoSplit(before, last.0, last.1)
        && t == Inserted(before, last.0, last.1)
  }

  lemma {:induction false} BuiltOk(t: Tree, rs: seq<(int, int)>, codeLength: nat)
    requires Built(t, rs, codeLength)
    ensures TreeOk(t) && Size(t) == |rs| + 1 && t.endPc[0] == codeLength + 1
    ensures forall i :: 0 <= i < |rs| ==> t.startPc[i + 1] == rs[i].0 && t.endPc[i + 1] == rs[i].1
    decreases |rs|
  {
    hide Lower, NoSplit, KidsOk, TreeOk, Inserted, IsInserted;
    if rs == [] {
      EmptyOk(t, codeLength);
    } else {
      var last := rs[|rs| - 1];
      var before: Tree :| Built(before, rs[..|rs| - 1], codeLength) && TreeOk(before) && NoSplit(before, last.0, last.1)
        && t == Inserted(before, last.0, last.1);
      BuiltOk(before, rs[..|rs| - 1], codeLength);
      InsertedOk(before, last.0, last.1);
      InsertedBounds(before, last.0, last.1);
    }
  }

  lemma InsertedBounds(t: Tree, start: int, end: int)
    requires TreeOk(t)
    ensures Inserted(t, start, end).startPc == t.startPc + [start]
    ensures Inserted(t, start, end).endPc == t.endPc + [end]
    ensures Sizes(t)
  {
  }

  lemma EmptyOk(t: Tree, codeLength: nat)
    requires t == Tree([0], [codeLength + 1], [0], [[]])
    ensures TreeOk(t)
  {
  }

  /** The numbers of the added ranges that cover pc, in the order they were added. */
  function Covering(rs: seq<(int, int)>, pc: int): (s: seq<Id>)
    ensures forall i: Id :: i in s <==> 0 < i <= |rs| && rs[i - 1].0 <= pc < rs[i - 1].1
  {
    if rs == [] then
      []
    else
      var n := |rs| - 1;
      Covering(rs[..n], pc) + if rs[n].0 <= pc < rs[n].1 then [n + 1] else []
  }

  predicate Increasing(s: seq<Id>) {
    forall j, k :: 0 <= j < k < |s| ==> s[j] < s[k]
  }

  lemma {:induction false} CoveringIncreases(rs: seq<(int, int)>, pc: int)
    ensures Increasing(Covering(rs, pc))
  {
    if rs != [] {
      var s := Covering(rs[..|rs| - 1], pc);
      CoveringIncreases(rs[..|rs| - 1], pc);
      forall j | 0 <= j < |s| ensures s[j] < |rs| {
        assert s[j] in s;
      }
    }
  }

  lemma IncreasingInit(s: seq<Id>, i: Id)
    requires Increasing(s) && s != []
    ensures Increasing(s[..|s| - 1]) && (i in s[..|s| - 1] <==> i in s && i != s[|s| - 1])
    ensures i in s ==> i <= s[|s| - 1]
  {
    var m := |s| - 1;
    if i in s {
      var j :| 0 <= j < |s| && s[j] == i;
      if j < m { assert s[..m][j] == i; }
    }
  }

  lemma {:induction false} SameIncreasing(s: seq<Id>, r: seq<Id>)
    requires Increasing(s) && Increasing(r) && forall i: Id :: i in s <==> i in r
    ensures s == r
  {
    if s == [] {
      HeadIn(r);
    } else {
      var m := |s| - 1;
      assert s[m] in r;
      var n := |r| - 1;
      assert r[n] in s;
      IncreasingInit(s, r[n]);
      IncreasingInit(r, s[m]);
      forall i: Id ensures i in s[..m] <==> i in r[..n] {
        IncreasingInit(s, i);
        IncreasingInit(r, i);
      }
      SameIncreasing(s[..m], r[..n]);
      assert s == s[..m] + [s[m]] && r == r[..n] + [r[n]];
    }
  }

  /** Walking outward from the innermost range at pc lists exactly the added ranges that cover pc, in the order in which
      they were added, and then the whole method. */
  lemma WalkOut(t: Tree, rs: seq<(int, int)>, codeLength: nat, h: Id, pc: int)
    requires Built(t, rs, codeLength) && h < |t.startPc| && 0 <= pc <= codeLength
    requires Sizes(t) && KidsOk(t, h) && Innermost(t, h, pc)
    ensures TreeOk(t) && Chain(t, h) == Covering(rs, pc) + [0]
  {
    hide KidsOk, Innermost, Built, TreeOk;
    BuiltOk(t, rs, codeLength);
    ChainIsCover(t, h, pc);
    var c := Chain(t, h);
    var s := c[..|c| - 1];
    assert c == s + [0];
    forall i: Id ensures i in s <==> i in Covering(rs, pc) {
      if i in s {
        var k :| 0 <= k < |s| && s[k] == i;
        BeforeEnd(t, h, pc, k);
        assert c[k] == i;
        assert rs[i - 1].0 == t.startPc[i] && rs[i - 1].1 == t.endPc[i];
      }
      if i in Covering(rs, pc) {
        assert rs[i - 1].0 == t.startPc[i] && rs[i - 1].1 == t.endPc[i];
        assert i < Size(t) && Covers(t, i, pc);
        var k :| 0 <= k < |c| && c[k] == i;
        assert k != |s|;
        assert s[k] == i;
      }
    }
    CoveringIncreases(rs, pc);
    SameIncreasing(s, Covering(rs, pc));
  }

  /** Before its end, the way out does not pass the whole method. */
  lemma BeforeEnd(t: Tree, h: Id, pc: int, k: nat)
    requires TreeOk(t) && h < Size(t) && KidsOk(t, h) && Innermost(t, h, pc) && k < |Chain(t, h)| - 1
    ensures 0 < Chain(t, h)[k] < |t.startPc| && Covers(t, Chain(t, h)[k], pc)
  {
    ChainCovers(t, h, pc);
    var c := Chain(t, h);
    assert c[k] in c;
    assert Rank(t, c[k]) < Rank(t, c[|c| - 1]);
  }

  // The search with its cache.

  const NO_CACHE: int := 0xFF_FFFF

  /** The remaining children of a range: those before have ended at pc. */
  ghost predicate Rest(t: Tree, range: Id, child: seq<Id>, pc: int)
    requires Sizes(t) && range < Size(t) && KidsOk(t, range)
  {
    var l := t.kids[range];
    && |child| <= |l| && child == l[|l| - |child|..]
    && forall j :: 0 <= j < |l| - |child| ==> t.endPc[l[j]] <= pc
  }

  /** What a search leaves behind: the range it found is the innermost one from where it was found up to the next child. */
  ghost predicate CacheOk(t: Tree, start: int, end: int, range: Id, next: seq<Id>)
    requires TreeOk(t)
  {
    start == NO_CACHE ||
    (&& range < Size(t) && KidsOk(t, range) && Covers(t, range, start) && Rest(t, range, next, start)
     && (next != [] ==> next[0] < Size(t) && start < t.startPc[next[0]] && end == t.startPc[next[0]])
     && (next == [] ==> end == t.endPc[range]))
  }

  /** Between the children that have ended and the next one, the range itself is the innermost. */
  lemma FoundHere(t: Tree, range: Id, child: seq<Id>, at: int, pc: int)
    requires TreeOk(t) && range < Size(t) && KidsOk(t, range) && Rest(t, range, child, at) && at <= pc && Covers(t, range, pc)
    requires child != [] ==> child[0] < Size(t) && pc < t.startPc[child[0]]
    ensures Innermost(t, range, pc)
  {
    var l := t.kids[range];
    var k := |l| - |child|;
    forall c | c in l ensures !Covers(t, c, pc) {
      var j :| 0 <= j < |l| && l[j] == c;
      if j >= k {
        assert child[0] == l[k];
        assert j > k ==> t.endPc[l[k]] <= t.startPc[l[j]];
      }
    }
  }

  /** Where a range is among its siblings. */
  function Place(l: seq<Id>, c: Id): (j: nat)
    requires c in l
    ensures j < |l| && l[j] == c
  {
    if l[0] == c then 0 else 1 + Place(l[1..], c)
  }

  /** Climbing out of a range that has ended, its siblings up to itself have ended as well. */
  lemma Climb(t: Tree, h: Id, pc: int)
    requires TreeOk(t) && 0 < h < Size(t) && pc >= t.endPc[h]
    ensures t.outer[h] < Size(t) && h in t.kids[t.outer[h]] && KidsOk(t, t.outer[h])
    ensures var l := t.kids[t.outer[h]]; Rest(t, t.outer[h], l[Place(l, h) + 1..], pc)
  {
    OuterFacts(t, h);
    var o := t.outer[h];
    var l := t.kids[o];
    assert KidsOk(t, o);
    var k := Place(l, h);
    forall j | 0 <= j < k + 1 ensures t.endPc[l[j]] <= pc {
      if j < k { assert t.endPc[l[j]] <= t.startPc[l[k]]; }
    }
  }

  lemma TreeSizes(t: Tree)
    requires TreeOk(t)
    ensures Sizes(t)
  {
  }

  /** The facts about a tree that a search needs. */
  lemma TreeFacts(t: Tree, i: Id)
    requires TreeOk(t) && i < |t.startPc|
    ensures Sizes(t) && KidsOk(t, i) && t.startPc[0] == 0 && KidsOk(t, 0) && Rank(t, i) <= |t.startPc|
    ensures forall pc :: Rest(t, i, t.kids[i], pc)
  {
  }

  /** The next child of a search, and what is left when it has ended. */
  lemma NextChild(t: Tree, range: Id, c: seq<Id>, pc: int)
    requires TreeOk(t) && range < |t.startPc| && KidsOk(t, range) && Rest(t, range, c, pc) && c != []
    ensures 0 < c[0] < |t.startPc| && Rank(t, c[0]) < Rank(t, range) && KidsOk(t, c[0])
    ensures t.endPc[c[0]] <= pc ==> Rest(t, range, c[1..], pc)
  {
    var l := t.kids[range];
    assert c[0] == l[|l| - |c|];
  }

  /** What the search remembers is right. */
  lemma Remember(t: Tree, range: Id, c: seq<Id>, pc: int)
    requires TreeOk(t) && range < |t.startPc| && KidsOk(t, range) && Covers(t, range, pc) && Rest(t, range, c, pc)
    requires c != [] ==> c[0] < |t.startPc| && pc < t.startPc[c[0]]
    ensures CacheOk(t, pc, if c == [] then t.endPc[range] else t.startPc[c[0]], range, c)
  {
  }

  lemma Uncached(t: Tree, end: int, range: Id, next: seq<Id>)
    requires TreeOk(t)
    ensures CacheOk(t, NO_CACHE, end, range, next)
  {
  }

  /** What is remembered is enough to answer up to the next child, and to go on after it. */
  lemma Remembered(t: Tree, start: int, end: int, range: Id, next: seq<Id>, pc: int)
    requires TreeOk(t) && CacheOk(t, start, end, range, next) && start <= pc && start != NO_CACHE
    ensures range < |t.startPc| && KidsOk(t, range) && t.startPc[range] <= pc && Rest(t, range, next, pc)
    ensures pc < end ==> Innermost(t, range, pc)
  {
    if pc < end {
      assert next != [] ==> t.startPc[next[0]] < t.endPc[range] by {
        if next != [] { NextChild(t, range, next, start); assert next[0] in t.kids[range]; }
      }
      FoundHere(t, range, next, start, pc);
    }
  }

  /** The tree and the cache. */
  class Ranges {
    var startPc: seq<int>
    var endPc: seq<int>
    var outer: seq<Id>
    var kids: seq<seq<Id>>
    var cacheRangeStart: int
    var cacheRangeEnd: int
    var cacheRange: Id
    var cacheNextChild: seq<Id>

    ghost function View(): Tree
      reads this`startPc, this`endPc, this`outer, this`kids
    {
      Tree(startPc, endPc, outer, kids)
    }

    ghost predicate Valid()
      reads this
    {
      TreeOk(View()) && CacheOk(View(), cacheRangeStart, cacheRangeEnd, cacheRange, cacheNextChild)
    }

    /** method_init_exceptions. */
    constructor (codeLength: nat)
      ensures Valid() && cacheRangeStart == NO_CACHE && View() == Tree([0], [codeLength + 1], [0], [[]])
    {
      startPc, endPc, outer, kids := [0], [codeLength + 1], [0], [[]];
      cacheRangeStart, cacheRangeEnd, cacheRange, cacheNextChild := NO_CACHE, 0, 0, [];
    }

    /** add_handler, for a range that encloses or is disjoint from every range at the top level, before any search. */
    method AddHandler(start: int, end: int)
      requires Valid() && NoSplit(View(), start, end) && cacheRangeStart == NO_CACHE
      modifies this`startPc, this`endPc, this`outer, this`kids
      ensures Valid() && View() == Inserted(old(View()), start, end)
    {
      hide Lower, NoSplit, KidsOk, TreeOk, CacheOk, Inserted;
      ghost var t := View();
      TreeSizes(t);
      InsertedOk(t, start, end);
      InsertedParts(t, start, end);
      ghost var a, b := Lower(t, kids[0], start), Lower(t, kids[0], end);
      var h := |startPc|;
      var top := kids[0];
      var left, first := TakeInside(top, start, end, a, b);
      var j := 0;
      while j < |left| && startPc[left[j]] < start
        invariant 0 <= j <= a
        modifies {}
      {
        j := j + 1;
      }
      startPc, endPc, outer := startPc + [start], endPc + [end], Moved(outer, first, h) + [0];
      kids := kids[0 := left[..j] + [h] + left[j..]] + [first];
      assert left[..j] == top[..a] && left[j..] == top[b..];
      Uncached(View(), cacheRangeEnd, cacheRange, cacheNextChild);
    }

    /** The loop that moves the ranges at the top level that lie inside the new one to its own list. */
    method TakeInside(top: seq<Id>, start: int, end: int, ghost a: nat, ghost b: nat) returns (left: seq<Id>, first: seq<Id>)
      requires start < end && a <= b <= |top| && |startPc| > 0
      requires forall j :: 0 <= j < |top| ==> top[j] < |startPc|
      requires forall j :: 0 <= j < a ==> startPc[top[j]] < start
      requires forall j :: a <= j < b ==> start <= startPc[top[j]] < end
      requires forall j :: b <= j < |top| ==> end <= startPc[top[j]]
      ensures left == top[..a] + top[b..] && first == top[a..b]
    {
      var before, i := [], 0;
      first := [];
      while i < |top| && startPc[top[i]] < end
        invariant 0 <= i <= b
        invariant i <= a ==> before == top[..i] && first == []
        invariant a <= i ==> before == top[..a] && first == top[a..i]
      {
        if startPc[top[i]] < start {
          before := before + [top[i]];
        } else {
          first := first + [top[i]];
        }
        i := i + 1;
      }
      left := before + top[i..];
    }

    /** find_handler_in_range: the loop over the remaining children, and the search in the child that covers pc. */
    method FindHandlerInRange(pc: int, range: Id, child: seq<Id>) returns (h: Id)
      requires TreeOk(View()) && range < |startPc| && KidsOk(View(), range) && Covers(View(), range, pc)
      requires Rest(View(), range, child, pc)
      modifies this`cacheRangeStart, this`cacheRangeEnd, this`cacheRange, this`cacheNextChild
      ensures Valid() && h < |startPc| && KidsOk(View(), h) && Innermost(View(), h, pc)
      decreases Rank(View(), range)
    {
      hide KidsOk, TreeOk, CacheOk, Rest, Innermost, Rank;
      ghost var t := View();
      TreeFacts(t, range);
      var c := child;
      while c != []
        invariant Rest(t, range, c, pc)
        decreases |c|
      {
        NextChild(t, range, c, pc);
        if pc < startPc[c[0]] {
          break;
        }
        if pc < endPc[c[0]] {
          TreeFacts(t, c[0]);
          h := FindHandlerInRange(pc, c[0], kids[c[0]]);
          return;
        }
        c := c[1..];
      }
      FoundHere(t, range, c, pc, pc);
      Remember(t, range, c, pc);
      cacheRange := range;
      cacheRangeStart := pc;
      cacheNextChild := c;
      cacheRangeEnd := if c == [] then endPc[range] else startPc[c[0]];
      return range;
    }

    /** find_handler: whatever was looked up before, the innermost range around pc. */
    method FindHandler(pc: int) returns (h: Id)
      requires Valid() && 0 <= pc < endPc[0] && pc < NO_CACHE
      modifies this`cacheRangeStart, this`cacheRangeEnd, this`cacheRange, this`cacheNextChild
      ensures Valid() && h < |startPc| && KidsOk(View(), h) && Innermost(View(), h, pc)
    {
      hide KidsOk, TreeOk, CacheOk, Rest, Innermost, Rank, Place;
      ghost var t := View();
      TreeSizes(t);
      TreeFacts(t, 0);
      if pc >= cacheRangeStart {
        Remembered(t, cacheRangeStart, cacheRangeEnd, cacheRange, cacheNextChild, pc);
        h := cacheRange;
        if pc < cacheRangeEnd {
          return;
        }
        while pc >= endPc[h]
          invariant h < |startPc| && KidsOk(t, h) && Rest(t, h, cacheNextChild, pc) && startPc[h] <= pc
          decreases Size(t) - Rank(t, h)
          modifies this`cacheNextChild
        {
          Climb(t, h, pc);
          OuterFacts(t, h);
          TreeFacts(t, outer[h]);
          cacheNextChild := kids[outer[h]][Place(kids[outer[h]], h) + 1..];
          h := outer[h];
        }
      } else {
        h := 0;
        cacheNextChild := kids[0];
      }
      h := FindHandlerInRange(pc, h, cacheNextChild);
    }

    /** sanity_check_exception_range: every assertion it makes holds. */
    method SanityCheck(range: Id) returns (ok: bool)
      requires TreeOk(View()) && range < |startPc|
      ensures ok
      decreases Rank(View(), range)
    {
      assert KidsOk(View(), range);
      ok := true;
      var j := 0;
      while j < |kids[range]|
        invariant 0 <= j <= |kids[range]| && ok
      {
        var ptr := kids[range][j];
        ok := ok && outer[ptr] == range && endPc[ptr] > startPc[ptr];
        if j + 1 < |kids[range]| {
          ok := ok && startPc[kids[range][j + 1]] >= endPc[ptr];
        }
        ok := ok && startPc[ptr] >= startPc[outer[ptr]] && endPc[ptr] <= endPc[outer[ptr]];
        var below := SanityCheck(ptr);
        ok := ok && below;
        j := j + 1;
      }
    }
  }
}
