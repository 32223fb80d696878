/** The constants of a class file, and the index that interning gives to a constant. */
module PoolCells {

  type Byte = x: int | 0 <= x < 256

  const UTF8: Byte := 1
  const UNICODE: Byte := 2
  const INTEGER: Byte := 3
  const FLOAT: Byte := 4
  const LONG: Byte := 5
  const DOUBLE: Byte := 6
  const CLASS: Byte := 7
  const STRING: Byte := 8
  const FIELDREF: Byte := 9
  const METHODREF: Byte := 10
  const INTERFACE_METHODREF: Byte := 11
  const NAME_AND_TYPE: Byte := 12
  const METHOD_HANDLE: Byte := 15
  const METHOD_TYPE: Byte := 16
  const INVOKE_DYNAMIC: Byte := 18

  /** The union of a word and an identifier. */
  datatype Entry = Word(w: nat) | Text(t: seq<Byte>)

  datatype Cell = Cell(tag: Byte, entry: Entry)

  type Pool = seq<Cell>

  predicate IsDouble(tag: Byte) { tag == LONG || tag == DOUBLE }
  predicate IsHalf(tag: Byte) { tag == CLASS || tag == STRING }
  predicate IsRef(tag: Byte) { tag == FIELDREF || tag == METHODREF || tag == INTERFACE_METHODREF }
  predicate IsPair(tag: Byte) { IsRef(tag) || tag == NAME_AND_TYPE }
  predicate IsWord(tag: Byte) { tag == INTEGER || tag == FLOAT }
  predicate IsSingle(tag: Byte) { IsHalf(tag) || IsPair(tag) || IsWord(tag) || tag == UTF8 }

  // Interning.

  /** The last place of a constant, or 0. */
  function LastAt(p: Pool, c: Cell): (i: nat)
    ensures i == 0 || (i < |p| && p[i] == c)
    ensures forall j :: 0 < j < |p| && i < j ==> p[j] != c
  {
    var n := |p| - 1;
    if n <= 0 then 0 else if p[n] == c then n else LastAt(p[..n], c)
  }

  predicate DoubleAt(p: Pool, i: nat, tag: Byte, w1: nat, w2: nat)
    requires i + 1 < |p|
  {
    p[i] == Cell(tag, Word(w1)) && p[i + 1].entry == Word(w2)
  }

  /** The last place of a constant of two words, or 0. */
  function LastDoubleAt(p: Pool, tag: Byte, w1: nat, w2: nat): (i: nat)
    ensures i == 0 || (i + 1 < |p| && DoubleAt(p, i, tag, w1, w2))
    ensures forall j :: 0 < j < |p| - 1 && i < j ==> !DoubleAt(p, j, tag, w1, w2)
  {
    var n := |p| - 2;
    if n <= 0 then 0 else if DoubleAt(p, n, tag, w1, w2) then n else
      var i := LastDoubleAt(p[..n + 1], tag, w1, w2);
      assert forall j :: 0 < j < n ==> (DoubleAt(p, j, tag, w1, w2) <==> DoubleAt(p[..n + 1], j, tag, w1, w2));
      i
  }

  /** A constant to be interned. */
  datatype Op = Single(c: Cell) | Double(tag: Byte, w1: nat, w2: nat)

  predicate OpOk(o: Op) {
    match o
    case Single(c) => IsSingle(c.tag) && (c.tag == UTF8 <==> c.entry.Text?)
    case Double(tag, _, _) => IsDouble(tag)
  }

  datatype Found = Found(pool: Pool, index: nat)

  function Started(p: Pool): Pool {
    if p == [] then [Cell(0, Word(0))] else p
  }

  function Cells(o: Op): Pool {
    match o
    case Single(c) => [c]
    case Double(tag, w1, w2) => [Cell(tag, Word(w1)), Cell(0, Word(w2))]
  }

  function LastOf(p: Pool, o: Op): (i: nat)
    ensures i == 0 || i < |p|
  {
    match o
    case Single(c) => LastAt(p, c)
    case Double(tag, w1, w2) => LastDoubleAt(p, tag, w1, w2)
  }

  /** The pool and the index after interning: the last place of the constant, or the end of the pool. */
  function Intern(p: Pool, o: Op): (r: Found)
    ensures r.index <= |Started(p)| && r.pool != [] && |p| <= |r.pool|
    ensures o.Single? ==> |r.pool| <= |Started(p)| + 1
  {
    if LastOf(p, o) != 0 then Found(p, LastOf(p, o)) else Found(Started(p) + Cells(o), |Started(p)|)
  }

  /** After the first entry, which is never used, constants of two words are followed by their second word, which has no
      tag, and no other entry lacks one. */
  ghost predicate Wf(p: Pool) {
    && (p != [] ==> p[0] == Cell(0, Word(0)))
    && forall i :: 0 < i < |p| ==> WfAt(p, i)
  }

  predicate WfAt(p: Pool, i: nat)
    requires 0 < i < |p|
  {
    var c := p[i];
    && (c.tag == 0 <==> i > 1 && IsDouble(p[i - 1].tag))
    && (IsDouble(c.tag) ==> i + 1 < |p|)
    && (c.tag == 0 || IsDouble(c.tag) || IsSingle(c.tag))
    && (c.tag == UTF8 <==> c.entry.Text?)
  }

  ghost predicate Has(p: Pool, o: Op, i: nat) {
    LastOf(p, o) == i && i != 0
  }

  /** A pool that ends with the cells of a constant has it there. */
  lemma LastAppended(p: Pool, o: Op)
    requires p != []
    ensures LastOf(p + Cells(o), o) == |p|
  {
    var q := p + Cells(o);
    match o
    case Single(c) => assert q[|p|] == c;
    case Double(tag, w1, w2) => assert DoubleAt(q, |p|, tag, w1, w2);
  }

  lemma WfAppended(p: Pool, o: Op)
    requires Wf(p) && p != [] && OpOk(o)
    ensures Wf(p + Cells(o))
  {
    var q := p + Cells(o);
    forall i | 0 < i < |q| ensures WfAt(q, i) {
      if i < |p| {
        assert WfAt(p, i) && q[i] == p[i] && (i > 1 ==> q[i - 1] == p[i - 1]);
      } else if i == |p| && i > 1 {
        assert WfAt(p, i - 1) && q[i - 1] == p[i - 1];
      }
    }
  }

  /** Interning keeps every entry where it is, and puts the constant where it says. */
  lemma InternAdds(p: Pool, o: Op)
    requires Wf(p) && OpOk(o)
    ensures var r := Intern(p, o); Wf(r.pool) && p <= r.pool && Has(r.pool, o, r.index) && 0 < r.index < |r.pool|
    ensures var r := Intern(p, o); |r.pool| <= |Started(p)| + 2 && (o.Single? ==> |r.pool| <= |Started(p)| + 1)
  {
    hide LastAt, LastDoubleAt;
    if LastOf(p, o) == 0 {
      LastAppended(Started(p), o);
      WfAppended(Started(p), o);
    }
  }

  /** What an index stands for. */
  lemma HasMeans(p: Pool, o: Op, i: nat)
    requires Has(p, o, i)
    ensures 0 < i < |p|
    ensures o.Single? ==> p[i] == o.c
    ensures o.Double? ==> i + 1 < |p| && DoubleAt(p, i, o.tag, o.w1, o.w2)
  {
  }

  /** Interning a constant that is there changes nothing and gives its index again. */
  lemma InternAgain(p: Pool, o: Op, i: nat)
    requires Has(p, o, i)
    ensures Intern(p, o) == Found(p, i)
  {
  }

  /** No other constant that is interned moves the last place of this one. */
  lemma InternKeeps(p: Pool, o: Op, i: nat, o2: Op)
    requires Wf(p) && OpOk(o) && OpOk(o2) && Has(p, o, i)
    ensures Has(Intern(p, o2).pool, o, i)
  {
    if LastOf(p, o2) == 0 {
      var q := p + Cells(o2);
      assert Intern(p, o2).pool == q;
      match o {
        case Single(c) => KeepsSingle(p, c, i, o2);
        case Double(tag, w1, w2) => KeepsDouble(p, tag, w1, w2, i, o2);
      }
    }
  }

  lemma KeepsSingle(p: Pool, c: Cell, i: nat, o2: Op)
    requires OpOk(Single(c)) && OpOk(o2) && LastAt(p, c) == i && i != 0 && LastOf(p, o2) == 0
    ensures LastAt(p + Cells(o2), c) == i
  {
    var q := p + Cells(o2);
    assert q[i] == c;
    forall j | i < j < |q| ensures q[j] != c {
      if j < |p| {
        assert q[j] == p[j];
      } else if j == |p| {
        assert o2.Single? ==> o2.c != c;
      }
    }
    var k := LastAt(q, c);
    assert k >= i;
  }

  lemma KeepsDouble(p: Pool, tag: Byte, w1: nat, w2: nat, i: nat, o2: Op)
    requires Wf(p) && IsDouble(tag) && OpOk(o2) && LastDoubleAt(p, tag, w1, w2) == i && i != 0 && LastOf(p, o2) == 0
    ensures LastDoubleAt(p + Cells(o2), tag, w1, w2) == i
  {
    var q := p + Cells(o2);
    assert q[i] == p[i] && q[i + 1] == p[i + 1];
    assert DoubleAt(q, i, tag, w1, w2);
    forall j | i < j < |q| - 1 ensures !DoubleAt(q, j, tag, w1, w2) {
      if j < |p| - 1 {
        assert q[j] == p[j] && q[j + 1] == p[j + 1] && !DoubleAt(p, j, tag, w1, w2);
      } else if j == |p| - 1 {
        assert WfAt(p, j) && q[j] == p[j];
      } else {
        assert q[j] == Cells(o2)[0] && q[j + 1] == Cells(o2)[1];
      }
    }
    var k := LastDoubleAt(q, tag, w1, w2);
    assert k >= i;
  }

  /** Any number of constants, interned one after another. */
  function Run(p: Pool, ops: seq<Op>): Pool
    decreases |ops|
  {
    if ops == [] then p else Run(Intern(p, ops[0]).pool, ops[1..])
  }

  ghost predicate AllOk(ops: seq<Op>) {
    forall k :: 0 <= k < |ops| ==> OpOk(ops[k])
  }

  lemma {:induction false} RunKeeps(p: Pool, ops: seq<Op>)
    requires Wf(p) && AllOk(ops)
    ensures Wf(Run(p, ops)) && p <= Run(p, ops)
    ensures forall o, i :: OpOk(o) && Has(p, o, i) ==> Has(Run(p, ops), o, i)
    decreases |ops|
  {
    hide LastOf, LastAt, LastDoubleAt, Intern, Wf, OpOk;
    if ops != [] {
      var q := Intern(p, ops[0]).pool;
      InternAdds(p, ops[0]);
      RunKeeps(q, ops[1..]);
      forall o, i | OpOk(o) && Has(p, o, i) ensures Has(Run(p, ops), o, i) {
        InternKeeps(p, o, i, ops[0]);
        assert Has(q, o, i);
      }
    }
  }

  /** However many constants are interned afterwards, the entries are unchanged and a constant gets the index that it was
      given the first time. */
  lemma IndexStable(p: Pool, o: Op, ops: seq<Op>)
    requires Wf(p) && OpOk(o) && AllOk(ops)
    ensures var r := Intern(p, o); r.pool <= Run(r.pool, ops) && Intern(Run(r.pool, ops), o) == Found(Run(r.pool, ops), r.index)
  {
    var r := Intern(p, o);
    InternAdds(p, o);
    RunKeeps(r.pool, ops);
    InternAgain(Run(r.pool, ops), o, r.index);
  }

  /** Two constants never share an index. */
  lemma IndexUnique(p: Pool, o: Op, o2: Op, i: nat)
    requires Wf(p) && OpOk(o) && OpOk(o2) && Has(p, o, i) && Has(p, o2, i)
    ensures o == o2
  {
    HasMeans(p, o, i);
    HasMeans(p, o2, i);
  }
}
