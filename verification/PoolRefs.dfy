/** Constants that refer to other constants by their index. */
module PoolRefs {
  import opened PoolCells

  /** A 32-bit int, given by its bits, as a jword of 32 or 64 bits. */
  function Signed(v: nat, wide: bool): nat
    requires v < 0x1_0000_0000
  {
    if wide && v >= 0x8000_0000 then v + 0xFFFF_FFFF_0000_0000 else v
  }

  /** The bitwise or. */
  function Or(a: nat, b: nat): nat {
    if a == 0 then b
    else if b == 0 then a
    else 2 * Or(a / 2, b / 2) + if a % 2 == 1 || b % 2 == 1 then 1 else 0
  }

  /** (hi << 16) | lo, computed as an int: what lo has above its 16 lower bits mixes with hi. */
  function Pair(hi: nat, lo: nat, wide: bool): nat {
    Signed(Or(hi % 0x1_0000, lo / 0x1_0000) % 0x1_0000 * 0x1_0000 + lo % 0x1_0000, wide)
  }

  function Hi(w: nat): nat { w / 0x1_0000 % 0x1_0000 }
  function Lo(w: nat): nat { w % 0x1_0000 }

  lemma PairParts(hi: nat, lo: nat, wide: bool)
    requires hi < 0x1_0000 && lo < 0x1_0000
    ensures Hi(Pair(hi, lo, wide)) == hi && Lo(Pair(hi, lo, wide)) == lo
    ensures Pair(hi, lo, wide) % 0x1_0000_0000 == hi * 0x1_0000 + lo
  {
    assert hi % 0x1_0000 == hi && lo / 0x1_0000 == 0 && lo % 0x1_0000 == lo && Or(hi, 0) == hi;
    hide Or;
    HalvesOf(hi, lo, hi * 0x1_0000 + lo, wide);
  }

  lemma HalvesOf(hi: nat, lo: nat, w: nat, wide: bool)
    requires hi < 0x1_0000 && lo < 0x1_0000 && w == hi * 0x1_0000 + lo
    ensures Hi(Signed(w, wide)) == hi && Lo(Signed(w, wide)) == lo && Signed(w, wide) % 0x1_0000_0000 == w
  {
    Digits(if wide && w >= 0x8000_0000 then 0xFFFF_FFFF else 0, hi, lo, Signed(w, wide));
  }

  lemma Digits(top: nat, hi: nat, lo: nat, x: nat)
    requires hi < 0x1_0000 && lo < 0x1_0000 && x == top * 0x1_0000_0000 + hi * 0x1_0000 + lo
    ensures Hi(x) == hi && Lo(x) == lo && x % 0x1_0000_0000 == hi * 0x1_0000 + lo
  {
    assert x / 0x1_0000 == top * 0x1_0000 + hi;
  }

  // The interning functions of constants.c.

  datatype MaybeName = NullName | Name(name: seq<Byte>)

  function TextOp(name: seq<Byte>): Op {
    Single(Cell(UTF8, Text(name)))
  }

  function WordOp(tag: Byte, w: nat): Op {
    Single(Cell(tag, Word(w)))
  }

  /** find_utf8_constant. */
  function Utf8(p: Pool, name: MaybeName): Found {
    if name.NullName? then Found(p, 0) else Intern(p, TextOp(name.name))
  }

  /** find_class_or_string_constant: unlike the other functions, it takes the end of an empty pool to be 0. */
  function ClassOrString(p: Pool, tag: Byte, name: MaybeName): Found {
    var f := Utf8(p, name);
    var c := Cell(tag, Word(f.index));
    if LastAt(f.pool, c) != 0 then Found(f.pool, LastAt(f.pool, c))
    else if f.pool == [] then Found([c], 0)
    else Found(f.pool + [c], |f.pool|)
  }

  lemma ClassIsInterned(p: Pool, tag: Byte, name: MaybeName)
    requires p != [] || name.Name?
    ensures var f := Utf8(p, name); ClassOrString(p, tag, name) == Intern(f.pool, WordOp(tag, f.index))
  {
    hide LastAt;
  }

  /** The index is 0, which stands for no constant, exactly for a null name in an empty pool; asking again then gives
      another index. */
  lemma NullClass(p: Pool, tag: Byte, name: MaybeName)
    requires Wf(p) && IsHalf(tag)
    ensures ClassOrString(p, tag, name).index == 0 <==> p == [] && name.NullName?
    ensures p == [] && name.NullName? ==> ClassOrString(ClassOrString(p, tag, name).pool, tag, name).index == 1
  {
    if name.Name? {
      InternAdds(p, TextOp(name.name));
    }
  }

  function NameAndType(p: Pool, name: seq<Byte>, signature: seq<Byte>, wide: bool): Found
  {
    var f := Utf8(p, Name(name));
    var g := Utf8(f.pool, Name(signature));
    Intern(g.pool, WordOp(NAME_AND_TYPE, Pair(f.index, g.index, wide)))
  }

  /** find_fieldref_index, find_methodref_index and find_methodref_with_class_index, by tag. */
  function Ref(p: Pool, tag: Byte, cls: seq<Byte>, name: seq<Byte>, signature: seq<Byte>, wide: bool): Found {
    var f := ClassOrString(p, CLASS, Name(cls));
    var g := NameAndType(f.pool, name, signature, wide);
    Intern(g.pool, WordOp(tag, Pair(f.index, g.index, wide)))
  }

  /** The indices along a reference. */
  datatype RefIndex = RefIndex(clsName: nat, cls: nat, name: nat, signature: nat, nameType: nat, ref: nat)

  /** The pool holds a reference: every constant on the way to its three names is where the reference says. */
  ghost predicate RefAt(p: Pool, tag: Byte, cls: seq<Byte>, name: seq<Byte>, signature: seq<Byte>, x: RefIndex, wide: bool) {
    && Has(p, TextOp(cls), x.clsName) && Has(p, WordOp(CLASS, x.clsName), x.cls)
    && Has(p, TextOp(name), x.name) && Has(p, TextOp(signature), x.signature) && x.signature < 0x1_0000 && x.nameType < 0x1_0000
    && Has(p, WordOp(NAME_AND_TYPE, Pair(x.name, x.signature, wide)), x.nameType)
    && Has(p, WordOp(tag, Pair(x.cls, x.nameType, wide)), x.ref)
  }

  /** Cross-references. */
  predicate Tagged(p: Pool, i: nat, tag: Byte) {
    0 < i < |p| && p[i].tag == tag
  }

  /** A constant whose references lead to constants of the right kind. */
  predicate CrossOk(p: Pool, c: Cell, wide: bool) {
    && (IsHalf(c.tag) ==> c.entry.Word? && Tagged(p, c.entry.w, UTF8))
    && (IsPair(c.tag) ==> c.entry.Word? && c.entry.w == Pair(Hi(c.entry.w), Lo(c.entry.w), wide))
    && (IsRef(c.tag) ==> Tagged(p, Hi(c.entry.w), CLASS) && Tagged(p, Lo(c.entry.w), NAME_AND_TYPE))
    && (c.tag == NAME_AND_TYPE ==> Tagged(p, Hi(c.entry.w), UTF8) && Tagged(p, Lo(c.entry.w), UTF8))
  }

  ghost predicate CrossesOk(p: Pool, wide: bool) {
    forall i :: 0 < i < |p| ==> CrossOk(p, p[i], wide)
  }

  lemma CrossGrows(p: Pool, q: Pool, c: Cell, wide: bool)
    requires p <= q && CrossOk(p, c, wide)
    ensures CrossOk(q, c, wide)
  {
    hide Hi, Lo, Pair;
  }

  lemma InternCrosses(p: Pool, o: Op, wide: bool)
    requires Wf(p) && CrossesOk(p, wide) && OpOk(o) && (o.Single? ==> CrossOk(p, o.c, wide))
    ensures CrossesOk(Intern(p, o).pool, wide)
  {
    hide LastOf, CrossOk;
    var q := Intern(p, o).pool;
    InternAdds(p, o);
    if LastOf(p, o) == 0 {
      forall i | 0 < i < |q| ensures CrossOk(q, q[i], wide) {
        if i < |p| {
          CrossGrows(p, q, p[i], wide);
        } else if o.Single? {
          CrossGrows(p, q, o.c, wide);
        } else {
          NoCross(q, q[i], wide);
        }
      }
    }
  }

  lemma NoCross(p: Pool, c: Cell, wide: bool)
    requires !IsHalf(c.tag) && !IsPair(c.tag)
    ensures CrossOk(p, c, wide)
  {
  }

  lemma PairCross(p: Pool, tag: Byte, hi: nat, lo: nat, wide: bool)
    requires IsPair(tag) && |p| <= 0x1_0000
    requires IsRef(tag) ==> Tagged(p, hi, CLASS) && Tagged(p, lo, NAME_AND_TYPE)
    requires tag == NAME_AND_TYPE ==> Tagged(p, hi, UTF8) && Tagged(p, lo, UTF8)
    ensures lo < 0x1_0000 && CrossOk(p, Cell(tag, Word(Pair(hi, lo, wide))), wide)
  {
    PairParts(hi, lo, wide);
    hide Hi, Lo, Pair;
  }

  /** A pool in which every constant is complete. */
  ghost predicate Sound(p: Pool, wide: bool) {
    Wf(p) && CrossesOk(p, wide)
  }

  lemma SoundIntern(p: Pool, o: Op, wide: bool)
    requires Sound(p, wide) && OpOk(o) && (o.Single? ==> CrossOk(p, o.c, wide))
    ensures var r := Intern(p, o);
            Sound(r.pool, wide) && p <= r.pool && Has(r.pool, o, r.index) && 0 < r.index < |r.pool|
            && (o.Single? ==> r.pool[r.index] == o.c)
  {
    hide LastOf, CrossOk, Intern;
    InternAdds(p, o);
    InternCrosses(p, o, wide);
    HasMeans(Intern(p, o).pool, o, Intern(p, o).index);
  }

  lemma SoundText(p: Pool, name: seq<Byte>, wide: bool)
    requires Sound(p, wide)
    ensures var r := Intern(p, TextOp(name));
            Sound(r.pool, wide) && p <= r.pool && Has(r.pool, TextOp(name), r.index) && Tagged(r.pool, r.index, UTF8)
  {
    hide LastOf, Intern, Sound;
    SoundIntern(p, TextOp(name), wide);
  }

  /** A class or a string refers to its name. */
  lemma SoundClass(p: Pool, tag: Byte, name: seq<Byte>, wide: bool) returns (at: nat)
    requires Sound(p, wide) && IsHalf(tag)
    ensures var r := ClassOrString(p, tag, Name(name));
            && Sound(r.pool, wide) && p <= r.pool && |r.pool| <= |Started(p)| + 2
            && Has(r.pool, TextOp(name), at) && Has(r.pool, WordOp(tag, at), r.index) && Tagged(r.pool, r.index, tag)
  {
    hide LastOf, Intern, Sound, Wf, Has, LastAt;
    var f := Intern(p, TextOp(name));
    ClassIsInterned(p, tag, Name(name));
    SoundText(p, name, wide);
    SoundIntern(f.pool, WordOp(tag, f.index), wide);
    at := f.index;
    Keeps(f.pool, TextOp(name), at, WordOp(tag, at), wide);
  }

  lemma Keeps(p: Pool, o: Op, i: nat, o2: Op, wide: bool)
    requires Sound(p, wide) && OpOk(o) && OpOk(o2) && Has(p, o, i)
    ensures Has(Intern(p, o2).pool, o, i)
  {
    hide CrossesOk, Has, Intern, Wf;
    InternKeeps(p, o, i, o2);
  }

  /** A field or method reference leads to its class, its name and its signature. */
  lemma RefInterned(p: Pool, tag: Byte, cls: seq<Byte>, name: seq<Byte>, signature: seq<Byte>, wide: bool) returns (x: RefIndex)
    requires Sound(p, wide) && IsRef(tag) && |p| <= 65530
    ensures var r := Ref(p, tag, cls, name, signature, wide);
            && Sound(r.pool, wide) && p <= r.pool && |r.pool| <= |Started(p)| + 6 && r.index == x.ref
            && RefAt(r.pool, tag, cls, name, signature, x, wide)
  {
    hide LastOf, Intern, Sound, Wf, Has, LastAt, CrossOk, Pair, ClassOrString, OpOk;
    var f := ClassOrString(p, CLASS, Name(cls));
    var at := SoundClass(p, CLASS, cls, wide);
    var n := Intern(f.pool, TextOp(name));
    SoundText(f.pool, name, wide);
    var s := Intern(n.pool, TextOp(signature));
    SoundText(n.pool, signature, wide);
    PairCross(s.pool, NAME_AND_TYPE, n.index, s.index, wide);
    var nt := WordOp(NAME_AND_TYPE, Pair(n.index, s.index, wide));
    OpsOk(nt, cls); OpsOk(nt, name); OpsOk(nt, signature);
    SoundIntern(s.pool, nt, wide);
    var g := Intern(s.pool, nt);
    PairCross(g.pool, tag, f.index, g.index, wide);
    var ref := WordOp(tag, Pair(f.index, g.index, wide));
    OpsOk(ref, cls); OpsOk(WordOp(CLASS, at), cls);
    SoundIntern(g.pool, ref, wide);
    x := RefIndex(at, f.index, n.index, s.index, g.index, Intern(g.pool, ref).index);
    KeepsClass(f.pool, cls, at, f.index, TextOp(name), wide);
    KeepsClass(n.pool, cls, at, f.index, TextOp(signature), wide);
    KeepsClass(s.pool, cls, at, f.index, nt, wide);
    KeepsClass(g.pool, cls, at, f.index, ref, wide);
    Keeps(n.pool, TextOp(name), n.index, TextOp(signature), wide);
    KeepsNames(s.pool, name, signature, n.index, s.index, nt, wide);
    KeepsNames(g.pool, name, signature, n.index, s.index, ref, wide);
    Keeps(g.pool, nt, g.index, ref, wide);
  }

  lemma OpsOk(o: Op, name: seq<Byte>)
    requires o.Single? && o.c.entry.Word? && (IsHalf(o.c.tag) || IsPair(o.c.tag))
    ensures OpOk(o) && OpOk(TextOp(name))
  {
  }

  lemma KeepsClass(p: Pool, cls: seq<Byte>, at: nat, i: nat, o: Op, wide: bool)
    requires Sound(p, wide) && OpOk(o) && Has(p, TextOp(cls), at) && Has(p, WordOp(CLASS, at), i)
    ensures Has(Intern(p, o).pool, TextOp(cls), at) && Has(Intern(p, o).pool, WordOp(CLASS, at), i)
  {
    hide Sound, Has, Intern;
    Keeps(p, TextOp(cls), at, o, wide);
    Keeps(p, WordOp(CLASS, at), i, o, wide);
  }

  lemma KeepsNames(p: Pool, name: seq<Byte>, signature: seq<Byte>, i: nat, j: nat, o: Op, wide: bool)
    requires Sound(p, wide) && OpOk(o) && Has(p, TextOp(name), i) && Has(p, TextOp(signature), j)
    ensures Has(Intern(p, o).pool, TextOp(name), i) && Has(Intern(p, o).pool, TextOp(signature), j)
  {
    hide Sound, Has, Intern;
    Keeps(p, TextOp(name), i, o, wide);
    Keeps(p, TextOp(signature), j, o, wide);
  }

  /** A reference that is in the pool is found again at the same index, and the pool is not changed. */
  lemma RefAgain(p: Pool, tag: Byte, cls: seq<Byte>, name: seq<Byte>, signature: seq<Byte>, x: RefIndex, wide: bool)
    requires RefAt(p, tag, cls, name, signature, x, wide)
    ensures Ref(p, tag, cls, name, signature, wide) == Found(p, x.ref)
  {
    hide LastAt, LastOf, Pair, ClassOrString, Intern, Has;
    ClassIsInterned(p, CLASS, Name(cls));
    InternAgain(p, TextOp(cls), x.clsName);
    InternAgain(p, WordOp(CLASS, x.clsName), x.cls);
    InternAgain(p, TextOp(name), x.name);
    InternAgain(p, TextOp(signature), x.signature);
    InternAgain(p, WordOp(NAME_AND_TYPE, Pair(x.name, x.signature, wide)), x.nameType);
    InternAgain(p, WordOp(tag, Pair(x.cls, x.nameType, wide)), x.ref);
  }

  /** Whatever is interned afterwards, a reference keeps its index and everything that it leads to. */
  lemma RefStable(p: Pool, ops: seq<Op>, tag: Byte, cls: seq<Byte>, name: seq<Byte>, signature: seq<Byte>, x: RefIndex, wide: bool)
    requires Wf(p) && AllOk(ops) && IsRef(tag) && RefAt(p, tag, cls, name, signature, x, wide)
    ensures RefAt(Run(p, ops), tag, cls, name, signature, x, wide)
    ensures Ref(Run(p, ops), tag, cls, name, signature, wide) == Found(Run(p, ops), x.ref)
  {
    hide Has, LastOf, Wf, Run, Ref, Pair;
    RunKeeps(p, ops);
    RefAgain(Run(p, ops), tag, cls, name, signature, x, wide);
  }

  // Pools made by the interning functions.

  datatype Item =
    | Member(tag: Byte, cls: seq<Byte>, name: seq<Byte>, signature: seq<Byte>)
    | Named(tag: Byte, name: seq<Byte>)
    | Number(o: Op)

  predicate ItemOk(i: Item) {
    match i
    case Member(tag, _, _, _) => IsRef(tag)
    case Named(tag, _) => IsHalf(tag)
    case Number(o) => OpOk(o) && (o.Single? ==> IsWord(o.c.tag))
  }

  function Add(p: Pool, i: Item, wide: bool): Pool {
    match i
    case Member(tag, cls, name, signature) => Ref(p, tag, cls, name, signature, wide).pool
    case Named(tag, name) => ClassOrString(p, tag, Name(name)).pool
    case Number(o) => Intern(p, o).pool
  }

  ghost predicate Made(p: Pool, items: seq<Item>, wide: bool)
    decreases |items|
  {
    if items == [] then
      p == []
    else
      var last := items[|items| - 1];
      exists q: Pool :: Made(q, items[..|items| - 1], wide) && |q| <= 65530 && ItemOk(last) && p == Add(q, last, wide)
  }

  /** Every cross-reference of a pool that the interning functions made is right. */
  lemma {:induction false} MadeSound(p: Pool, items: seq<Item>, wide: bool)
    requires Made(p, items, wide)
    ensures Sound(p, wide) && |p| <= 65536 && (items != [] ==> p != [])
    decreases |items|
  {
    hide LastOf, Intern, Sound, Wf, Has, LastAt, CrossOk, Pair, ClassOrString, Ref, RefAt;
    if items == [] {
      SoundEmpty(wide);
    } else {
      var last := items[|items| - 1];
      var q: Pool :| Made(q, items[..|items| - 1], wide) && |q| <= 65530 && ItemOk(last) && p == Add(q, last, wide);
      MadeSound(q, items[..|items| - 1], wide);
      match last
      case Member(tag, cls, name, signature) =>
        var x := RefInterned(q, tag, cls, name, signature, wide);
        NonEmpty(p, tag, cls, name, signature, x, wide);
      case Named(tag, name) =>
        var at := SoundClass(q, tag, name, wide);
      case Number(o) =>
        if o.Single? { NoCross(q, o.c, wide); }
        SoundIntern(q, o, wide);
        NumberSize(q, o);
    }
  }

  lemma NumberSize(p: Pool, o: Op)
    ensures |Intern(p, o).pool| <= |Started(p)| + 2
  {
  }

  lemma NonEmpty(p: Pool, tag: Byte, cls: seq<Byte>, name: seq<Byte>, signature: seq<Byte>, x: RefIndex, wide: bool)
    requires RefAt(p, tag, cls, name, signature, x, wide)
    ensures p != []
  {
  }

  lemma SoundEmpty(wide: bool)
    ensures Sound([], wide)
  {
  }
}
