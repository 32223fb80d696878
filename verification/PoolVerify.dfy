/** Checking the cross-references of a pool that was read, and following them to the names. */
module PoolVerify {
  import opened PoolCells
  import opened PoolRefs
  import opened PoolBytes

  /** JPOOL_USHORT1: the low half of a word. */
  function Ushort1(w: nat): nat { w % 0x1_0000 }

  /** JPOOL_USHORT2: the rest of a word, which an int holds only in part. */
  function Ushort2(w: nat): int {
    var x := w / 0x1_0000 % 0x1_0000_0000;
    if x >= 0x8000_0000 then x - 0x1_0000_0000 else x
  }

  /** An index of an entry with the given tag. */
  predicate Leads(tags: seq<Byte>, n: int, tag: Byte) {
    0 < n < |tags| && tags[n] == tag
  }

  /** The tests of verify_constant_pool on one entry. */
  predicate EntryOk(tags: seq<Byte>, words: seq<nat>, i: nat)
    requires |tags| == |words| && 0 < i < |tags|
  {
    var k, n1, n2 := tags[i], Ushort1(words[i]), Ushort2(words[i]);
    if k == NAME_AND_TYPE then Leads(tags, n2, UTF8) && Leads(tags, n1, UTF8)
    else if IsHalf(k) || k == METHOD_TYPE then Leads(tags, n1, UTF8)
    else if IsRef(k) then Leads(tags, n1, CLASS) && Leads(tags, n2, NAME_AND_TYPE)
    else if k == METHOD_HANDLE then 1 <= n1 <= 9 && 0 < n2 < |tags|
    else if k == INVOKE_DYNAMIC then Leads(tags, n2, NAME_AND_TYPE)
    else IsDouble(k) || IsWord(k) || k == UTF8 || k == UNICODE
  }

  /** The first entry from i on that is not right, or 0. The entry after a constant of two words is not looked at. */
  function FirstBad(tags: seq<Byte>, words: seq<nat>, i: nat): (r: nat)
    requires |tags| == |words| && 0 < i
    ensures r == 0 || i <= r < |tags|
    decreases |tags| - i
  {
    if i >= |tags| then 0
    else if !EntryOk(tags, words, i) then i
    else FirstBad(tags, words, if IsDouble(tags[i]) then i + 2 else i + 1)
  }

  lemma ReadPair(hi: nat, lo: nat, wide: bool)
    requires hi < 0x1_0000 && lo < 0x1_0000
    ensures Ushort1(Pair(lo, hi, wide)) == hi
    ensures lo < 0x8000 ==> Ushort2(Pair(lo, hi, wide)) == lo
    ensures lo >= 0x8000 && wide ==> Ushort2(Pair(lo, hi, wide)) < 0
    ensures !wide ==> Ushort2(Pair(lo, hi, wide)) == lo
  {
  }

  /** The second index of a pair survives being read back when it is below 32768, or words have 32 bits. */
  predicate SecondOk(c: Cell, wide: bool) {
    IsPair(c.tag) && c.entry.Word? && wide ==> Lo(c.entry.w) < 0x8000
  }

  /** One entry of a pool with sound references, after reading it back. */
  lemma EntryReadBack(b: seq<Byte>, p: Pool, i: nat, tags: seq<Byte>, words: seq<nat>, wide: bool)
    requires Sound(p, wide) && |tags| == |words| == |p| <= 0x1_0000 && 0 < i < |p| && p[i].tag != 0
    requires forall j :: 0 < j < |p| ==> tags[j] == p[j].tag
    requires WfAt(p, i) && ReadBack(b, p[i], tags[i], words[i], wide)
    ensures EntryOk(tags, words, i) <==> SecondOk(p[i], wide)
  {
    var c := p[i];
    assert CrossOk(p, c, wide);
    hide Sound;
    if IsPair(c.tag) {
      var hi, lo := Hi(c.entry.w), Lo(c.entry.w);
      ReadPair(hi, lo, wide);
      hide Hi, Lo, Pair, Ushort1, Ushort2;
    } else if IsHalf(c.tag) {
      HalfIndex(p, c.entry.w);
      hide Hi, Lo, Pair, Ushort2;
    }
  }

  lemma HalfIndex(p: Pool, w: nat)
    requires |p| <= 0x1_0000 && w < |p|
    ensures Ushort1(w % 0x1_0000) == w
  {
  }

  /** The entries that are passed over are second words. */
  lemma {:induction false} VerifyFrom(b: seq<Byte>, p: Pool, i: nat, tags: seq<Byte>, words: seq<nat>, wide: bool)
    requires Sound(p, wide) && ReadBackAll(b, p, tags, words, wide) && |p| <= 0x1_0000
    requires 0 < i && (i < |p| ==> p[i].tag != 0)
    ensures FirstBad(tags, words, i) == 0 <==> forall j :: i <= j < |p| ==> SecondOk(p[j], wide)
    decreases |p| - i
  {
    hide EntryOk, SecondOk, CrossesOk;
    if i < |p| {
      TagsAgree(b, p, tags, words, wide);
      NextStart(p, i);
      hide Wf, WfAt, ReadBack;
      EntryReadBack(b, p, i, tags, words, wide);
      VerifyFrom(b, p, Next(p, i), tags, words, wide);
      if IsDouble(p[i].tag) {
        NoSecond(p[i + 1], wide);
      }
    }
  }

  lemma NoSecond(c: Cell, wide: bool)
    requires !IsPair(c.tag)
    ensures SecondOk(c, wide)
  {
  }

  lemma TagsAgree(b: seq<Byte>, p: Pool, tags: seq<Byte>, words: seq<nat>, wide: bool)
    requires ReadBackAll(b, p, tags, words, wide)
    ensures |tags| == |words| == |p| && forall j :: 0 < j < |p| ==> tags[j] == p[j].tag
    ensures forall j :: 0 < j < |p| ==> WfAt(p, j) && ReadBack(b, p[j], tags[j], words[j], wide)
  {
  }

  /** No reference and no name-and-type has a second index of 32768 or more. */
  ghost predicate SecondsLow(p: Pool) {
    forall i :: 0 < i < |p| && IsPair(p[i].tag) ==> p[i].entry.Word? && Lo(p[i].entry.w) < 0x8000
  }

  lemma SecondsAre(p: Pool, wide: bool)
    requires Wf(p)
    ensures (forall j :: 1 <= j < |p| ==> SecondOk(p[j], wide)) <==> (wide ==> SecondsLow(p))
  {
    hide Lo;
    forall i | 0 < i < |p| && IsPair(p[i].tag) ensures p[i].entry.Word? {
      assert WfAt(p, i);
    }
    if wide && !SecondsLow(p) {
      var i :| 0 < i < |p| && IsPair(p[i].tag) && !(p[i].entry.Word? && Lo(p[i].entry.w) < 0x8000);
      assert !SecondOk(p[i], wide);
    }
  }

  /** A pool that the interning functions made, written and read back, passes the check exactly if all second indices are
      below 32768 or words have 32 bits. */
  lemma VerifyIff(b: seq<Byte>, p: Pool, items: seq<Item>, tags: seq<Byte>, words: seq<nat>, wide: bool)
    requires Made(p, items, wide) && ReadBackAll(b, p, tags, words, wide)
    ensures FirstBad(tags, words, 1) == 0 <==> (wide ==> SecondsLow(p))
  {
    hide Made, FirstBad, ReadBack, SecondsLow, SecondOk;
    MadeSound(p, items, wide);
    if 1 < |p| { assert WfAt(p, 1); }
    VerifyFrom(b, p, 1, tags, words, wide);
    SecondsAre(p, wide);
  }

  /** With at most 32768 entries every check passes. */
  lemma SmallPoolPasses(b: seq<Byte>, p: Pool, items: seq<Item>, tags: seq<Byte>, words: seq<nat>, wide: bool)
    requires Made(p, items, wide) && ReadBackAll(b, p, tags, words, wide) && |p| <= 0x8000
    ensures FirstBad(tags, words, 1) == 0
  {
    hide Made, FirstBad, ReadBack, Lo;
    MadeSound(p, items, wide);
    VerifyIff(b, p, items, tags, words, wide);
    forall i | 0 < i < |p| && IsPair(p[i].tag) ensures p[i].entry.Word? && Lo(p[i].entry.w) < 0x8000 {
      assert CrossOk(p, p[i], wide);
    }
  }

  /** The bytes of a name that was read back: JPOOL_UTF_LENGTH and JPOOL_UTF_DATA. */
  predicate NameIs(b: seq<Byte>, tags: seq<Byte>, words: seq<nat>, n: int, name: seq<Byte>)
    requires |tags| == |words|
  {
    && Leads(tags, n, UTF8) && words[n] + 2 + |name| <= |b|
    && GetU2(b, words[n]) == |name| && b[words[n] + 2..][..|name|] == name
  }

  /** Following a reference in the file that was read gives the class, the name and the signature. */
  predicate ReadsAs(b: seq<Byte>, tags: seq<Byte>, words: seq<nat>, ref: nat,
                    tag: Byte, cls: seq<Byte>, name: seq<Byte>, signature: seq<Byte>)
    requires |tags| == |words|
  {
    && Leads(tags, ref, tag)
    && var c, nt := Ushort1(words[ref]), Ushort2(words[ref]);
    && Leads(tags, c, CLASS) && NameIs(b, tags, words, Ushort1(words[c]), cls)
    && Leads(tags, nt, NAME_AND_TYPE) && NameIs(b, tags, words, Ushort1(words[nt]), name)
    && NameIs(b, tags, words, Ushort2(words[nt]), signature)
  }

  lemma NameReadBack(b: seq<Byte>, p: Pool, tags: seq<Byte>, words: seq<nat>, n: nat, name: seq<Byte>, wide: bool)
    requires ReadBackAll(b, p, tags, words, wide) && Has(p, TextOp(name), n)
    ensures |tags| == |words| && NameIs(b, tags, words, n, name)
  {
    HasMeans(p, TextOp(name), n);
    assert ReadBack(b, p[n], tags[n], words[n], wide);
  }

  lemma PairReadBack(b: seq<Byte>, p: Pool, tags: seq<Byte>, words: seq<nat>, n: nat, tag: Byte, hi: nat, lo: nat, wide: bool)
    requires ReadBackAll(b, p, tags, words, wide) && IsPair(tag) && hi < 0x1_0000 && lo < 0x8000
    requires Has(p, WordOp(tag, Pair(hi, lo, wide)), n)
    ensures |tags| == |words| && Leads(tags, n, tag) && Ushort1(words[n]) == hi && Ushort2(words[n]) == lo
  {
    HasMeans(p, WordOp(tag, Pair(hi, lo, wide)), n);
    assert ReadBack(b, p[n], tags[n], words[n], wide);
    PairParts(hi, lo, wide);
    ReadPair(hi, lo, wide);
    hide Pair, Hi, Lo, Ushort1, Ushort2;
  }

  lemma HalfReadBack(b: seq<Byte>, p: Pool, tags: seq<Byte>, words: seq<nat>, n: nat, tag: Byte, w: nat, wide: bool)
    requires ReadBackAll(b, p, tags, words, wide) && IsHalf(tag) && w < 0x1_0000 && Has(p, WordOp(tag, w), n)
    ensures |tags| == |words| && Leads(tags, n, tag) && Ushort1(words[n]) == w
  {
    hide ReadBack, Ushort1;
    HasMeans(p, WordOp(tag, w), n);
    HalfWord(b, p[n], tags[n], words[n], wide);
  }

  lemma HalfWord(b: seq<Byte>, c: Cell, tag: Byte, w: nat, wide: bool)
    requires IsHalf(c.tag) && c.entry.Word? && c.entry.w < 0x1_0000 && ReadBack(b, c, tag, w, wide)
    ensures tag == c.tag && w == c.entry.w && Ushort1(w) == w
  {
  }

  /** From a declaration to its index, to bytes, and back: the reference that was interned reads as the same class, name
      and signature, at the same index. */
  lemma RefSurvives(b: seq<Byte>, p: Pool, tags: seq<Byte>, words: seq<nat>,
                    tag: Byte, cls: seq<Byte>, name: seq<Byte>, signature: seq<Byte>, x: RefIndex, wide: bool)
    requires ReadBackAll(b, p, tags, words, wide) && |p| <= 0x8000 && IsRef(tag)
    requires RefAt(p, tag, cls, name, signature, x, wide)
    ensures |tags| == |words| && ReadsAs(b, tags, words, x.ref, tag, cls, name, signature)
  {
    Bounds(p, tag, cls, name, signature, x, wide);
    hide ReadBackAll, Has, Pair, Ushort1, Ushort2, NameIs;
    PairReadBack(b, p, tags, words, x.ref, tag, x.cls, x.nameType, wide);
    PairReadBack(b, p, tags, words, x.nameType, NAME_AND_TYPE, x.name, x.signature, wide);
    HalfReadBack(b, p, tags, words, x.cls, CLASS, x.clsName, wide);
    NameReadBack(b, p, tags, words, x.clsName, cls, wide);
    NameReadBack(b, p, tags, words, x.name, name, wide);
    NameReadBack(b, p, tags, words, x.signature, signature, wide);
  }

  lemma Bounds(p: Pool, tag: Byte, cls: seq<Byte>, name: seq<Byte>, signature: seq<Byte>, x: RefIndex, wide: bool)
    requires RefAt(p, tag, cls, name, signature, x, wide)
    ensures x.clsName < |p| && x.cls < |p| && x.name < |p| && x.signature < |p| && x.nameType < |p| && x.ref < |p|
  {
  }

  /** A pool that was made, counted, written, read and checked: the reader stops where the writer stopped, the counted
      size was right, and the check passes exactly if all second indices are below 32768 or words have 32 bits. */
  lemma FileRoundTrip(pre: seq<Byte>, p: Pool, items: seq<Item>, rest: seq<Byte>, wide: bool)
    requires Made(p, items, wide) && Fits(p) && |rest| >= 6
    ensures Typed(p)
    ensures var b := pre + Bytes(p) + rest;
            var r := Parse(b, |pre|, wide);
            && r.Done? && r.pos == |pre| + 2 + CountFrom(p, 1) && ReadBackAll(b, p, r.tags, r.words, wide)
            && (FirstBad(r.tags, r.words, 1) == 0 <==> (wide ==> SecondsLow(p)))
  {
    hide Made, FirstBad, ReadBackAll, SecondsLow, Bytes, Parse, CrossesOk, Wf, Fits, Typed, CountFrom;
    MadeSound(p, items, wide);
    CountIsExact(p);
    RoundTrip(pre, p, rest, wide);
    var b := pre + Bytes(p) + rest;
    var r := Parse(b, |pre|, wide);
    Lengths(b, p, r.tags, r.words, wide);
    VerifyIff(b, p, items, r.tags, r.words, wide);
  }

  lemma Lengths(b: seq<Byte>, p: Pool, tags: seq<Byte>, words: seq<nat>, wide: bool)
    requires ReadBackAll(b, p, tags, words, wide)
    ensures |tags| == |words| == |p|
  {
  }

  // Both failing sides occur.

  /** The constants 0 .. m - 1, and the calls that intern them. */
  function Numbers(m: nat): (p: Pool)
    ensures |p| == m + 1 && p[0] == Cell(0, Word(0)) && forall i :: 0 < i <= m ==> p[i] == Cell(INTEGER, Word(i - 1))
  {
    if m == 0 then [Cell(0, Word(0))] else Numbers(m - 1) + [Cell(INTEGER, Word(m - 1))]
  }

  function NumberItems(m: nat): (s: seq<Item>)
    ensures |s| == m
  {
    if m == 0 then [] else NumberItems(m - 1) + [Number(Single(Cell(INTEGER, Word(m - 1))))]
  }

  lemma MadeNext(q: Pool, items: seq<Item>, last: Item, wide: bool)
    requires Made(q, items, wide) && |q| <= 65530 && ItemOk(last)
    ensures Made(Add(q, last, wide), items + [last], wide)
  {
    hide Add;
    assert (items + [last])[..|items|] == items;
  }

  lemma MadeNothing(wide: bool)
    ensures Made([], [], wide)
  {
  }

  lemma {:induction false} NumbersMade(m: nat, wide: bool)
    requires 0 < m <= 65530
    ensures Made(Numbers(m), NumberItems(m), wide)
  {
    hide Made, LastOf, LastAt, Intern;
    if m == 1 {
      MadeNothing(wide);
      NumberNext([], 0, [], wide);
      assert Numbers(0) == [Cell(0, Word(0))] && NumberItems(0) == [];
    } else {
      NumbersMade(m - 1, wide);
      NumberNext(Numbers(m - 1), m - 1, NumberItems(m - 1), wide);
    }
  }

  lemma NumberNext(q: Pool, w: nat, items: seq<Item>, wide: bool)
    requires Made(q, items, wide) && |q| <= 65530 && forall i :: 0 < i < |q| ==> q[i] != Cell(INTEGER, Word(w))
    ensures Made(Started(q) + [Cell(INTEGER, Word(w))], items + [Number(Single(Cell(INTEGER, Word(w))))], wide)
  {
    hide Made, Intern;
    MadeNext(q, items, Number(Single(Cell(INTEGER, Word(w)))), wide);
    NewNumber(q, w);
  }

  lemma NewNumber(q: Pool, w: nat)
    requires forall i :: 0 < i < |q| ==> q[i] != Cell(INTEGER, Word(w))
    ensures Intern(q, Single(Cell(INTEGER, Word(w)))).pool == Started(q) + [Cell(INTEGER, Word(w))]
  {
    NoLastNumber(q, Cell(INTEGER, Word(w)));
  }

  lemma NoLastNumber(q: Pool, c: Cell)
    requires forall i :: 0 < i < |q| ==> q[i] != c
    ensures LastAt(q, c) == 0
  {
  }

  predicate ShortTexts(p: Pool) {
    forall i :: 0 <= i < |p| ==> (p[i].entry.Text? ==> |p[i].entry.t| < 0x1_0000)
  }

  lemma InternShort(p: Pool, o: Op)
    requires ShortTexts(p) && o.Single? && (o.c.entry.Text? ==> |o.c.entry.t| < 0x1_0000)
    ensures ShortTexts(Intern(p, o).pool)
  {
    hide LastAt;
  }

  lemma RefShort(p: Pool, tag: Byte, cls: seq<Byte>, name: seq<Byte>, signature: seq<Byte>, wide: bool)
    requires ShortTexts(p) && |cls| < 0x1_0000 && |name| < 0x1_0000 && |signature| < 0x1_0000
    ensures ShortTexts(Ref(p, tag, cls, name, signature, wide).pool)
  {
    hide Intern, ShortTexts, Pair, ClassOrString;
    var f0 := Intern(p, TextOp(cls));
    InternShort(p, TextOp(cls));
    ClassIsInterned(p, CLASS, Name(cls));
    InternShort(f0.pool, WordOp(CLASS, f0.index));
    var f := ClassOrString(p, CLASS, Name(cls));
    var g := Intern(f.pool, TextOp(name));
    InternShort(f.pool, TextOp(name));
    var h := Intern(g.pool, TextOp(signature));
    InternShort(g.pool, TextOp(signature));
    var n := Intern(h.pool, WordOp(NAME_AND_TYPE, Pair(g.index, h.index, wide)));
    InternShort(h.pool, WordOp(NAME_AND_TYPE, Pair(g.index, h.index, wide)));
    InternShort(n.pool, WordOp(tag, Pair(f.index, n.index, wide)));
  }

  /** 32768 numbers and then a field: the indices of its name and type are 32768 or more. */
  function ManyItems(): seq<Item> {
    NumberItems(0x8000) + [Member(FIELDREF, [65], [66], [73])]
  }

  function ManyPool(): Pool {
    Ref(Numbers(0x8000), FIELDREF, [65], [66], [73], true).pool
  }

  /** With 64-bit words such a pool does not pass the check, wherever it is written and read back. */
  lemma HighSecond(pre: seq<Byte>, rest: seq<Byte>)
    requires |rest| >= 6
    ensures Made(ManyPool(), ManyItems(), true) && Fits(ManyPool()) && !SecondsLow(ManyPool()) && Typed(ManyPool())
    ensures var r := Parse(pre + Bytes(ManyPool()) + rest, |pre|, true);
            r.Done? && |r.tags| == |r.words| && FirstBad(r.tags, r.words, 1) != 0
  {
    hide Made, FirstBad, SecondsLow, Bytes, Parse, Typed, Ref, Numbers, NumberItems, Fits, CountFrom;
    ManyMade();
    ManyFits();
    ManyHigh();
    FileRoundTrip(pre, ManyPool(), ManyItems(), rest, true);
    var r := Parse(pre + Bytes(ManyPool()) + rest, |pre|, true);
    Lengths(pre + Bytes(ManyPool()) + rest, ManyPool(), r.tags, r.words, true);
  }

  lemma ManyMade()
    ensures Made(ManyPool(), ManyItems(), true)
  {
    hide Made, Ref, Numbers, NumberItems;
    NumbersMade(0x8000, true);
    MadeNext(Numbers(0x8000), NumberItems(0x8000), Member(FIELDREF, [65], [66], [73]), true);
  }

  lemma ManyFits()
    ensures Fits(ManyPool())
  {
    hide Made, Ref, Numbers, NumberItems, RefAt, Sound, Pair;
    NumbersMade(0x8000, true);
    MadeSound(Numbers(0x8000), NumberItems(0x8000), true);
    var x := RefInterned(Numbers(0x8000), FIELDREF, [65], [66], [73], true);
    RefShort(Numbers(0x8000), FIELDREF, [65], [66], [73], true);
  }

  lemma ManyHigh()
    ensures !SecondsLow(ManyPool())
  {
    hide Made, Ref, Numbers, NumberItems, Sound, Pair, Lo, Has;
    NumbersMade(0x8000, true);
    MadeSound(Numbers(0x8000), NumberItems(0x8000), true);
    var x := RefInterned(Numbers(0x8000), FIELDREF, [65], [66], [73], true);
    HasMeans(ManyPool(), TextOp([73]), x.signature);
    HasMeans(ManyPool(), TextOp([66]), x.name);
    HasMeans(ManyPool(), WordOp(NAME_AND_TYPE, Pair(x.name, x.signature, true)), x.nameType);
    PastNumbers(ManyPool(), x.signature);
    PairParts(x.name, x.signature, true);
    SecondHigh(ManyPool(), x.nameType);
  }

  lemma PastNumbers(p: Pool, i: nat)
    requires Numbers(0x8000) <= p && 0 < i < |p| && p[i].tag == UTF8
    ensures i > 0x8000
  {
    assert forall j :: 0 <= j < |Numbers(0x8000)| ==> p[j] == Numbers(0x8000)[j];
  }

  lemma SecondHigh(p: Pool, i: nat)
    requires 0 < i < |p| && IsPair(p[i].tag) && p[i].entry.Word? && Lo(p[i].entry.w) >= 0x8000
    ensures !SecondsLow(p)
  {
  }

  /** One number at the very end of a file: the parser wants nine bytes where only five are left. */
  lemma EndOfFile(pre: seq<Byte>, wide: bool)
    ensures Made(Numbers(1), NumberItems(1), wide) && Typed(Numbers(1)) && Parse(pre + Bytes(Numbers(1)), |pre|, wide) == Eof
  {
    hide Made, NumberItems, Bytes, Parse;
    NumbersMade(1, wide);
    MadeSound(Numbers(1), NumberItems(1), wide);
    var p := Numbers(1);
    assert p == [Cell(0, Word(0)), Cell(INTEGER, Word(0))];
    RoundTripIff(pre, p, [], wide);
    assert pre + Bytes(p) + [] == pre + Bytes(p);
    OneIsShort(p);
  }

  lemma OneIsShort(p: Pool)
    requires Typed(p) && |p| == 2 && p[1] == Cell(INTEGER, Word(0))
    ensures !Room(p, 1, 0)
  {
    assert TypedAt(p, 1);
    assert Body(p, 2) == [];
    assert |Body(p, 1)| == 5;
  }
}
