/** The class file format of section 4.4 of the Java Virtual Machine Specification, in tag numbers and bytes: what is written, what
    is read, and which entries the check lets pass. */
module PoolFormat {
  import opened PoolCells
  import opened PoolRefs
  import opened PoolBytes
  import opened PoolVerify

  /** The n bytes from place k on as a big-endian number. */
  function Big(b: seq<Byte>, k: nat, n: nat): nat
    requires k + n <= |b|
  {
    if n == 0 then 0 else Big(b, k, n - 1) * 256 + b[k + n - 1]
  }

  // Writing.

  /** The bytes of one constant: its tag, and big-endian numbers or text. */
  predicate Written(s: seq<Byte>, p: Pool, i: nat)
    requires 0 < i < |p| && TypedAt(p, i)
  {
    var c := p[i];
    && s != [] && s[0] == c.tag
    && (c.tag in {3, 4, 9, 10, 11, 12} ==> |s| == 5 && Big(s, 1, 4) == c.entry.w % 0x1_0000_0000)
    && (c.tag in {7, 8} ==> |s| == 3 && Big(s, 1, 2) == c.entry.w % 0x1_0000)
    && (c.tag in {5, 6} ==> |s| == 9 && Big(s, 1, 4) == c.entry.w % 0x1_0000_0000 && Big(s, 5, 4) == p[i + 1].entry.w % 0x1_0000_0000)
    && (c.tag == 1 ==> |s| == 3 + |c.entry.t| && Big(s, 1, 2) == |c.entry.t| % 0x1_0000 && s[3..] == c.entry.t)
    && (c.tag !in {1, 3, 4, 5, 6, 7, 8, 9, 10, 11, 12} ==> |s| == 1)
  }

  lemma Big2(b: seq<Byte>, k: nat)
    requires k + 2 <= |b|
    ensures Big(b, k, 2) == GetU2(b, k)
  {
    assert Big(b, k, 1) == Big(b, k, 0) * 256 + b[k];
  }

  lemma Big4(b: seq<Byte>, k: nat)
    requires k + 4 <= |b|
    ensures Big(b, k, 4) == GetU2(b, k) * 0x1_0000 + GetU2(b, k + 2) == GetU4(b, k)
  {
    Big2(b, k);
    assert Big(b, k, 3) == Big(b, k, 2) * 256 + b[k + 2];
  }

  lemma BigU2(s: seq<Byte>, k: nat, x: nat)
    requires At(s, k, U2(x))
    ensures Big(s, k, 2) == x % 0x1_0000
  {
    ReadU2(s, k, x);
    Big2(s, k);
  }

  lemma BigU4(s: seq<Byte>, k: nat, x: nat)
    requires At(s, k, U4(x))
    ensures Big(s, k, 4) == x % 0x1_0000_0000
  {
    ReadU4(s, k, x);
    Big4(s, k);
  }

  lemma CellWritten(p: Pool, i: nat)
    requires 0 < i < |p| && TypedAt(p, i)
    ensures Written(CellBytes(p, i), p, i)
  {
    hide Big, U2, U4;
    var c, s := p[i], CellBytes(p, i);
    assert s == [c.tag] + CellData(p, i);
    if IsPair(c.tag) || IsWord(c.tag) {
      assert s[1..5] == U4(c.entry.w);
      BigU4(s, 1, c.entry.w);
    } else if IsHalf(c.tag) {
      assert s[1..3] == U2(c.entry.w);
      BigU2(s, 1, c.entry.w);
    } else if IsDouble(c.tag) {
      assert s[1..5] == U4(c.entry.w) && s[5..9] == U4(p[i + 1].entry.w);
      BigU4(s, 1, c.entry.w);
      BigU4(s, 5, p[i + 1].entry.w);
    } else if c.tag == UTF8 {
      assert s[1..3] == U2(|c.entry.t|) && s[3..] == c.entry.t;
      BigU2(s, 1, |c.entry.t|);
    }
  }

  /** The whole pool: the count, and then the constants one after the other, each followed by the next entry or, after one of two
      words, by the one after that. */
  ghost predicate WrittenFrom(b: seq<Byte>, p: Pool, i: nat, pos: nat)
    requires 0 < i && Typed(p)
    decreases |p| - i
  {
    if i >= |p| then pos == |b|
    else
      exists s: seq<Byte> ::
        At(b, pos, s) && Written(s, p, i) && WrittenFrom(b, p, if p[i].tag in {5, 6} then i + 2 else i + 1, pos + |s|)
  }

  lemma {:induction false} BodyWritten(pre: seq<Byte>, p: Pool, i: nat)
    requires 0 < i && Typed(p)
    ensures WrittenFrom(pre + Body(p, i), p, i, |pre|)
    decreases |p| - i
  {
    hide Written, CellBytes, WrittenFrom, At;
    if i < |p| {
      assert TypedAt(p, i);
      var s, rest := CellBytes(p, i), Body(p, Next(p, i));
      CellWritten(p, i);
      AtMiddle(pre, s, rest);
      BodyWritten(pre + s, p, Next(p, i));
      assert pre + s + rest == pre + Body(p, i);
      WrittenStep(pre + s + rest, p, i, |pre|, s);
    } else {
      WrittenEnd(pre + Body(p, i), p, i);
    }
  }

  lemma WrittenStep(b: seq<Byte>, p: Pool, i: nat, pos: nat, s: seq<Byte>)
    requires 0 < i < |p| && Typed(p) && TypedAt(p, i) && At(b, pos, s) && Written(s, p, i)
    requires WrittenFrom(b, p, if p[i].tag in {5, 6} then i + 2 else i + 1, pos + |s|)
    ensures WrittenFrom(b, p, i, pos)
  {
    hide Written, At;
  }

  lemma WrittenEnd(b: seq<Byte>, p: Pool, i: nat)
    requires |p| <= i && 0 < i && Typed(p)
    ensures WrittenFrom(b, p, i, |b|)
  {
  }

  lemma PoolWritten(p: Pool)
    requires Typed(p)
    ensures Big(Bytes(p), 0, 2) == |p| % 0x1_0000 && WrittenFrom(Bytes(p), p, 1, 2)
  {
    hide Big;
    assert Bytes(p)[0..2] == U2(|p|);
    BigU2(Bytes(p), 0, |p|);
    BodyWritten(U2(|p|), p, 1);
  }

  /** The bytes of a constant at place i with the given tag and two indices. */
  ghost predicate PairBytes(p: Pool, i: nat, tag: Byte, first: nat, second: nat)
    requires Typed(p)
  {
    0 < i < |p| && TypedAt(p, i) &&
    var s := CellBytes(p, i); |s| == 5 && s[0] == tag && Big(s, 1, 2) == first && Big(s, 3, 2) == second
  }

  /** The same with one index. */
  ghost predicate HalfBytes(p: Pool, i: nat, tag: Byte, index: nat)
    requires Typed(p)
  {
    0 < i < |p| && TypedAt(p, i) &&
    var s := CellBytes(p, i); |s| == 3 && s[0] == tag && Big(s, 1, 2) == index
  }

  ghost predicate TextBytes(p: Pool, i: nat, text: seq<Byte>)
    requires Typed(p)
  {
    0 < i < |p| && TypedAt(p, i) &&
    var s := CellBytes(p, i); |s| == 3 + |text| && s[0] == 1 && Big(s, 1, 2) == |text| % 0x1_0000 && s[3..] == text
  }

  /** A reference that was interned is written as its tag and the indices of its class and of its name and type, first the class;
      and so on to the names. */
  lemma RefBytes(p: Pool, tag: Byte, cls: seq<Byte>, name: seq<Byte>, signature: seq<Byte>, x: RefIndex, wide: bool)
    requires RefAt(p, tag, cls, name, signature, x, wide) && IsRef(tag) && Typed(p) && |p| <= 0x1_0000
    ensures PairBytes(p, x.ref, tag, x.cls, x.nameType) && PairBytes(p, x.nameType, 12, x.name, x.signature)
    ensures TextBytes(p, x.name, name) && TextBytes(p, x.signature, signature) && TextBytes(p, x.clsName, cls)
    ensures HalfBytes(p, x.cls, 7, x.clsName)
  {
    hide Has, Pair, PairBytes, TextBytes, HalfBytes, Typed;
    Bounds(p, tag, cls, name, signature, x, wide);
    PairWritten(p, x.ref, tag, x.cls, x.nameType, wide);
    PairWritten(p, x.nameType, 12, x.name, x.signature, wide);
    TextWritten(p, x.name, name);
    TextWritten(p, x.signature, signature);
    TextWritten(p, x.clsName, cls);
    HalfWritten(p, x.cls, 7, x.clsName);
  }

  lemma HalfWritten(p: Pool, i: nat, tag: Byte, index: nat)
    requires Typed(p) && Has(p, WordOp(tag, index), i) && IsHalf(tag) && index < 0x1_0000
    ensures HalfBytes(p, i, tag, index)
  {
    hide Has;
    HasMeans(p, WordOp(tag, index), i);
    assert TypedAt(p, i);
    CellWritten(p, i);
  }

  lemma PairWritten(p: Pool, i: nat, tag: Byte, first: nat, second: nat, wide: bool)
    requires Typed(p) && Has(p, WordOp(tag, Pair(first, second, wide)), i) && IsPair(tag)
    requires first < 0x1_0000 && second < 0x1_0000
    ensures PairBytes(p, i, tag, first, second)
  {
    hide Has, Pair, U2, Big;
    HasMeans(p, WordOp(tag, Pair(first, second, wide)), i);
    assert TypedAt(p, i);
    PairParts(first, second, wide);
    var w := Pair(first, second, wide);
    var s := CellBytes(p, i);
    assert s[1..3] == U2(w / 0x1_0000) && s[3..5] == U2(w);
    BigU2(s, 1, w / 0x1_0000);
    BigU2(s, 3, w);
  }

  lemma TextWritten(p: Pool, i: nat, text: seq<Byte>)
    requires Typed(p) && Has(p, TextOp(text), i)
    ensures TextBytes(p, i, text)
  {
    HasMeans(p, TextOp(text), i);
    assert TypedAt(p, i);
    CellWritten(p, i);
  }

  // Reading.

  /** The two indices in a word. With 64-bit words a second index of 32768 or more becomes negative. */
  predicate Indices(w: nat, first: nat, second: nat, wide: bool) {
    && Ushort1(w) == first
    && Ushort2(w) == if wide && second >= 0x8000 then second - 0x1_0000 else second
  }

  /** What is read for entry i at pos, with at least nine bytes left. */
  predicate ReadStep(b: seq<Byte>, pos: nat, i: nat, n: nat, wide: bool, r: Step)
    requires pos + 9 <= |b|
  {
    var k := b[pos];
    && (k in {7, 8, 16} ==> r == Take([k], [Big(b, pos + 1, 2)], pos + 3))
    && (k in {9, 10, 11, 12, 18} ==>
          r.Take? && r.tags == [k] && |r.words| == 1 && r.pos == pos + 5
          && Indices(r.words[0], Big(b, pos + 1, 2), Big(b, pos + 3, 2), wide))
    && (k in {3, 4} ==> r == Take([k], [Big(b, pos + 1, 4)], pos + 5))
    && (k in {5, 6} ==> r == if i + 1 < n then Take([k, 0], [Big(b, pos + 1, 4), Big(b, pos + 5, 4)], pos + 9) else Stop(Overrun))
    && (k == 1 ==> r == var l := Big(b, pos + 1, 2); if pos + 3 + l <= |b| then Take([k], [pos + 1], pos + 3 + l) else Stop(Eof))
    && (k == 15 ==>
          r.Take? && r.tags == [k] && |r.words| == 1 && r.pos == pos + 4
          && Indices(r.words[0], b[pos + 1], Big(b, pos + 2, 2), wide))
    && (k !in {1, 3, 4, 5, 6, 7, 8, 9, 10, 11, 12, 15, 16, 18} ==> r == Stop(BadTag(i)))
  }

  lemma PairIndices(first: nat, second: nat, wide: bool)
    requires first < 0x1_0000 && second < 0x1_0000
    ensures Indices(Pair(second, first, wide), first, second, wide)
  {
  }

  /** The parser's words, tag by tag. */
  lemma StepRead(b: seq<Byte>, pos: nat, i: nat, n: nat, wide: bool)
    requires pos <= |b|
    ensures var r := ParseStep(b, pos, i, n, wide);
            if pos + 9 <= |b| then ReadStep(b, pos, i, n, wide, r) else r == Stop(Eof)
  {
    hide Big, GetU2, GetU4, Pair, Indices;
    if pos + 9 <= |b| {
      Big2(b, pos + 1);
      Big2(b, pos + 2);
      Big2(b, pos + 3);
      Big4(b, pos + 1);
      Big4(b, pos + 5);
      PairIndices(GetU2(b, pos + 1), GetU2(b, pos + 3), wide);
      PairIndices(b[pos + 1], GetU2(b, pos + 2), wide);
    }
  }

  // Checking.

  /** Entry i is the second word of a constant of two words, which is not looked at. */
  predicate SecondWord(tags: seq<Byte>, i: nat)
    requires i <= |tags|
  {
    i > 1 && tags[i - 1] in {5, 6} && !SecondWord(tags, i - 1)
  }

  /** A known constant whose indices lie in the pool and lead to entries of the right kind. */
  predicate EntryValid(tags: seq<Byte>, words: seq<nat>, i: nat)
    requires |tags| == |words| && 0 < i < |tags|
  {
    var k, first, second := tags[i], Ushort1(words[i]), Ushort2(words[i]);
    && k in {1, 2, 3, 4, 5, 6, 7, 8, 9, 10, 11, 12, 15, 16, 18}
    && (k in {7, 8, 16} ==> 0 < first < |tags| && tags[first] == 1)
    && (k in {9, 10, 11} ==> 0 < first < |tags| && tags[first] == 7 && 0 < second < |tags| && tags[second] == 12)
    && (k == 12 ==> 0 < first < |tags| && tags[first] == 1 && 0 < second < |tags| && tags[second] == 1)
    && (k == 15 ==> 1 <= first <= 9 && 0 < second < |tags|)
    && (k == 18 ==> 0 < second < |tags| && tags[second] == 12)
  }

  /** The answer is the first entry that is looked at and not valid, or 0 if all are valid. */
  ghost predicate FirstInvalid(tags: seq<Byte>, words: seq<nat>, bad: nat)
    requires |tags| == |words|
  {
    if bad == 0 then forall i :: 0 < i < |tags| && !SecondWord(tags, i) ==> EntryValid(tags, words, i)
    else
      && bad < |tags| && !SecondWord(tags, bad) && !EntryValid(tags, words, bad)
      && forall i :: 0 < i < bad && !SecondWord(tags, i) ==> EntryValid(tags, words, i)
  }

  lemma ValidIs(tags: seq<Byte>, words: seq<nat>, i: nat)
    requires |tags| == |words| && 0 < i < |tags|
    ensures EntryOk(tags, words, i) <==> EntryValid(tags, words, i)
  {
    hide Ushort1, Ushort2;
  }

  lemma {:induction false} BadFrom(tags: seq<Byte>, words: seq<nat>, i: nat)
    requires |tags| == |words| && 0 < i && (i <= |tags| ==> !SecondWord(tags, i))
    ensures var bad := FirstBad(tags, words, i);
            if bad == 0 then forall j :: i <= j < |tags| && !SecondWord(tags, j) ==> EntryValid(tags, words, j)
            else
              && i <= bad < |tags| && !SecondWord(tags, bad) && !EntryValid(tags, words, bad)
              && forall j :: i <= j < bad && !SecondWord(tags, j) ==> EntryValid(tags, words, j)
    decreases |tags| - i
  {
    hide EntryOk, EntryValid;
    if i < |tags| {
      ValidIs(tags, words, i);
      if EntryOk(tags, words, i) {
        if IsDouble(tags[i]) {
          assert i + 1 <= |tags| ==> SecondWord(tags, i + 1);
        }
        BadFrom(tags, words, if IsDouble(tags[i]) then i + 2 else i + 1);
      }
    }
  }

  /** What verify_constant_pool finds, for any tags and words. */
  lemma VerifyFinds(tags: seq<Byte>, words: seq<nat>)
    requires |tags| == |words|
    ensures FirstInvalid(tags, words, FirstBad(tags, words, 1))
  {
    BadFrom(tags, words, 1);
  }
}
