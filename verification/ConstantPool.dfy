/** The constant pool that is being made, and the one that is being read. */
module ConstantPool {
  import opened PoolCells
  import opened PoolRefs
  import opened PoolBytes
  import opened PoolFormat
  import opened PoolVerify

  function Zip(tags: seq<Byte>, data: seq<Entry>): (p: Pool)
    requires |tags| == |data|
    ensures |p| == |tags| && forall i :: 0 <= i < |p| ==> p[i] == Cell(tags[i], data[i])
  {
    seq(|tags|, i requires 0 <= i < |tags| => Cell(tags[i], data[i]))
  }

  /** What set_constant_entry does, at or before the end of the pool. */
  function SetCell(p: Pool, index: nat, c: Cell): Pool
    requires index <= |Started(p)|
  {
    if index == |Started(p)| then Started(p) + [c] else Started(p)[index := c]
  }

  lemma LastIs(p: Pool, c: Cell, i: nat)
    requires 0 < i < |p| && p[i] == c && forall j :: i < j < |p| ==> p[j] != c
    ensures LastAt(p, c) == i
  {
    assert LastAt(p, c) >= i;
  }

  lemma LastDoubleIs(p: Pool, tag: Byte, w1: nat, w2: nat, i: nat)
    requires 0 < i < |p| - 1 && DoubleAt(p, i, tag, w1, w2) && forall j :: i < j < |p| - 1 ==> !DoubleAt(p, j, tag, w1, w2)
    ensures LastDoubleAt(p, tag, w1, w2) == i
  {
    assert LastDoubleAt(p, tag, w1, w2) >= i;
  }

  lemma NoLast(p: Pool, c: Cell)
    requires forall j :: 0 < j < |p| ==> p[j] != c
    ensures LastAt(p, c) == 0
  {
  }

  lemma TwoCells(p: Pool, i: nat, a: Cell, b: Cell)
    requires i == |Started(p)|
    ensures |Started(SetCell(p, i, a))| == i + 1 && SetCell(SetCell(p, i, a), i + 1, b) == Started(p) + [a, b]
  {
  }

  lemma NoLastDouble(p: Pool, tag: Byte, w1: nat, w2: nat)
    requires forall j :: 0 < j < |p| - 1 ==> !DoubleAt(p, j, tag, w1, w2)
    ensures LastDoubleAt(p, tag, w1, w2) == 0
  {
  }

  /** CPool: arrays that grow; before the first constant they have no elements. */
  class CPool {
    var count: nat
    var tags: array<Byte>
    var data: array<Entry>

    ghost predicate Valid()
      reads this
    {
      tags.Length == data.Length && count <= tags.Length && (count == 0 <==> tags.Length == 0)
    }

    ghost function Cells(): (p: Pool)
      reads this, tags, data
      requires Valid()
      ensures |p| == count && forall i :: 0 <= i < count ==> p[i] == Cell(tags[i], data[i])
    {
      Zip(tags[..count], data[..count])
    }

    /** CPOOL_INIT. */
    constructor ()
      ensures Valid() && Cells() == [] && fresh(tags) && fresh(data)
    {
      count := 0;
      tags := new Byte[0];
      data := new Entry[0];
    }

    /** The arrays with another capacity; what is new is cleared. */
    method Resize(capacity: nat)
      requires Valid() && 0 < count && tags.Length <= capacity
      modifies this`tags, this`data
      ensures Valid() && tags.Length == capacity && fresh(tags) && fresh(data) && Cells() == old(Cells())
    {
      var t, d := tags, data;
      tags := new Byte[capacity](i reads t => if 0 <= i < t.Length then t[i] else 0);
      data := new Entry[capacity](i reads d => if 0 <= i < d.Length then d[i] else Word(0));
    }

    /** set_constant_entry. */
    method SetConstantEntry(index: nat, tag: Byte, value: Entry)
      requires Valid() && index <= |Started(Cells())|
      modifies this, tags, data
      ensures Valid() && Cells() == SetCell(old(Cells()), index, Cell(tag, value))
      ensures (tags == old(tags) || fresh(tags)) && (data == old(data) || fresh(data))
    {
      if tags.Length == 0 {
        FirstEntries();
      }
      if index >= tags.Length {
        var capacity := tags.Length * 2;
        if index >= capacity {
          capacity := index + 10;
        }
        Resize(capacity);
      }
      Store(index, tag, value);
    }

    /** The arrays of an empty pool, with entry 0, which no constant uses. */
    method FirstEntries()
      requires Valid() && tags.Length == 0
      modifies this
      ensures Valid() && count > 0 && Cells() == Started(old(Cells())) && fresh(tags) && fresh(data)
    {
      tags := new Byte[100](_ => 0);
      data := new Entry[100](_ => Word(0));
      count := 1;
    }

    /** One entry is stored where there is room for it. */
    method Store(index: nat, tag: Byte, value: Entry)
      requires Valid() && 0 < count && index <= count && index < tags.Length
      modifies this`count, tags, data
      ensures Valid() && Cells() == SetCell(old(Cells()), index, Cell(tag, value))
    {
      if index >= count {
        count := index + 1;
      }
      tags[index] := tag;
      data[index] := value;
      assert Cells() == SetCell(old(Cells()), index, Cell(tag, value));
    }

    /** The data of an entry is replaced. */
    method SetData(index: nat, value: Entry)
      requires Valid() && index < count
      modifies data
      ensures Valid() && Cells() == old(Cells())[index := Cell(old(Cells())[index].tag, value)]
    {
      data[index] := value;
      assert Cells() == old(Cells())[index := Cell(old(Cells())[index].tag, value)];
    }

    /** find_constant1. */
    method FindConstant1(tag: Byte, value: nat) returns (i: nat)
      requires Valid() && tag != UTF8
      modifies this, tags, data
      ensures Valid() && Found(Cells(), i) == Intern(old(Cells()), WordOp(tag, value))
      ensures (tags == old(tags) || fresh(tags)) && (data == old(data) || fresh(data))
    {
      i := FindCell(tag, Word(value));
      if i == 0 {
        i := if count == 0 then 1 else count;
        SetConstantEntry(i, tag, Word(value));
      }
    }

    /** The search that find_constant1, find_tree_constant and find_class_or_string_constant start with: downward, without
        the first entry. */
    method FindCell(tag: Byte, value: Entry) returns (i: nat)
      requires Valid()
      ensures i == LastAt(Cells(), Cell(tag, value))
    {
      var k := count - 1;
      while k > 0
        invariant k < count && -1 <= k
        invariant forall j :: k < j < count && 0 < j ==> Cells()[j] != Cell(tag, value)
      {
        if tags[k] == tag && data[k] == value {
          LastIs(Cells(), Cell(tag, value), k);
          return k;
        }
        k := k - 1;
      }
      NoLast(Cells(), Cell(tag, value));
      return 0;
    }

    /** find_constant2. */
    method FindConstant2(tag: Byte, word1: nat, word2: nat) returns (i: nat)
      requires Valid() && tag != UTF8
      modifies this, tags, data
      ensures Valid() && Found(Cells(), i) == Intern(old(Cells()), Double(tag, word1, word2))
      ensures (tags == old(tags) || fresh(tags)) && (data == old(data) || fresh(data))
    {
      var k := count - 2;
      ghost var p := Cells();
      while k > 0
        invariant k < count && -2 <= k
        invariant forall j :: k < j < count - 1 && 0 < j ==> !DoubleAt(p, j, tag, word1, word2)
        modifies {}
      {
        assert p[k] == Cell(tags[k], data[k]) && p[k + 1] == Cell(tags[k + 1], data[k + 1]);
        if tags[k] == tag && data[k] == Word(word1) && data[k + 1] == Word(word2) {
          LastDoubleIs(p, tag, word1, word2, k);
          return k;
        }
        k := k - 1;
      }
      NoLastDouble(p, tag, word1, word2);
      i := if count == 0 then 1 else count;
      TwoCells(p, i, Cell(tag, Word(word1)), Cell(0, Word(word2)));
      hide SetCell;
      SetConstantEntry(i, tag, Word(word1));
      SetConstantEntry(i + 1, 0, Word(word2));
    }

    /** find_tree_constant, for text. */
    method FindTreeConstant(name: seq<Byte>) returns (i: nat)
      requires Valid()
      modifies this, tags, data
      ensures Valid() && Found(Cells(), i) == Intern(old(Cells()), TextOp(name))
      ensures (tags == old(tags) || fresh(tags)) && (data == old(data) || fresh(data))
    {
      i := FindCell(UTF8, Text(name));
      if i == 0 {
        i := if count == 0 then 1 else count;
        SetConstantEntry(i, UTF8, Word(0));
        SetData(i, Text(name));
      }
    }

    method FindUtf8Constant(name: MaybeName) returns (i: nat)
      requires Valid()
      modifies this, tags, data
      ensures Valid() && Found(Cells(), i) == Utf8(old(Cells()), name)
      ensures (tags == old(tags) || fresh(tags)) && (data == old(data) || fresh(data))
    {
      if name.NullName? {
        return 0;
      }
      i := FindTreeConstant(name.name);
    }

    method FindClassOrStringConstant(tag: Byte, name: MaybeName) returns (i: nat)
      requires Valid() && tag != UTF8
      modifies this, tags, data
      ensures Valid() && Found(Cells(), i) == ClassOrString(old(Cells()), tag, name)
      ensures (tags == old(tags) || fresh(tags)) && (data == old(data) || fresh(data))
    {
      var j := FindUtf8Constant(name);
      i := FindCell(tag, Word(j));
      if i == 0 {
        i := count;
        SetConstantEntry(i, tag, Word(j));
      }
    }

    method FindClassConstant(name: seq<Byte>) returns (i: nat)
      requires Valid()
      modifies this, tags, data
      ensures Valid() && Found(Cells(), i) == ClassOrString(old(Cells()), 7, Name(name))
      ensures (tags == old(tags) || fresh(tags)) && (data == old(data) || fresh(data))
    {
      i := FindClassOrStringConstant(CLASS, Name(name));
    }

    method FindStringConstant(text: seq<Byte>) returns (i: nat)
      requires Valid()
      modifies this, tags, data
      ensures Valid() && Found(Cells(), i) == ClassOrString(old(Cells()), 8, Name(text))
      ensures (tags == old(tags) || fresh(tags)) && (data == old(data) || fresh(data))
    {
      i := FindClassOrStringConstant(STRING, Name(text));
    }

    method FindNameAndTypeConstant(name: seq<Byte>, signature: seq<Byte>, wide: bool) returns (i: nat)
      requires Valid()
      modifies this, tags, data
      ensures Valid() && Found(Cells(), i) == NameAndType(old(Cells()), name, signature, wide)
      ensures (tags == old(tags) || fresh(tags)) && (data == old(data) || fresh(data))
    {
      var nameIndex := FindUtf8Constant(Name(name));
      var typeIndex := FindUtf8Constant(Name(signature));
      i := FindConstant1(NAME_AND_TYPE, Pair(nameIndex, typeIndex, wide));
    }

    /** find_fieldref_index, find_methodref_index and find_methodref_with_class_index, by tag. */
    method FindRefIndex(tag: Byte, cls: seq<Byte>, name: seq<Byte>, signature: seq<Byte>, wide: bool) returns (i: nat)
      requires Valid() && IsRef(tag)
      modifies this, tags, data
      ensures Valid() && Found(Cells(), i) == Ref(old(Cells()), tag, cls, name, signature, wide)
      ensures (tags == old(tags) || fresh(tags)) && (data == old(data) || fresh(data))
    {
      hide LastAt, LastOf, Intern, ClassOrString;
      ClassIsInterned(Cells(), CLASS, Name(cls));
      var classIndex := FindClassOrStringConstant(CLASS, Name(cls));
      var nameIndex := FindUtf8Constant(Name(name));
      var typeIndex := FindUtf8Constant(Name(signature));
      var nameTypeIndex := FindConstant1(NAME_AND_TYPE, Pair(nameIndex, typeIndex, wide));
      i := FindConstant1(tag, Pair(classIndex, nameTypeIndex, wide));
    }

    method FindFieldrefIndex(cls: seq<Byte>, name: seq<Byte>, signature: seq<Byte>, wide: bool) returns (i: nat)
      requires Valid()
      modifies this, tags, data
      ensures Valid() && Found(Cells(), i) == Ref(old(Cells()), 9, cls, name, signature, wide)
      ensures (tags == old(tags) || fresh(tags)) && (data == old(data) || fresh(data))
    {
      i := FindRefIndex(FIELDREF, cls, name, signature, wide);
    }

    /** find_methodref_with_class_index. */
    method FindMethodrefIndex(isInterface: bool, cls: seq<Byte>, name: seq<Byte>, signature: seq<Byte>, wide: bool) returns (i: nat)
      requires Valid()
      modifies this, tags, data
      ensures Valid() && Found(Cells(), i) == Ref(old(Cells()), if isInterface then 11 else 10, cls, name, signature, wide)
      ensures (tags == old(tags) || fresh(tags)) && (data == old(data) || fresh(data))
    {
      i := FindRefIndex(if isInterface then INTERFACE_METHODREF else METHODREF, cls, name, signature, wide);
    }

    /** count_constant_pool_bytes. */
    method CountConstantPoolBytes() returns (size: nat)
      requires Valid() && Typed(Cells())
      ensures size == 2 + CountFrom(Cells(), 1)
    {
      hide CellCount, TypedAt;
      ghost var p := Cells();
      size := 2;
      var i := 1;
      while i < count
        invariant 0 < i && size >= 2 && size + CountFrom(p, i) == 2 + CountFrom(p, 1)
        decreases count - i
      {
        assert TypedAt(p, i);
        size, i := CountCell(size, i);
      }
    }

    /** The body of the loop: the tag of one constant, and what belongs to it. */
    method CountCell(total: nat, i: nat) returns (size: nat, j: nat)
      requires Valid() && 0 < i < count && TypedAt(Cells(), i)
      ensures size == total + CellCount(Cells(), i) && j == Next(Cells(), i)
    {
      size, j := total + 1, i;
      var tag := tags[j];
      if IsPair(tag) || IsWord(tag) {
        size := size + 4;
      } else if IsHalf(tag) {
        size := size + 2;
      } else if IsDouble(tag) {
        size := size + 8;
        j := j + 1;
      } else if tag == UTF8 {
        size := size + |data[j].t| + 2;
      } else {
        size := size - 1;
      }
      j := j + 1;
    }

    /** write_constant_pool; ok says that the final assertion holds. */
    method WriteConstantPool(buffer: array<Byte>, length: nat) returns (ok: bool)
      requires Valid() && Typed(Cells()) && buffer != tags && |Bytes(Cells())| <= buffer.Length
      modifies buffer
      ensures buffer[..|Bytes(Cells())|] == Bytes(Cells()) && ok == (length == |Bytes(Cells())|)
    {
      hide U2, CellBytes, TypedAt;
      ghost var p := Cells();
      var i := 1;
      var ptr := Put2(buffer, 0, count);
      while i < count
        invariant 0 < i && 0 <= ptr <= buffer.Length && buffer[..ptr] + Body(p, i) == Bytes(p) && Cells() == p
        decreases count - i
      {
        ghost var written := buffer[..ptr];
        assert TypedAt(p, i);
        assert written + (CellBytes(p, i) + Body(p, Next(p, i))) == (written + CellBytes(p, i)) + Body(p, Next(p, i));
        ptr, i := WriteCell(buffer, ptr, i);
      }
      assert Body(p, i) == [] && buffer[..ptr] == Bytes(p);
      ok := ptr == length;
    }

    /** The body of the loop: the tag of one constant, and what belongs to it. */
    method WriteCell(buffer: array<Byte>, ptr: nat, i: nat) returns (next: nat, j: nat)
      requires Valid() && 0 < i < count && TypedAt(Cells(), i) && buffer != tags
      requires ptr + |CellBytes(Cells(), i)| <= buffer.Length
      modifies buffer
      ensures next == ptr + |CellBytes(Cells(), i)| && buffer[..next] == old(buffer[..ptr]) + CellBytes(Cells(), i)
      ensures j == Next(Cells(), i)
    {
      hide CellData, TypedAt;
      ghost var p := Cells();
      next := Put1(buffer, ptr, tags[i]);
      next, j := WriteData(buffer, next, i);
    }

    method WriteData(buffer: array<Byte>, ptr: nat, i: nat) returns (next: nat, j: nat)
      requires Valid() && 0 < i < count && TypedAt(Cells(), i) && buffer != tags
      requires ptr + |CellData(Cells(), i)| <= buffer.Length
      modifies buffer
      ensures next == ptr + |CellData(Cells(), i)| && buffer[..next] == old(buffer[..ptr]) + CellData(Cells(), i)
      ensures j == Next(Cells(), i)
    {
      hide U2, U4;
      next, j := ptr, i;
      var tag := tags[j];
      if IsPair(tag) || IsWord(tag) {
        next := Put4(buffer, next, data[j].w);
      } else if IsHalf(tag) {
        next := Put2(buffer, next, data[j].w);
      } else if IsDouble(tag) {
        next := Put4(buffer, next, data[j].w);
        j := j + 1;
        next := Put4(buffer, next, data[j].w);
      } else if tag == UTF8 {
        next := Put2(buffer, next, |data[j].t|);
        next := PutN(buffer, next, data[j].t);
      }
      j := j + 1;
    }

    static method Put1(buffer: array<Byte>, ptr: nat, x: nat) returns (next: nat)
      requires ptr < buffer.Length
      modifies buffer
      ensures next == ptr + 1 && buffer[..next] == old(buffer[..ptr]) + [x % 256]
    {
      buffer[ptr] := x % 256;
      next := ptr + 1;
    }

    static method Put2(buffer: array<Byte>, ptr: nat, x: nat) returns (next: nat)
      requires ptr + 2 <= buffer.Length
      modifies buffer
      ensures next == ptr + 2 && buffer[..next] == old(buffer[..ptr]) + U2(x)
    {
      next := Put1(buffer, ptr, x / 256);
      next := Put1(buffer, next, x);
    }

    static method Put4(buffer: array<Byte>, ptr: nat, x: nat) returns (next: nat)
      requires ptr + 4 <= buffer.Length
      modifies buffer
      ensures next == ptr + 4 && buffer[..next] == old(buffer[..ptr]) + U4(x)
    {
      next := Put2(buffer, ptr, x / 0x1_0000);
      next := Put2(buffer, next, x);
    }

    static method PutN(buffer: array<Byte>, ptr: nat, s: seq<Byte>) returns (next: nat)
      requires ptr + |s| <= buffer.Length
      modifies buffer
      ensures next == ptr + |s| && buffer[..next] == old(buffer[..ptr]) + s
    {
      forall k | 0 <= k < |s| {
        buffer[ptr + k] := s[k];
      }
      next := ptr + |s|;
    }
  }

  datatype Outcome = Ok | BadEntry(index: nat) | UnexpectedEof | PastTheArrays

  /** The parser's return code. */
  function Verdict(r: Parsed): Outcome {
    match r
    case Done(_, _, _) => Ok
    case BadTag(i) => BadEntry(i)
    case Eof => UnexpectedEof
    case Overrun => PastTheArrays
  }

  /** The constants of a fixed size that take up one entry. */
  predicate OneWord(kind: Byte) {
    IsHalf(kind) || kind == METHOD_TYPE || IsPair(kind) || kind == INVOKE_DYNAMIC || IsWord(kind) || kind == METHOD_HANDLE
  }

  lemma ParseCases(b: seq<Byte>, pos: nat, wide: bool)
    requires pos <= |b|
    ensures |b| - pos < 2 ==> Verdict(Parse(b, pos, wide)) == UnexpectedEof && !Parse(b, pos, wide).Done?
    ensures |b| - pos >= 2 && GetU2(b, pos) == 0 ==> Verdict(Parse(b, pos, wide)) == PastTheArrays && !Parse(b, pos, wide).Done?
    ensures |b| - pos >= 2 && GetU2(b, pos) != 0 ==> Parse(b, pos, wide) == ParseFrom(b, pos + 2, [0], [0], GetU2(b, pos), wide)
  {
    hide GetU2, ParseFrom;
  }

  /** One step of the parser, in terms of the rest. */
  lemma StepCases(b: seq<Byte>, pos: nat, tags: seq<Byte>, words: seq<nat>, n: nat, wide: bool)
    requires pos <= |b| && |tags| < n
    ensures var r := ParseStep(b, pos, |tags|, n, wide);
            if r.Stop? then ParseFrom(b, pos, tags, words, n, wide) == r.outcome && !r.outcome.Done?
            else ParseFrom(b, pos, tags, words, n, wide) == ParseFrom(b, r.pos, tags + r.tags, words + r.words, n, wide)
  {
    hide ParseStep;
  }

  lemma AllRead(b: seq<Byte>, pos: nat, tags: seq<Byte>, words: seq<nat>, n: nat, wide: bool)
    requires pos <= |b| && |tags| == n
    ensures ParseFrom(b, pos, tags, words, n, wide) == Done(tags, words, pos)
    ensures Verdict(ParseFrom(b, pos, tags, words, n, wide)) == Ok
  {
  }

  /** Entry 0 has no word, so the arrays agree from entry 1 on. */
  lemma MoreWords(was: seq<nat>, ws: seq<nat>, more: seq<nat>, now: seq<nat>)
    requires |was| == |ws| > 0 && was[1..] == ws[1..] && now == was + more
    ensures now[1..] == (ws + more)[1..]
  {
    assert now[1..] == was[1..] + more && (ws + more)[1..] == ws[1..] + more;
  }

  /** JCF: a class file in memory, and the pool that is read from it. */
  class Jcf {
    const buffer: seq<Byte>
    var readPtr: nat
    var tags: array<Byte>
    var words: array<nat>

    ghost predicate Valid()
      reads this
    {
      readPtr <= |buffer| && tags.Length == words.Length
    }

    constructor (buffer: seq<Byte>, readPtr: nat)
      requires readPtr <= |buffer|
      ensures Valid() && this.buffer == buffer && this.readPtr == readPtr && fresh(tags) && fresh(words)
    {
      this.buffer, this.readPtr := buffer, readPtr;
      tags, words := new Byte[0], new nat[0];
    }

    /** jcf_parse_constant_pool. */
    method ParseConstantPool(wide: bool) returns (o: Outcome)
      requires Valid()
      modifies this
      ensures Valid()
      ensures var r := Parse(buffer, old(readPtr), wide);
              && o == Verdict(r)
              && (r.Done? ==> readPtr == r.pos && tags[..] == r.tags && |r.words| == words.Length > 0 && words[1..] == r.words[1..])
    {
      hide GetU2, ParseStep, ParseFrom, Verdict;
      ParseCases(buffer, readPtr, wide);
      ghost var start := readPtr;
      if |buffer| - readPtr < 2 {
        return UnexpectedEof;
      }
      var size := GetU2(buffer, readPtr);
      readPtr := readPtr + 2;
      tags, words := new Byte[size], new nat[size];
      if size == 0 {
        return PastTheArrays;
      }
      tags[0] := 0;
      ghost var ws: seq<nat> := [0];
      assert tags[..1] == [0];
      var i := 1;
      while i < size
        invariant 0 < i <= size == tags.Length == words.Length && readPtr <= |buffer| && fresh(tags) && fresh(words)
        invariant |tags[..i]| == i
        invariant |ws| == i && words[1..i] == ws[1..]
        invariant Parse(buffer, start, wide) == ParseFrom(buffer, readPtr, tags[..i], ws, size, wide)
      {
        ghost var step := ParseStep(buffer, readPtr, i, size, wide);
        ghost var before := words[..i];
        StepCases(buffer, readPtr, tags[..i], ws, size, wide);
        o, i := ReadConstant(i, size, wide);
        if o != Ok {
          return;
        }
        MoreWords(before, ws, step.words, words[..i]);
        ws := ws + step.words;
        assert words[1..i] == words[..i][1..];
      }
      AllRead(buffer, readPtr, tags[..i], ws, size, wide);
      assert tags[..i] == tags[..];
      o := Ok;
    }

    /** The tag and the word of one entry. */
    method Keep(i: nat, kind: Byte, word: nat)
      requires i < tags.Length && i < words.Length
      modifies tags, words
      ensures tags[..i + 1] == old(tags[..i]) + [kind] && words[..i + 1] == old(words[..i]) + [word]
    {
      tags[i] := kind;
      words[i] := word;
    }

    /** The word of a constant that takes up one entry and has a fixed size; two 16-bit halves are put together. */
    method ReadWord(ghost i: nat, ghost n: nat, wide: bool, kind: Byte) returns (w: nat)
      requires 0 < readPtr && readPtr + 8 <= |buffer| && buffer[readPtr - 1] == kind && OneWord(kind)
      modifies this`readPtr
      ensures old(readPtr) <= readPtr <= |buffer|
      ensures ParseStep(buffer, old(readPtr) - 1, i, n, wide) == Take([kind], [w], readPtr)
    {
      hide Pair, GetU2, GetU4;
      if IsHalf(kind) || kind == METHOD_TYPE {
        w := GetU2(buffer, readPtr);
        readPtr := readPtr + 2;
      } else if IsPair(kind) || kind == INVOKE_DYNAMIC {
        w := Pair(GetU2(buffer, readPtr + 2), GetU2(buffer, readPtr), wide);
        readPtr := readPtr + 4;
      } else if IsWord(kind) {
        w := GetU4(buffer, readPtr);
        readPtr := readPtr + 4;
      } else {
        w := Pair(GetU2(buffer, readPtr + 1), buffer[readPtr], wide);
        readPtr := readPtr + 3;
      }
    }

    /** The body of the loop: one constant. */
    method ReadConstant(i: nat, size: nat, wide: bool) returns (o: Outcome, next: nat)
      requires Valid() && i < size == tags.Length
      modifies this`readPtr, tags, words
      ensures Valid()
      ensures var r := ParseStep(buffer, old(readPtr), i, size, wide);
              if r.Stop? then o == Verdict(r.outcome) != Ok
              else && o == Ok && readPtr == r.pos && next == i + |r.tags| <= size
                   && tags[..next] == old(tags[..i]) + r.tags && words[..next] == old(words[..i]) + r.words
    {
      hide Pair, GetU2, GetU4;
      next := i;
      if |buffer| - readPtr < 9 {
        return UnexpectedEof, next;
      }
      var kind := buffer[readPtr];
      readPtr := readPtr + 1;
      if OneWord(kind) {
        var w := ReadWord(i, size, wide, kind);
        Keep(i, kind, w);
      } else if IsDouble(kind) {
        Keep(i, kind, GetU4(buffer, readPtr));
        next := next + 1;
        if next >= size {
          return PastTheArrays, next;
        }
        Keep(next, 0, GetU4(buffer, readPtr + 4));
        readPtr := readPtr + 8;
      } else if kind == UTF8 {
        var n := GetU2(buffer, readPtr);
        readPtr := readPtr + 2;
        if |buffer| - readPtr < n {
          return UnexpectedEof, next;
        }
        Keep(i, kind, readPtr - 2);
        readPtr := readPtr + n;
      } else {
        return BadEntry(i), next;
      }
      next := next + 1;
      o := Ok;
    }

    /** verify_constant_pool. */
    method VerifyConstantPool() returns (bad: nat)
      requires Valid()
      ensures bad == FirstBad(tags[..], words[..], 1) && FirstInvalid(tags[..], words[..], bad)
    {
      hide Ushort1, Ushort2;
      VerifyFinds(tags[..], words[..]);
      hide FirstInvalid;
      var size := tags.Length;
      var i := 1;
      while i < size
        invariant 0 < i && FirstBad(tags[..], words[..], 1) == FirstBad(tags[..], words[..], i)
        decreases size - i
      {
        var tag := tags[i];
        var n1, n2 := Ushort1(words[i]), Ushort2(words[i]);
        if tag == NAME_AND_TYPE {
          if n2 <= 0 || n2 >= size || tags[n2] != UTF8 {
            return i;
          }
        }
        if tag == NAME_AND_TYPE || IsHalf(tag) {
          if n1 <= 0 || n1 >= size || tags[n1] != UTF8 {
            return i;
          }
        } else if IsRef(tag) {
          if n1 <= 0 || n1 >= size || tags[n1] != CLASS {
            return i;
          }
          if n2 <= 0 || n2 >= size || tags[n2] != NAME_AND_TYPE {
            return i;
          }
        } else if IsDouble(tag) {
          i := i + 1;
        } else if IsWord(tag) || tag == UTF8 || tag == UNICODE {
        } else if tag == METHOD_HANDLE {
          if n1 < 1 || n1 > 9 {
            return i;
          }
          if n2 <= 0 || n2 >= size {
            return i;
          }
        } else if tag == METHOD_TYPE {
          if n1 <= 0 || n1 >= size || tags[n1] != UTF8 {
            return i;
          }
        } else if tag == INVOKE_DYNAMIC {
          if n2 <= 0 || n2 >= size || tags[n2] != NAME_AND_TYPE {
            return i;
          }
        } else {
          return i;
        }
        i := i + 1;
      }
      return 0;
    }
  }
}
