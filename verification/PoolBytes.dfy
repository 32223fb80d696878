/** The constant pool as bytes: what is written, how much room it needs, and what is read back. */
module PoolBytes {
  import opened PoolCells
  import opened PoolRefs

  // Writing. Numbers are big-endian, and their upper bits are dropped.

  function U2(x: nat): (s: seq<Byte>)
    ensures |s| == 2
  {
    [x / 256 % 256, x % 256]
  }

  function U4(x: nat): (s: seq<Byte>)
    ensures |s| == 4
  {
    U2(x / 0x1_0000) + U2(x)
  }

  function GetU2(b: seq<Byte>, k: nat): (x: nat)
    requires k + 2 <= |b|
    ensures x < 0x1_0000
  {
    (b[k] as int) * 256 + b[k + 1] as int
  }

  function GetU4(b: seq<Byte>, k: nat): (x: nat)
    requires k + 4 <= |b|
    ensures x < 0x1_0000_0000
  {
    GetU2(b, k) * 0x1_0000 + GetU2(b, k + 2)
  }

  /** The entries that the writer may look at: text where the tag says so, and a second word after the first. */
  ghost predicate Typed(p: Pool) {
    forall i :: 0 < i < |p| ==> TypedAt(p, i)
  }

  predicate TypedAt(p: Pool, i: nat)
    requires 0 < i < |p|
  {
    && (p[i].tag == UTF8 <==> p[i].entry.Text?)
    && (IsDouble(p[i].tag) ==> i + 1 < |p| && p[i + 1].entry.Word?)
  }

  lemma WfTyped(p: Pool)
    requires Wf(p)
    ensures Typed(p)
  {
    forall i | 0 < i < |p| ensures TypedAt(p, i) {
      assert WfAt(p, i);
      if IsDouble(p[i].tag) { assert WfAt(p, i + 1); }
    }
  }

  function Next(p: Pool, i: nat): nat
    requires i < |p|
  {
    if IsDouble(p[i].tag) then i + 2 else i + 1
  }

  function CellBytes(p: Pool, i: nat): (s: seq<Byte>)
    requires 0 < i < |p| && TypedAt(p, i)
    ensures s != [] && s[0] == p[i].tag
  {
    [p[i].tag] + CellData(p, i)
  }

  function CellData(p: Pool, i: nat): (s: seq<Byte>)
    requires 0 < i < |p| && TypedAt(p, i)
  {
    var c := p[i];
    if IsPair(c.tag) || IsWord(c.tag) then U4(c.entry.w)
    else if IsHalf(c.tag) then U2(c.entry.w)
    else if IsDouble(c.tag) then U4(c.entry.w) + U4(p[i + 1].entry.w)
    else if c.tag == UTF8 then U2(|c.entry.t|) + c.entry.t
    else []
  }

  ghost function Body(p: Pool, i: nat): seq<Byte>
    requires 0 < i && Typed(p)
    decreases |p| - i
  {
    if i >= |p| then [] else CellBytes(p, i) + Body(p, Next(p, i))
  }

  /** The bytes of the whole pool. */
  ghost function Bytes(p: Pool): (s: seq<Byte>)
    requires Typed(p)
    ensures |s| >= 2
  {
    U2(|p|) + Body(p, 1)
  }

  /** What count_constant_pool_bytes counts for an entry; an entry of another kind is not counted. */
  function CellCount(p: Pool, i: nat): nat
    requires 0 < i < |p| && TypedAt(p, i)
  {
    if Counted(p[i].tag) then |CellBytes(p, i)| else 0
  }

  predicate Counted(tag: Byte) {
    IsSingle(tag) || IsDouble(tag)
  }

  ghost function CountFrom(p: Pool, i: nat): nat
    requires 0 < i && Typed(p)
    decreases |p| - i
  {
    if i >= |p| then 0 else CellCount(p, i) + CountFrom(p, Next(p, i))
  }

  /** The entries that are neither counted nor the second word of another. */
  ghost function Strays(p: Pool, i: nat): nat
    requires 0 < i && Typed(p)
    decreases |p| - i
  {
    if i >= |p| then 0 else (if Counted(p[i].tag) then 0 else 1) + Strays(p, Next(p, i))
  }

  /** The count falls short of what is written by one byte for every stray entry. */
  lemma {:induction false} CountAndStrays(p: Pool, i: nat)
    requires 0 < i && Typed(p)
    ensures CountFrom(p, i) + Strays(p, i) == |Body(p, i)|
    decreases |p| - i
  {
    if i < |p| {
      assert TypedAt(p, i);
      CountAndStrays(p, Next(p, i));
    }
  }

  lemma {:induction false} NoStrays(p: Pool, i: nat)
    requires Wf(p) && Typed(p) && 0 < i && (i < |p| ==> p[i].tag != 0)
    ensures Strays(p, i) == 0
    decreases |p| - i
  {
    if i < |p| {
      NextStart(p, i);
      NoStrays(p, Next(p, i));
    }
  }

  /** After an entry and its second word, the next entry has a tag. */
  lemma NextStart(p: Pool, i: nat)
    requires Wf(p) && 0 < i < |p| && p[i].tag != 0
    ensures Next(p, i) <= |p| && (Next(p, i) < |p| ==> p[Next(p, i)].tag != 0)
    ensures IsDouble(p[i].tag) || IsSingle(p[i].tag)
    ensures IsDouble(p[i].tag) ==> p[i + 1].tag == 0
  {
    assert WfAt(p, i);
    if i + 1 < |p| { assert WfAt(p, i + 1); }
    if i + 2 < |p| { assert WfAt(p, i + 2); }
  }

  /** The room that is asked for is the room that is needed, for every pool that interning can make. */
  lemma CountIsExact(p: Pool)
    requires Wf(p)
    ensures Typed(p) && 2 + CountFrom(p, 1) == |Bytes(p)|
  {
    WfTyped(p);
    CountAndStrays(p, 1);
    if 1 < |p| { assert WfAt(p, 1); }
    NoStrays(p, 1);
  }

  // Reading.

  datatype Parsed = Done(tags: seq<Byte>, words: seq<nat>, pos: nat) | BadTag(index: nat) | Eof | Overrun

  /** The entries that one constant gives, and where the next one starts. */
  datatype Step = Take(tags: seq<Byte>, words: seq<nat>, pos: nat) | Stop(outcome: Parsed)

  /** The constant of entry i. Two 16-bit halves are put together with the first one lowest. */
  function ParseStep(b: seq<Byte>, pos: nat, i: nat, n: nat, wide: bool): (r: Step)
    requires pos <= |b|
    ensures r.Take? ==> 0 < |r.tags| == |r.words| && pos <= r.pos <= |b|
    ensures r.Take? && i < n ==> i + |r.tags| <= n
    ensures r.Stop? ==> !r.outcome.Done?
  {
    if |b| - pos < 9 then Stop(Eof)
    else
      var k := b[pos];
      if IsHalf(k) || k == METHOD_TYPE then Take([k], [GetU2(b, pos + 1)], pos + 3)
      else if IsPair(k) || k == INVOKE_DYNAMIC then Take([k], [Pair(GetU2(b, pos + 3), GetU2(b, pos + 1), wide)], pos + 5)
      else if IsWord(k) then Take([k], [GetU4(b, pos + 1)], pos + 5)
      else if IsDouble(k) then
        if i + 1 >= n then Stop(Overrun)
        else Take([k, 0], [GetU4(b, pos + 1), GetU4(b, pos + 5)], pos + 9)
      else if k == UTF8 then
        var l := GetU2(b, pos + 1);
        if |b| - (pos + 3) < l then Stop(Eof) else Take([k], [pos + 1], pos + 3 + l)
      else if k == METHOD_HANDLE then Take([k], [Pair(GetU2(b, pos + 2), b[pos + 1], wide)], pos + 4)
      else Stop(BadTag(i))
  }

  /** jcf_parse_constant_pool from entry |tags| on. */
  function ParseFrom(b: seq<Byte>, pos: nat, tags: seq<Byte>, words: seq<nat>, n: nat, wide: bool): Parsed
    requires pos <= |b|
    decreases n - |tags|
  {
    if |tags| >= n then Done(tags, words, pos)
    else
      match ParseStep(b, pos, |tags|, n, wide)
      case Take(ts, ws, next) => ParseFrom(b, next, tags + ts, words + ws, n, wide)
      case Stop(outcome) => outcome
  }

  /** A count of 0 has no room for the first entry, and a constant of two words none in the last place. */
  function Parse(b: seq<Byte>, pos: nat, wide: bool): Parsed
    requires pos <= |b|
  {
    if |b| - pos < 2 then Eof
    else if GetU2(b, pos) == 0 then Overrun
    else ParseFrom(b, pos + 2, [0], [0], GetU2(b, pos), wide)
  }

  // Round trip.

  /** An entry of the pool, as it is read back: the halves of a pair change places, and text is an offset. */
  predicate ReadBack(b: seq<Byte>, c: Cell, tag: Byte, w: nat, wide: bool)
    requires IsDouble(c.tag) || c.tag == 0 || IsSingle(c.tag)
    requires c.tag == UTF8 <==> c.entry.Text?
  {
    && tag == c.tag
    && (IsHalf(c.tag) ==> w == c.entry.w % 0x1_0000)
    && (IsPair(c.tag) ==> w == Pair(Lo(c.entry.w), Hi(c.entry.w), wide))
    && (IsWord(c.tag) || IsDouble(c.tag) || c.tag == 0 ==> w == c.entry.w % 0x1_0000_0000)
    && (c.tag == UTF8 ==> w + 2 + |c.entry.t| <= |b| && GetU2(b, w) == |c.entry.t| && b[w + 2..][..|c.entry.t|] == c.entry.t)
  }

  /** Counts and lengths fit in two bytes, as section 4.1 and section 4.4.7 of the Java Virtual Machine Specification
      demand. */
  ghost predicate Fits(p: Pool) {
    0 < |p| < 0x1_0000 && forall i :: 0 <= i < |p| ==> (p[i].entry.Text? ==> |p[i].entry.t| < 0x1_0000)
  }

  ghost predicate ReadBackAll(b: seq<Byte>, p: Pool, tags: seq<Byte>, words: seq<nat>, wide: bool) {
    && Wf(p) && |tags| == |words| == |p|
    && forall i :: 0 < i < |p| ==> WfAt(p, i) && ReadBack(b, p[i], tags[i], words[i], wide)
  }

  predicate At(b: seq<Byte>, pos: nat, s: seq<Byte>) {
    pos + |s| <= |b| && b[pos..pos + |s|] == s
  }

  lemma AtMiddle(pre: seq<Byte>, s: seq<Byte>, rest: seq<Byte>)
    ensures At(pre + s + rest, |pre|, s)
  {
    var b := pre + s + rest;
    assert b == pre + (s + rest);
    assert b[|pre|..] == s + rest;
    assert (s + rest)[..|s|] == s;
  }

  lemma AtSplit(b: seq<Byte>, pos: nat, s: seq<Byte>, r: seq<Byte>)
    requires At(b, pos, s + r)
    ensures At(b, pos, s) && At(b, pos + |s|, r)
  {
    assert (s + r)[..|s|] == s && (s + r)[|s|..] == r;
    assert b[pos..pos + |s + r|][..|s|] == b[pos..pos + |s|];
    assert b[pos..pos + |s + r|][|s|..] == b[pos + |s|..pos + |s| + |r|];
  }

  lemma ReadU2(b: seq<Byte>, pos: nat, x: nat)
    requires At(b, pos, U2(x))
    ensures GetU2(b, pos) == x % 0x1_0000
  {
    var s := U2(x);
    assert b[pos] == b[pos..pos + 2][0] == s[0] && b[pos + 1] == b[pos..pos + 2][1] == s[1];
    hide At;
    TwoDigits(x);
  }

  lemma TwoDigits(x: nat)
    ensures x / 256 % 256 * 256 + x % 256 == x % 0x1_0000
  {
  }

  lemma ReadU4(b: seq<Byte>, pos: nat, x: nat)
    requires At(b, pos, U4(x))
    ensures GetU4(b, pos) == x % 0x1_0000_0000 && GetU2(b, pos) == Hi(x) && GetU2(b, pos + 2) == Lo(x)
  {
    AtSplit(b, pos, U2(x / 0x1_0000), U2(x));
    ReadU2(b, pos, x / 0x1_0000);
    ReadU2(b, pos + 2, x);
    HalvesOf(x);
    hide GetU2, U2, U4, At;
  }

  lemma HalvesOf(x: nat)
    ensures x / 0x1_0000 % 0x1_0000 * 0x1_0000 + x % 0x1_0000 == x % 0x1_0000_0000
  {
  }

  lemma AtHead(b: seq<Byte>, pos: nat, s: seq<Byte>)
    requires At(b, pos, s) && s != []
    ensures b[pos] == s[0]
  {
    assert b[pos] == b[pos..pos + |s|][0];
  }

  /** The entries that one constant takes, and what is read for them. */
  function OneTags(p: Pool, i: nat): seq<Byte>
    requires 0 < i < |p|
  {
    if IsDouble(p[i].tag) then [p[i].tag, 0] else [p[i].tag]
  }

  /** Reading one constant that starts at least nine bytes before the end of the file. */
  lemma ParseOne(b: seq<Byte>, pos: nat, p: Pool, i: nat, tags: seq<Byte>, words: seq<nat>, wide: bool) returns (more: seq<nat>)
    requires Wf(p) && Fits(p) && 0 < i < |p| && p[i].tag != 0 && |tags| == i && TypedAt(p, i)
    requires At(b, pos, CellBytes(p, i)) && pos + 9 <= |b|
    ensures Next(p, i) <= |p| && |more| == Next(p, i) - i
    ensures ParseFrom(b, pos, tags, words, |p|, wide)
         == ParseFrom(b, pos + |CellBytes(p, i)|, tags + OneTags(p, i), words + more, |p|, wide)
    ensures WfAt(p, i) && ReadBack(b, p[i], p[i].tag, more[0], wide)
    ensures |more| == 2 ==> WfAt(p, i + 1) && ReadBack(b, p[i + 1], 0, more[1], wide)
  {
    hide ReadBack, ParseFrom;
    NextStart(p, i);
    assert WfAt(p, i);
    var c := p[i];
    AtHead(b, pos, CellBytes(p, i));
    if IsDouble(c.tag) {
      assert WfAt(p, i + 1);
      more := ParseDouble(b, pos, p, i, tags, words, wide);
    } else if c.tag == UTF8 {
      more := ParseText(b, pos, c, tags, words, |p|, wide);
    } else {
      more := ParseShort(b, pos, c, tags, words, |p|, wide);
    }
  }

  lemma ParseDouble(b: seq<Byte>, pos: nat, p: Pool, i: nat, tags: seq<Byte>, words: seq<nat>, wide: bool)
    returns (more: seq<nat>)
    requires 0 < i && i + 1 < |p| && TypedAt(p, i) && IsDouble(p[i].tag) && p[i + 1].tag == 0 && |tags| == i
    requires At(b, pos, CellBytes(p, i))
    ensures |more| == 2 && |CellBytes(p, i)| == 9
    ensures ParseFrom(b, pos, tags, words, |p|, wide)
         == ParseFrom(b, pos + 9, tags + OneTags(p, i), words + more, |p|, wide)
    ensures ReadBack(b, p[i], p[i].tag, more[0], wide) && ReadBack(b, p[i + 1], 0, more[1], wide)
  {
    var c, d := p[i], p[i + 1];
    AtHead(b, pos, CellBytes(p, i));
    AtSplit(b, pos, [c.tag], U4(c.entry.w) + U4(d.entry.w));
    AtSplit(b, pos + 1, U4(c.entry.w), U4(d.entry.w));
    ReadU4(b, pos + 1, c.entry.w);
    ReadU4(b, pos + 5, d.entry.w);
    hide U4, GetU4, GetU2, U2, Pair;
    more := [GetU4(b, pos + 1), GetU4(b, pos + 5)];
  }

  lemma ParseText(b: seq<Byte>, pos: nat, c: Cell, tags: seq<Byte>, words: seq<nat>, n: nat, wide: bool)
    returns (more: seq<nat>)
    requires c.tag == UTF8 && c.entry.Text? && |c.entry.t| < 0x1_0000 && |tags| < n
    requires At(b, pos, [c.tag] + (U2(|c.entry.t|) + c.entry.t)) && pos + 9 <= |b|
    ensures |more| == 1
    ensures ParseFrom(b, pos, tags, words, n, wide)
         == ParseFrom(b, pos + 3 + |c.entry.t|, tags + [c.tag], words + more, n, wide)
    ensures ReadBack(b, c, c.tag, more[0], wide)
  {
    hide ParseFrom;
    var t := c.entry.t;
    TextThere(b, pos, t);
    more := [pos + 1];
    TakeOne(b, pos, tags, words, n, wide, [c.tag], more, pos + 3 + |t|);
  }

  lemma TextThere(b: seq<Byte>, pos: nat, t: seq<Byte>)
    requires At(b, pos, [UTF8] + (U2(|t|) + t)) && |t| < 0x1_0000
    ensures pos + 3 + |t| <= |b| && b[pos] == UTF8 && GetU2(b, pos + 1) == |t| && b[pos + 3..][..|t|] == t
  {
    hide U2, GetU2;
    AtHead(b, pos, [UTF8] + (U2(|t|) + t));
    AtSplit(b, pos, [UTF8], U2(|t|) + t);
    AtSplit(b, pos + 1, U2(|t|), t);
    ReadU2(b, pos + 1, |t|);
    assert b[pos + 3..][..|t|] == b[pos + 3..pos + 3 + |t|];
  }

  /** One constant is read and the rest follows. */
  lemma TakeOne(b: seq<Byte>, pos: nat, tags: seq<Byte>, words: seq<nat>, n: nat, wide: bool, ts: seq<Byte>, ws: seq<nat>, next: nat)
    requires pos <= |b| && next <= |b| && |tags| < n && ParseStep(b, pos, |tags|, n, wide) == Take(ts, ws, next)
    ensures ParseFrom(b, pos, tags, words, n, wide) == ParseFrom(b, next, tags + ts, words + ws, n, wide)
  {
    hide ParseStep;
  }

  lemma ParseShort(b: seq<Byte>, pos: nat, c: Cell, tags: seq<Byte>, words: seq<nat>, n: nat, wide: bool)
    returns (more: seq<nat>)
    requires IsSingle(c.tag) && c.tag != UTF8 && c.entry.Word? && |tags| < n
    requires var s := [c.tag] + if IsHalf(c.tag) then U2(c.entry.w) else U4(c.entry.w);
             At(b, pos, s) && pos + 9 <= |b|
    ensures |more| == 1
    ensures ParseFrom(b, pos, tags, words, n, wide)
         == ParseFrom(b, pos + (if IsHalf(c.tag) then 3 else 5), tags + [c.tag], words + more, n, wide)
    ensures ReadBack(b, c, c.tag, more[0], wide)
  {
    if IsHalf(c.tag) {
      AtHead(b, pos, [c.tag] + U2(c.entry.w));
      AtSplit(b, pos, [c.tag], U2(c.entry.w));
      ReadU2(b, pos + 1, c.entry.w);
      more := [GetU2(b, pos + 1)];
    } else {
      AtHead(b, pos, [c.tag] + U4(c.entry.w));
      AtSplit(b, pos, [c.tag], U4(c.entry.w));
      ReadU4(b, pos + 1, c.entry.w);
      hide U4, U2;
      more := [if IsPair(c.tag) then Pair(GetU2(b, pos + 3), GetU2(b, pos + 1), wide) else GetU4(b, pos + 1)];
    }
  }

  /** The entries of s follow those that were read before. */
  ghost predicate Follows(b: seq<Byte>, p: Pool, i: nat, r: Parsed, tags: seq<Byte>, words: seq<nat>, wide: bool) {
    && r.Done? && |r.tags| == |r.words| == |p| && tags <= r.tags && words <= r.words && Wf(p)
    && forall j :: i <= j < |p| && 0 < j ==> WfAt(p, j) && ReadBack(b, p[j], r.tags[j], r.words[j], wide)
  }

  /** Every constant from i on starts at least nine bytes before the end of the file, when `extra` bytes follow the pool. */
  ghost predicate Room(p: Pool, i: nat, extra: int)
    requires 0 < i && Typed(p)
    decreases |p| - i
  {
    i >= |p| || (|Body(p, i)| + extra >= 9 && Room(p, Next(p, i), extra))
  }

  /** What the parser makes of the bytes of the constants from i on: the constants if there is room, and an end of file if not. */
  ghost predicate BodyRead(b: seq<Byte>, pos: nat, p: Pool, i: nat, tags: seq<Byte>, words: seq<nat>, wide: bool)
    requires 0 < i && Typed(p) && pos <= |b|
  {
    var r := ParseFrom(b, pos, tags, words, |p|, wide);
    if Room(p, i, |b| - pos - |Body(p, i)|) then Follows(b, p, i, r, tags, words, wide) && r.pos == pos + |Body(p, i)| else r == Eof
  }

  lemma {:induction false} ParseBody(b: seq<Byte>, pos: nat, p: Pool, i: nat, tags: seq<Byte>, words: seq<nat>, wide: bool)
    requires Wf(p) && Typed(p) && Fits(p) && 0 < i <= |p| && (i < |p| ==> p[i].tag != 0) && |tags| == |words| == i
    requires At(b, pos, Body(p, i))
    ensures pos <= |b| && BodyRead(b, pos, p, i, tags, words, wide)
    decreases |p| - i
  {
    hide ReadBack, CellBytes, Typed, TypedAt, Fits, Wf, BodyRead, Body;
    if i == |p| {
      ReadNone(b, pos, p, tags, words, wide);
    } else if pos + 9 > |b| {
      ReadEof(b, pos, p, i, tags, words, wide);
    } else {
      TypedOne(p, i);
      NextStart(p, i);
      BodyStep(b, pos, p, i);
      var more := ParseOne(b, pos, p, i, tags, words, wide);
      ParseBody(b, pos + |CellBytes(p, i)|, p, Next(p, i), tags + OneTags(p, i), words + more, wide);
      ReadMore(b, pos, p, i, tags, words, wide, more);
    }
  }

  lemma ReadNone(b: seq<Byte>, pos: nat, p: Pool, tags: seq<Byte>, words: seq<nat>, wide: bool)
    requires Wf(p) && Typed(p) && 0 < |p| == |tags| == |words| && pos <= |b|
    ensures BodyRead(b, pos, p, |p|, tags, words, wide)
  {
    hide ReadBack, WfAt, Typed;
  }

  lemma ReadEof(b: seq<Byte>, pos: nat, p: Pool, i: nat, tags: seq<Byte>, words: seq<nat>, wide: bool)
    requires Typed(p) && 0 < i < |p| && i == |tags| && pos <= |b| < pos + 9
    ensures BodyRead(b, pos, p, i, tags, words, wide)
  {
    hide Follows, CellBytes, Typed, Body;
    assert ParseStep(b, pos, i, |p|, wide) == Stop(Eof);
  }

  lemma ReadMore(b: seq<Byte>, pos: nat, p: Pool, i: nat, tags: seq<Byte>, words: seq<nat>, wide: bool, more: seq<nat>)
    requires Typed(p) && 0 < i < |p| && TypedAt(p, i) && |tags| == |words| == i && pos + |CellBytes(p, i)| <= |b|
    requires Next(p, i) <= |p| && |more| == Next(p, i) - i
    requires ParseFrom(b, pos, tags, words, |p|, wide)
          == ParseFrom(b, pos + |CellBytes(p, i)|, tags + OneTags(p, i), words + more, |p|, wide)
    requires WfAt(p, i) && ReadBack(b, p[i], p[i].tag, more[0], wide)
    requires |more| == 2 ==> WfAt(p, i + 1) && ReadBack(b, p[i + 1], 0, more[1], wide)
    requires |Body(p, i)| == |CellBytes(p, i)| + |Body(p, Next(p, i))|
    requires var extra := |b| - pos - |Body(p, i)|; Room(p, i, extra) <==> Room(p, Next(p, i), extra)
    requires BodyRead(b, pos + |CellBytes(p, i)|, p, Next(p, i), tags + OneTags(p, i), words + more, wide)
    ensures BodyRead(b, pos, p, i, tags, words, wide)
  {
    hide ReadBack, CellBytes, Typed, TypedAt, WfAt, Follows, ParseFrom, Body, Room;
    var extra := |b| - pos - |Body(p, i)|;
    if Room(p, i, extra) {
      FollowsStep(b, p, i, ParseFrom(b, pos, tags, words, |p|, wide), tags, words, more, wide);
    }
  }

  /** The first constant of the bytes and the rest of them. */
  lemma BodyStep(b: seq<Byte>, pos: nat, p: Pool, i: nat)
    requires Typed(p) && 0 < i < |p| && TypedAt(p, i) && At(b, pos, Body(p, i)) && pos + 9 <= |b|
    ensures |Body(p, i)| == |CellBytes(p, i)| + |Body(p, Next(p, i))|
    ensures At(b, pos, CellBytes(p, i)) && At(b, pos + |CellBytes(p, i)|, Body(p, Next(p, i)))
    ensures var extra := |b| - pos - |Body(p, i)|; Room(p, i, extra) <==> Room(p, Next(p, i), extra)
  {
    hide CellBytes, TypedAt, Typed, At;
    AtSplit(b, pos, CellBytes(p, i), Body(p, Next(p, i)));
  }

  lemma TypedOne(p: Pool, i: nat)
    requires Typed(p) && 0 < i < |p|
    ensures TypedAt(p, i)
  {
  }

  lemma FollowsStep(b: seq<Byte>, p: Pool, i: nat, r: Parsed, tags: seq<Byte>, words: seq<nat>, more: seq<nat>, wide: bool)
    requires 0 < i < |p| && Next(p, i) <= |p| && |more| == Next(p, i) - i && |tags| == |words| == i
    requires Follows(b, p, Next(p, i), r, tags + OneTags(p, i), words + more, wide)
    requires WfAt(p, i) && ReadBack(b, p[i], p[i].tag, more[0], wide)
    requires |more| == 2 ==> WfAt(p, i + 1) && ReadBack(b, p[i + 1], 0, more[1], wide)
    ensures Follows(b, p, i, r, tags, words, wide)
  {
    hide ReadBack, WfAt;
    assert r.tags[i] == (tags + OneTags(p, i))[i] && r.words[i] == (words + more)[i];
    assert |more| == 2 ==> r.tags[i + 1] == (tags + OneTags(p, i))[i + 1] && r.words[i + 1] == (words + more)[i + 1];
    assert tags <= tags + OneTags(p, i) && words <= words + more;
  }

  /** Reading what was written, wherever the pool is in the file: it succeeds exactly if every constant starts at least
      nine bytes before the end, and then it takes exactly the bytes that were written and gives the entries back. */
  lemma RoundTripIff(pre: seq<Byte>, p: Pool, rest: seq<Byte>, wide: bool)
    requires Wf(p) && Fits(p)
    ensures Typed(p)
    ensures var b := pre + Bytes(p) + rest;
            var r := Parse(b, |pre|, wide);
            if Room(p, 1, |rest|) then
              r.Done? && r.pos == |pre| + |Bytes(p)| && ReadBackAll(b, p, r.tags, r.words, wide)
            else r == Eof
  {
    hide Body, ReadBack, At, GetU2, Typed, ParseFrom, Room, Bytes;
    WfTyped(p);
    var b := pre + Bytes(p) + rest;
    AtMiddle(pre, Bytes(p), rest);
    PoolThere(b, |pre|, p);
    if 1 < |p| { assert WfAt(p, 1); }
    ParseBody(b, |pre| + 2, p, 1, [0], [0], wide);
    hide Wf;
  }

  lemma PoolThere(b: seq<Byte>, pos: nat, p: Pool)
    requires Typed(p) && Fits(p) && At(b, pos, Bytes(p))
    ensures |Bytes(p)| == 2 + |Body(p, 1)| && pos + |Bytes(p)| <= |b|
    ensures GetU2(b, pos) == |p| && At(b, pos + 2, Body(p, 1))
  {
    hide Body, GetU2, U2, Typed;
    AtSplit(b, pos, U2(|p|), Body(p, 1));
    ReadU2(b, pos, |p|);
  }

  /** Six bytes after the pool are always room enough. */
  lemma {:induction false} SixIsRoom(p: Pool, i: nat, extra: int)
    requires Wf(p) && Typed(p) && 0 < i && (i < |p| ==> p[i].tag != 0) && extra >= 6
    ensures Room(p, i, extra)
    decreases |p| - i
  {
    if i < |p| {
      TypedOne(p, i);
      NextStart(p, i);
      assert |CellBytes(p, i)| >= 3;
      SixIsRoom(p, Next(p, i), extra);
    }
  }

  /** In a class file more than six bytes follow the pool, so reading always succeeds. */
  lemma RoundTrip(pre: seq<Byte>, p: Pool, rest: seq<Byte>, wide: bool)
    requires Wf(p) && Fits(p) && |rest| >= 6
    ensures Typed(p)
    ensures var b := pre + Bytes(p) + rest;
            var r := Parse(b, |pre|, wide);
            r.Done? && r.pos == |pre| + |Bytes(p)| && ReadBackAll(b, p, r.tags, r.words, wide)
  {
    hide Room, ReadBackAll, Bytes, Parse, Typed;
    WfTyped(p);
    RoundTripIff(pre, p, rest, wide);
    if 1 < |p| { assert WfAt(p, 1); }
    SixIsRoom(p, 1, |rest|);
  }
}
