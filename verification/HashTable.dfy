/** The hash table of task dependences: open addressing with double hashing and tombstones, refining a finite map
    from depend addresses to entries. */
module HashTable {
  import opened Arithmetic
  import opened Sequences
  import opened Primes
  import opened PrimeTable
  import opened PrimeCertificates

  datatype Addr = Addr(bits: bv64)

  /** A slot: HTAB_EMPTY_ENTRY, HTAB_DELETED_ENTRY, or a depend entry, known by its address and its identity. */
  datatype Slot = Empty | Deleted | Live(addr: Addr, entry: nat)

  datatype Option<T> = None | Some(value: T)

  /** hash_pointer on a 64-bit pointer, truncated to hashval_t. */
  function HashOf(a: Addr): (h: nat)
    ensures h < TWO32
  {
    ((a.bits ^ (a.bits >> 32)) & 0xffff_ffff) as nat
  }

  function Size(i: nat): nat
    requires i < 29
  {
    PRIME_TAB[i].prime
  }

  lemma SizeBound(i: nat)
    requires i < 29
    ensures 7 <= Size(i) <= 0x7fff_ffff
  {
    if i > 0 { Increasing(0, i); }
    if i < 28 { Increasing(i, 28); }
  }

  // Probing.

  function Walk(x: nat, s: nat, p: nat, t: nat): (y: nat)
    requires p > 0
    ensures y < p
  {
    MulNonNegative(t, s);
    (x + t * s) % p
  }

  lemma WalkStart(x: nat, s: nat, p: nat)
    requires x < p
    ensures Walk(x, s, p, 0) == x
  {
  }

  /** Addition with a conditional subtraction takes one more step around the table. */
  lemma WalkNext(x: nat, s: nat, p: nat, t: nat)
    requires 0 < s < p
    ensures Walk(x, s, p, t + 1) == var y := Walk(x, s, p, t) + s; if y >= p then y - p else y
  {
    var q, r := (x + t * s) / p, (x + t * s) % p;
    assert x + t * s == q * p + r;
    assert (t + 1) * s == t * s + s;
    assert (q + 1) * p == q * p + p;
    if r + s >= p {
      DivUnique(x + (t + 1) * s, p, q + 1, r + s - p);
    } else {
      DivUnique(x + (t + 1) * s, p, q, r + s);
    }
  }

  /** Fewer than p steps apart the walk is at different places: no such distance times s is a multiple of a prime. */
  lemma WalkDiffers(x: nat, s: nat, p: nat, t: nat, u: nat)
    requires 0 < s < p && IsPrime(p) && t < u < p
    ensures Walk(x, s, p, t) != Walk(x, s, p, u)
  {
    DivUnique(s, p, 0, s);
    PrimeCoprime(p, s);
    assert x + u * s - (x + t * s) == (u - t) * s;
    NoCommonMultiple(x + t * s, x + u * s, u - t, s, p);
  }

  lemma NoCommonMultiple(a: int, b: int, d: int, s: int, p: nat)
    requires p > 0 && Coprime(s, p) && 0 < d < p && b - a == d * s
    ensures a % p != b % p
  {
    if a % p == b % p {
      var c := b / p - a / p;
      assert b - a == c * p;
      var y, z :| Comb(s, p, y, z) == 1;
      assert d == (c * y + d * z) * p + 0 by {
        assert d * (s * y + p * z) == d * s * y + d * z * p;
        assert d * s * y == c * p * y;
      }
      DivUnique(d, p, c * y + d * z, 0);
      DivUnique(d, p, 0, d);
    }
  }

  /** The t-th slot on the probe path of a hash in a table of row i. */
  function Probe(h: nat, i: nat, t: nat): (x: nat)
    requires h < TWO32 && i < 29
    ensures x < Size(i)
  {
    RowMods(h, i);
    Walk(Home(h, i), ProbeStep(h, i), Size(i), t)
  }

  /** The sum of slot and step in 32 bits and one conditional subtraction give the next slot if and only if the sum does not
      wrap around. */
  lemma WrapIff(index: nat, step: nat, size: nat)
    requires index < size < TWO32 && step < size
    ensures var y := (index + step) % TWO32;
            (if y >= size then y - size else y) == (index + step) % size <==> index + step < TWO32
  {
    DivUnique(index + step, size, if index + step < size then 0 else 1, if index + step < size then index + step else index + step - size);
    DivUnique(index + step, TWO32, if index + step < TWO32 then 0 else 1, if index + step < TWO32 then index + step else index + step - TWO32);
  }

  /** In the last row it may wrap around: the second slot for this hash is not on the probe path. */
  lemma LastRowWraps()
    ensures var size, h: nat := PRIME_TAB[29].prime, 4294967288;
            var index, step := h % size, 1 + h % (size - 2);
            && index + step >= TWO32
            && var y := (index + step) % TWO32; (if y >= size then y - size else y) != (index + step) % size
  {
    WrapIff(4294967288, 4294967289, 4294967291);
  }

  /** What the probe loops compute: the home slot, then sums that fit in 32 bits, reduced by one subtraction. */
  lemma ProbeNext(h: nat, i: nat, t: nat)
    requires h < TWO32 && i < 29
    ensures Home(h, i) == h % Size(i) == Probe(h, i, 0)
    ensures 1 <= ProbeStep(h, i) <= Size(i) - 2
    ensures Probe(h, i, t) + ProbeStep(h, i) < TWO32
    ensures Probe(h, i, t + 1) == var y := Probe(h, i, t) + ProbeStep(h, i); if y >= Size(i) then y - Size(i) else y
  {
    RowMods(h, i);
    SizeBound(i);
    assert Size(i) == PRIME_TAB[i].prime;
    hide Size, ProbeStep, Home, Walk;
    WalkStart(Home(h, i), ProbeStep(h, i), Size(i));
    WalkNext(Home(h, i), ProbeStep(h, i), Size(i), t);
  }

  function Path(h: nat, i: nat): (s: seq<nat>)
    requires h < TWO32 && i < 29
    ensures |s| == Size(i) && forall t :: 0 <= t < |s| ==> s[t] == Probe(h, i, t)
  {
    seq(Size(i), t requires 0 <= t => Probe(h, i, t))
  }

  /** A probe path visits every slot within as many steps as the table has slots. */
  lemma ProbeVisitsAll(h: nat, i: nat, x: nat) returns (t: nat)
    requires h < TWO32 && i < 29 && x < Size(i)
    ensures t < Size(i) && Probe(h, i, t) == x
  {
    RowMods(h, i);
    TablePrime(i);
    assert Size(i) == PRIME_TAB[i].prime;
    hide Size, ProbeStep, Home, IsPrime, Walk, Below;
    var s := Path(h, i);
    forall t, u | 0 <= t < u < |s| ensures s[t] != s[u] {
      WalkDiffers(Home(h, i), ProbeStep(h, i), Size(i), t, u);
    }
    DistinctCount(s);
    SubsetFull((set y | y in s), Below(Size(i)));
    assert x in Below(Size(i));
    assert x in s;
    t :| 0 <= t < |s| && s[t] == x;
  }

  // The table as a finite map.

  /** Some probe of hash h lands on x, and no slot before it on the path is EMPTY. */
  ghost predicate Reached(s: seq<Slot>, i: nat, h: nat, x: nat)
    requires i < 29 && |s| == Size(i) && h < TWO32
  {
    exists t: nat :: t < |s| && Probe(h, i, t) == x && Open(s, i, h, t)
  }

  /** The first t slots of the path are not EMPTY. */
  ghost predicate Open(s: seq<Slot>, i: nat, h: nat, t: nat)
    requires i < 29 && |s| == Size(i) && h < TWO32
  {
    forall u: nat :: u < t ==> !s[Probe(h, i, u)].Empty?
  }

  /** Each stored address occupies one slot, and every stored entry is reached by its own probe path. */
  ghost predicate TableOk(s: seq<Slot>, i: nat) {
    && i < 29 && |s| == Size(i)
    && (forall x, y :: 0 <= x < y < |s| && s[x].Live? && s[y].Live? ==> s[x].addr != s[y].addr)
    && (forall x :: 0 <= x < |s| && s[x].Live? ==> Reached(s, i, HashOf(s[x].addr), x))
  }

  /** The live slots are exactly the bindings of m. */
  ghost predicate Holds(s: seq<Slot>, m: map<Addr, nat>) {
    && (forall x :: 0 <= x < |s| && s[x].Live? ==> s[x].addr in m && m[s[x].addr] == s[x].entry)
    && (forall k :: k in m ==> exists x :: 0 <= x < |s| && s[x].Live? && s[x].addr == k)
  }

  /** A probe path that meets an EMPTY slot before the address shows that the address is not stored. */
  lemma SearchStops(s: seq<Slot>, i: nat, m: map<Addr, nat>, k: Addr, t: nat)
    requires TableOk(s, i) && Holds(s, m) && s[Probe(HashOf(k), i, t)].Empty?
    requires forall u: nat :: u < t ==> !Matches(s[Probe(HashOf(k), i, u)], k)
    ensures k !in m
  {
    hide HashOf, Probe, Size;
    if k in m {
      var v := Stored(s, i, m, k);
    }
  }

  /** The step at which the probe path of a stored address meets it. */
  lemma Stored(s: seq<Slot>, i: nat, m: map<Addr, nat>, k: Addr) returns (t: nat)
    requires TableOk(s, i) && Holds(s, m) && k in m
    ensures t < |s| && Open(s, i, HashOf(k), t) && Matches(s[Probe(HashOf(k), i, t)], k)
  {
    hide HashOf, Probe, Size;
    var x :| 0 <= x < |s| && s[x].Live? && s[x].addr == k;
    t :| t < |s| && Probe(HashOf(k), i, t) == x && Open(s, i, HashOf(k), t);
  }

  predicate Matches(e: Slot, k: Addr) {
    e.Live? && e.addr == k
  }

  /** Writing a slot that was not live, at the end of an open stretch of its path, adds one binding. */
  lemma Placed(s: seq<Slot>, i: nat, m: map<Addr, nat>, k: Addr, v: nat, t: nat)
    requires TableOk(s, i) && Holds(s, m) && k !in m && t < |s|
    requires Open(s, i, HashOf(k), t) && !s[Probe(HashOf(k), i, t)].Live?
    ensures TableOk(s[Probe(HashOf(k), i, t) := Live(k, v)], i)
    ensures Holds(s[Probe(HashOf(k), i, t) := Live(k, v)], m[k := v])
  {
    hide HashOf, Probe, Size;
    var x := Probe(HashOf(k), i, t);
    var r := s[x := Live(k, v)];
    StaysReached(s, i, x, Live(k, v));
    assert Open(r, i, HashOf(k), t);
    assert Reached(r, i, HashOf(k), x);
    var n := m[k := v];
    forall a | a in n ensures exists y :: 0 <= y < |r| && r[y].Live? && r[y].addr == a {
      if a == k {
        assert r[x].addr == a;
      } else {
        var y :| 0 <= y < |s| && s[y].Live? && s[y].addr == a;
        assert r[y] == s[y];
      }
    }
  }

  /** Filling or tombstoning a slot keeps every other slot reachable. */
  lemma StaysReached(s: seq<Slot>, i: nat, x: nat, e: Slot)
    requires i < 29 && |s| == Size(i) && x < |s| && !e.Empty?
    ensures forall h: nat, y: nat {:trigger Reached(s[x := e], i, h, y)} ::
              h < TWO32 && Reached(s, i, h, y) ==> Reached(s[x := e], i, h, y)
  {
    hide HashOf, Probe, Size;
    forall h: nat, y: nat | h < TWO32 && Reached(s, i, h, y) ensures Reached(s[x := e], i, h, y) {
      var t: nat :| t < |s| && Probe(h, i, t) == y && Open(s, i, h, t);
      assert Open(s[x := e], i, h, t);
    }
  }

  /** Overwriting the live slot of an address rebinds it. */
  lemma Rebound(s: seq<Slot>, i: nat, m: map<Addr, nat>, x: nat, v: nat)
    requires TableOk(s, i) && Holds(s, m) && x < |s| && s[x].Live?
    ensures TableOk(s[x := Live(s[x].addr, v)], i)
    ensures Holds(s[x := Live(s[x].addr, v)], m[s[x].addr := v])
  {
    hide HashOf, Probe, Size, Reached;
    var r := s[x := Live(s[x].addr, v)];
    StaysReached(s, i, x, Live(s[x].addr, v));
    var n := m[s[x].addr := v];
    forall a | a in n ensures exists y :: 0 <= y < |r| && r[y].Live? && r[y].addr == a {
      var y :| 0 <= y < |s| && s[y].Live? && s[y].addr == a;
      assert r[y].Live? && r[y].addr == a;
    }
  }

  /** A tombstone removes the binding and closes no path. */
  lemma Cleared(s: seq<Slot>, i: nat, m: map<Addr, nat>, x: nat)
    requires TableOk(s, i) && Holds(s, m) && x < |s| && s[x].Live?
    ensures TableOk(s[x := Deleted], i)
    ensures Holds(s[x := Deleted], m - {s[x].addr})
  {
    hide HashOf, Probe, Size, Reached;
    var r := s[x := Deleted];
    StaysReached(s, i, x, Deleted);
    forall a | a in m - {s[x].addr} ensures exists y :: 0 <= y < |r| && r[y].Live? && r[y].addr == a {
      var y :| 0 <= y < |s| && s[y].Live? && s[y].addr == a;
      assert r[y] == s[y];
    }
  }

  /** The bindings are determined by the slots. */
  lemma HoldsUnique(s: seq<Slot>, m: map<Addr, nat>, n: map<Addr, nat>)
    requires Holds(s, m) && Holds(s, n)
    ensures m == n
  {
    forall k | k in m ensures k in n && n[k] == m[k] {
      var x :| 0 <= x < |s| && s[x].Live? && s[x].addr == k;
    }
    forall k | k in n ensures k in m {
      var x :| 0 <= x < |s| && s[x].Live? && s[x].addr == k;
    }
    assert m.Keys == n.Keys;
  }

  // Counting.

  function Full(s: seq<Slot>): (n: nat)
    ensures n <= |s|
  {
    if s == [] then 0 else (if s[|s| - 1].Empty? then 0 else 1) + Full(s[..|s| - 1])
  }

  function Tombs(s: seq<Slot>): (n: nat)
    ensures n <= |s|
  {
    if s == [] then 0 else (if s[|s| - 1].Deleted? then 1 else 0) + Tombs(s[..|s| - 1])
  }

  lemma CountUpdate(s: seq<Slot>, x: nat, e: Slot)
    requires x < |s|
    ensures Full(s[x := e]) == Full(s) - (if s[x].Empty? then 0 else 1) + (if e.Empty? then 0 else 1)
    ensures Tombs(s[x := e]) == Tombs(s) - (if s[x].Deleted? then 1 else 0) + (if e.Deleted? then 1 else 0)
  {
    hide Full, Tombs;
    FullUpdate(s, x, e);
    TombsUpdate(s, x, e);
  }

  lemma {:induction false} FullUpdate(s: seq<Slot>, x: nat, e: Slot)
    requires x < |s|
    ensures Full(s[x := e]) == Full(s) - (if s[x].Empty? then 0 else 1) + (if e.Empty? then 0 else 1)
  {
    var r, n := s[x := e], |s| - 1;
    if x == n {
      assert r[..n] == s[..n];
    } else {
      assert r[..n] == s[..n][x := e];
      FullUpdate(s[..n], x, e);
    }
  }

  lemma {:induction false} TombsUpdate(s: seq<Slot>, x: nat, e: Slot)
    requires x < |s|
    ensures Tombs(s[x := e]) == Tombs(s) - (if s[x].Deleted? then 1 else 0) + (if e.Deleted? then 1 else 0)
  {
    var r, n := s[x := e], |s| - 1;
    if x == n {
      assert r[..n] == s[..n];
    } else {
      assert r[..n] == s[..n][x := e];
      TombsUpdate(s[..n], x, e);
    }
  }

  lemma {:induction false} CountFresh(s: seq<Slot>)
    requires forall x :: 0 <= x < |s| ==> s[x].Empty?
    ensures Full(s) == 0 && Tombs(s) == 0
  {
    if s != [] {
      CountFresh(s[..|s| - 1]);
    }
  }

  /** With fewer full slots than slots, some slot is EMPTY. */
  lemma {:induction false} EmptySlot(s: seq<Slot>) returns (x: nat)
    requires Full(s) < |s|
    ensures x < |s| && s[x].Empty?
  {
    if s[|s| - 1].Empty? {
      x := |s| - 1;
    } else {
      x := EmptySlot(s[..|s| - 1]);
    }
  }

  /** So every probe path meets one within the first |s| steps. */
  lemma PathEnds(s: seq<Slot>, i: nat, h: nat) returns (t: nat)
    requires i < 29 && |s| == Size(i) && h < TWO32 && Full(s) < |s|
    ensures t < |s| && s[Probe(h, i, t)].Empty?
  {
    hide Probe, Size, Full;
    var x := EmptySlot(s);
    t := ProbeVisitsAll(h, i, x);
  }

  /** A search has reached step t: no earlier slot of the path is EMPTY or holds the address. */
  ghost predicate Searching(s: seq<Slot>, i: nat, k: Addr, t: nat)
    requires i < 29 && |s| == Size(i)
  {
    Open(s, i, HashOf(k), t) && forall u: nat :: u < t ==> !Matches(s[Probe(HashOf(k), i, u)], k)
  }

  /** No tombstone on the first n steps of the path. */
  ghost predicate NoTombBefore(s: seq<Slot>, i: nat, h: nat, n: nat)
    requires i < 29 && |s| == Size(i) && h < TWO32
  {
    forall u: nat :: u < n ==> !s[Probe(h, i, u)].Deleted?
  }

  lemma NoTombAtAll(s: seq<Slot>, i: nat, h: nat)
    requires i < 29 && |s| == Size(i) && h < TWO32
    ensures NoTombBefore(s, i, h, 0)
  {
  }

  lemma NoTombNext(s: seq<Slot>, i: nat, h: nat, n: nat)
    requires i < 29 && |s| == Size(i) && h < TWO32 && NoTombBefore(s, i, h, n) && !s[Probe(h, i, n)].Deleted?
    ensures NoTombBefore(s, i, h, n + 1)
  {
    hide Probe, Size;
  }

  /** The search ends at step t: at the address, which is then at step d, or at an EMPTY slot with the first tombstone before it, if
      there is one, at step d. */
  ghost predicate StoreStep(s: seq<Slot>, i: nat, k: Addr, t: nat, d: nat)
    requires i < 29 && |s| == Size(i)
  {
    && Searching(s, i, k, t) && d <= t
    && if Matches(s[Probe(HashOf(k), i, t)], k) then d == t
       else
         && s[Probe(HashOf(k), i, t)].Empty? && (d < t ==> s[Probe(HashOf(k), i, d)].Deleted?)
         && NoTombBefore(s, i, HashOf(k), d)
  }

  /** Where an address is stored: in its own slot, else in the first tombstone of its path, else in the EMPTY slot that ends it. */
  ghost predicate StoredAt(s: seq<Slot>, i: nat, k: Addr, x: nat)
    requires i < 29 && |s| == Size(i)
  {
    exists t: nat, d: nat :: StoreStep(s, i, k, t, d) && x == Probe(HashOf(k), i, d)
  }

  /** A search that ends at step t, at an EMPTY slot or at the address, decides membership. */
  lemma SearchEnds(s: seq<Slot>, i: nat, m: map<Addr, nat>, k: Addr, t: nat)
    requires TableOk(s, i) && Holds(s, m) && Searching(s, i, k, t)
    ensures var e := s[Probe(HashOf(k), i, t)];
            (e.Empty? ==> k !in m) && (Matches(e, k) ==> k in m && m[k] == e.entry)
  {
    hide HashOf, Probe, Size;
    if s[Probe(HashOf(k), i, t)].Empty? {
      SearchStops(s, i, m, k, t);
    }
  }

  /** The invariant: slots s of row i, the counters n and d, and the map c they stand for. */
  ghost predicate Good(s: seq<Slot>, i: nat, n: nat, d: nat, c: map<Addr, nat>) {
    TableOk(s, i) && Holds(s, c) && Full(s) == n < |s| && Tombs(s) == d && n == |c| + d
  }

  lemma GoodFacts(s: seq<Slot>, i: nat, n: nat, d: nat, c: map<Addr, nat>)
    requires Good(s, i, n, d, c)
    ensures TableOk(s, i) && Holds(s, c) && Full(s) < |s| && i < 29 && |s| == Size(i) >= 7 && n == |c| + d
  {
    SizeBound(i);
  }

  lemma GoodEmpty(s: seq<Slot>, i: nat)
    requires i < 29 && |s| == Size(i) && forall x :: 0 <= x < |s| ==> s[x].Empty?
    ensures Good(s, i, 0, 0, map[])
  {
    SizeBound(i);
    CountFresh(s);
  }

  /** The table, as the handle through which callers hold it: expansion replaces the slots behind it. */
  class Htab {
    var entries: array<Slot>
    var nElements: nat
    var nDeleted: nat
    var primeIndex: nat
    ghost var contents: map<Addr, nat>

    ghost predicate Valid()
      reads this, entries
    {
      Good(entries[..], primeIndex, nElements, nDeleted, contents)
    }

    /** htab_elements. */
    function Elements(): int
      reads this
    {
      nElements - nDeleted
    }

    /** htab_create, for sizes up to 2147483647. */
    constructor (size: nat)
      requires size <= 0x7fff_ffff
      ensures Valid() && fresh(entries) && contents == map[] && nElements == nDeleted == 0
      ensures IsHigherIndex(size, primeIndex)
    {
      var r := HigherPrimeIndex(size);
      LastRow(size, r.i);
      assert Size(r.i) > 2 by { SizeBound(r.i); }
      entries := new Slot[Size(r.i)](_ => Empty);
      nElements, nDeleted, primeIndex, contents := 0, 0, r.i, map[];
      new;
      hide HashOf, Probe, Size, IsHigherIndex, Good;
      GoodEmpty(entries[..], primeIndex);
    }

    /** htab_find. */
    method Find(k: Addr) returns (e: Option<nat>)
      requires Valid()
      ensures e == if k in contents then Some(contents[k]) else None
    {
      hide HashOf, Probe, Size, Home, ProbeStep, Full, Tombs, Holds, TableOk, Good;
      ghost var s := entries[..];
      GoodFacts(s, primeIndex, nElements, nDeleted, contents);
      var hash := HashOf(k);
      ghost var end := PathEnds(s, primeIndex, hash);
      ProbeNext(hash, primeIndex, 0);
      var index := Home(hash, primeIndex);
      ghost var t := 0;
      while !entries[index].Empty? && !Matches(entries[index], k)
        invariant t <= end && index == Probe(hash, primeIndex, t) && Searching(s, primeIndex, k, t)
        decreases end - t
      {
        ProbeNext(hash, primeIndex, t);
        t := t + 1;
        index := index + ProbeStep(hash, primeIndex);
        if index >= entries.Length {
          index := index - entries.Length;
        }
      }
      SearchEnds(s, primeIndex, contents, k, t);
      return if entries[index].Empty? then None else Some(entries[index].entry);
    }

    /** The search of htab_find_slot: it ends at the address or at an EMPTY slot, and remembers the first tombstone. */
    method Search(k: Addr) returns (index: nat, firstDeleted: Option<nat>, ghost t: nat, ghost d: nat)
      requires Valid()
      ensures primeIndex < 29 && |entries[..]| == Size(primeIndex) && t < entries.Length
      ensures index == Probe(HashOf(k), primeIndex, t) && Searching(entries[..], primeIndex, k, t)
      ensures entries[index].Empty? || Matches(entries[index], k)
      ensures firstDeleted.Some? ==>
                d < t && firstDeleted.value == Probe(HashOf(k), primeIndex, d) && entries[firstDeleted.value].Deleted?
      ensures NoTombBefore(entries[..], primeIndex, HashOf(k), if firstDeleted.Some? then d else t)
    {
      hide NoTombBefore, HashOf, Probe, Size, Home, ProbeStep, Full, Tombs, Holds, TableOk, Good;
      ghost var s := entries[..];
      GoodFacts(s, primeIndex, nElements, nDeleted, contents);
      var hash := HashOf(k);
      ghost var end := PathEnds(s, primeIndex, hash);
      ProbeNext(hash, primeIndex, 0);
      index := Home(hash, primeIndex);
      firstDeleted := None;
      t, d := 0, 0;
      NoTombAtAll(s, primeIndex, hash);
      while !entries[index].Empty? && !Matches(entries[index], k)
        invariant t <= end && index == Probe(hash, primeIndex, t) && Searching(s, primeIndex, k, t)
        invariant firstDeleted.Some? ==>
                    d < t && firstDeleted.value == Probe(hash, primeIndex, d) && s[firstDeleted.value].Deleted?
        invariant NoTombBefore(s, primeIndex, hash, if firstDeleted.Some? then d else t)
        decreases end - t
      {
        if entries[index].Deleted? && firstDeleted.None? {
          firstDeleted := Some(index);
          d := t;
        }
        if firstDeleted.None? { NoTombNext(s, primeIndex, hash, t); }
        ProbeNext(hash, primeIndex, t);
        t := t + 1;
        index := index + ProbeStep(hash, primeIndex);
        if index >= entries.Length {
          index := index - entries.Length;
        }
      }
    }

    /** htab_find_slot without insertion: the slot of the address, if it is stored. */
    method FindSlot(k: Addr) returns (slot: Option<nat>)
      requires Valid()
      ensures slot.Some? <==> k in contents
      ensures slot.Some? ==> slot.value < entries.Length && Matches(entries[slot.value], k)
    {
      hide HashOf, Probe, Size, Full, Tombs, Holds, TableOk, Good, Searching;
      var index, firstDeleted, t, d := Search(k);
      GoodFacts(entries[..], primeIndex, nElements, nDeleted, contents);
      SearchEnds(entries[..], primeIndex, contents, k, t);
      return if entries[index].Empty? then None else Some(index);
    }

    /** htab_clear_slot: aborts unless the slot holds an entry. */
    method ClearSlot(slot: nat) returns (aborted: bool)
      requires Valid()
      modifies this`nDeleted, this`contents, entries
      ensures Valid() && aborted == (slot >= entries.Length || !old(entries[..])[slot].Live?)
      ensures contents == if aborted then old(contents) else old(contents) - {old(entries[..])[slot].addr}
      ensures aborted ==> entries[..] == old(entries[..]) && nDeleted == old(nDeleted)
    {
      hide Good;
      if slot >= entries.Length || entries[slot].Empty? || entries[slot].Deleted? {
        return true;
      }
      GoodClear(entries[..], primeIndex, nElements, nDeleted, contents, slot);
      contents := contents - {entries[slot].addr};
      Write(slot, Deleted);
      nDeleted := nDeleted + 1;
      return false;
    }

    /** htab_find_slot with insertion, followed by the caller's store through the slot. The value returned is what the
        caller reads from the slot before storing: the previous entry of the address, if any. */
    method Insert(k: Addr, v: nat) returns (previous: Option<nat>)
      requires Valid() && (entries.Length * 3 <= nElements * 4 ==> WantedSize(entries.Length, Elements()) <= 0x7fff_ffff)
      modifies this, entries
      ensures Valid() && if old(entries.Length) * 3 <= old(nElements) * 4 then fresh(entries) else entries == old(entries)
      ensures previous == if k in old(contents) then Some(old(contents)[k]) else None
      ensures contents == old(contents)[k := v]
    {
      if entries.Length * 3 <= nElements * 4 {
        Expand();
      }
      ghost var x: nat;
      previous, x := InsertNoExpand(k, v);
    }

    /** The search and the store, in a table at most three quarters full. */
    method InsertNoExpand(k: Addr, v: nat) returns (previous: Option<nat>, ghost x: nat)
      requires Valid() && nElements * 4 < entries.Length * 3
      modifies this`nElements, this`nDeleted, this`contents, entries
      ensures Valid()
      ensures previous == if k in old(contents) then Some(old(contents)[k]) else None
      ensures contents == old(contents)[k := v]
      ensures primeIndex < 29 && entries.Length == Size(primeIndex) && x < entries.Length
      ensures StoredAt(old(entries[..]), primeIndex, k, x) && entries[..] == old(entries[..])[x := Live(k, v)]
    {
      hide HashOf, Probe, Size, Full, Tombs, Holds, TableOk, Searching, Good, NoTombBefore;
      var index, firstDeleted, t, d := Search(k);
      x := index;
      ghost var s := entries[..];
      GoodFacts(s, primeIndex, nElements, nDeleted, contents);
      SearchEnds(s, primeIndex, contents, k, t);
      if entries[index].Live? {
        previous := Some(entries[index].entry);
        assert StoreStep(s, primeIndex, k, t, t);
        GoodStoreOver(s, primeIndex, nElements, nDeleted, contents, index, v);
        Write(index, Live(k, v));
      } else {
        previous := None;
        if firstDeleted.Some? {
          x := firstDeleted.value;
          assert StoreStep(s, primeIndex, k, t, d);
          GoodStoreNew(s, primeIndex, nElements, nDeleted, contents, k, v, t, d);
          nDeleted := nDeleted - 1;
          Write(firstDeleted.value, Live(k, v));
        } else {
          assert StoreStep(s, primeIndex, k, t, t);
          GoodStoreNew(s, primeIndex, nElements, nDeleted, contents, k, v, t, t);
          nElements := nElements + 1;
          Write(index, Live(k, v));
        }
      }
      contents := contents[k := v];
    }

    method Write(index: nat, e: Slot)
      requires index < entries.Length
      modifies entries
      ensures entries[..] == old(entries[..])[index := e]
    {
      entries[index] := e;
    }

    /** htab_expand: live entries move to a new table, tombstones are dropped, at most half of the slots are used.
        The table doubles or shrinks to the number of entries, or keeps its row. */
    method Expand()
      requires Valid() && WantedSize(entries.Length, Elements()) <= 0x7fff_ffff
      modifies this
      ensures Valid() && fresh(entries)
      ensures contents == old(contents) && nDeleted == 0 && nElements * 2 <= entries.Length
      ensures var o, e := old(entries).Length, |contents|;
              if e * 2 > o || (e * 8 < o && o > 32) then IsHigherIndex(2 * e, primeIndex) else primeIndex == old(primeIndex)
    {
      hide HashOf, Size, Good, TableOk, Holds, Full, Tombs, IsHigherIndex;
      GoodFacts(entries[..], primeIndex, nElements, nDeleted, contents);
      SizeBound(primeIndex);
      var elts := nElements - nDeleted;
      var wanted := WantedSize(entries.Length, elts);
      var r := HigherPrimeIndex(wanted);
      LastRow(wanted, r.i);
      RoomForHalf(elts, primeIndex, r.i);
      SameWanted(elts, primeIndex, r.i);
      var newEntries := NewSlots(r.i);
      CopyLive(newEntries, r.i);
      entries, primeIndex, nElements, nDeleted := newEntries, r.i, elts, 0;
    }

    static method NewSlots(row: nat) returns (a: array<Slot>)
      requires row < 29
      ensures fresh(a) && a.Length == Size(row) && Good(a[..], row, 0, 0, map[])
    {
      SizeBound(row);
      a := new Slot[Size(row)](_ => Empty);
      hide Good, Size;
      GoodEmpty(a[..], row);
    }

    /** The copying loop of htab_expand. */
    method CopyLive(to: array<Slot>, row: nat)
      requires Valid() && to != entries
      requires Good(to[..], row, 0, 0, map[]) && Elements() * 2 <= to.Length
      modifies to
      ensures Good(to[..], row, Elements(), 0, contents)
    {
      hide Good, Holds, TableOk;
      ghost var s := entries[..];
      ghost var m: map<Addr, nat> := map[];
      GoodFacts(s, primeIndex, nElements, nDeleted, contents);
      HoldsNone(s);
      var p := 0;
      while p < entries.Length
        invariant 0 <= p <= entries.Length && entries[..] == s
        invariant Good(to[..], row, |m|, 0, m) && Holds(s[..p], m) && m.Keys <= contents.Keys
      {
        var e := entries[p];
        CopyStep(s, primeIndex, p, m, contents);
        if e.Live? {
          CopyOne(to, row, e, m);
          m := m[e.addr := e.entry];
        }
        p := p + 1;
      }
      assert s[..p] == s;
      HoldsUnique(s, m, contents);
    }

    /** One entry moves. */
    static method CopyOne(to: array<Slot>, row: nat, e: Slot, ghost m: map<Addr, nat>)
      requires Good(to[..], row, |m|, 0, m) && e.Live? && e.addr !in m && |m| + 1 < to.Length
      modifies to
      ensures Good(to[..], row, |m[e.addr := e.entry]|, 0, m[e.addr := e.entry])
    {
      hide HashOf, Size, Probe, Good, TableOk, Holds, Full, Tombs;
      ghost var was := to[..];
      GoodFacts(was, row, |m|, 0, m);
      NoTombs(was, row, m);
      var index, t := FindEmptySlotForExpand(to, row, HashOf(e.addr));
      GoodCopied(was, row, m, e, t);
      to[index] := e;
      assert to[..] == was[index := e];
    }

    /** find_empty_slot_for_expand, in a table without tombstones. */
    static method FindEmptySlotForExpand(to: array<Slot>, row: nat, hash: nat) returns (index: nat, ghost t: nat)
      requires row < 29 && to.Length == Size(row) && hash < TWO32 && Full(to[..]) < to.Length
      requires forall x :: 0 <= x < to.Length ==> !to[x].Deleted?
      ensures t < to.Length && index == Probe(hash, row, t) && to[index].Empty? && Open(to[..], row, hash, t)
    {
      hide Probe, Size, Home, ProbeStep, Full;
      ghost var end := PathEnds(to[..], row, hash);
      ProbeNext(hash, row, 0);
      index := Home(hash, row);
      t := 0;
      while !to[index].Empty?
        invariant t <= end && index == Probe(hash, row, t) && Open(to[..], row, hash, t)
        decreases end - t
      {
        ProbeNext(hash, row, t);
        t := t + 1;
        index := index + ProbeStep(hash, row);
        if index >= to.Length {
          index := index - to.Length;
        }
      }
    }
  }

  /** Storing through the slot of a stored address. */
  lemma StoreOver(s: seq<Slot>, i: nat, m: map<Addr, nat>, x: nat, v: nat)
    requires TableOk(s, i) && Holds(s, m) && x < |s| && s[x].Live?
    ensures var r, n := s[x := Live(s[x].addr, v)], m[s[x].addr := v];
            TableOk(r, i) && Holds(r, n) && Full(r) == Full(s) && Tombs(r) == Tombs(s) && |n| == |m|
  {
    Rebound(s, i, m, x, v);
    CountUpdate(s, x, Live(s[x].addr, v));
    assert m[s[x].addr := v].Keys == m.Keys;
    assert |m[s[x].addr := v].Keys| == |m[s[x].addr := v]| && |m.Keys| == |m|;
  }

  /** Storing a new address in a slot of its path that is free: EMPTY, or a tombstone, which is used up. */
  lemma StoreNew(s: seq<Slot>, i: nat, m: map<Addr, nat>, k: Addr, v: nat, t: nat, d: nat)
    requires TableOk(s, i) && Holds(s, m) && k !in m && d <= t < |s|
    requires Searching(s, i, k, t) && !s[Probe(HashOf(k), i, d)].Live?
    ensures var x := Probe(HashOf(k), i, d);
            var r, n := s[x := Live(k, v)], m[k := v];
            && TableOk(r, i) && Holds(r, n) && |n| == |m| + 1
            && Full(r) == Full(s) + (if s[x].Empty? then 1 else 0)
            && Tombs(r) == Tombs(s) - (if s[x].Deleted? then 1 else 0)
  {
    hide Probe, HashOf, Size, Holds;
    Placed(s, i, m, k, v, d);
    CountUpdate(s, Probe(HashOf(k), i, d), Live(k, v));
    assert m[k := v].Keys == m.Keys + {k};
    assert |m[k := v].Keys| == |m[k := v]| && |m.Keys| == |m|;
  }

  lemma NoTombs(r: seq<Slot>, row: nat, m: map<Addr, nat>)
    requires Good(r, row, |m|, 0, m)
    ensures forall x :: 0 <= x < |r| ==> !r[x].Deleted?
  {
    forall x | 0 <= x < |r| ensures !r[x].Deleted? {
      CountUpdate(r, x, Empty);
    }
  }

  lemma GoodCopied(r: seq<Slot>, row: nat, m: map<Addr, nat>, e: Slot, t: nat)
    requires Good(r, row, |m|, 0, m) && e.Live? && e.addr !in m && t < |r| && |m| + 1 < |r|
    requires Open(r, row, HashOf(e.addr), t) && r[Probe(HashOf(e.addr), row, t)].Empty?
    ensures Good(r[Probe(HashOf(e.addr), row, t) := e], row, |m[e.addr := e.entry]|, 0, m[e.addr := e.entry])
  {
    hide HashOf, Size, Probe, Open, Holds, Full, Tombs;
    var n := m[e.addr := e.entry];
    Placed(r, row, m, e.addr, e.entry, t);
    CountUpdate(r, Probe(HashOf(e.addr), row, t), e);
    assert n.Keys == m.Keys + {e.addr};
    assert |n.Keys| == |n| && |m.Keys| == |m|;
  }

  /** The entry at p extends what has been copied, and is not among it. */
  lemma CopyStep(s: seq<Slot>, i: nat, p: nat, m: map<Addr, nat>, c: map<Addr, nat>)
    requires p < |s| && TableOk(s, i) && Holds(s[..p], m) && Holds(s, c) && m.Keys <= c.Keys
    ensures s[p].Live? ==>
              && s[p].addr !in m && s[p].addr in c && |m| < |c|
              && Holds(s[..p + 1], m[s[p].addr := s[p].entry])
    ensures !s[p].Live? ==> Holds(s[..p + 1], m)
  {
    hide Reached;
    assert |m.Keys| == |m| && |c.Keys| == |c|;
    if s[p].Live? {
      assert s[p].addr !in m.Keys;
      SubsetSize(m.Keys + {s[p].addr}, c.Keys);
      HoldsNext(s, p, m, m[s[p].addr := s[p].entry]);
    } else {
      HoldsNext(s, p, m, m);
    }
  }

  lemma HoldsNone(s: seq<Slot>)
    ensures Holds(s[..0], map[])
  {
  }

  /** Storing through the slot of a stored address. */
  lemma GoodStoreOver(s: seq<Slot>, i: nat, n: nat, d: nat, c: map<Addr, nat>, x: nat, v: nat)
    requires Good(s, i, n, d, c) && x < |s| && s[x].Live?
    ensures Good(s[x := Live(s[x].addr, v)], i, n, d, c[s[x].addr := v])
  {
    hide TableOk, Holds, Full, Tombs;
    StoreOver(s, i, c, x, v);
  }

  /** Storing through a free slot: a used tombstone is one fewer, an EMPTY slot is one element more. */
  lemma GoodStoreNew(s: seq<Slot>, i: nat, n: nat, d: nat, c: map<Addr, nat>, k: Addr, v: nat, t: nat, u: nat)
    requires Good(s, i, n, d, c) && k !in c && u <= t < |s| && n + 1 < |s|
    requires Searching(s, i, k, t) && !s[Probe(HashOf(k), i, u)].Live?
    ensures var x := Probe(HashOf(k), i, u);
            (s[x].Empty? ==> Good(s[x := Live(k, v)], i, n + 1, d, c[k := v]))
            && (s[x].Deleted? ==> d > 0 && Good(s[x := Live(k, v)], i, n, d - 1, c[k := v]))
  {
    hide Holds, Full, Tombs, Searching, Probe, HashOf, Size;
    StoreNew(s, i, c, k, v, t, u);
  }

  lemma GoodClear(s: seq<Slot>, i: nat, n: nat, d: nat, c: map<Addr, nat>, x: nat)
    requires Good(s, i, n, d, c) && x < |s| && s[x].Live?
    ensures Good(s[x := Deleted], i, n, d + 1, c - {s[x].addr})
  {
    hide TableOk, Full, Tombs;
    Cleared(s, i, c, x);
    CountUpdate(s, x, Deleted);
    LiveKey(s, c, x);
  }

  function WantedSize(osize: nat, elts: int): int {
    if elts * 2 > osize || (elts * 8 < osize && osize > 32) then elts * 2 else osize - 1
  }

  /** The new row has room for twice the entries. */
  lemma RoomForHalf(elts: nat, i: nat, j: nat)
    requires i < 29 && j < 29 && WantedSize(Size(i), elts) >= 0 && IsHigherIndex(WantedSize(Size(i), elts), j)
    ensures elts * 2 <= Size(j)
  {
    SameRow(i);
    if WantedSize(Size(i), elts) == Size(i) - 1 {
      HigherIndexUnique(Size(i) - 1, i, j);
    }
  }

  /** A table that is neither too full nor too empty keeps its row. */
  lemma SameWanted(elts: nat, i: nat, j: nat)
    requires i < 29 && j < 29 && Size(i) > 0 && IsHigherIndex(WantedSize(Size(i), elts), j)
    ensures !(elts * 2 > Size(i) || (elts * 8 < Size(i) && Size(i) > 32)) ==> j == i
  {
    SameRow(i);
    if WantedSize(Size(i), elts) == Size(i) - 1 {
      HigherIndexUnique(Size(i) - 1, i, j);
    }
  }

  lemma HoldsNext(s: seq<Slot>, p: nat, m: map<Addr, nat>, n: map<Addr, nat>)
    requires p < |s| && Holds(s[..p], m)
    requires n == if s[p].Live? then m[s[p].addr := s[p].entry] else m
    requires s[p].Live? ==> s[p].addr !in m
    ensures Holds(s[..p + 1], n)
  {
    var r, q := s[..p + 1], s[..p];
    forall x | 0 <= x < |r| && r[x].Live? ensures r[x].addr in n && n[r[x].addr] == r[x].entry {
      if x < p { assert r[x] == q[x]; }
    }
    forall k | k in n ensures exists x :: 0 <= x < |r| && r[x].Live? && r[x].addr == k {
      if k in m {
        var x :| 0 <= x < |q| && q[x].Live? && q[x].addr == k;
        assert r[x].addr == k;
      } else {
        assert r[p].addr == k;
      }
    }
  }

  lemma LiveKey(s: seq<Slot>, m: map<Addr, nat>, x: nat)
    requires Holds(s, m) && x < |s| && s[x].Live?
    ensures s[x].addr in m && |m - {s[x].addr}| == |m| - 1
  {
    var k := s[x].addr;
    assert (m - {k}).Keys == m.Keys - {k};
    assert |m.Keys| == |m| && |(m - {k}).Keys| == |m - {k}|;
  }

  lemma LastRow(size: nat, i: nat)
    requires size <= 0x7fff_ffff && IsHigherIndex(size, i)
    ensures i < 29
  {
    assert PRIME_TAB[28].prime == 0x7fff_ffff;
  }
}
