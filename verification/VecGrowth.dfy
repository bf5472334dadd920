/** The growable array of the Rust seed (collections.rs:4-187, 222-249): signed 64-bit
    lengths and capacities that wrap, guards that abort, and a backing block that is
    exchanged when it is full. */
module VecGrowth {
  import opened PointerHash
  import opened Ownership
  import opened RuntimeSpec
  import opened BackingBlocks

  const I64_MAX: int := 0x7fff_ffff_ffff_ffff

  const ARRAY_HEADER: nat := 32

  /** Two's complement: add and mul wrap, casts to i32 truncate (see WrapsModulo). */
  function Wrap64(x: int): int { (x + WORD / 2) % WORD - WORD / 2 }

  function Wrap32(x: int): int { (x + 0x8000_0000) % 0x1_0000_0000 - 0x8000_0000 }

  /** The most elements of `size` bytes a vector may hold. */
  function Limit(size: nat): nat { if size == 0 then 0 else I64_MAX / size }

  /** The header in front of a payload. */
  function Hdr(p: nat): nat { if p >= HEADER then p - HEADER else 0 }

  function Bytes(count: nat, size: nat): nat { count * size }

  function Slots(cap: nat): nat { if cap == 0 then 1 else cap }

  /** A count is above the limit exactly when that many elements are more bytes than a signed
      64-bit number holds. */
  lemma LimitExactly(size: nat, count: nat)
    requires size > 0
    ensures Limit(size) * size <= I64_MAX < (Limit(size) + 1) * size
    ensures count > Limit(size) <==> count * size > I64_MAX
  {
    QuotientExactly(I64_MAX, size, count);
  }

  lemma QuotientExactly(n: nat, size: nat, count: nat)
    requires size > 0
    ensures (n / size) * size <= n < (n / size + 1) * size
    ensures count > n / size <==> count * size > n
  {
    var q := n / size;
    assert n == q * size + n % size;
    assert (q + 1) * size == q * size + size;
    if count > q {
      assert (count - q - 1) * size >= 0;
      assert (count - q - 1) * size == count * size - q * size - size;
    } else {
      assert (q - count) * size >= 0;
      assert (q - count) * size == q * size - count * size;
    }
  }

  lemma LimitFits(size: nat, k: nat)
    requires 0 < size <= I64_MAX && k <= Limit(size)
    ensures Bytes(k, size) <= I64_MAX && Bytes(Slots(k), size) <= I64_MAX
  {
    assert I64_MAX == Limit(size) * size + I64_MAX % size;
    assert (Limit(size) - k) * size >= 0;
  }

  /** yc_calloc on a product that fits is an allocation of that many bytes. */
  ghost function Calloc(s: State, h: nat, count: nat, size: nat): State {
    if size != 0 && count > SIZE_MAX / size then s else Alloc(s, h, count * size % WORD)
  }

  function CallocResult(h: nat, count: nat, size: nat): nat {
    if h == 0 || (size != 0 && count > SIZE_MAX / size) || count * size % WORD > SIZE_MAX - HEADER then 0 else h + HEADER
  }

  lemma CallocIsAlloc(s: State, h: nat, count: nat, size: nat)
    requires Bytes(count, size) <= I64_MAX
    ensures Calloc(s, h, count, size) == Alloc(s, h, Bytes(count, size))
    ensures CallocResult(h, count, size) == if h == 0 then 0 else h + HEADER
  {
    hide Alloc;
    assert size != 0 ==> count <= SIZE_MAX / size by {
      if size != 0 { QuotientExactly(SIZE_MAX, size, count); }
    }
  }

  /** The one number of 64 or 32 bits, signed, that differs by a multiple of the modulus. */
  lemma WrapsModulo(x: int, y: int)
    ensures y == Wrap64(x) <==> -I64_MAX - 1 <= y <= I64_MAX && (x - y) % 0x1_0000_0000_0000_0000 == 0
    ensures y == Wrap32(x) <==> -0x8000_0000 <= y < 0x8000_0000 && (x - y) % 0x1_0000_0000 == 0
  {
    Congruent(x, y, 0x8000_0000_0000_0000);
    Congruent(x, y, 0x8000_0000);
  }

  lemma Congruent(x: int, y: int, half: int)
    requires half > 0
    ensures y == (x + half) % (2 * half) - half <==> -half <= y < half && (x - y) % (2 * half) == 0
  {
    var m := 2 * half;
    var q, w := (x + half) / m, (x + half) % m;
    assert x + half == q * m + w;
    if -half <= y < half && (x - y) % m == 0 {
      var k := (x - y) / m;
      assert x - y == k * m;
      Scaled(k - q, m);
      assert (k - q) * m == k * m - q * m;
    }
    if y == w - half {
      assert x - y == q * m;
      Multiple(q, m);
    }
  }

  lemma Scaled(d: int, m: int)
    requires m > 0
    ensures d > 0 ==> d * m >= m
    ensures d < 0 ==> d * m <= -m
  {
    if d > 0 { assert (d - 1) * m >= 0; }
    if d < 0 { assert (-d - 1) * m >= 0; }
  }

  lemma Multiple(q: int, m: int)
    requires m > 0
    ensures (q * m) % m == 0
  {
    var k := (q * m) / m;
    assert q * m == k * m + (q * m) % m;
    assert (q - k) * m == q * m - k * m;
    Scaled(q - k, m);
  }

  lemma Unwrapped(x: int)
    requires -I64_MAX - 1 <= x <= I64_MAX
    ensures Wrap64(x) == x
  {
  }

  lemma Truncated(x: int)
    requires 0 <= x <= I64_MAX
    ensures Wrap32(x) == x <==> x < 0x8000_0000
  {
    if x >= 0x8000_0000 { assert Wrap32(x) < 0x8000_0000; }
  }

  // ----- growth -----

  /** The capacity a full vector asks for: twice as much, or one more when doubling wraps. */
  function Asked(cap: int): int {
    var next, twice := Wrap64(cap + 1), Wrap64(cap * 2);
    if twice > next then twice else next
  }

  lemma AskedIs(cap: int)
    requires 0 <= cap <= I64_MAX
    ensures cap == 0 ==> Asked(cap) == 1
    ensures 0 < cap && 2 * cap <= I64_MAX ==> Asked(cap) == 2 * cap
    ensures 2 * cap > I64_MAX && cap < I64_MAX ==> Asked(cap) == cap + 1
    ensures cap == I64_MAX ==> Asked(cap) == -2
  {
  }

  /** A header and, below it, a block of that many bytes. */
  ghost predicate InHeap(s: State, arr: nat, block: nat, bytes: nat) {
    && Inv(s) && HEADER <= arr && HEADER <= block && Backed(s, Hdr(arr), Hdr(block))
    && s.size[Hdr(block)] == bytes
  }

  class Vec {
    const size: nat
    const pointers: bool
    /** Payload addresses of the header and of the backing block. */
    const arr: nat
    var block: nat
    var data: array<nat>
    var len: int
    var cap: int
    ghost var copied: nat

    ghost predicate Valid(s: State)
      reads this, data
    {
      && 0 < size <= I64_MAX && 0 <= len <= cap <= Limit(size) && data.Length == Slots(cap)
      && InHeap(s, arr, block, Bytes(data.Length, size))
    }

    ghost function Contents(): seq<nat>
      reads this, data
    {
      if 0 <= len <= data.Length then data[..len] else []
    }

    constructor (size: nat, pointers: bool, arr: nat, block: nat, cap: nat)
      ensures this.size == size && this.pointers == pointers && this.arr == arr && this.block == block
      ensures len == 0 && this.cap == cap && copied == 0 && fresh(data) && data.Length == Slots(cap)
    {
      this.size, this.pointers, this.arr, this.block := size, pointers, arr, block;
      data, len, this.cap, copied := new nat[Slots(cap)], 0, cap, 0;
    }

    /** `null` stands for abort: a bad capacity, or malloc failed. */
    static method ArrayNew(ghost s: State, size: nat, pointers: bool, cap: int, h1: nat, h2: nat)
      returns (v: Vec?, ghost s': State)
      requires Inv(s) && 0 < size <= I64_MAX && Fits(s, h1, ARRAY_HEADER)
      requires 0 <= cap && cap * size <= I64_MAX ==> Fits(Alloc(s, h1, ARRAY_HEADER), h2, Bytes(Slots(cap), size))
      ensures v == null <==> cap < 0 || cap * size > I64_MAX || h1 == 0 || h2 == 0
      ensures v != null ==>
                && fresh(v) && fresh(v.data) && v.Valid(s') && v.Contents() == [] && v.cap == cap && v.copied == 0
                && v.size == size && v.pointers == pointers && v.arr == h1 + HEADER && v.block == h2 + HEADER
                && s'.owner == s.owner[h1 := 0][h2 := h1] && s'.frame == s.frame[h1 := s.cur][h2 := s.cur]
                && s'.size == s.size[h1 := 32][h2 := if cap == 0 then size else cap * size]
    {
      hide Inv, Fits, Alloc, Attach, Backed, Bytes, Calloc, CallocResult, Limit;
      v, s' := null, s;
      if cap >= 0 { LimitExactly(size, cap); SlotBytes(cap, size); }
      if cap < 0 || cap > Limit(size) { return; }
      LimitFits(size, cap);
      HeaderBytes();
      var header := CallocResult(h1, 1, ARRAY_HEADER);
      CallocIsAlloc(s, h1, 1, ARRAY_HEADER);
      s' := Calloc(s, h1, 1, ARRAY_HEADER);
      var data := CallocResult(h2, Slots(cap), size);
      CallocIsAlloc(s', h2, Slots(cap), size);
      s' := Calloc(s', h2, Slots(cap), size);
      if header == 0 || data == 0 { return; }
      BlockAttached(s, h1, h2, Bytes(Slots(cap), size));
      s' := Attach(s', header, data);
      v := new Vec(size, pointers, header, data, cap);
    }

    /** Whether the index is inside; if not, the program aborts. */
    method ArraySlot(ghost s: State, index: int) returns (ok: bool, value: nat)
      requires Valid(s)
      ensures ok <==> 0 <= index < |Contents()|
      ensures ok ==> value == Contents()[index]
    {
      ok, value := !(index < 0 || index >= len), 0;
      if ok { value := data[index]; }
    }

    /** What `len()` answers, truncated to 32 bits: right exactly below 2^31 elements. */
    method Length(ghost s: State) returns (n: int)
      requires Valid(s)
      ensures n == |Contents()| <==> |Contents()| < 0x8000_0000
    {
      hide Wrap32, Inv, Backed;
      LimitIs(size);
      Truncated(len);
      n := Wrap32(len);
    }

    /** `ok` is false when the program aborts: the request is negative or too large, or it
        needs a new block and malloc has none. */
    method Reserve(ghost s: State, requested: int, h: nat) returns (ok: bool, ghost s': State)
      requires Valid(s) && -I64_MAX - 1 <= requested <= I64_MAX
      requires cap < requested && requested * size <= I64_MAX ==> Fits(s, h, Bytes(requested, size))
      modifies this
      ensures ok <==> 0 <= requested && requested * size <= I64_MAX && (requested > old(cap) ==> h != 0)
      ensures len == old(len) && Contents() == old(Contents())
      ensures !ok ==> s' == s && cap == old(cap) && data == old(data) && block == old(block) && copied == old(copied)
      ensures ok ==> Valid(s')
      ensures ok && requested <= old(cap) ==> s' == s && cap == old(cap) && data == old(data) && block == old(block) && copied == old(copied)
      ensures ok && requested > old(cap) ==>
                && cap == requested && fresh(data) && block == h + HEADER && copied == old(copied) + len
                && s' == Exchange(s, Hdr(arr), Hdr(old(block)), h, Bytes(requested, size))
    {
      hide Inv, Backed, Fits, Alloc, Exchange, Limit, Bytes, Calloc, CallocResult, Release, Replace;
      if requested >= 0 { LimitExactly(size, requested); }
      s' := s;
      ok := !(requested < 0 || requested > Limit(size));
      if ok && requested > cap {
        LimitFits(size, requested);
        CallocIsAlloc(s, h, requested, size);
        var grown := CallocResult(h, requested, size);
        if grown == 0 { return false, s; }
        CopyFits(size, len);
        var next := new nat[requested];
        forall i | 0 <= i < len { next[i] := data[i]; }
        GrowFreesOnlyOld(s, Hdr(arr), Hdr(block), h, Bytes(requested, size));
        s' := Release(Replace(Calloc(s, h, requested, size), arr, block, grown), block);
        assert s' == Exchange(s, Hdr(arr), Hdr(block), h, Bytes(requested, size)) by { Exchanged(s, arr, block, h, Bytes(requested, size)); }
        data, block, cap, copied := next, grown, requested, copied + len;
      }
    }

    /** Push: aborts exactly when the vector is full and cannot grow. The element is attached
        to the header, so that it outlives the block it is stored in. */
    method Append(ghost s: State, value: nat, h: nat) returns (ok: bool, index: int, ghost s': State)
      requires Valid(s)
      requires len == cap && 0 < Asked(cap) && Asked(cap) * size <= I64_MAX ==> Fits(s, h, Bytes(Asked(cap), size))
      modifies this, data
      ensures ok <==> old(len) < old(cap) || (0 < Asked(old(cap)) && Asked(old(cap)) * size <= I64_MAX && h != 0)
      ensures !ok ==> s' == s && len == old(len) && cap == old(cap) && data == old(data) && block == old(block) && data[..] == old(data[..])
      ensures ok ==> Valid(s') && Contents() == old(Contents()) + [value] && index == Wrap32(old(len))
      ensures ok ==>
                var t := if old(len) < old(cap) then s else Exchange(s, Hdr(arr), Hdr(old(block)), h, Bytes(Asked(old(cap)), size));
                s' == if pointers then Attach(t, arr, value) else t
      ensures ok ==> s'.owner.Keys == if old(len) < old(cap) then s.owner.Keys else s.owner.Keys - {Hdr(old(block))} + {h}
      ensures ok && old(cap) == CapOf(old(len)) && old(copied) == CopiedBy(old(len)) ==>
                cap == CapOf(len) && copied == CopiedBy(len)
    {
      hide Inv, Fits, Attach, Backed, Limit, Bytes, Wrap32, Wrap64, Exchange, CapOf, CopiedBy, Release, Replace;
      LimitIs(size);
      AskedIs(cap);
      RequestFits(size, cap);
      OnePush(len);
      var slot := len;
      var next, twice := Wrap64(len + 1), Wrap64(cap * 2);
      var growth := if twice > next then twice else next;
      var requested := if len >= cap then growth else cap;
      ok, s' := Reserve(s, requested, h);
      if !ok { return false, 0, s; }
      if requested > old(cap) {
        LimitFits(size, requested);
        GrownKeys(s, Hdr(arr), Hdr(old(block)), h, Bytes(requested, size));
      }
      data[slot] := value;
      if pointers {
        PushedElement(s', arr, block, value);
        s' := Attach(s', arr, value);
      }
      Unwrapped(slot + 1);
      len := next;
      index := Wrap32(slot);
    }

    /** Clear releases every element and empties the slots; the capacity stays. Releasing an
        element that owns the vector would free the vector while it is being cleared. */
    method Clear(ghost s: State) returns (ghost s': State)
      requires Valid(s)
      requires pointers ==> forall p <- Contents() :: !Owns(s, p, Hdr(arr)) && p != block
      modifies this`len, data
      ensures Valid(s') && Contents() == [] && cap == old(cap) && data == old(data)
      ensures forall i :: 0 <= i < data.Length ==> data[i] == if i < old(len) then 0 else old(data[i])
      ensures s' == if pointers then ReleaseEach(s, old(Contents())) else s
    {
      hide Inv, Backed, Owns, Release, ReleaseEach, Limit;
      s' := s;
      ghost var elements := Contents();
      var i := 0;
      NoneReleased(s);
      while i < len
        invariant 0 <= i <= len == |elements|
        invariant s' == if pointers then ReleaseEach(s, elements[..i]) else s
        invariant forall k :: 0 <= k < data.Length ==> data[k] == if k < i then 0 else old(data[k])
      {
        if pointers {
          ReleaseEachMore(s, elements[..i], data[i]);
          assert elements[..i + 1] == elements[..i] + [data[i]];
          s' := Release(s', data[i]);
        }
        data[i] := 0;
        i := i + 1;
      }
      assert elements[..i] == elements;
      if pointers { ClearedStays(s, arr, block, elements); }
      len := 0;
    }
  }

  lemma LimitIs(size: nat)
    requires size > 0
    ensures 0 <= Limit(size) <= I64_MAX
  {
  }

  lemma RequestFits(size: nat, cap: nat)
    requires size > 0 && cap <= Limit(size)
    ensures cap * size <= I64_MAX
    ensures Asked(cap) > 0 ==> (Asked(cap) * size <= I64_MAX <==> Asked(cap) <= Limit(size))
  {
    hide Limit, Asked;
    LimitExactly(size, cap);
    if Asked(cap) > 0 { LimitExactly(size, Asked(cap)); }
  }

  /** The byte count of the copy does not overflow. */
  lemma CopyFits(size: nat, len: nat)
    requires 0 < size <= I64_MAX && len <= Limit(size)
    ensures Wrap64(len * size) == len * size
  {
    LimitFits(size, len);
    Unwrapped(len * size);
  }

  lemma GrownKeys(s: State, a: nat, d: nat, h: nat, n: nat)
    requires Inv(s) && Backed(s, a, d) && Fits(s, h, n) && h != 0 && n <= I64_MAX
    ensures Exchange(s, a, d, h, n).owner.Keys == s.owner.Keys - {d} + {h}
  {
    hide Inv, Backed, Fits, Exchange;
    GrowFreesOnlyOld(s, a, d, h, n);
  }

  lemma SlotBytes(cap: nat, size: nat)
    ensures Bytes(Slots(cap), size) == if cap == 0 then size else cap * size
  {
  }

  lemma HeaderBytes()
    ensures Bytes(1, ARRAY_HEADER) == ARRAY_HEADER
  {
  }

  lemma NoneReleased(s: State)
    ensures ReleaseEach(s, []) == s
  {
  }

  lemma PushedElement(s: State, arr: nat, block: nat, value: nat)
    requires Inv(s) && HEADER <= arr && HEADER <= block && Backed(s, Hdr(arr), Hdr(block))
    ensures var s' := Attach(s, arr, value);
            Inv(s') && Backed(s', Hdr(arr), Hdr(block)) && s'.size == s.size && s'.owner.Keys == s.owner.Keys
  {
    hide Inv, Backed, AttachHeaders;
    OwnFacts(s, Hdr(arr), Hdr(block));
    ElementAttached(s, Hdr(arr), Hdr(block), value);
  }

  lemma ClearedStays(s: State, arr: nat, block: nat, ptrs: seq<nat>)
    requires Inv(s) && HEADER <= arr && HEADER <= block && Backed(s, Hdr(arr), Hdr(block))
    requires forall p <- ptrs :: !Owns(s, p, Hdr(arr)) && p != block
    ensures var s' := ReleaseEach(s, ptrs);
            && Inv(s') && Backed(s', Hdr(arr), Hdr(block))
            && Hdr(block) in s'.size && s'.size[Hdr(block)] == s.size[Hdr(block)]
  {
    hide Inv, Backed, Owns, ReleaseEach;
    OwnFacts(s, Hdr(arr), Hdr(block));
    BackedAfterClear(s, Hdr(arr), Hdr(block), ptrs);
    OwnKeys(ReleaseEach(s, ptrs), Hdr(arr), Hdr(block));
  }

  lemma OwnKeys(s: State, a: nat, d: nat)
    requires Inv(s) && Backed(s, a, d)
    ensures d in s.size
  {
  }

  lemma Exchanged(s: State, arr: nat, block: nat, h: nat, n: nat)
    requires HEADER <= arr && HEADER <= block
    ensures Release(Replace(Alloc(s, h, n), arr, block, h + HEADER), block) == Exchange(s, Hdr(arr), Hdr(block), h, n)
  {
  }

  lemma BlockAttached(s: State, h1: nat, h2: nat, n: nat)
    requires Inv(s) && Fits(s, h1, ARRAY_HEADER) && h1 != 0 && h2 != 0 && n <= I64_MAX
    requires Fits(Alloc(s, h1, ARRAY_HEADER), h2, n)
    ensures var s2 := Alloc(Alloc(s, h1, ARRAY_HEADER), h2, n);
            var s' := Attach(s2, h1 + HEADER, h2 + HEADER);
            && s' == State(s.cur, s.frame[h1 := s.cur][h2 := s.cur], s.owner[h1 := 0][h2 := h1],
                           s.size[h1 := ARRAY_HEADER][h2 := n])
            && Inv(s') && Backed(s', h1, h2)
  {
    hide Inv, AttachHeaders;
    var s1 := Alloc(s, h1, ARRAY_HEADER);
    var s2 := Alloc(s1, h2, n);
    AllocKeeps(s, h1, ARRAY_HEADER);
    NewBlock(s, h1, ARRAY_HEADER);
    AllocKeeps(s1, h2, n);
    NewBlock(s1, h2, n);
    SameKeys(s1);
    assert Leaf(s2.owner, h2);
    assert h1 in s1.owner && h1 != h2;
    HangLeaf(s2, h1, h2);
    AttachKeeps(s2, h1, h2);
    Rewritten(s.frame[h1 := s.cur], h2, s.cur, s.cur);
    Rewritten(s.owner[h1 := 0], h2, 0, h1);
  }

  lemma Rewritten(m: map<nat, nat>, k: nat, x: nat, y: nat)
    ensures m[k := x][k := y] == m[k := y]
  {
  }

  lemma SameKeys(s: State)
    requires Inv(s)
    ensures s.frame.Keys == s.owner.Keys == s.size.Keys
  {
  }

  // ----- what growing costs -----

  /** Capacity after `n` pushes into a vector created empty. */
  function CapOf(n: nat): int
    decreases n
  {
    if n == 0 then 0
    else
      var cap := CapOf(n - 1);
      if n - 1 >= cap then Asked(cap) else cap
  }

  /** Elements copied by those pushes. */
  function CopiedBy(n: nat): nat
    decreases n
  {
    if n == 0 then 0 else CopiedBy(n - 1) + if n - 1 >= CapOf(n - 1) then n - 1 else 0
  }

  lemma OnePush(n: nat)
    ensures CapOf(n + 1) == if n >= CapOf(n) then Asked(CapOf(n)) else CapOf(n)
    ensures CopiedBy(n + 1) == CopiedBy(n) + if n >= CapOf(n) then n else 0
  {
  }

  /** While doubling does not wrap, the capacity is the next power of two. */
  lemma {:induction false} Doubling(n: nat, k: nat)
    requires Pow2(k) < n <= Pow2(k + 1) && Pow2(k + 1) <= 0x4000_0000_0000_0000
    ensures CapOf(n) == Pow2(k + 1) && CopiedBy(n) == Pow2(k + 1) - 1
    decreases n
  {
    if n - 1 > Pow2(k) {
      Doubling(n - 1, k);
    } else if k == 0 {
      assert CapOf(1) == 1 && CopiedBy(1) == 0;
      AskedIs(1);
    } else {
      Doubling(n - 1, k - 1);
      AskedIs(Pow2(k));
    }
  }

  lemma {:induction false} PowerAbove(n: nat) returns (k: nat)
    requires n >= 2
    ensures Pow2(k) < n <= Pow2(k + 1)
    decreases n
  {
    if n == 2 {
      k := 0;
    } else {
      k := PowerAbove(n - 1);
      if n > Pow2(k + 1) { k := k + 1; }
    }
  }

  lemma PowOf62()
    ensures Pow2(62) == 0x4000_0000_0000_0000 && Pow2(61) == 0x2000_0000_0000_0000
  {
    assert Pow2(8) == 0x100;
    assert Pow2(16) == 0x1_0000;
    assert Pow2(24) == 0x100_0000;
    assert Pow2(32) == 0x1_0000_0000;
    assert Pow2(40) == 0x100_0000_0000;
    assert Pow2(48) == 0x1_0000_0000_0000;
    assert Pow2(56) == 0x100_0000_0000_0000;
    assert Pow2(61) == 0x2000_0000_0000_0000;
  }

  lemma UpTo62(n: nat)
    requires 2 <= n <= 0x4000_0000_0000_0000
    ensures CopiedBy(n) < 2 * n && n <= CapOf(n) <= 0x4000_0000_0000_0000
  {
    hide CapOf, CopiedBy;
    var k := PowerAbove(n);
    PowOf62();
    if k >= 62 {
      Pow2Split(62, k);
    } else {
      Pow2Split(k + 1, 62);
      Doubling(n, k);
    }
  }

  /** From 2^62 elements on doubling wraps, and every push moves everything. */
  lemma {:induction false} EveryPushCopies(n: nat)
    requires 0x4000_0000_0000_0000 <= n <= I64_MAX
    ensures CapOf(n) == n && CopiedBy(n) >= 0x3fff_ffff_ffff_ffff + (n - 0x4000_0000_0000_0000) * 0x4000_0000_0000_0000
    ensures n == 0x4000_0000_0000_0001 ==> CopiedBy(n) == 0x7fff_ffff_ffff_ffff
    decreases n
  {
    if n == 0x4000_0000_0000_0000 {
      PowOf62();
      Doubling(n, 61);
    } else {
      EveryPushCopies(n - 1);
      AskedIs(n - 1);
      if n == 0x4000_0000_0000_0001 {
        PowOf62();
        Doubling(n - 1, 61);
      }
    }
  }

  /** n pushes copy at most 2n elements, up to 2^62 + 1 pushes and no further. */
  lemma AmortizedExactly(n: nat)
    requires n <= I64_MAX
    ensures CopiedBy(n) <= 2 * n <==> n <= 0x4000_0000_0000_0001
  {
    if n < 2 {
      assert CopiedBy(1) == CopiedBy(0) + 0;
    } else if n <= 0x4000_0000_0000_0000 {
      UpTo62(n);
    } else {
      EveryPushCopies(n);
    }
  }

  /** Elements of two bytes or more never get there: the limit aborts first. */
  lemma WideElementsAmortized(n: nat, size: nat)
    requires size >= 2 && n <= CapOf(n) <= Limit(size)
    ensures CopiedBy(n) <= 2 * n
  {
    assert Limit(size) <= I64_MAX / 2 by { LimitHalves(size); }
    AmortizedExactly(n);
  }

  lemma LimitHalves(size: nat)
    requires size >= 2
    ensures Limit(size) <= I64_MAX / 2
  {
    assert I64_MAX == Limit(size) * size + I64_MAX % size;
    assert Limit(size) * (size - 2) >= 0;
  }
}
