// The kernel's bump allocator (kernel/main.c): a cursor malloc_ptr that
// moves up through an arena ending at malloc_top, a four-byte size header
// in front of every block, and last_alloc remembering the newest block so
// that free and realloc can undo or grow it in place.
//
// Each operation is first a function on a Heap value (the specification),
// then a method of the class Arena that changes the allocator's globals in
// place and is proved to agree with that function.

module Allocator {
  datatype Option<T> = None | Some(value: T)

  /** A byte of memory. */
  type Byte = b: int | 0 <= b < 256

  /** Pointers, unsigned int and unsigned long are 32 bits wide on the i386. */
  const Modulus: nat := 0x1_0000_0000

  /** 32-bit pointer and unsigned arithmetic wraps around. */
  function Wrap(x: int): (r: nat)
    ensures r < Modulus
    ensures 0 <= x < Modulus ==> r == x
  {
    x % Modulus
  }

  function Min(a: nat, b: nat): nat {
    if a <= b then a else b
  }

  // ---------------------------------------------------------------- memory

  /** The contents of a memory byte, None when nothing known has been
      written there. */
  function Get(mem: map<nat, Byte>, a: nat): Option<Byte> {
    if a in mem then Some(mem[a]) else None
  }

  function Put(mem: map<nat, Byte>, a: nat, b: Option<Byte>): map<nat, Byte> {
    if b.Some? then mem[a := b.value] else mem - {a}
  }

  /** The four bytes of the int stored at address a. */
  predicate InWord(a: nat, x: nat) {
    x == Wrap(a) || x == Wrap(a + 1) || x == Wrap(a + 2) || x == Wrap(a + 3)
  }

  /** `*(int *)a = v`: four bytes, least significant first. */
  function Store32(mem: map<nat, Byte>, a: nat, v: nat): map<nat, Byte>
    requires v < Modulus
  {
    mem[Wrap(a) := v % 0x100]
       [Wrap(a + 1) := (v / 0x100) % 0x100]
       [Wrap(a + 2) := (v / 0x1_0000) % 0x100]
       [Wrap(a + 3) := v / 0x100_0000]
  }

  predicate Known32(mem: map<nat, Byte>, a: nat) {
    Wrap(a) in mem && Wrap(a + 1) in mem && Wrap(a + 2) in mem && Wrap(a + 3) in mem
  }

  /** `*(int *)a`, read as an unsigned value, when all four bytes are known. */
  function Load32(mem: map<nat, Byte>, a: nat): (r: Option<nat>)
    ensures r.Some? <==> Known32(mem, a)
    ensures r.Some? ==> r.value < Modulus
  {
    if Known32(mem, a) then
      Some(mem[Wrap(a)] as int + 0x100 * (mem[Wrap(a + 1)] as int)
           + 0x1_0000 * (mem[Wrap(a + 2)] as int) + 0x100_0000 * (mem[Wrap(a + 3)] as int))
    else None
  }

  /** The four byte addresses of a word are distinct, even across the wrap. */
  lemma WordBytesDistinct(a: nat)
    ensures Wrap(a) != Wrap(a + 1) && Wrap(a) != Wrap(a + 2) && Wrap(a) != Wrap(a + 3)
    ensures Wrap(a + 1) != Wrap(a + 2) && Wrap(a + 1) != Wrap(a + 3) && Wrap(a + 2) != Wrap(a + 3)
  {
    var q := a / Modulus;
    assert a == q * Modulus + Wrap(a);
  }

  /** The four bytes of a 32-bit value put back together give the value. */
  lemma BytesRecombine(v: nat)
    requires v < Modulus
    ensures v % 0x100 + 0x100 * ((v / 0x100) % 0x100) + 0x1_0000 * ((v / 0x1_0000) % 0x100)
            + 0x100_0000 * (v / 0x100_0000) == v
  {
    var q1 := v / 0x100;
    var q2 := q1 / 0x100;
    var q3 := q2 / 0x100;
    assert v == 0x100 * q1 + v % 0x100;
    assert q1 == 0x100 * q2 + q1 % 0x100;
    assert q2 == 0x100 * q3 + q2 % 0x100;
    assert v / 0x1_0000 == q2;
    assert v / 0x100_0000 == q3;
  }

  /** Reading back an int that was just stored gives it back, and the store
      touches no byte outside its word. */
  lemma LoadStore(mem: map<nat, Byte>, a: nat, v: nat)
    requires v < Modulus
    ensures Load32(Store32(mem, a, v), a) == Some(v)
    ensures forall x :: !InWord(a, x) ==> Get(Store32(mem, a, v), x) == Get(mem, x)
  {
    WordBytesDistinct(a);
    var m := Store32(mem, a, v);
    assert m[Wrap(a)] == v % 0x100;
    assert m[Wrap(a + 1)] == (v / 0x100) % 0x100;
    assert m[Wrap(a + 2)] == (v / 0x1_0000) % 0x100;
    assert m[Wrap(a + 3)] == v / 0x100_0000;
    BytesRecombine(v);
  }

  /** Byte x is one of the n bytes from dst on, with wrap-around. */
  predicate Written(dst: nat, n: nat, x: nat)
    decreases n
  {
    n > 0 && (x == Wrap(dst) || Written(dst + 1, n - 1, x))
  }

  /** memcpy(dst, src, n), which lives in lib/ and is not part of this
      model, as a forward byte copy; a byte of unknown contents copies as
      unknown. */
  function Copy(mem: map<nat, Byte>, dst: nat, src: nat, n: nat): (r: map<nat, Byte>)
    ensures forall x :: !Written(dst, n, x) ==> Get(r, x) == Get(mem, x)
    decreases n
  {
    if n == 0 then mem
    else Copy(Put(mem, Wrap(dst), Get(mem, Wrap(src))), dst + 1, src + 1, n - 1)
  }

  /** Between disjoint ranges that do not wrap, the copy puts src's bytes at
      dst and leaves every other byte alone. */
  lemma {:induction false} CopyEffect(mem: map<nat, Byte>, dst: nat, src: nat, n: nat)
    requires dst + n <= Modulus && src + n <= Modulus
    requires dst + n <= src || src + n <= dst
    ensures forall x: nat :: dst <= x < dst + n ==> Get(Copy(mem, dst, src, n), x) == Get(mem, src + (x - dst))
    ensures forall x: nat :: !(dst <= x < dst + n) ==> Get(Copy(mem, dst, src, n), x) == Get(mem, x)
    decreases n
  {
    if n > 0 {
      var m1 := Put(mem, dst, Get(mem, src));
      CopyEffect(m1, dst + 1, src + 1, n - 1);
      var c := Copy(mem, dst, src, n);
      assert c == Copy(m1, dst + 1, src + 1, n - 1);
      forall x: nat | dst <= x < dst + n
        ensures Get(c, x) == Get(mem, src + (x - dst))
      {
        if x == dst {
          assert Get(c, dst) == Get(m1, dst);
        } else {
          assert Get(c, x) == Get(m1, (src + 1) + (x - (dst + 1)));
        }
      }
      forall x: nat | !(dst <= x < dst + n)
        ensures Get(c, x) == Get(mem, x)
      {
        assert Get(c, x) == Get(m1, x);
      }
    }
  }

  // ----------------------------------------------------------------- heap

  /** malloc_ptr, malloc_top, last_alloc and the memory they point into. */
  datatype Heap = Heap(ptr: nat, top: nat, last: nat, mem: map<nat, Byte>)

  /** The result of malloc or realloc: the block handed out (0 is NULL) and
      the allocator afterwards. */
  datatype Alloc = Alloc(addr: nat, heap: Heap)

  /** The three globals hold 32-bit pointers. */
  predicate HeapOk(h: Heap) {
    h.ptr < Modulus && h.top < Modulus && h.last < Modulus
  }

  /** The address of a block's size header. */
  function HeaderOf(addr: nat): nat {
    Wrap(addr - 4)
  }

  /** `(p + 3) & ~3` on an unsigned int. */
  function RoundUp4(x: nat): (r: nat)
    requires x < Modulus
    ensures r < Modulus && r % 4 == 0
    ensures x + 3 < Modulus ==> x <= r <= x + 3
  {
    (Wrap(x + 3) / 4) * 4
  }

  /** malloc_init: the arena runs from bottom to bottom + size. */
  function InitStep(h: Heap, bottom: nat, size: nat): (r: Heap)
    requires HeapOk(h) && bottom < Modulus && size < Modulus
    ensures HeapOk(r)
    ensures r.ptr == bottom && r.last == h.last && r.mem == h.mem
    ensures bottom + size < Modulus ==> r.top == bottom + size
  {
    Heap(bottom, Wrap(bottom + size), h.last, h.mem)
  }

  /** malloc_dispose: the allocator is switched off. */
  function DisposeStep(h: Heap): (r: Heap)
    ensures r.ptr == 0 && r.last == 0 && r.top == h.top && r.mem == h.mem
  {
    Heap(0, h.top, 0, h.mem)
  }

  /** The success path of malloc: the size header at the cursor, the block
      right after it, and the cursor moved past the block and rounded up to
      a multiple of four. */
  function Carve(h: Heap, size: nat): (r: Alloc)
    requires HeapOk(h) && size < Modulus
    ensures HeapOk(r.heap) && r.heap.top == h.top && r.heap.last == r.addr
    ensures r.heap.ptr % 4 == 0 && Load32(r.heap.mem, h.ptr) == Some(size)
  {
    var caddr := Wrap(h.ptr + 4);
    LoadStore(h.mem, h.ptr, size);
    Alloc(caddr, Heap(RoundUp4(Wrap(h.ptr + size + 4)), h.top, caddr,
                      Store32(h.mem, h.ptr, size)))
  }

  /** malloc with the bound check done without wrap-around. It fails,
      returning NULL and changing nothing, exactly when the allocator is off
      or the header and block do not fit below malloc_top. */
  function MallocStep(h: Heap, size: nat): (r: Alloc)
    requires HeapOk(h) && size < Modulus
    ensures r.addr == 0 <==> h.ptr == 0 || h.ptr + size + 4 > h.top
    ensures r.addr == 0 ==> r.heap == h
    ensures r.addr != 0 ==>
              && r.addr == h.ptr + 4 && r.addr + size <= h.top
              && r.heap.last == r.addr && r.heap.top == h.top && HeapOk(r.heap)
              && r.heap.mem == Store32(h.mem, h.ptr, size)
  {
    if h.ptr == 0 then Alloc(0, h)
    else if h.ptr + size + 4 > h.top then Alloc(0, h)
    else Carve(h, size)
  }

  /** malloc as written: `malloc_ptr + size + sizeof(int)` is a 32-bit
      pointer sum, so a huge size wraps around and passes the bound check. */
  function MallocAsWritten(h: Heap, size: nat): (r: Alloc)
    requires HeapOk(h) && size < Modulus
    ensures h.ptr == 0 || Wrap(h.ptr + size + 4) > h.top ==> r == Alloc(0, h)
    ensures h.ptr != 0 && Wrap(h.ptr + size + 4) <= h.top ==>
              && HeapOk(r.heap) && r.heap.top == h.top && r.heap.last == r.addr
              && Load32(r.heap.mem, h.ptr) == Some(size)
  {
    if h.ptr == 0 then Alloc(0, h)
    else if Wrap(h.ptr + size + 4) > h.top then Alloc(0, h)
    else Carve(h, size)
  }

  /** The memory of a realloc that moved the block: the old contents, as
      many bytes as the old header says and no more than the new size,
      copied into the new block. */
  function MoveContents(r: Alloc, oaddr: nat, size: nat): Alloc
    requires Known32(r.heap.mem, HeaderOf(oaddr))
  {
    var oldSize := Load32(r.heap.mem, HeaderOf(oaddr)).value;
    Alloc(r.addr, r.heap.(mem := Copy(r.heap.mem, r.addr, oaddr, Min(oldSize, size))))
  }

  /** What realloc demands of its caller: a block other than NULL and the
      newest one came from malloc, so its header is readable. */
  predicate ReallocArg(h: Heap, oaddr: nat, size: nat) {
    && HeapOk(h) && oaddr < Modulus && size < Modulus
    && (h.ptr != 0 && oaddr != 0 && oaddr != h.last ==> Known32(h.mem, HeaderOf(oaddr)))
  }

  /** realloc: the newest block grows or shrinks in place; any other block
      moves to a fresh malloc and takes its contents along; NULL behaves as
      malloc. */
  function ReallocStep(h: Heap, oaddr: nat, size: nat): (r: Alloc)
    requires ReallocArg(h, oaddr, size)
    ensures h.ptr == 0 ==> r == Alloc(0, h)
    ensures r.heap.top == h.top && r.heap.last in {h.last, r.addr}
  {
    if h.ptr == 0 then Alloc(0, h)
    else if oaddr != 0 && oaddr == h.last then
      if oaddr + size > h.top then Alloc(0, h)
      else Alloc(oaddr, Heap(oaddr + size, h.top, h.last,
                             Store32(h.mem, HeaderOf(oaddr), size)))
    else
      var r := MallocStep(h, size);
      if r.addr != 0 && oaddr != 0 then MoveContents(r, oaddr, size) else r
  }

  /** realloc as written: NULL counts as the newest block before anything
      was allocated, the in-place bound check wraps, and a moved block gets
      the whole old size copied into it whatever the new size. */
  function ReallocAsWritten(h: Heap, oaddr: nat, size: nat): (r: Alloc)
    requires ReallocArg(h, oaddr, size)
    ensures h.ptr == 0 ==> r == Alloc(0, h)
    ensures r.heap.top == h.top && r.heap.last in {h.last, r.addr}
  {
    if h.ptr == 0 then Alloc(0, h)
    else if oaddr == h.last then
      if Wrap(oaddr + size) > h.top then Alloc(0, h)
      else Alloc(oaddr, Heap(Wrap(oaddr + size), h.top, h.last,
                             Store32(h.mem, HeaderOf(oaddr), size)))
    else
      var r := MallocAsWritten(h, size);
      if r.addr != 0 && oaddr != 0 then
        var oldSize := Load32(r.heap.mem, HeaderOf(oaddr)).value;
        Alloc(r.addr, r.heap.(mem := Copy(r.heap.mem, r.addr, oaddr, oldSize)))
      else r
  }

  /** free: only the newest block can be given back, by moving the cursor
      back onto its header; freeing anything else, NULL included, changes
      nothing. */
  function FreeStep(h: Heap, m: nat): (r: Heap)
    requires HeapOk(h)
    ensures HeapOk(r) && r.top == h.top && r.last == h.last && r.mem == h.mem
    ensures r.ptr != h.ptr ==> h.ptr != 0 && m != 0 && m == h.last && r.ptr == HeaderOf(m)
    ensures h.ptr != 0 && m != 0 && m == h.last ==> r.ptr == HeaderOf(m)
  {
    if h.ptr == 0 then h
    else if m != 0 && m == h.last then h.(ptr := HeaderOf(h.last))
    else h
  }

  /** free as written: NULL matches last_alloc while nothing has been
      allocated yet. */
  function FreeAsWritten(h: Heap, m: nat): (r: Heap)
    requires HeapOk(h)
    ensures HeapOk(r) && r.top == h.top && r.last == h.last && r.mem == h.mem
    ensures r.ptr != h.ptr ==> h.ptr != 0 && m == h.last && r.ptr == HeaderOf(m)
    ensures h.ptr != 0 && m == h.last ==> r.ptr == HeaderOf(m)
  {
    if h.ptr == 0 then h
    else if m == h.last then h.(ptr := HeaderOf(h.last))
    else h
  }

  /** mark: the cursor, or None (the out-parameter is left alone) while the
      allocator is off. */
  function MarkOf(h: Heap): (r: Option<nat>)
    ensures r.Some? <==> h.ptr != 0
    ensures r.Some? ==> r.value == h.ptr
  {
    if h.ptr == 0 then None else Some(h.ptr)
  }

  /** release: the cursor goes back to a mark; nothing happens while the
      allocator is off. */
  function ReleaseStep(h: Heap, p: nat): (r: Heap)
    requires HeapOk(h) && p < Modulus
    ensures HeapOk(r) && r.top == h.top && r.last == h.last && r.mem == h.mem
    ensures r.ptr == if h.ptr == 0 then 0 else p
  {
    if h.ptr == 0 then h else h.(ptr := p)
  }

  // --------------------------------------------------------------- lemmas

  /** A successful malloc leaves the cursor at or past the end of the block,
      by less than four bytes, on a multiple of four; the header holds the
      size and no other byte changes. The arena is taken not to end in the
      last three bytes of the address space. */
  lemma MallocFits(h: Heap, size: nat)
    requires HeapOk(h) && size < Modulus && h.top + 3 < Modulus
    ensures var r := MallocStep(h, size);
            r.addr != 0 ==>
              && r.addr + size <= r.heap.ptr <= r.addr + size + 3 && r.heap.ptr % 4 == 0
              && Load32(r.heap.mem, HeaderOf(r.addr)) == Some(size)
              && forall x :: !InWord(h.ptr, x) ==> Get(r.heap.mem, x) == Get(h.mem, x)
  {
    var r := MallocStep(h, size);
    if r.addr != 0 {
      assert HeaderOf(r.addr) == h.ptr;
      LoadStore(h.mem, h.ptr, size);
    }
  }

  /** Two successive blocks do not overlap: the second header starts at or
      after the end of the first block. */
  lemma MallocDisjoint(h: Heap, a: nat, b: nat)
    requires HeapOk(h) && a < Modulus && b < Modulus && h.top + 3 < Modulus
    ensures var r1 := MallocStep(h, a);
            var r2 := MallocStep(r1.heap, b);
            r1.addr != 0 && r2.addr != 0 ==> r1.addr + a <= HeaderOf(r2.addr) && r2.addr + b <= h.top
  {
    MallocFits(h, a);
  }

  /** Freeing the newest block undoes its malloc: the cursor is back where
      it was, so the next malloc hands out the same address again. */
  lemma FreeUndoesMalloc(h: Heap, size: nat, next: nat)
    requires HeapOk(h) && size < Modulus && next < Modulus && h.top + 3 < Modulus
    ensures var r := MallocStep(h, size);
            r.addr != 0 ==>
              && FreeStep(r.heap, r.addr).ptr == h.ptr
              && MallocStep(FreeStep(r.heap, r.addr), next).addr == MallocStep(h, next).addr
  {
    var r := MallocStep(h, size);
    if r.addr != 0 {
      MallocFits(h, size);
      assert HeaderOf(r.addr) == h.ptr;
    }
  }

  /** Releasing to a mark taken before two mallocs rolls both back: the
      next malloc gets the address the first one got. */
  lemma ReleaseUndoesMallocs(h: Heap, a: nat, b: nat, next: nat)
    requires HeapOk(h) && a < Modulus && b < Modulus && next < Modulus && h.top + 3 < Modulus
    requires MarkOf(h).Some?
    ensures var r1 := MallocStep(h, a);
            var r2 := MallocStep(r1.heap, b);
            var back := ReleaseStep(r2.heap, MarkOf(h).value);
            && back.ptr == h.ptr
            && MallocStep(back, next).addr == MallocStep(h, next).addr
  {
    var r1 := MallocStep(h, a);
    var r2 := MallocStep(r1.heap, b);
    MallocFits(h, a);
    MallocFits(r1.heap, b);
  }

  /** A fresh arena of size bytes at a non-NULL bottom serves a first
      request exactly when it and its header fit. */
  lemma FirstMalloc(h: Heap, bottom: nat, arena: nat, size: nat)
    requires HeapOk(h) && bottom + arena < Modulus && size < Modulus
    ensures MallocStep(InitStep(h, bottom, arena), size).addr != 0 <==> bottom != 0 && size + 4 <= arena
  {
  }

  /** After malloc_dispose every operation fails or does nothing. */
  lemma DisposedIsInert(h: Heap, size: nat, oaddr: nat, p: nat)
    requires HeapOk(h) && size < Modulus && oaddr < Modulus && p < Modulus
    ensures var d := DisposeStep(h);
            && MallocStep(d, size) == Alloc(0, d)
            && ReallocStep(d, oaddr, size) == Alloc(0, d)
            && FreeStep(d, oaddr) == d && MarkOf(d) == None && ReleaseStep(d, p) == d
  {
  }

  /** realloc of NULL is malloc, and free of NULL does nothing. */
  lemma NullArguments(h: Heap, size: nat)
    requires HeapOk(h) && size < Modulus
    ensures ReallocStep(h, 0, size) == MallocStep(h, size)
    ensures FreeStep(h, 0) == h
  {
  }

  /** realloc of the newest block keeps its address, rewrites its header
      with the new size, moves the cursor to the block's new end and leaves
      every byte outside the header alone. */
  lemma ReallocInPlace(h: Heap, oaddr: nat, size: nat)
    requires ReallocArg(h, oaddr, size) && h.ptr != 0 && oaddr != 0 && oaddr == h.last
    ensures var r := ReallocStep(h, oaddr, size);
            && (r.addr == 0 <==> oaddr + size > h.top)
            && (r.addr != 0 ==>
                  && r.addr == oaddr && r.heap.ptr == oaddr + size
                  && Load32(r.heap.mem, HeaderOf(oaddr)) == Some(size)
                  && forall x :: !InWord(HeaderOf(oaddr), x) ==> Get(r.heap.mem, x) == Get(h.mem, x))
  {
    LoadStore(h.mem, HeaderOf(oaddr), size);
  }

  /** A store leaves every byte outside its word as it was. */
  lemma StoreElsewhere(mem: map<nat, Byte>, a: nat, v: nat)
    requires a + 4 <= Modulus && v < Modulus
    ensures forall x: nat :: !(a <= x < a + 4) ==> Get(Store32(mem, a, v), x) == Get(mem, x)
  {
  }

  /** ... and an int stored in another word. */
  lemma LoadElsewhere(mem: map<nat, Byte>, a: nat, v: nat, b: nat)
    requires a + 4 <= Modulus && b + 4 <= Modulus && (a + 4 <= b || b + 4 <= a) && v < Modulus
    ensures Load32(Store32(mem, a, v), b) == Load32(mem, b)
  {
  }

  /** The n bytes at dst hold what the n bytes at src held. */
  predicate Carries(after: map<nat, Byte>, dst: nat, before: map<nat, Byte>, src: nat, n: nat) {
    forall x: nat :: dst <= x < dst + n ==> Get(after, x) == Get(before, src + (x - dst))
  }

  /** The copy of a moved block: src's bytes below a header stored at p
      arrive unchanged in the block right after that header. */
  lemma CopyPastHeader(mem: map<nat, Byte>, p: nat, v: nat, src: nat, n: nat, copied: map<nat, Byte>)
    requires src + n <= p && p + 4 + n <= Modulus && v < Modulus
    requires copied == Copy(Store32(mem, p, v), p + 4, src, n)
    ensures Carries(copied, p + 4, mem, src, n)
  {
    StoreElsewhere(mem, p, v);
    CopyEffect(Store32(mem, p, v), p + 4, src, n);
  }

  /** realloc of an older block that lies wholly below the cursor moves it
      to a new block holding the first min(old size, new size) bytes of the
      old contents. */
  lemma ReallocMoves(h: Heap, oaddr: nat, size: nat)
    requires ReallocArg(h, oaddr, size) && h.ptr != 0 && oaddr >= 4 && oaddr != h.last
    requires h.top + 3 < Modulus
    requires oaddr + Load32(h.mem, HeaderOf(oaddr)).value <= h.ptr
    ensures var r := ReallocStep(h, oaddr, size);
            var n := Min(Load32(h.mem, HeaderOf(oaddr)).value, size);
            && r.addr == MallocStep(h, size).addr
            && (r.addr != 0 ==> Carries(r.heap.mem, r.addr, h.mem, oaddr, n))
  {
    var m := MallocStep(h, size);
    if m.addr != 0 {
      assert Known32(m.heap.mem, HeaderOf(oaddr));
      assert ReallocStep(h, oaddr, size) == MoveContents(m, oaddr, size);
      MovedContents(h, oaddr, size);
    } else {
      assert ReallocStep(h, oaddr, size) == m;
    }
  }

  /** The success case of ReallocMoves. */
  lemma MovedContents(h: Heap, oaddr: nat, size: nat)
    requires ReallocArg(h, oaddr, size) && h.ptr != 0 && oaddr >= 4 && oaddr != h.last
    requires h.top + 3 < Modulus && MallocStep(h, size).addr != 0
    requires oaddr + Load32(h.mem, HeaderOf(oaddr)).value <= h.ptr
    ensures Known32(MallocStep(h, size).heap.mem, HeaderOf(oaddr))
    ensures var r := MoveContents(MallocStep(h, size), oaddr, size);
            var n := Min(Load32(h.mem, HeaderOf(oaddr)).value, size);
            r.addr == h.ptr + 4 && Carries(r.heap.mem, r.addr, h.mem, oaddr, n)
  {
    var n := Min(Load32(h.mem, HeaderOf(oaddr)).value, size);
    MovedBlock(h, oaddr, size);
    CopyPastHeader(h.mem, h.ptr, size, oaddr, n, Copy(Store32(h.mem, h.ptr, size), h.ptr + 4, oaddr, n));
  }

  /** The moved block sits right after the new header and receives the copy. */
  lemma MovedBlock(h: Heap, oaddr: nat, size: nat)
    requires ReallocArg(h, oaddr, size) && h.ptr != 0 && oaddr >= 4 && oaddr != h.last
    requires MallocStep(h, size).addr != 0
    requires oaddr <= h.ptr
    ensures Known32(MallocStep(h, size).heap.mem, HeaderOf(oaddr))
    ensures var n := Min(Load32(h.mem, HeaderOf(oaddr)).value, size);
            var r := MoveContents(MallocStep(h, size), oaddr, size);
            r.addr == h.ptr + 4 && r.heap.mem == Copy(Store32(h.mem, h.ptr, size), h.ptr + 4, oaddr, n)
  {
    var hdr := HeaderOf(oaddr);
    assert hdr == oaddr - 4;
    LoadElsewhere(h.mem, h.ptr, size, hdr);
  }

  /** Every step keeps the globals 32-bit pointers. */
  lemma StepsKeepHeapOk(h: Heap, oaddr: nat, size: nat)
    requires ReallocArg(h, oaddr, size)
    ensures HeapOk(MallocStep(h, size).heap)
    ensures HeapOk(ReallocStep(h, oaddr, size).heap)
    ensures HeapOk(DisposeStep(h))
  {
  }

  // ---------------------------------------------- as written, refuted

  /** free(NULL) and realloc(NULL, n) before any malloc: NULL equals
      last_alloc, so free moves the cursor four bytes below address 0 and
      realloc returns NULL with the cursor at n. The corrected functions
      leave the arena alone and allocate. */
  lemma NullMatchesLastAlloc()
    ensures var h := InitStep(Heap(0, 0, 0, map[]), 0x10000, 0x1000);
            && FreeAsWritten(h, 0).ptr == 0xFFFF_FFFC
            && ReallocAsWritten(h, 0, 16).addr == 0
            && ReallocAsWritten(h, 0, 16).heap.ptr == 16
            && FreeStep(h, 0) == h
            && ReallocStep(h, 0, 16).addr == 0x10004
  {
  }

  /** A request of 0xFFFFFFFC bytes passes malloc's wrapped bound check and
      leaves the cursor where it was, so the next malloc hands out the same
      block again. The corrected malloc refuses it. */
  lemma MallocWrapsAround()
    ensures var h := InitStep(Heap(0, 0, 0, map[]), 0x1000, 0x1000);
            var r1 := MallocAsWritten(h, 0xFFFF_FFFC);
            var r2 := MallocAsWritten(r1.heap, 4);
            && r1.addr == 0x1004 && r2.addr == 0x1004
            && MallocStep(h, 0xFFFF_FFFC).addr == 0
  {
    var h := InitStep(Heap(0, 0, 0, map[]), 0x1000, 0x1000);
    assert h.ptr == 0x1000 && h.top == 0x2000;
    assert Wrap(0x1000 + 0xFFFF_FFFC + 4) == 0x1000;
    assert RoundUp4(0x1000) == 0x1000;
    var r1 := MallocAsWritten(h, 0xFFFF_FFFC);
    assert r1.addr == 0x1004 && r1.heap.ptr == 0x1000 && r1.heap.top == 0x2000;
  }

  /** realloc's in-place bound check `oaddr + size > malloc_top` is a
      32-bit pointer sum too: growing the newest block by 0xFFFFFFFF bytes
      wraps below malloc_top, so realloc succeeds and moves the cursor back
      below the block. The corrected realloc refuses it. */
  lemma ReallocWrapsAround()
    ensures var h := InitStep(Heap(0, 0, 0, map[]), 0x1000, 0x1000);
            var p := MallocStep(h, 0);
            var r := ReallocAsWritten(p.heap, p.addr, 0xFFFF_FFFF);
            && p.addr == 0x1004 && r.addr == 0x1004 && r.heap.ptr == 0x1003
            && ReallocStep(p.heap, p.addr, 0xFFFF_FFFF).addr == 0
  {
    var h := InitStep(Heap(0, 0, 0, map[]), 0x1000, 0x1000);
    assert h.ptr == 0x1000 && h.top == 0x2000;
    assert Wrap(0x1000 + 0 + 4) == 0x1004 && Wrap(0x1000 + 4) == 0x1004;
    assert RoundUp4(0x1004) == 0x1004;
    var p := MallocStep(h, 0);
    assert p.addr == 0x1004 && p.heap.ptr == 0x1004 && p.heap.last == 0x1004 && p.heap.top == 0x2000;
    assert Wrap(0x1004 + 0xFFFF_FFFF) == 0x1003;
  }

  /** The arena [0x1000, 0x1020) after a = malloc(12), b = malloc(4) and
      a[8] = 0x5A. */
  function OverrunHeap(): Heap {
    Heap(0x1018, 0x1020, 0x1014,
         Store32(Store32(map[], 0x1000, 12), 0x1010, 4)[0x100C := 0x5A])
  }

  lemma OverrunHeapReached()
    ensures var h0 := InitStep(Heap(0, 0, 0, map[]), 0x1000, 0x20);
            var a := MallocStep(h0, 12);
            var b := MallocStep(a.heap, 4);
            && a.addr == 0x1004 && b.addr == 0x1014
            && b.heap.(mem := b.heap.mem[0x100C := 0x5A]) == OverrunHeap()
  {
    var h0 := InitStep(Heap(0, 0, 0, map[]), 0x1000, 0x20);
    assert h0.ptr == 0x1000 && h0.top == 0x1020 && h0.mem == map[];
    assert RoundUp4(0x1010) == 0x1010;
    assert RoundUp4(0x1018) == 0x1018;
  }

  /** Moving a 12-byte block into a 4-byte one copies all 12 bytes: in
      OverrunHeap, realloc(a, 4) writes a[8] to 0x1024, past malloc_top.
      The corrected realloc copies 4 bytes and leaves 0x1024 alone. */
  lemma ReallocOverrunsArena()
    ensures OverrunHeap().top == 0x1020
    ensures Get(ReallocAsWritten(OverrunHeap(), 0x1004, 4).heap.mem, 0x1024) == Some(0x5A)
    ensures Get(ReallocStep(OverrunHeap(), 0x1004, 4).heap.mem, 0x1024) == None
  {
    var h := OverrunHeap();
    LoadStore(map[], 0x1000, 12);
    LoadStore(Store32(map[], 0x1000, 12), 0x1010, 4);
    assert HeaderOf(0x1004) == 0x1000;
    assert Load32(h.mem, 0x1000) == Some(12);
    assert 0x1024 !in h.mem;
    assert RoundUp4(0x1020) == 0x1020;
    var w := MallocAsWritten(h, 4);
    assert w.addr == 0x101C;
    assert w.heap.mem == Store32(h.mem, 0x1018, 4);
    LoadStore(h.mem, 0x1018, 4);
    assert Load32(w.heap.mem, 0x1000) == Some(12);
    assert Get(w.heap.mem, 0x100C) == Some(0x5A);
    assert 0x1024 !in w.heap.mem;
    CopyEffect(w.heap.mem, 0x101C, 0x1004, 12);
    CopyEffect(w.heap.mem, 0x101C, 0x1004, 4);
    assert MallocStep(h, 4) == w;
  }

  // --------------------------------------------------------------- state

  /** The allocator's globals, changed in place by its operations. */
  class Arena {
    var ptr: nat                 // malloc_ptr
    var top: nat                 // malloc_top
    var last: nat                // last_alloc
    var mem: map<nat, Byte>      // the memory the blocks live in

    function State(): Heap
      reads this
    {
      Heap(ptr, top, last, mem)
    }

    /** The static initialisers: all three pointers NULL. */
    constructor (initial: map<nat, Byte>)
      ensures State() == Heap(0, 0, 0, initial)
    {
      ptr, top, last, mem := 0, 0, 0, initial;
    }

    method Init(bottom: nat, size: nat)
      requires HeapOk(State()) && bottom < Modulus && size < Modulus
      modifies this
      ensures State() == InitStep(old(State()), bottom, size)
    {
      ptr := bottom;
      top := Wrap(bottom + size);
    }

    method Dispose()
      modifies this
      ensures State() == DisposeStep(old(State()))
    {
      ptr := 0;
      last := 0;
    }

    method Malloc(size: nat) returns (caddr: nat)
      requires HeapOk(State()) && size < Modulus
      modifies this
      ensures var r := MallocStep(old(State()), size);
              caddr == r.addr && State() == r.heap
    {
      if ptr == 0 {
        return 0;
      }
      if ptr + size + 4 > top {
        return 0;
      }
      mem := Store32(mem, ptr, size);
      caddr := ptr + 4;
      ptr := ptr + size + 4;
      last := caddr;
      ptr := RoundUp4(ptr);
    }

    method Realloc(oaddr: nat, size: nat) returns (caddr: nat)
      requires ReallocArg(State(), oaddr, size)
      modifies this
      ensures var r := ReallocStep(old(State()), oaddr, size);
              caddr == r.addr && State() == r.heap
    {
      if ptr == 0 {
        return 0;
      }
      if oaddr != 0 && oaddr == last {
        if oaddr + size > top {
          return 0;
        }
        mem := Store32(mem, HeaderOf(oaddr), size);
        ptr := oaddr + size;
        return oaddr;
      }
      caddr := Malloc(size);
      if caddr != 0 && oaddr != 0 {
        var oldSize := Load32(mem, HeaderOf(oaddr)).value;
        mem := Copy(mem, caddr, oaddr, Min(oldSize, size));
      }
    }

    method Free(m: nat)
      requires HeapOk(State())
      modifies this
      ensures State() == FreeStep(old(State()), m)
    {
      if ptr == 0 {
        return;
      }
      if m != 0 && m == last {
        ptr := HeaderOf(last);
      }
    }

    method Mark() returns (mark: Option<nat>)
      ensures mark == MarkOf(State())
    {
      if ptr == 0 {
        return None;
      }
      mark := Some(ptr);
    }

    method Release(p: nat)
      requires HeapOk(State()) && p < Modulus
      modifies this
      ensures State() == ReleaseStep(old(State()), p)
    {
      if ptr == 0 {
        return;
      }
      ptr := p;
    }
  }
}
