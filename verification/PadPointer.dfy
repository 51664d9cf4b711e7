/**
 padPointer of memory/memoryPool.cc and the size classes of HashBucket in
 include/memory/memoryPool.h, in the wrap-around arithmetic of a 64-bit size_t.
 */
module PadPointer {

  const SIZE_T := 0x1_0000_0000_0000_0000
  const MEMORY_POOL_NUM := 64
  const SLOT_BASE_SIZE := 8
  const MAX_SLOT_SIZE := 512

  // (align - p) % align, the subtraction modulo 2^64.
  function Pad(p: nat, align: nat): (pad: nat)
    requires 0 < align < SIZE_T && p < SIZE_T
    ensures pad < align
  {
    ((align - p) % SIZE_T) % align
  }

  function Pow2(k: nat): nat {
    if k == 0 then 1 else 2 * Pow2(k - 1)
  }

  // ---------------------------------------------------------------- what padding achieves

  lemma ModSum(x: nat, m: nat, k: nat)
    requires m > 0
    ensures (x % m + k) % m == (x + k) % m
  {
    var q := x / m;
    assert x + k == (x % m + k) + q * m;
    ModShift(x % m + k, q, m);
  }

  lemma ModShift(x: nat, q: nat, m: nat)
    requires m > 0
    ensures (x + q * m) % m == x % m
  {
    var a, b := x % m, x / m;
    assert x + q * m == (b + q) * m + a;
    DivUnique(b + q, a, m);
  }

  lemma MulGrows(d: int, m: int)
    requires m >= 0
    ensures d >= 1 ==> d * m >= m
    ensures d <= -1 ==> d * m <= -m
  {
    if d >= 1 {
      assert d * m == m + (d - 1) * m;
    } else if d <= -1 {
      assert d * m == -m + (d + 1) * m;
    }
  }

  // Quotient and remainder are what the division theorem says, and nothing else.
  lemma DivUnique(q: int, r: nat, m: nat)
    requires r < m
    ensures (q * m + r) % m == r && (q * m + r) / m == q
  {
    var x: int := q * m + r;
    Difference(x / m, x % m, q, r, m);
  }

  lemma Difference(q: int, r: int, q': int, r': int, m: int)
    requires 0 <= r < m && 0 <= r' < m && q * m + r == q' * m + r'
    ensures q == q' && r == r'
  {
    assert (q - q') * m == q * m - q' * m;
    MulGrows(q - q', m);
  }

  // The padded address is a multiple of align exactly when the subtraction did not wrap,
  // or align divides 2^64.
  lemma PadAlignsIff(p: nat, align: nat)
    requires 0 < align < SIZE_T && p < SIZE_T
    ensures (p + Pad(p, align)) % align == 0 <==> p <= align || SIZE_T % align == 0
  {
    if p <= align {
      assert (align - p) % SIZE_T == align - p;
      ModSum(align - p, align, p);
      assert align % align == 0;
    } else {
      var wrapped := align - p + SIZE_T;
      assert (align - p) % SIZE_T == wrapped;
      ModSum(wrapped, align, p);
      assert wrapped + p == SIZE_T + 1 * align;
      ModShift(SIZE_T, 1, align);
    }
  }

  // Whatever the slot size, an address that was a multiple of 8 stays one.
  lemma PadKeepsWords(p: nat, align: nat)
    requires 0 < align < SIZE_T && p < SIZE_T && p % 8 == 0 && align % 8 == 0
    ensures Pad(p, align) % 8 == 0
  {
    var wrapped := Wrapped(p, align);
    WordMod(wrapped, align);
  }

  lemma Wrapped(p: nat, align: nat) returns (wrapped: nat)
    requires p < SIZE_T && align < SIZE_T && p % 8 == 0 && align % 8 == 0
    ensures wrapped == (align - p) % SIZE_T && wrapped % 8 == 0
  {
    wrapped := if p <= align then align - p else align - p + SIZE_T;
  }

  lemma WordMod(x: nat, align: nat)
    requires align > 0 && x % 8 == 0 && align % 8 == 0
    ensures x % align % 8 == 0
  {
    var w, m := x / 8, align / 8;
    assert x == 8 * w && align == 8 * m;
    ScaledMod(w, m);
  }

  lemma ScaledMod(x: nat, m: nat)
    requires m > 0
    ensures (8 * x) % (8 * m) == 8 * (x % m)
  {
    Scale(x / m, x % m, m);
    DivUnique(x / m, 8 * (x % m), 8 * m);
  }

  lemma Scale(q: nat, r: nat, m: nat)
    ensures 8 * (q * m + r) == q * (8 * m) + 8 * r
  {}

  // ---------------------------------------------------------------- which sizes divide 2^64

  lemma {:induction false} DividesPow2(a: nat, q: nat, k: nat)
    requires a * q == Pow2(k)
    ensures exists j :: 0 <= j <= k && a == Pow2(j)
    decreases k
  {
    if k == 0 {
      assert a == Pow2(0) by { OneProduct(a, q); }
    } else if a % 2 == 0 {
      HalfProduct(a, q, Pow2(k - 1));
      DividesPow2(a / 2, q, k - 1);
      var j :| 0 <= j <= k - 1 && a / 2 == Pow2(j);
      assert a == Pow2(j + 1);
    } else {
      OddProduct(a, q);
      HalfProduct(q, a, Pow2(k - 1));
      assert a * (q / 2) == (q / 2) * a;
      DividesPow2(a, q / 2, k - 1);
    }
  }

  lemma OneProduct(a: nat, q: nat)
    requires a * q == 1
    ensures a == 1
  {
    MulGrows(q, a);
  }

  lemma HalfProduct(a: nat, q: nat, half: nat)
    requires a % 2 == 0 && a * q == 2 * half
    ensures a / 2 * q == half
  {
    assert a == 2 * (a / 2);
    assert 2 * (a / 2) * q == 2 * (a / 2 * q);
  }

  lemma OddProduct(a: nat, q: nat)
    requires a % 2 == 1 && a * q % 2 == 0
    ensures q % 2 == 0
  {
    var b := a / 2;
    assert a == 2 * b + 1;
    assert (2 * b + 1) * q == 2 * (b * q) + q;
  }

  lemma {:induction false} Pow2Divides(j: nat, k: nat)
    requires j <= k
    ensures Pow2(j) > 0 && Pow2(k) == Pow2(k - j) * Pow2(j)
  {
    if j > 0 {
      Pow2Divides(j - 1, k - 1);
      assert Pow2(k) == 2 * (Pow2(k - j) * Pow2(j - 1)) == Pow2(k - j) * (2 * Pow2(j - 1));
    } else {
      assert Pow2(k) == Pow2(k) * 1;
    }
  }

  lemma SizeTIsPow2()
    ensures SIZE_T == Pow2(64)
  {
    assert Pow2(8) == 256;
    Pow2Divides(8, 16);
    assert Pow2(16) == 0x1_0000;
    Pow2Divides(16, 32);
    assert Pow2(32) == 0x1_0000_0000;
    Pow2Divides(32, 64);
  }

  // So past the first slot size of the address space, padding aligns to the slot size
  // exactly when that is a power of two.
  lemma AlignsIffPowerOfTwo(p: nat, align: nat)
    requires 0 < align < p < SIZE_T
    ensures (p + Pad(p, align)) % align == 0 <==> exists j :: 0 <= j <= 64 && align == Pow2(j)
  {
    PadAlignsIff(p, align);
    SizeTIsPow2();
    if SIZE_T % align == 0 {
      var q := SIZE_T / align;
      assert align * q == Pow2(64);
      DividesPow2(align, q, 64);
    }
    if j: nat :| j <= 64 && align == Pow2(j) {
      Pow2Divides(j, 64);
      DivUnique(Pow2(64 - j), 0, align);
    }
  }

  // ---------------------------------------------------------------- size classes

  datatype Route = Null | System | FromPool(index: int)

  function SlotSize(index: int): int { (index + 1) * SLOT_BASE_SIZE }

  function PoolIndex(size: nat): int { (size + 7) / SLOT_BASE_SIZE - 1 }

  // Where useMemory(size) gets its memory.
  function UseRoute(size: nat): Route {
    if size == 0 then Null else if size > MAX_SLOT_SIZE then System else FromPool(PoolIndex(size))
  }

  // Where freeMemory(ptr, size) returns a non-null ptr.
  function FreeRoute(size: nat): Route {
    if size > MAX_SLOT_SIZE then System else FromPool(PoolIndex(size))
  }

  // A small request goes to the pool of the smallest slots that hold it, and comes back to it.
  lemma SizeClass(size: nat)
    requires size > 0
    ensures FreeRoute(size) == UseRoute(size)
    ensures UseRoute(size).FromPool? <==> size <= MAX_SLOT_SIZE
    ensures UseRoute(size).FromPool? ==>
      var i := UseRoute(size).index;
      0 <= i < MEMORY_POOL_NUM && forall j :: 0 <= j < MEMORY_POOL_NUM ==> (SlotSize(j) >= size <==> j >= i)
  {
    if size <= MAX_SLOT_SIZE {
      assert forall j :: 0 <= j < MEMORY_POOL_NUM ==> (SlotSize(j) >= size <==> j >= PoolIndex(size));
    }
  }
}
