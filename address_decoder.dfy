/**
 * Splitting a 32-bit address into offset, index and tag fields for one cache
 * level (src/cache.c, init_cache and the first lines of each *_access function).
 *
 * The source works with shifts and masks on uint32_t.  For unsigned values
 * `x >> k` is `x / 2^k` and `x & ((1 << k) - 1)` is `x % 2^k`, so the fields
 * are stated here with division and remainder by powers of two.
 */
module AddressDecoder {

  /** Width of an address in bits. */
  const AddressBits: nat := 32

  /** Addresses are unsigned 32-bit integers. */
  type Address = a: nat | a < 0x1_0000_0000

  function Pow2(n: nat): (r: nat)
    ensures r >= 1
  {
    if n == 0 then 1 else 2 * Pow2(n - 1)
  }

  predicate IsPow2(x: nat)
    decreases x
  {
    x == 1 || (x >= 2 && x % 2 == 0 && IsPow2(x / 2))
  }

  /** Exact base-2 logarithm; the source takes the floating-point log2 of a power of two. */
  function Log2(x: nat): (k: nat)
    requires IsPow2(x)
    ensures Pow2(k) == x
    decreases x
  {
    if x == 1 then 0 else 1 + Log2(x / 2)
  }

  lemma {:induction false} Log2OfPow2(k: nat)
    ensures IsPow2(Pow2(k)) && Log2(Pow2(k)) == k
  {
    if k > 0 {
      Log2OfPow2(k - 1);
      assert Pow2(k) == 2 * Pow2(k - 1);
      assert Pow2(k) / 2 == Pow2(k - 1);
    }
  }

  lemma {:induction false} Pow2Add(a: nat, b: nat)
    ensures Pow2(a + b) == Pow2(a) * Pow2(b)
    decreases a
  {
    if a > 0 {
      Pow2Add(a - 1, b);
      calc {
        Pow2(a + b);
        2 * Pow2(a - 1 + b);
        2 * (Pow2(a - 1) * Pow2(b));
        (2 * Pow2(a - 1)) * Pow2(b);
        Pow2(a) * Pow2(b);
      }
    }
  }

  /** 2^k grows faster than k, so 2^k > k. */
  lemma {:induction false} Pow2Exceeds(k: nat)
    ensures Pow2(k) > k
  {
    if k > 0 { Pow2Exceeds(k - 1); }
  }

  lemma {:induction false} Pow2Monotone(a: nat, b: nat)
    requires a <= b
    ensures Pow2(a) <= Pow2(b)
    decreases b - a
  {
    if a < b { Pow2Monotone(a, b - 1); }
  }

  lemma Pow2Of32()
    ensures Pow2(AddressBits) == 0x1_0000_0000
  {
    assert Pow2(4) == 16;
    Pow2Add(4, 4);
    assert Pow2(8) == 256;
    Pow2Add(8, 8);
    assert Pow2(16) == 0x1_0000;
    Pow2Add(16, 16);
  }

  /** Multiplication and division facts, stated once for the proofs below. */
  lemma MulMonotone(x: nat, y: nat, z: nat)
    ensures x <= y ==> x * z <= y * z
  {
    if x <= y {
      var k := y - x;
      assert y * z == x * z + k * z;
    }
  }

  lemma DivUnique(a: nat, d: nat, q: nat, r: nat)
    requires d > 0 && r < d && a == q * d + r
    ensures a / d == q && a % d == r
  {
    var q0, r0 := a / d, a % d;
    assert a == q0 * d + r0;
    assert (q0 + 1) * d == q0 * d + d;
    assert (q + 1) * d == q * d + d;
    MulMonotone(q0 + 1, q, d);
    MulMonotone(q + 1, q0, d);
  }

  lemma DivDiv(a: nat, b: nat, c: nat)
    requires b > 0 && c > 0
    ensures a / b / c == a / (b * c)
  {
    var q, r := a / b, a % b;
    var q2, r2 := q / c, q % c;
    var bc := b * c;
    assert a == q * b + r;
    assert q == q2 * c + r2;
    assert q * b == q2 * bc + r2 * b by {
      assert (q2 * c + r2) * b == (q2 * c) * b + r2 * b;
      assert (q2 * c) * b == q2 * bc;
    }
    assert r2 * b + r < bc by {
      MulMonotone(r2 + 1, c, b);
      assert (r2 + 1) * b == r2 * b + b;
    }
    DivUnique(a, bc, q2, r2 * b + r);
  }

  lemma DivBelow(a: nat, b: nat, c: nat)
    requires b > 0 && a < b * c
    ensures a / b < c
  {
    var q := a / b;
    assert q * b <= a;
    MulMonotone(c, q, b);
  }

  /** Field widths of one level: offset bits from the block size, index bits from the set count. */
  datatype Geometry = Geometry(offsetBits: nat, indexBits: nat)

  predicate ValidGeometry(g: Geometry)
  {
    g.offsetBits + g.indexBits <= AddressBits
  }

  /** Width of the tag field: what is left of 32 bits after index and offset. */
  function TagBits(g: Geometry): nat
    requires ValidGeometry(g)
  {
    AddressBits - g.offsetBits - g.indexBits
  }

  /** The geometry init_cache derives from the block size and the number of sets. */
  function MakeGeometry(blockSize: nat, numSets: nat): (g: Geometry)
    requires IsPow2(blockSize) && IsPow2(numSets)
    ensures Pow2(g.offsetBits) == blockSize && Pow2(g.indexBits) == numSets
  {
    Geometry(Log2(blockSize), Log2(numSets))
  }

  /**
   * Quotient and remainder of naturals by a positive divisor. Keeping them
   * apart from `Pow2` stops the solver unfolding `Pow2` whenever it checks
   * that a shifted or masked value is a natural number.
   */
  function Quot(a: nat, b: nat): nat
    requires b > 0
  {
    a / b
  }

  function Rem(a: nat, b: nat): nat
    requires b > 0
  {
    a % b
  }

  /** `x >> k` on unsigned values. */
  function ShiftRight(x: nat, k: nat): nat
  {
    Quot(x, Pow2(k))
  }

  /** `x & ((1 << k) - 1)`: the low `k` bits of `x`. */
  function LowBits(x: nat, k: nat): nat
  {
    Rem(x, Pow2(k))
  }

  /** Byte within the block: `addr & offset_mask`. */
  function Offset(g: Geometry, addr: nat): nat
  {
    LowBits(addr, g.offsetBits)
  }

  /** Which block of memory the address lies in: the address without its offset. */
  function BlockNumber(g: Geometry, addr: nat): nat
  {
    ShiftRight(addr, g.offsetBits)
  }

  /** Set selector: `(addr & index_mask) >> offset_size`, the index bits above the offset. */
  function Index(g: Geometry, addr: nat): nat
  {
    LowBits(BlockNumber(g, addr), g.indexBits)
  }

  /** Stored tag: the address shifted right past the offset and index fields. */
  function Tag(g: Geometry, addr: nat): nat
  {
    ShiftRight(addr, g.offsetBits + g.indexBits)
  }

  lemma TagOfBlock(g: Geometry, addr: nat)
    ensures Tag(g, addr) == BlockNumber(g, addr) / Pow2(g.indexBits)
  {
    Pow2Add(g.offsetBits, g.indexBits);
    DivDiv(addr, Pow2(g.offsetBits), Pow2(g.indexBits));
  }

  /**
   * Every field fits its width: the index selects one of the 2^indexBits sets,
   * and the tag fits in the tag field (so masking a stored tag with tag_mask
   * changes nothing).
   */
  lemma DecodeBounds(g: Geometry, addr: Address)
    requires ValidGeometry(g)
    ensures Offset(g, addr) < Pow2(g.offsetBits)
    ensures Index(g, addr) < Pow2(g.indexBits)
    ensures Tag(g, addr) < Pow2(TagBits(g))
  {
    var n, m := Pow2(g.offsetBits + g.indexBits), Pow2(TagBits(g));
    Pow2Of32();
    Pow2Add(g.offsetBits + g.indexBits, TagBits(g));
    assert g.offsetBits + g.indexBits + TagBits(g) == AddressBits;
    assert n * m == 0x1_0000_0000;
    DivBelow(addr, n, m);
  }

  /** The three fields put back together give the address again. */
  lemma Recompose(g: Geometry, addr: nat)
    ensures addr == (Tag(g, addr) * Pow2(g.indexBits) + Index(g, addr)) * Pow2(g.offsetBits) + Offset(g, addr)
  {
    var po, pi := Pow2(g.offsetBits), Pow2(g.indexBits);
    var b := addr / po;
    var t, i, o := Tag(g, addr), Index(g, addr), Offset(g, addr);
    TagOfBlock(g, addr);
    assert t == b / pi && i == b % pi && o == addr % po;
    DivMod(b, pi);
    DivMod(addr, po);
    assert b == t * pi + i;
    assert addr == b * po + o;
  }

  /**
   * Index and tag together identify the block exactly: two addresses select
   * the same set and carry the same tag if and only if they lie in the same block.
   */
  lemma SameLineIffSameBlock(g: Geometry, a: nat, b: nat)
    ensures (Index(g, a) == Index(g, b) && Tag(g, a) == Tag(g, b)) <==> BlockNumber(g, a) == BlockNumber(g, b)
  {
    TagOfBlock(g, a);
    TagOfBlock(g, b);
    var n := Pow2(g.indexBits);
    var ba, bb := BlockNumber(g, a), BlockNumber(g, b);
    if Index(g, a) == Index(g, b) && Tag(g, a) == Tag(g, b) {
      DivMod(ba, n);
      DivMod(bb, n);
    }
  }

  /** Division identity, as a lemma so its nonlinear fact stays out of the caller's context. */
  lemma DivMod(x: nat, n: nat)
    requires n > 0
    ensures x == (x / n) * n + x % n
  {
  }
}
