/**
 * Three places where src/cache.c does not do what it evidently means to,
 * modelled as written, each with the input that shows the difference.  The
 * rest of the project uses the corrected behaviour (AddressDecoder.Tag,
 * Simulator.CacheLevel.SetPush, Simulator.CacheLevel.SetPopIndex).
 */
module AsWritten {
  import opened Wrappers
  import opened AddressDecoder
  import opened Lru

  // ---------------------------------------------------------------------
  // Tag shift (src/cache.c:251, 289, 328)
  // ---------------------------------------------------------------------

  /**
   * The tag as the access functions compute it: the address shifted right by
   * the NUMBER of sets plus the offset width, instead of the index width plus
   * the offset width.  For shifts of 32 or more C leaves the result undefined;
   * the lemma below stays below that.
   */
  function TagAsWritten(numSets: nat, offsetBits: nat, addr: nat): nat
  {
    ShiftRight(addr, numSets + offsetBits)
  }

  /**
   * For every geometry whose as-written shift stays below 32, address 0 and
   * the first address of the next block mapping to set 0 are different blocks
   * with different tags, yet their as-written tags are equal: after block 0 is
   * loaded, the other block is reported as a hit.
   */
  lemma TagAsWrittenAliases(g: Geometry, assoc: nat)
    requires Pow2(g.indexBits) + g.offsetBits < AddressBits
    ensures var a := Pow2(g.offsetBits + g.indexBits);
      var numSets := Pow2(g.indexBits);
      && a < 0x1_0000_0000
      && Index(g, 0) == 0 && Index(g, a) == 0
      && Tag(g, 0) == 0 && Tag(g, a) == 1
      && TagAsWritten(numSets, g.offsetBits, 0) == 0 && TagAsWritten(numSets, g.offsetBits, a) == 0
      && Access([TagAsWritten(numSets, g.offsetBits, 0)], TagAsWritten(numSets, g.offsetBits, a), assoc).hit
  {
    var o, i := g.offsetBits, g.indexBits;
    var a := Pow2(o + i);
    NextSetBlockDecodes(o, i);
    AsWrittenShiftPassesBlock(o, i);
    DivUnique(0, Pow2(o), 0, 0);
    DivUnique(0, Pow2(i), 0, 0);
    DivUnique(0, a, 0, 0);
    DivUnique(0, Pow2(Pow2(i) + o), 0, 0);
    assert Find([0], 0) == Some(0);
  }

  /** The block after the first `Pow2(indexBits)` blocks sits in set 0 with tag 1. */
  lemma NextSetBlockDecodes(o: nat, i: nat)
    ensures Pow2(o + i) / Pow2(o) % Pow2(i) == 0
    ensures Pow2(o + i) / Pow2(o + i) == 1
  {
    Pow2Add(o, i);
    var a, po, pi := Pow2(o + i), Pow2(o), Pow2(i);
    assert a == pi * po;
    DivUnique(a, po, pi, 0);
    DivUnique(pi, pi, 1, 0);
    DivUnique(a, a, 1, 0);
  }

  /** A shift by the number of sets plus the offset width moves that block out entirely. */
  lemma AsWrittenShiftPassesBlock(o: nat, i: nat)
    requires Pow2(i) + o < AddressBits
    ensures Pow2(o + i) < 0x1_0000_0000
    ensures Pow2(o + i) / Pow2(Pow2(i) + o) == 0
  {
    var a := Pow2(o + i);
    Pow2Exceeds(i);
    assert Pow2(o + i + 1) == 2 * a;
    Pow2Monotone(o + i + 1, Pow2(i) + o);
    Pow2Monotone(o + i + 1, AddressBits);
    Pow2Of32();
    DivUnique(a, Pow2(Pow2(i) + o), 0, a);
  }

  // ---------------------------------------------------------------------
  // setPopIndex bound check (src/cache.c:116-149)
  // ---------------------------------------------------------------------

  datatype PopOutcome = Rejected | Removed(tag: nat, rest: seq<nat>) | NullDeref

  /**
   * setPopIndex as written, over the set's lines in order: the guard refuses
   * only `index > size`, then the branches for a one-line set, the front, the
   * back and the middle follow.  A step through NULL is NullDeref.
   */
  function SetPopIndexAsWritten(s: seq<nat>, index: nat): PopOutcome
  {
    if index > |s| then Rejected
    else if |s| == 1 then Removed(s[0], [])
    else if |s| == 0 then NullDeref
    else if index == 0 then Removed(s[0], s[1..])
    else if index == |s| - 1 then Removed(s[index], s[..index])
    else if index == |s| then NullDeref
    else Removed(s[index], s[..index] + s[index + 1..])
  }

  /**
   * The guard lets `index == size` through: a one-line set asked for position
   * 1 loses its only line, and an empty set or a walk past the back
   * dereferences NULL.
   */
  lemma PopIndexGuardAdmitsSize(x: nat, y: nat)
    ensures SetPopIndexAsWritten([x], 1) == Removed(x, [])
    ensures SetPopIndexAsWritten([], 0) == NullDeref
    ensures SetPopIndexAsWritten([x, y, x], 3) == NullDeref
  {
  }

  /**
   * On every position inside the set, which is all the access loops ever pass,
   * the as-written function removes exactly the requested line.
   */
  lemma PopIndexAsWrittenInRange(s: seq<nat>, index: nat)
    requires index < |s|
    ensures SetPopIndexAsWritten(s, index) == Removed(s[index], RemoveAt(s, index))
  {
    if |s| == 1 {
      assert RemoveAt(s, index) == [];
    } else if index == 0 {
      assert RemoveAt(s, 0) == s[1..];
    } else if index == |s| - 1 {
      assert RemoveAt(s, index) == s[..index];
    }
  }

  // ---------------------------------------------------------------------
  // setPush linking (src/cache.c:87-100)
  // ---------------------------------------------------------------------

  /** A heap block of the source's doubly linked set. */
  datatype Block = Block(prev: Option<nat>, next: Option<nat>, val: nat)

  /** A set as the source stores it: size, front and back links, and the blocks by address. */
  datatype LinkedSet = LinkedSet(size: nat, front: Option<nat>, back: Option<nat>, heap: map<nat, Block>)

  /** createBlock: a fresh, unlinked block at address `id`. */
  function CreateBlock(s: LinkedSet, id: nat, val: nat): LinkedSet
  {
    s.(heap := s.heap[id := Block(None, None, val)])
  }

  /** setPush as written: on a non-empty set only the new block's prev and the set's back are set. */
  function SetPushAsWritten(s: LinkedSet, id: nat): LinkedSet
    requires id in s.heap
  {
    if s.size != 0 then
      s.(heap := s.heap[id := s.heap[id].(prev := s.back)], back := Some(id), size := s.size + 1)
    else
      s.(front := Some(id), back := Some(id), size := s.size + 1)
  }

  /**
   * The block addresses the access loop dereferences in `n` iterations starting at
   * `p` and following `next`; a None in the result is a NULL dereference.
   */
  function Scan(s: LinkedSet, p: Option<nat>, n: nat): seq<Option<nat>>
    decreases n
  {
    if n == 0 then []
    else [p] + Scan(s, if p.Some? && p.value in s.heap then s.heap[p.value].next else None, n - 1)
  }

  /**
   * Pushing two blocks onto an empty set leaves the front block's next NULL:
   * the set claims two lines, but the access loop's second iteration
   * dereferences NULL, whatever the tags.
   */
  lemma PushAsWrittenBreaksScan(x: nat, y: nat)
    ensures var s0 := LinkedSet(0, None, None, map[]);
      var s1 := SetPushAsWritten(CreateBlock(s0, 1, x), 1);
      var s2 := SetPushAsWritten(CreateBlock(s1, 2, y), 2);
      && s2.size == 2 && s2.front == Some(1) && s2.back == Some(2)
      && Scan(s2, s2.front, s2.size) == [Some(1), None]
  {
    var s0 := LinkedSet(0, None, None, map[]);
    var s1 := SetPushAsWritten(CreateBlock(s0, 1, x), 1);
    var s2 := SetPushAsWritten(CreateBlock(s1, 2, y), 2);
    assert s2.heap[1].next == None;
    assert Scan(s2, None, 1) == [None];
  }
}
