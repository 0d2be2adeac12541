/**
 * Small concrete runs of the model: eviction in a direct-mapped cache, a
 * repeated block that hits, and least-recently-used order in a two-way set.
 */
module Scenarios {
  import opened Wrappers
  import opened AddressDecoder
  import opened Lru
  import opened CacheModel

  /** One set, one way at both levels, 4-byte blocks, hit times 1 (L1) and 4 (L2), memory 100 cycles. */
  function DirectMapped(): Config
  {
    Config(1, 1, 1, 1, 1, 1, 1, 1, 4, 4, 100)
  }

  lemma DirectMappedParams()
    ensures ValidConfig(DirectMapped())
    ensures var p := Derive(DirectMapped());
      && p.icache == LevelParams(Geometry(2, 0), 1, 1)
      && p.l2 == LevelParams(Geometry(2, 0), 1, 4)
      && p.memspeed == 100
  {
    assert IsPow2(4) by { assert IsPow2(2); }
    assert Log2(4) == 2 by { assert Log2(2) == 1; }
  }

  /** The set-level steps of the direct-mapped runs. */
  lemma DirectMappedSteps()
    ensures Access([], 0, 1) == SetAccess([0], false)
    ensures Access([0], 4, 1) == SetAccess([4], false)
    ensures Access([4], 0, 1) == SetAccess([0], false)
    ensures Access([0], 0, 1) == SetAccess([0], true)
  {
    assert Find([0], 4) == None && Find([4], 0) == None;
    assert Evict([0]) == [] && Evict([4]) == [];
  }

  lemma DirectMappedDecode(addr: Address)
    ensures Index(Geometry(2, 0), addr) == 0 && Tag(Geometry(2, 0), addr) == addr / 4
  {
    assert Pow2(2) == 4;
  }

  /** A one-way set that does not hold the tag ends up holding only that tag. */
  lemma OneWayMiss(s: seq<nat>, tag: nat)
    requires |s| <= 1 && tag !in s
    ensures Access(s, tag, 1) == SetAccess([tag], false)
  {
    assert Find(s, tag) == None;
  }

  /**
   * In the direct-mapped configuration, fetching a block that neither the I$
   * nor the L2 holds costs 1 + 4 + 100 cycles, leaves that block as the only
   * line of both, and does not touch the D$.
   */
  lemma DirectMappedColdFetch(c: Caches, addr: Address)
    requires |c.icache.sets| == 1 && |c.dcache.sets| == 1 && |c.l2.sets| == 1
    requires |c.icache.sets[0]| <= 1 && |c.l2.sets[0]| <= 1
    requires addr / 4 !in c.icache.sets[0] && addr / 4 !in c.l2.sets[0]
    ensures var o := L1Access(Derive(DirectMapped()), Instruction, c, addr);
      && o.latency == 105 && o.caches.dcache == c.dcache
      && o.caches.icache.sets == [[addr / 4]] && o.caches.l2.sets == [[addr / 4]]
  {
    DirectMappedParams();
    DirectMappedDecode(addr);
    OneWayMiss(c.icache.sets[0], addr / 4);
    OneWayMiss(c.l2.sets[0], addr / 4);
  }

  /**
   * Addresses 0x00, 0x10, 0x00 in a one-line I$ and a one-line L2: the two
   * blocks keep evicting each other, so every access pays 1 + 4 + 100 cycles.
   */
  lemma ConflictingBlocksAlwaysMiss()
    ensures ValidConfig(DirectMapped())
    ensures var p := Derive(DirectMapped());
      var reqs := [Request(Instruction, 0x00), Request(Instruction, 0x10), Request(Instruction, 0x00)];
      Run(p, Initial(p), reqs).latencies == [105, 105, 105]
  {
    DirectMappedParams();
    var p := Derive(DirectMapped());
    var c0 := Initial(p);
    assert c0.icache.sets == [[]] && c0.dcache.sets == [[]] && c0.l2.sets == [[]];
    DirectMappedColdFetch(c0, 0x00);
    var c1 := L1Access(p, Instruction, c0, 0x00).caches;
    DirectMappedColdFetch(c1, 0x10);
    var c2 := L1Access(p, Instruction, c1, 0x10).caches;
    DirectMappedColdFetch(c2, 0x00);
    var reqs := [Request(Instruction, 0x00), Request(Instruction, 0x10), Request(Instruction, 0x00)];
    assert reqs[1..] == [Request(Instruction, 0x10), Request(Instruction, 0x00)];
    assert reqs[1..][1..] == [Request(Instruction, 0x00)];
    assert Run(p, c2, reqs[1..][1..]).latencies == [105];
    assert Run(p, c1, reqs[1..]).latencies == [105, 105];
  }

  /** Address 0x00 twice: the second access is a pure hit; one miss out of two references. */
  lemma RepeatedBlockHits()
    ensures ValidConfig(DirectMapped())
    ensures var p := Derive(DirectMapped());
      var t := Run(p, Initial(p), [Request(Instruction, 0x00), Request(Instruction, 0x00)]);
      t.latencies == [105, 1] && t.caches.icache.misses == 1 && t.caches.icache.refs == 2
  {
    DirectMappedParams();
    var p := Derive(DirectMapped());
    DirectMappedDecode(0x00);
    DirectMappedSteps();
    var c0 := Initial(p);
    assert c0.icache.sets == [[]] && c0.l2.sets == [[]];
    var o1 := L1Access(p, Instruction, c0, 0x00);
    assert o1.latency == 105 && o1.caches.icache.sets == [[0]];
    var o2 := L1Access(p, Instruction, o1.caches, 0x00);
    assert o2.latency == 1 && o2.caches.icache.misses == 1 && o2.caches.icache.refs == 2;
    var reqs := [Request(Instruction, 0x00), Request(Instruction, 0x00)];
    assert reqs[1..] == [Request(Instruction, 0x00)];
  }

  /**
   * A two-way set receiving tags A, B, A, C: the fourth access misses and
   * evicts B, not A, because A was used more recently.
   */
  lemma TwoWayEvictsLeastRecent(a: nat, b: nat, c: nat)
    requires a != b && b != c && a != c
    ensures Access([a, b], a, 2) == SetAccess([b, a], true)
    ensures Access([b, a], c, 2) == SetAccess([a, c], false)
    ensures Replay([a, b, a, c], 2) == [a, c]
  {
    TwoWayFrontHit(a, b);
    TwoWayMiss([b, a], c);
    assert [b, a][1..] == [a];
    TwoWayReplayABA(a, b);
    ReplaySnoc([a, b, a], c, 2);
    assert [a, b, a] + [c] == [a, b, a, c];
  }

  /** Tags A, B, A in an empty two-way set leave B least recent and A most recent. */
  lemma TwoWayReplayABA(a: nat, b: nat)
    requires a != b
    ensures Replay([a, b, a], 2) == [b, a]
  {
    TwoWayMiss([], a);
    TwoWayMiss([a], b);
    TwoWayFrontHit(a, b);
    ReplaySnoc([], a, 2);
    assert Replay([a], 2) == [a] by { assert [] + [a] == [a]; }
    ReplaySnoc([a], b, 2);
    assert Replay([a, b], 2) == [a, b] by { assert [a] + [b] == [a, b]; }
    ReplaySnoc([a, b], a, 2);
    assert [a, b] + [a] == [a, b, a];
  }

  /** A hit on the front line of a two-way set moves it to the back. */
  lemma TwoWayFrontHit(a: nat, b: nat)
    ensures Access([a, b], a, 2) == SetAccess([b, a], true)
  {
    assert Find([a, b], a) == Some(0);
    assert RemoveAt([a, b], 0) == [b];
    assert Touch([a, b], 0) == [b, a];
  }

  /** A miss in a two-way set evicts the front line only when both ways are taken. */
  lemma TwoWayMiss(s: seq<nat>, x: nat)
    requires |s| <= 2 && x !in s
    ensures Access(s, x, 2) == SetAccess((if |s| == 2 then s[1..] else s) + [x], false)
  {
    assert Find(s, x) == None;
  }
}
