/**
 * The cache hierarchy as values: one level is its sets plus its three
 * counters, and each access function of src/cache.c is a function from the
 * old state to the new state and the latency it returns.  The classes in
 * module Simulator are proved to behave exactly as these functions.
 */
module CacheModel {
  import opened AddressDecoder
  import opened Lru

  /** The configuration the simulator reads before the first access (src/cache.c:25-39). */
  datatype Config = Config(
    icacheSets: nat, icacheAssoc: nat, icacheHitTime: nat,
    dcacheSets: nat, dcacheAssoc: nat, dcacheHitTime: nat,
    l2cacheSets: nat, l2cacheAssoc: nat, l2cacheHitTime: nat,
    blocksize: nat, memspeed: nat)

  /**
   * What the simulator needs of its configuration: set counts and block size
   * are powers of two, every set has at least one way, and index and offset
   * fit in a 32-bit address.
   */
  predicate ValidLevelConfig(numSets: nat, assoc: nat, blocksize: nat)
  {
    IsPow2(numSets) && IsPow2(blocksize) && assoc >= 1 && Log2(numSets) + Log2(blocksize) <= AddressBits
  }

  predicate ValidConfig(c: Config)
  {
    && ValidLevelConfig(c.icacheSets, c.icacheAssoc, c.blocksize)
    && ValidLevelConfig(c.dcacheSets, c.dcacheAssoc, c.blocksize)
    && ValidLevelConfig(c.l2cacheSets, c.l2cacheAssoc, c.blocksize)
  }

  /** The fixed parameters of one level. */
  datatype LevelParams = LevelParams(geometry: Geometry, assoc: nat, hitTime: nat)

  predicate ValidParams(p: LevelParams)
  {
    ValidGeometry(p.geometry) && p.assoc >= 1
  }

  function NumSets(p: LevelParams): nat
  {
    Pow2(p.geometry.indexBits)
  }

  /** The derivation of one level's field widths at initialisation. */
  function LevelParamsOf(numSets: nat, assoc: nat, hitTime: nat, blocksize: nat): (p: LevelParams)
    requires ValidLevelConfig(numSets, assoc, blocksize)
    ensures ValidParams(p) && NumSets(p) == numSets && Pow2(p.geometry.offsetBits) == blocksize
    ensures p.assoc == assoc && p.hitTime == hitTime
  {
    LevelParams(MakeGeometry(blocksize, numSets), assoc, hitTime)
  }

  datatype Params = Params(icache: LevelParams, dcache: LevelParams, l2: LevelParams, memspeed: nat)

  predicate ValidHierarchyParams(p: Params)
  {
    ValidParams(p.icache) && ValidParams(p.dcache) && ValidParams(p.l2)
  }

  function Derive(c: Config): (p: Params)
    requires ValidConfig(c)
    ensures ValidHierarchyParams(p)
  {
    Params(
      LevelParamsOf(c.icacheSets, c.icacheAssoc, c.icacheHitTime, c.blocksize),
      LevelParamsOf(c.dcacheSets, c.dcacheAssoc, c.dcacheHitTime, c.blocksize),
      LevelParamsOf(c.l2cacheSets, c.l2cacheAssoc, c.l2cacheHitTime, c.blocksize),
      c.memspeed)
  }

  // ---------------------------------------------------------------------
  // One level
  // ---------------------------------------------------------------------

  /** The state of one level: its sets (front = least recent) and its counters. */
  datatype Level = Level(sets: seq<seq<nat>>, refs: nat, misses: nat, penalties: nat)

  /** A freshly initialised level: every set empty, every counter zero. */
  function EmptyLevel(p: LevelParams): (lv: Level)
    ensures LevelInv(p, lv)
    ensures forall i :: 0 <= i < |lv.sets| ==> lv.sets[i] == []
    ensures lv.refs == 0 && lv.misses == 0 && lv.penalties == 0
  {
    Level(seq(NumSets(p), _ => []), 0, 0, 0)
  }

  /**
   * The invariant of one level: one set per index value, no set holds a tag
   * twice or more lines than the associativity, and there are never more
   * misses than references.
   */
  ghost predicate LevelInv(p: LevelParams, lv: Level)
  {
    && |lv.sets| == NumSets(p)
    && lv.misses <= lv.refs
    && forall i :: 0 <= i < |lv.sets| ==> Distinct(lv.sets[i]) && |lv.sets[i]| <= p.assoc
  }

  datatype Probed = Probed(level: Level, hit: bool)

  /**
   * The part of an access that every level shares: count the reference,
   * decode the address, then touch the line on a hit, or count the miss and
   * insert the tag on a miss.
   */
  function Probe(p: LevelParams, lv: Level, addr: Address): (r: Probed)
    requires |lv.sets| == NumSets(p)
    ensures |r.level.sets| == |lv.sets|
  {
    var index := Index(p.geometry, addr);
    var a := Access(lv.sets[index], Tag(p.geometry, addr), p.assoc);
    Probed(
      Level(lv.sets[index := a.lines], lv.refs + 1, if a.hit then lv.misses else lv.misses + 1, lv.penalties),
      a.hit)
  }

  /**
   * A hit happens exactly when the decoded tag is stored in the decoded set.
   * It counts one reference, moves the tag to the back of its set keeping the
   * order of the other lines, and changes no other set and no other counter.
   */
  lemma ProbeHit(p: LevelParams, lv: Level, addr: Address)
    requires LevelInv(p, lv)
    ensures var index, tag := Index(p.geometry, addr), Tag(p.geometry, addr);
      var r := Probe(p, lv, addr);
      && index < |lv.sets|
      && (r.hit <==> tag in lv.sets[index])
      && (r.hit ==>
        && r.level.refs == lv.refs + 1 && r.level.misses == lv.misses && r.level.penalties == lv.penalties
        && r.level.sets == lv.sets[index := RemoveVal(lv.sets[index], tag) + [tag]])
  {
    var index, tag := Index(p.geometry, addr), Tag(p.geometry, addr);
    AccessOutcome(lv.sets[index], tag, p.assoc);
    if tag in lv.sets[index] {
      AccessHitOrder(lv.sets[index], tag, p.assoc);
    }
  }

  /**
   * A miss counts one reference and one miss, leaves the decoded tag at the
   * back of its set, removes the front (least recent) line exactly when the
   * set was full, and changes no other set and not the penalties.
   */
  lemma ProbeMiss(p: LevelParams, lv: Level, addr: Address)
    requires ValidParams(p) && LevelInv(p, lv)
    ensures var index, tag := Index(p.geometry, addr), Tag(p.geometry, addr);
      var r := Probe(p, lv, addr);
      var s, s' := lv.sets[index], r.level.sets[index];
      !r.hit ==>
        && r.level.refs == lv.refs + 1 && r.level.misses == lv.misses + 1 && r.level.penalties == lv.penalties
        && (forall j :: 0 <= j < |lv.sets| && j != index ==> r.level.sets[j] == lv.sets[j])
        && |s'| > 0 && s'[|s'| - 1] == tag
        && (|s| == p.assoc ==> s'[..|s'| - 1] == s[1..])
        && (|s| < p.assoc ==> s'[..|s'| - 1] == s)
  {
    var index, tag := Index(p.geometry, addr), Tag(p.geometry, addr);
    var a := Access(lv.sets[index], tag, p.assoc);
    AccessOutcome(lv.sets[index], tag, p.assoc);
    assert Probe(p, lv, addr).level.sets == lv.sets[index := a.lines];
  }

  /** Every access keeps the level invariant. */
  lemma ProbeKeepsLevelInv(p: LevelParams, lv: Level, addr: Address)
    requires ValidParams(p) && LevelInv(p, lv)
    ensures LevelInv(p, Probe(p, lv, addr).level)
  {
    var index := Index(p.geometry, addr);
    AccessKeepsSetInvariant(lv.sets[index], Tag(p.geometry, addr), p.assoc);
  }

  // ---------------------------------------------------------------------
  // The hierarchy
  // ---------------------------------------------------------------------

  datatype Caches = Caches(icache: Level, dcache: Level, l2: Level)

  datatype Kind = Instruction | Data

  /** Every level has one set per index value. */
  predicate Shaped(p: Params, c: Caches)
  {
    |c.icache.sets| == NumSets(p.icache) && |c.dcache.sets| == NumSets(p.dcache) && |c.l2.sets| == NumSets(p.l2)
  }

  function Initial(p: Params): (c: Caches)
    ensures Shaped(p, c)
  {
    Caches(EmptyLevel(p.icache), EmptyLevel(p.dcache), EmptyLevel(p.l2))
  }

  datatype Served = Served(level: Level, latency: nat)

  /** l2cache_access: on a miss the level below is main memory, with fixed latency memspeed. */
  function L2Access(p: Params, l2: Level, addr: Address): (r: Served)
    requires |l2.sets| == NumSets(p.l2)
    ensures |r.level.sets| == |l2.sets|
  {
    var pr := Probe(p.l2, l2, addr);
    if pr.hit then Served(pr.level, p.l2.hitTime)
    else Served(pr.level.(penalties := pr.level.penalties + p.memspeed), p.memspeed + p.l2.hitTime)
  }

  function L1Params(p: Params, kind: Kind): LevelParams
  {
    if kind == Instruction then p.icache else p.dcache
  }

  function L1Of(c: Caches, kind: Kind): Level
  {
    if kind == Instruction then c.icache else c.dcache
  }

  function WithL1(c: Caches, kind: Kind, lv: Level): Caches
  {
    if kind == Instruction then c.(icache := lv) else c.(dcache := lv)
  }

  datatype Outcome = Outcome(caches: Caches, latency: nat)

  /**
   * icache_access and dcache_access: probe the first-level cache; on a miss
   * ask the shared L2 and charge its latency as this level's penalty.
   */
  function L1Access(p: Params, kind: Kind, c: Caches, addr: Address): (r: Outcome)
    requires Shaped(p, c)
    ensures Shaped(p, r.caches)
  {
    var pr := Probe(L1Params(p, kind), L1Of(c, kind), addr);
    if pr.hit then Outcome(WithL1(c, kind, pr.level), L1Params(p, kind).hitTime)
    else
      var s := L2Access(p, c.l2, addr);
      var l1 := pr.level.(penalties := pr.level.penalties + s.latency);
      Outcome(WithL1(c, kind, l1).(l2 := s.level), s.latency + L1Params(p, kind).hitTime)
  }

  /**
   * An L2 hit returns the L2 hit time; an L2 miss returns memspeed plus the
   * hit time and adds exactly memspeed to the L2 penalties.
   */
  lemma L2Latency(p: Params, l2: Level, addr: Address)
    requires LevelInv(p.l2, l2)
    ensures var g := p.l2.geometry;
      var hit := Tag(g, addr) in l2.sets[Index(g, addr)];
      var r := L2Access(p, l2, addr);
      && r.level.refs == l2.refs + 1
      && r.level.misses == l2.misses + (if hit then 0 else 1)
      && r.latency == (if hit then p.l2.hitTime else p.memspeed + p.l2.hitTime)
      && r.level.penalties == l2.penalties + (if hit then 0 else p.memspeed)
  {
    ProbeHit(p.l2, l2, addr);
  }

  /**
   * A first-level hit returns that level's hit time and touches nothing but
   * that level.  A first-level miss returns the hit time plus whatever the
   * L2 access returns, charges that same L2 latency to the level's
   * penalties, and leaves the other first-level cache alone.
   */
  lemma L1Latency(p: Params, kind: Kind, c: Caches, addr: Address)
    requires Shaped(p, c) && LevelInv(L1Params(p, kind), L1Of(c, kind))
    ensures var lp := L1Params(p, kind);
      var hit := Tag(lp.geometry, addr) in L1Of(c, kind).sets[Index(lp.geometry, addr)];
      var r := L1Access(p, kind, c, addr);
      var other := if kind == Instruction then Data else Instruction;
      && L1Of(r.caches, other) == L1Of(c, other)
      && (hit ==>
        && r.latency == lp.hitTime && r.caches.l2 == c.l2
        && L1Of(r.caches, kind).penalties == L1Of(c, kind).penalties
        && L1Of(r.caches, kind).misses == L1Of(c, kind).misses)
      && (!hit ==>
        var s := L2Access(p, c.l2, addr);
        && r.latency == lp.hitTime + s.latency
        && r.caches.l2 == s.level
        && L1Of(r.caches, kind).penalties == L1Of(c, kind).penalties + s.latency
        && L1Of(r.caches, kind).misses == L1Of(c, kind).misses + 1)
  {
    ProbeHit(L1Params(p, kind), L1Of(c, kind), addr);
  }

  /**
   * The counters of the three levels agree with each other: every L2
   * reference is an I$ or D$ miss, every L2 miss costs memspeed, and the
   * first-level penalties add up to what the L2 returned.
   */
  ghost predicate Accounting(p: Params, c: Caches)
  {
    && c.l2.refs == c.icache.misses + c.dcache.misses
    && c.l2.penalties == c.l2.misses * p.memspeed
    && c.icache.penalties + c.dcache.penalties == c.l2.refs * p.l2.hitTime + c.l2.penalties
  }

  ghost predicate HierarchyInv(p: Params, c: Caches)
  {
    && ValidHierarchyParams(p)
    && LevelInv(p.icache, c.icache) && LevelInv(p.dcache, c.dcache) && LevelInv(p.l2, c.l2)
    && Accounting(p, c)
  }

  lemma InitialInv(p: Params)
    requires ValidHierarchyParams(p)
    ensures HierarchyInv(p, Initial(p))
  {
  }

  /** An L2 access by itself keeps the L2 level invariant and adds its latency to the L2 side of the accounting. */
  lemma L2AccessAccounting(p: Params, l2: Level, addr: Address)
    requires ValidParams(p.l2) && LevelInv(p.l2, l2) && l2.penalties == l2.misses * p.memspeed
    ensures var r := L2Access(p, l2, addr);
      && LevelInv(p.l2, r.level)
      && r.level.refs == l2.refs + 1
      && r.level.penalties == r.level.misses * p.memspeed
      && r.level.refs * p.l2.hitTime + r.level.penalties == l2.refs * p.l2.hitTime + l2.penalties + r.latency
  {
    ProbeKeepsLevelInv(p.l2, l2, addr);
    L2Latency(p, l2, addr);
    assert (l2.misses + 1) * p.memspeed == l2.misses * p.memspeed + p.memspeed;
    assert (l2.refs + 1) * p.l2.hitTime == l2.refs * p.l2.hitTime + p.l2.hitTime;
  }

  /** Every access keeps the hierarchy invariant. */
  lemma L1AccessKeepsInv(p: Params, kind: Kind, c: Caches, addr: Address)
    requires HierarchyInv(p, c)
    ensures HierarchyInv(p, L1Access(p, kind, c, addr).caches)
  {
    var lp, l1 := L1Params(p, kind), L1Of(c, kind);
    ProbeKeepsLevelInv(lp, l1, addr);
    ProbeHit(lp, l1, addr);
    L1Latency(p, kind, c, addr);
    var pr := Probe(lp, l1, addr);
    if !pr.hit {
      L2AccessAccounting(p, c.l2, addr);
    }
  }

  // ---------------------------------------------------------------------
  // A trace of accesses
  // ---------------------------------------------------------------------

  datatype Request = Request(kind: Kind, addr: Address)

  datatype Trace = Trace(caches: Caches, latencies: seq<nat>)

  /** Feeding a sequence of requests to the hierarchy, one at a time. */
  function Run(p: Params, c: Caches, reqs: seq<Request>): (t: Trace)
    requires Shaped(p, c)
    ensures Shaped(p, t.caches)
    decreases |reqs|
  {
    if reqs == [] then Trace(c, [])
    else
      var o := L1Access(p, reqs[0].kind, c, reqs[0].addr);
      var t := Run(p, o.caches, reqs[1..]);
      Trace(t.caches, [o.latency] + t.latencies)
  }

  function CountKind(reqs: seq<Request>, kind: Kind): nat
  {
    if reqs == [] then 0 else (if reqs[0].kind == kind then 1 else 0) + CountKind(reqs[1..], kind)
  }

  /**
   * One access: the invariant is kept, the latency is at least the hit time
   * of the first-level cache that served it, and only that cache counts a
   * reference.
   */
  lemma L1AccessStep(p: Params, kind: Kind, c: Caches, addr: Address)
    requires HierarchyInv(p, c)
    ensures var o := L1Access(p, kind, c, addr);
      && HierarchyInv(p, o.caches)
      && o.latency >= L1Params(p, kind).hitTime
      && o.caches.icache.refs == c.icache.refs + (if kind == Instruction then 1 else 0)
      && o.caches.dcache.refs == c.dcache.refs + (if kind == Data then 1 else 0)
  {
    L1AccessKeepsInv(p, kind, c, addr);
    L1Latency(p, kind, c, addr);
    ProbeHit(L1Params(p, kind), L1Of(c, kind), addr);
  }

  /**
   * Over a whole trace: one latency per request, never below the hit time of
   * the first-level cache that served it; each first-level cache counts one
   * reference per request of its kind; and the hierarchy invariant holds at
   * the end (so misses never exceed references and the L2 reference count
   * equals I$ misses plus D$ misses).
   */
  lemma {:induction false} RunKeepsInv(p: Params, c: Caches, reqs: seq<Request>)
    requires HierarchyInv(p, c)
    ensures var t := Run(p, c, reqs);
      && HierarchyInv(p, t.caches)
      && |t.latencies| == |reqs|
      && (forall j :: 0 <= j < |reqs| ==> t.latencies[j] >= L1Params(p, reqs[j].kind).hitTime)
      && t.caches.icache.refs == c.icache.refs + CountKind(reqs, Instruction)
      && t.caches.dcache.refs == c.dcache.refs + CountKind(reqs, Data)
    decreases |reqs|
  {
    if reqs != [] {
      var r, rest := reqs[0], reqs[1..];
      var o := L1Access(p, r.kind, c, r.addr);
      L1AccessStep(p, r.kind, c, r.addr);
      RunKeepsInv(p, o.caches, rest);
      var t := Run(p, o.caches, rest);
      var lat := Run(p, c, reqs).latencies;
      assert lat == [o.latency] + t.latencies;
      forall j | 0 <= j < |reqs| ensures lat[j] >= L1Params(p, reqs[j].kind).hitTime {
        if j > 0 {
          assert lat[j] == t.latencies[j - 1];
          assert reqs[j] == rest[j - 1];
        }
      }
    }
  }
}
