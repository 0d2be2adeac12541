/**
 * The simulator as src/cache.c runs it: each level's sets are updated in
 * place and its counters are incremented by the access functions.  Every
 * method is proved to do exactly what the corresponding function of
 * CacheModel describes; the properties of those functions are proved there.
 */
module Simulator {
  import opened Wrappers
  import opened AddressDecoder
  import opened Lru
  import opened CacheModel

  /** One cache level: its array of sets and its reference, miss and penalty counters. */
  class CacheLevel {
    const params: LevelParams
    const sets: array<seq<nat>>
    var refs: nat
    var misses: nat
    var penalties: nat
    /** For each set, every tag ever looked up in it, in order. */
    ghost var histories: seq<seq<nat>>

    ghost function State(): Level
      reads this, sets
    {
      Level(sets[..], refs, misses, penalties)
    }

    /**
     * The level invariant, and least-recently-used replacement: each set holds
     * exactly the `assoc` most recently used distinct tags looked up in it,
     * least recent first.
     */
    ghost predicate Valid()
      reads this, sets
    {
      && ValidParams(params)
      && sets.Length == NumSets(params)
      && LevelInv(params, State())
      && LruSets(sets[..], histories, params.assoc)
    }

    /** init_cache for one level: derive the field widths, empty every set, zero the counters. */
    constructor (numSets: nat, assoc: nat, hitTime: nat, blocksize: nat)
      requires ValidLevelConfig(numSets, assoc, blocksize)
      ensures Valid() && fresh(sets)
      ensures params == LevelParamsOf(numSets, assoc, hitTime, blocksize)
      ensures State() == EmptyLevel(params) && histories == seq(numSets, _ => [])
    {
      params := LevelParamsOf(numSets, assoc, hitTime, blocksize);
      var a := new seq<nat>[numSets];
      var i := 0;
      while i < numSets
        invariant 0 <= i <= numSets
        invariant forall j :: 0 <= j < i ==> a[j] == []
      {
        a[i] := [];
        i := i + 1;
      }
      sets := a;
      refs, misses, penalties := 0, 0, 0;
      histories := seq(numSets, _ => []);
      new;
      assert sets[..] == EmptyLevel(params).sets;
    }

    /** setPush: append a line at the back (most recent end) of set `index`. */
    method SetPush(index: nat, tag: nat)
      requires index < sets.Length
      modifies sets
      ensures sets[..] == old(sets[..])[index := old(sets[index]) + [tag]]
    {
      sets[index] := sets[index] + [tag];
    }

    /** setPop: drop the front (least recent) line of set `index`; an empty set is left alone. */
    method SetPop(index: nat)
      requires index < sets.Length
      modifies sets
      ensures sets[..] == old(sets[..])[index := Evict(old(sets[index]))]
    {
      if |sets[index]| == 0 {
        return;
      }
      sets[index] := sets[index][1..];
    }

    /**
     * setPopIndex: take the line at position `pos` out of set `index` and
     * return its tag; a position outside the set is refused and changes nothing.
     */
    method SetPopIndex(index: nat, pos: nat) returns (b: Option<nat>)
      requires index < sets.Length
      modifies sets
      ensures pos < |old(sets[index])| ==>
        b == Some(old(sets[index])[pos]) && sets[..] == old(sets[..])[index := RemoveAt(old(sets[index]), pos)]
      ensures pos >= |old(sets[index])| ==> b == None && sets[..] == old(sets[..])
    {
      if pos >= |sets[index]| {
        return None;
      }
      b := Some(sets[index][pos]);
      sets[index] := RemoveAt(sets[index], pos);
    }

    /** Charge `amount` cycles to this level's penalty counter. */
    method AddPenalty(amount: nat)
      requires Valid()
      modifies this
      ensures Valid() && histories == old(histories)
      ensures State() == old(State()).(penalties := old(State()).penalties + amount)
    {
      penalties := penalties + amount;
    }

    /** The scan loop of the access functions: the first position of `tag` in set `index`, if any. */
    method Scan(index: nat, tag: nat) returns (pos: Option<nat>)
      requires index < sets.Length
      ensures pos == Find(sets[index], tag)
    {
      var i := 0;
      while i < |sets[index]|
        invariant 0 <= i <= |sets[index]|
        invariant tag !in sets[index][..i]
      {
        if sets[index][i] == tag {
          assert Find(sets[index], tag) == Some(i);
          return Some(i);
        }
        i := i + 1;
      }
      assert sets[index][..i] == sets[index];
      return None;
    }

    /**
     * The level part of icache_access / dcache_access / l2cache_access:
     * count the reference, scan the decoded set for the decoded tag, move it
     * to the back on a hit; on a miss count it, evict the front line if the
     * set is full and push the tag.
     */
    method Probe(addr: Address) returns (hit: bool)
      requires Valid()
      modifies this, sets
      ensures Valid()
      ensures Probed(State(), hit) == CacheModel.Probe(params, old(State()), addr)
      ensures var index := Index(params.geometry, addr);
        histories == old(histories)[index := old(histories[index]) + [Tag(params.geometry, addr)]]
    {
      ghost var before := State();
      ghost var expected := CacheModel.Probe(params, before, addr);
      var index := Index(params.geometry, addr);
      var tag := Tag(params.geometry, addr);
      ProbeKeepsLevelInv(params, before, addr);
      LruSetsAccess(before.sets, histories, params.assoc, index, tag);
      refs := refs + 1;
      histories := histories[index := histories[index] + [tag]];

      ghost var set0 := before.sets[index];
      var pos := Scan(index, tag);
      if pos.Some? {
        assert expected.hit && expected.level.sets == before.sets[index := Touch(set0, pos.value)];
        var b := SetPopIndex(index, pos.value);
        assert sets[..] == before.sets[index := RemoveAt(set0, pos.value)];
        SetPush(index, b.value);
        assert sets[..] == before.sets[index := RemoveAt(set0, pos.value) + [set0[pos.value]]];
        hit := true;
        assert misses == expected.level.misses;
      } else {
        assert !expected.hit && expected.level.sets == before.sets[index := Insert(set0, tag, params.assoc)];
        misses := misses + 1;
        if |sets[index]| == params.assoc {
          SetPop(index);
        }
        assert sets[..] == before.sets[index := if |set0| == params.assoc then Evict(set0) else set0];
        SetPush(index, tag);
        hit := false;
        assert misses == expected.level.misses;
      }
      assert sets[..] == expected.level.sets && hit == expected.hit;
      assert refs == expected.level.refs && penalties == expected.level.penalties;
      assert State() == expected.level;
    }
  }

  /**
   * Least-recently-used contents of every set: set `i` holds exactly the
   * `assoc` most recently used distinct tags of its history `hs[i]`.
   */
  ghost predicate LruSets(sets: seq<seq<nat>>, hs: seq<seq<nat>>, assoc: nat)
  {
    |hs| == |sets| && forall i :: 0 <= i < |sets| ==> sets[i] == LastN(Recency(hs[i]), assoc)
  }

  /** One access to one set keeps every set least-recently-used. */
  lemma LruSetsAccess(sets: seq<seq<nat>>, hs: seq<seq<nat>>, assoc: nat, index: nat, tag: nat)
    requires LruSets(sets, hs, assoc) && index < |sets| && assoc >= 1
    ensures LruSets(sets[index := Access(sets[index], tag, assoc).lines], hs[index := hs[index] + [tag]], assoc)
  {
    AccessIsLruStep(hs[index], tag, assoc);
  }

  /** The three caches: I$ and D$ both backed by one shared L2. */
  class CacheHierarchy {
    const params: Params
    const icache: CacheLevel
    const dcache: CacheLevel
    const l2: CacheLevel

    ghost function State(): Caches
      reads icache, icache.sets, dcache, dcache.sets, l2, l2.sets
    {
      Caches(icache.State(), dcache.State(), l2.State())
    }

    /** Three separate levels, each valid and configured as `params` says. */
    ghost predicate Wired()
      reads icache, icache.sets, dcache, dcache.sets, l2, l2.sets
    {
      && icache != dcache && icache != l2 && dcache != l2
      && icache.sets != dcache.sets && icache.sets != l2.sets && dcache.sets != l2.sets
      && icache.Valid() && dcache.Valid() && l2.Valid()
      && icache.params == params.icache && dcache.params == params.dcache && l2.params == params.l2
    }

    ghost predicate Valid()
      reads icache, icache.sets, dcache, dcache.sets, l2, l2.sets
    {
      Wired() && HierarchyInv(params, State())
    }

    /** init_cache: build the three levels from the configuration. */
    constructor (c: Config)
      requires ValidConfig(c)
      ensures Valid() && params == Derive(c) && State() == Initial(params)
      ensures fresh(icache) && fresh(icache.sets) && fresh(dcache) && fresh(dcache.sets)
      ensures fresh(l2) && fresh(l2.sets)
    {
      params := Derive(c);
      icache := new CacheLevel(c.icacheSets, c.icacheAssoc, c.icacheHitTime, c.blocksize);
      dcache := new CacheLevel(c.dcacheSets, c.dcacheAssoc, c.dcacheHitTime, c.blocksize);
      l2 := new CacheLevel(c.l2cacheSets, c.l2cacheAssoc, c.l2cacheHitTime, c.blocksize);
      new;
      InitialInv(params);
    }

    /** l2cache_access. */
    method L2Access(addr: Address) returns (latency: nat)
      requires Wired()
      modifies l2, l2.sets
      ensures Wired()
      ensures Served(l2.State(), latency) == CacheModel.L2Access(params, old(l2.State()), addr)
    {
      var hit := l2.Probe(addr);
      if hit {
        return l2.params.hitTime;
      }
      l2.AddPenalty(params.memspeed);
      latency := params.memspeed + l2.params.hitTime;
    }

    /** icache_access. */
    method ICacheAccess(addr: Address) returns (latency: nat)
      requires Valid()
      modifies icache, icache.sets, l2, l2.sets
      ensures Valid()
      ensures Outcome(State(), latency) == L1Access(params, Instruction, old(State()), addr)
    {
      ghost var before := State();
      ghost var expected := L1Access(params, Instruction, before, addr);
      ghost var pr := CacheModel.Probe(params.icache, before.icache, addr);
      L1AccessKeepsInv(params, Instruction, before, addr);
      var hit := icache.Probe(addr);
      assert icache.State() == pr.level && hit == pr.hit;
      assert dcache.State() == before.dcache;
      if hit {
        assert expected == Outcome(before.(icache := pr.level), params.icache.hitTime);
        assert l2.State() == before.l2;
        assert State() == expected.caches;
        assert Wired();
        return icache.params.hitTime;
      }
      ghost var served := CacheModel.L2Access(params, before.l2, addr);
      var penalty := L2Access(addr);
      assert l2.State() == served.level && penalty == served.latency;
      icache.AddPenalty(penalty);
      latency := penalty + icache.params.hitTime;
      assert icache.State() == pr.level.(penalties := pr.level.penalties + served.latency);
      assert expected.caches == Caches(before.icache, before.dcache, served.level).(icache := icache.State());
      assert expected.latency == latency;
      assert State() == expected.caches;
      assert Wired();
    }

    /** dcache_access. */
    method DCacheAccess(addr: Address) returns (latency: nat)
      requires Valid()
      modifies dcache, dcache.sets, l2, l2.sets
      ensures Valid()
      ensures Outcome(State(), latency) == L1Access(params, Data, old(State()), addr)
    {
      ghost var before := State();
      ghost var expected := L1Access(params, Data, before, addr);
      ghost var pr := CacheModel.Probe(params.dcache, before.dcache, addr);
      L1AccessKeepsInv(params, Data, before, addr);
      var hit := dcache.Probe(addr);
      assert dcache.State() == pr.level && hit == pr.hit;
      assert icache.State() == before.icache;
      if hit {
        assert expected == Outcome(before.(dcache := pr.level), params.dcache.hitTime);
        assert l2.State() == before.l2;
        assert State() == expected.caches;
        assert Wired();
        return dcache.params.hitTime;
      }
      ghost var served := CacheModel.L2Access(params, before.l2, addr);
      var penalty := L2Access(addr);
      assert l2.State() == served.level && penalty == served.latency;
      dcache.AddPenalty(penalty);
      latency := penalty + dcache.params.hitTime;
      assert dcache.State() == pr.level.(penalties := pr.level.penalties + served.latency);
      assert expected.caches == Caches(before.icache, before.dcache, served.level).(dcache := dcache.State());
      assert expected.latency == latency;
      assert State() == expected.caches;
      assert Wired();
    }
  }
}
