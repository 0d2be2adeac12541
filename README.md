# Cache simulator core in Dafny

This project models the core of a trace-driven cache simulator: a separate
instruction cache (I$) and data cache (D$) in front of one shared L2 cache,
backed by main memory with a fixed latency. Each level is set-associative
and uses least-recently-used (LRU) replacement. Every access splits a
32-bit address into offset, set index and tag. It then scans the selected
set, moves a hit to the most-recent end, or evicts the least-recent line
when the set is full. It updates the level's reference, miss and penalty
counters and returns the access latency in cycles.

Modules:

- `AddressDecoder` (address_decoder.dfy) covers the field widths derived at
  initialisation and the offset/index/tag decomposition. Bit operations are
  written as division and remainder by powers of two on unsigned values.
- `Lru` (lru.dfy) covers one set as a sequence of tags, front = least
  recently used. It models the positional removal, pop and push of the
  source's linked set and the access rule built from them. It also gives an
  independent definition of LRU contents (`Recency`, `LastN`) and proves the
  rule meets it after any history of accesses.
- `CacheModel` (cache_model.dfy) covers a level and the whole hierarchy as
  values. Each access function is a function from the old state to the new
  state and the latency. It carries the invariants the counters keep:
  misses ≤ references, L2 references = I$ misses + D$ misses, and the
  penalties adding up.
- `Simulator` (simulator.dfy) covers the imperative simulator.
  `CacheLevel` holds an array of sets and its counters; `CacheHierarchy`
  holds three of them. The set operations and the access methods update
  them in place, and each method is proved to agree with `Lru` and `CacheModel`.
  `CacheLevel.Valid` also states that each set holds exactly the
  `assoc` most recently used distinct tags looked up in it.
- `Scenarios` (scenarios.dfy) covers concrete configurations and traces
  with their exact latencies and counters.
- `AsWritten` (as_written.dfy) models three places where the source does
  not do what it evidently intends. Each comes with the input that shows
  the difference (see Findings).
- `Wrappers` (wrappers.dfy) holds the `Option` type.

The as-written tag shift (number of sets plus offset width) is larger than
the correct one for every set count, since the number of sets always
exceeds its base-2 logarithm. `AsWritten.TagAsWrittenAliases` covers one
set as well. The model uses the corrected shift (see Findings).

## Model

| member | source | states |
|---|---|---|
| AddressDecoder.Log2 | src/cache.c:221-227 | for a power of two, the result is the exact exponent: 2^k equals the input |
| AddressDecoder.Log2OfPow2 | src/cache.c:221-227 | log2 of 2^k is k, so the derived widths invert the configured sizes |
| AddressDecoder.MakeGeometry | src/cache.c:221-235 | offset and index widths satisfy 2^offsetBits = block size and 2^indexBits = number of sets |
| AddressDecoder.DecodeBounds | src/cache.c:233-256 | offset, index and tag each fit their width; the tag fits the tag width, so masking a stored tag with tag_mask is the identity |
| AddressDecoder.Recompose | src/cache.c:249-251 | tag, index and offset put back together give the address again |
| AddressDecoder.TagOfBlock | src/cache.c:250-251 | the tag is the block number with the index bits removed |
| AddressDecoder.Offset | src/cache.c:249 | the byte within the block: below the block size (DecodeBounds), and with index and tag it rebuilds the address (Recompose) |
| AddressDecoder.Index | src/cache.c:250 | the set selector: below the number of sets (DecodeBounds); equal index and tag exactly when two addresses share a block (SameLineIffSameBlock) |
| AddressDecoder.Tag | src/cache.c:251 | with the corrected shift (see Findings), the block number with the index bits removed (TagOfBlock); fits the tag width (DecodeBounds) and identifies the block within its set (SameLineIffSameBlock) |
| AddressDecoder.SameLineIffSameBlock | src/cache.c:249-251 | two addresses have equal index and equal tag if and only if they lie in the same block |
| Lru.Find | src/cache.c:253-262 | the scan returns the first position holding the tag, or reports that the tag is nowhere in the set |
| Lru.RemoveAt | src/cache.c:116-149 | positional removal keeps the other lines in order and removes exactly one copy of the line at that position |
| Lru.Evict | src/cache.c:102-114 | setPop on the set: a full set loses its least recent line when a miss inserts (ProbeMiss, AccessOutcome), and what remains is the last `assoc - 1` tags in recency order (MissKeeps) |
| Lru.Insert | src/cache.c:268-272 | a miss evicts the front exactly when the set is full and appends the tag at the back, so the set stays within `assoc` lines without duplicates (AccessOutcome, AccessKeepsSetInvariant) |
| Lru.Access | src/cache.c:253-272 | hit iff the tag is in the set, with the tag ending most recent (AccessOutcome); from an empty set, any history leaves the `assoc` most recently used distinct tags (ReplayIsLru) |
| Lru.Touch | src/cache.c:255-260 | a hit's pop-at-index then push moves the line to the back, keeps the rest in order, and is a permutation |
| Lru.AccessOutcome | src/cache.c:253-272 | hit iff the tag is in the set; the tag always ends at the back; a hit permutes the set; a miss pushes after evicting the front exactly when the set is full |
| Lru.AccessHitOrder | src/cache.c:255-260 | on a set without duplicates, a hit equals the set with the tag removed, then the tag appended |
| Lru.AccessKeepsSetInvariant | src/cache.c:264-272 | an access keeps a set free of duplicates and within the associativity |
| Lru.Recency | src/cache.c:253-272 | the reference order of distinct tags by last use holds exactly the tags used, each once |
| Lru.RecencySnoc | src/cache.c:255-272 | using a tag moves it to the most-recent end of the reference order, keeping the rest in order |
| Lru.AccessIsLruStep | src/cache.c:253-272 | on a set holding the `assoc` most recent distinct tags, an access hits iff the tag is among them and leaves the `assoc` most recent tags of the extended history |
| Lru.MissKeeps | src/cache.c:268-272 | on a miss, the lines the set keeps are exactly the last `assoc - 1` entries of the recency order: the front is evicted when the set is full, nothing otherwise |
| Lru.ReplayIsLru | src/cache.c:253-272 | after any sequence of accesses from an empty set, the set holds the `assoc` most recently used distinct tags, least recent first |
| CacheModel.LevelParamsOf | src/cache.c:221-235 | derived parameters give the configured number of sets, block size, associativity and hit time |
| CacheModel.Derive | src/cache.c:221-239 | the three levels' derived parameters are all valid |
| CacheModel.EmptyLevel | src/cache.c:186-219 | a fresh level has every set empty and all three counters zero, and satisfies the level invariant |
| CacheModel.Probe | src/cache.c:245-272 | one reference to a level: hit iff the tag is in its set, with the LRU update and counters of ProbeHit and ProbeMiss; keeps the level invariant (ProbeKeepsLevelInv) |
| CacheModel.L2Access | src/cache.c:321-354 | an L2 hit costs the L2 hit time, a miss memspeed more with memspeed charged as penalty (L2Latency); penalties stay misses × memspeed (L2AccessAccounting) |
| CacheModel.L1Access | src/cache.c:245-316 | a first-level hit costs its hit time, a miss adds the L2 latency as penalty (L1Latency); every access keeps the hierarchy invariant (L1AccessKeepsInv) |
| CacheModel.ProbeHit | src/cache.c:247-260 | a hit happens iff the decoded tag is in the decoded set; it counts one reference, moves the tag to the back and changes no other set or counter |
| CacheModel.ProbeMiss | src/cache.c:264-272 | a miss counts one reference and one miss, evicts the front line exactly when the set is full, pushes the tag, and changes no other set |
| CacheModel.ProbeKeepsLevelInv | src/cache.c:245-272 | every probe keeps one set per index, no duplicate tags, at most `assoc` lines per set and misses ≤ references |
| CacheModel.L2Latency | src/cache.c:321-354 | an L2 hit returns the L2 hit time; a miss returns memspeed plus hit time and adds memspeed to the L2 penalties |
| CacheModel.L1Latency | src/cache.c:245-278 | a first-level hit returns its hit time and leaves L2 alone; a miss returns hit time plus the L2 latency and charges that latency as penalty; the other first-level cache is untouched |
| CacheModel.InitialInv | src/cache.c:186-219 | the initial hierarchy satisfies the hierarchy invariant |
| CacheModel.L2AccessAccounting | src/cache.c:321-354 | an L2 access keeps its penalties equal to misses × memspeed and adds its returned latency to refs × hitTime + penalties |
| CacheModel.L1AccessKeepsInv | src/cache.c:245-316 | every I$ or D$ access keeps the hierarchy invariant: level invariants, L2 refs = I$ misses + D$ misses, L2 penalties = L2 misses × memspeed, first-level penalties = L2 refs × L2 hit time + L2 penalties |
| CacheModel.L1AccessStep | src/cache.c:245-316 | one access keeps the invariant, costs at least the serving cache's hit time, and counts one reference in that cache only |
| CacheModel.RunKeepsInv | src/cache.c:245-316 | over any trace: one latency per request, each at least the serving cache's hit time; per-kind reference counts; invariant kept |
| Simulator.CacheLevel.constructor | src/cache.c:196-235 | a new level has the derived parameters, empty sets, zero counters and the LRU invariant |
| Simulator.CacheLevel.SetPush | src/cache.c:87-100 | appends the tag at the back of the chosen set and changes no other set |
| Simulator.CacheLevel.SetPop | src/cache.c:102-114 | removes the front line of the chosen set, leaves an empty set alone, and changes no other set |
| Simulator.CacheLevel.SetPopIndex | src/cache.c:116-149 | a position inside the set yields that line and removes it; any other position is refused and changes nothing |
| Simulator.CacheLevel.Scan | src/cache.c:253-262 | the scan loop returns exactly the first position of the tag in the set, or none |
| Simulator.CacheLevel.AddPenalty | src/cache.c:275 | adds the amount to the penalty counter and changes nothing else |
| Simulator.CacheLevel.Probe | src/cache.c:245-272 | the in-place scan and update equal CacheModel.Probe and keep the LRU invariant |
| Simulator.LruSetsAccess | src/cache.c:253-272 | one access to one set keeps every set holding the `assoc` most recently used distinct tags of its history |
| Simulator.CacheHierarchy.constructor | src/cache.c:182-240 | builds the three levels from the configuration in the initial state with the hierarchy invariant |
| Simulator.CacheHierarchy.L2Access | src/cache.c:321-354 | the L2 update and latency equal CacheModel.L2Access |
| Simulator.CacheHierarchy.ICacheAccess | src/cache.c:245-278 | the I$ access equals CacheModel.L1Access for instructions and keeps the hierarchy invariant |
| Simulator.CacheHierarchy.DCacheAccess | src/cache.c:283-316 | the D$ access equals CacheModel.L1Access for data and keeps the hierarchy invariant |
| Scenarios.DirectMappedParams | src/cache.c:221-239 | a one-set, one-way configuration with 4-byte blocks derives 2 offset bits and 0 index bits |
| Scenarios.DirectMappedSteps | src/cache.c:253-272 | concrete outcomes of one-way set accesses |
| Scenarios.DirectMappedDecode | src/cache.c:249-251 | with one set, every address selects set 0 with tag addr / 4 |
| Scenarios.DirectMappedColdFetch | src/cache.c:245-278 | in the one-set, one-way configuration, fetching a block held by neither I$ nor L2 costs 105 cycles and leaves that block as the only line of both |
| Scenarios.ConflictingBlocksAlwaysMiss | src/cache.c:245-278 | addresses 0x00, 0x10, 0x00 in one-line caches each cost 1 + 4 + 100 cycles |
| Scenarios.RepeatedBlockHits | src/cache.c:245-278 | the same address twice costs 105 then 1 cycles, with 2 references and 1 miss |
| Scenarios.TwoWayEvictsLeastRecent | src/cache.c:253-272 | in a two-way set, after a, b, a, a miss on c evicts b and keeps a |
| Scenarios.TwoWayFrontHit | src/cache.c:255-260 | a hit on the front line of a two-way set moves it to the back |
| Scenarios.TwoWayMiss | src/cache.c:264-272 | a miss in a two-way set evicts the front line only when both ways are taken, then appends the tag |
| Scenarios.TwoWayReplayABA | src/cache.c:253-272 | tags a, b, a in an empty two-way set leave b least recent and a most recent |
| AsWritten.TagAsWrittenAliases | src/cache.c:251 | with the as-written shift, two different blocks in set 0 get the same tag and the second access is reported as a hit |
| AsWritten.TagAsWritten | src/cache.c:251 | the tag as the source computes it, shifting by the set count plus the offset width: it aliases two blocks of one set (TagAsWrittenAliases) |
| AsWritten.SetPopIndexAsWritten | src/cache.c:116-149 | setPopIndex with its `index > size` guard: correct for positions inside the set (PopIndexAsWrittenInRange), wrong for position == size (PopIndexGuardAdmitsSize) |
| AsWritten.SetPushAsWritten | src/cache.c:87-100 | setPush linking only the new block's prev: after two pushes the front block has no next (PushAsWrittenBreaksScan) |
| AsWritten.CreateBlock | src/cache.c:77-85 | a fresh block holding the tag with both links NULL, the starting point of PushAsWrittenBreaksScan |
| AsWritten.PopIndexGuardAdmitsSize | src/cache.c:116-149 | the as-written guard lets position == size through: a one-line set loses its line, and an empty set or a longer one dereferences NULL |
| AsWritten.PopIndexAsWrittenInRange | src/cache.c:116-149 | for every position inside the set, the as-written removal takes out exactly that line |
| AsWritten.PushAsWrittenBreaksScan | src/cache.c:87-100 | after two pushes onto an empty set, the front block's next is NULL, so the scan's second step dereferences NULL |

## Left out

- The printf of the L2 set size on every L2 miss (src/cache.c:347) is output only and is not modelled.
- Heap allocation, freeing and the links between blocks are not modelled. A set is a sequence of tags and a level an array of sequences. `AsWritten` models the linked blocks only to show the push defect.
- log2 is computed in floating point and truncated in the source. The model takes exact base-2 logarithms of powers of two and requires powers of two.
- The configuration is a precondition (`CacheModel.ValidConfig`): set counts and block size are powers of two, associativity is at least 1, and index plus offset width is at most 32. The source never checks it. With associativity 0 its sets would grow without bound.
- Counters (64-bit) and latencies (32-bit) are unbounded naturals, so wrap-around is not modelled.
- The stored tag is not masked with tag_mask. `AddressDecoder.DecodeBounds` proves the mask would change nothing. The undefined `1 << 32` when the tag width is 32 is not modelled.
- The offset computed by each access function is never used by the source. It is modelled only in the decomposition lemmas.
- The `inclusive` flag is declared (src/cache.c:36) and never consulted by the source, so it is not modelled.
- The random-replacement alternative exists only as a comment in the source and is not modelled.
- Trace parsing, the command line and the statistics report belong to the driver and are not modelled.
- The student identification strings are defined in src/cache.c:17-19 and never used by the core, so they are not modelled.
- The model uses the corrected tag shift and the corrected set operations (see Findings). The as-written versions are modelled only in `AsWritten`.

## Findings

| source | as written | input that shows it | evidently intended | confidence | as-written member | corrected member |
|---|---|---|---|---|---|---|
| src/cache.c:251 | the tag shift is the number of sets plus the offset width (same at lines 289 and 328) | any geometry with numSets + offsetBits < 32, addresses 0 and 2^(offsetBits+indexBits): same set, different blocks, equal as-written tags | shift by log2(number of sets) plus the offset width | high (not executed) | AsWritten.TagAsWrittenAliases | AddressDecoder.SameLineIffSameBlock |
| src/cache.c:87-100 | pushing onto a non-empty set links only the new block's prev, never the old back's next | push two blocks onto an empty set, then access it with a tag other than the front's: the scan's second step reads through NULL | also set the old back's next to the new block | high (not executed) | AsWritten.PushAsWrittenBreaksScan | Simulator.CacheLevel.SetPush |
| src/cache.c:117 | the guard refuses only positions greater than the size | a one-line set with position 1 loses its line; position 0 on an empty set or position size on a longer set dereferences NULL | refuse positions greater than or equal to the size | medium (not executed; the access loops never pass such a position) | AsWritten.PopIndexGuardAdmitsSize | Simulator.CacheLevel.SetPopIndex |
