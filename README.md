# CPU cache simulator, modelled in Dafny

This project models the core of a CPU cache simulator. The simulated system is a set-associative cache of fixed-size lines in front of a flat byte memory. Two driver routines connect them.

- `read` sends an access to the cache. On a miss it fetches the block from memory, loads it into the cache, writes a dirty victim back and counts the hit or miss.
- `write` patches the byte in the cache. It then follows the write policy:
  - write-through stores the patched block in memory and never allocates;
  - write-back allocates on a miss.

The modules follow the program's files:

- `line.dfy` (`LineRecord`): the cache line record and its initial state.
- `cache_config.dfy` (`CacheConfig`): the cache's constants and the split of an address into tag, set index and offset. Sizes are powers of two, and the two shift amounts are given as exponents.
- `cache_spec.dfy` (`CacheSpec`): the effect of `read`, `load` and `write` as functions over the sequence of lines. This covers lookup within a set, the leftmost-minimum victim choice, the bounded `use` counters of LRU and FIFO, the LFU counter and what `load` returns.
- `cache.dfy` (`CacheImpl`): the `Cache` class. Its lines live in an array that the program's loops update in place. Each method is proved to leave exactly the lines the `CacheSpec` function describes.
- `memory.dfy` (`MainMemory`): the memory's block read and block write with their bounds check, as functions and as the `Memory` class.
- `simulator.dfy` (`Driver`): the driver routines.
  - `ReadStep` and `WriteStep` describe their effect on a `Machine` value: the lines, memory and the two counters.
  - The `Simulator` class runs them through the `Cache` and `Memory` objects and is proved equal to them.
  - The program raises IndexError through these routines. That is the `IndexError` case of `Result`, and changes made before the raise are kept.
- `coherence.dfy` (`Coherence`): what a cache is for. The value a program observes at an address is the cached byte when the block is resident, otherwise memory's byte. A state is coherent when that view is consistent.
- `findings.dfy` (`Findings`): two places where the driver as written loses a dirty block. Each is shown on a concrete state. Beside them is the corrected driver, with the proof that it never changes an observed value except by the write itself.

The driver is modelled as the code is written, including its quirks:

- `load` reports its leftover loop index instead of the victim's address, and `read` stores the victim there.
- The write-back write miss drops what `load` returns.
- `write` marks a line modified under write-through too.
- `load` never checks whether the block is already resident. One line per block is therefore kept only because the driver loads after a miss; `LoadAfterMissKeepsNoDuplicates` proves this.

## Model

| member | source | states |
|---|---|---|
| LineRecord.NewLine | cpu-cache-simulator/line.py:5-10 | A new line has use 0, is neither modified nor valid, has tag 0 and holds `size` zero bytes. |
| CacheConfig.AddressSplit | cpu-cache-simulator/cache.py:169-191 | Tag, set index and offset recombine to the address: `tag * 2^tag_shift + set * block_size + offset`. The offset is below the block size and the set index below the number of sets, for every integer address. |
| CacheConfig.AddressJoin | cpu-cache-simulator/cache.py:169-191 | The split is unique. Any tag, in-range set and in-range offset that recombine to an address are exactly what `_get_tag`, `_get_set` and `get_offset` return for it. |
| CacheConfig.Offset | cpu-cache-simulator/cache.py:169-174 | `get_offset`: the address's low bits, `address & (block_size - 1)`. Its contract is stated by `AddressSplit` and `AddressJoin`. |
| CacheConfig.Tag | cpu-cache-simulator/cache.py:176-181 | `_get_tag`: the address shifted right by `tag_shift`. Its contract is stated by `AddressSplit` and `AddressJoin`. |
| CacheConfig.SetIndex | cpu-cache-simulator/cache.py:183-189 | The set number `(address >> set_shift) & set_mask`. Its contract is stated by `AddressSplit`, `AddressJoin` and `InSetIff`. |
| CacheConfig.GeometryFacts | cpu-cache-simulator/cache.py:21-36 | The program's derived quantities agree with the given exponents: `size // mapping == 2^tag_shift`, the set mask plus one is the number of sets, `size // block_size` is the number of lines, and a set fits in the cache. |
| CacheSpec.SetBase | cpu-cache-simulator/cache.py:183-191 | The set of an address is the `mapping` lines starting at `set * mapping`, and they lie inside the line array. |
| CacheSpec.InSetIff | cpu-cache-simulator/cache.py:183-191 | A line index belongs to the address's set exactly when dividing it by `mapping` gives the address's set index. |
| CacheSpec.PhysicalAddress | cpu-cache-simulator/cache.py:158-167 | `get_physical_address(i)` splits back into line i's tag, set `i // mapping` and offset 0. |
| CacheSpec.Find | cpu-cache-simulator/cache.py:48-52 | The scan returns the first line of the set that is valid and carries the tag, or nothing when no line of the set does. |
| CacheSpec.Lookup | cpu-cache-simulator/cache.py:44-52 | The scan of the address's set for a valid line with its tag. `LookupHit` states that its result is the first such line, and `ReadBlock` that there is none when it returns nothing. |
| CacheSpec.ReadBlock | cpu-cache-simulator/cache.py:44-60 | `read` returns nothing exactly when no line of the set is valid with the address's tag. Otherwise it returns the data of the first such line, a whole block. |
| CacheSpec.LookupHit | cpu-cache-simulator/cache.py:48-52 | The line an address hits is the one the scan finds. |
| CacheSpec.UseUpdated | cpu-cache-simulator/cache.py:193-208 | `_update_use` changes only `use` counters, and only inside the set. Under LRU and FIFO: a line already at `mapping` changes nothing; otherwise the touched line gets `mapping`, lines above its old value drop by one, the others keep theirs, their relative order is kept, and every counter stays within [0, mapping]. Under LFU the line gains one. Under RAND nothing changes. |
| CacheSpec.Promoted | cpu-cache-simulator/cache.py:198-206 | The bounded counter update on a range of lines: the promoted line reaches the ceiling, and lines above its old value are decremented. A line already at the ceiling leaves everything unchanged, and the order of the other lines is kept. |
| CacheSpec.LeftmostMinUse | cpu-cache-simulator/cache.py:77-81 | The scan with strict `<` picks a line of least `use` with every line to its left strictly larger, i.e. the leftmost minimum. |
| CacheSpec.LeftmostMinUnique | cpu-cache-simulator/cache.py:77-81 | The leftmost minimum is unique, so the tie-break is determined. |
| CacheSpec.Victim | cpu-cache-simulator/cache.py:74-89 | The victim lies in the address's set. It is the leftmost least-used line under LRU, LFU and FIFO, and line `r` of the set under RAND. |
| CacheSpec.Evicted | cpu-cache-simulator/cache.py:74-86 | The first half of `load` changes only `use` counters and keeps the counter bounds. |
| CacheSpec.LoadLines | cpu-cache-simulator/cache.py:62-101 | After `load`, lines outside the set are untouched. The victim is valid, clean, carries the address's tag and holds the data; its counter is 0 under LRU and LFU, `mapping` under FIFO, and unchanged under RAND. Other lines change only their counter: not at all except under FIFO, where each counter above 0 ages by one. |
| CacheSpec.LoadInfo | cpu-cache-simulator/cache.py:79-93 | `load` returns nothing exactly when the victim was clean. Otherwise it returns the victim's old data with `mapping - 1` (the leftover loop index) under LRU, LFU and FIFO, or the random pick under RAND; both are positions within the set. |
| CacheSpec.ReadLines | cpu-cache-simulator/cache.py:54-58 | `read` changes only counters, and only in the address's set. A miss, FIFO and RAND change nothing. An LRU hit raises the hit line to `mapping`, and an LFU hit adds one to it. |
| CacheSpec.WriteLines | cpu-cache-simulator/cache.py:110-129 | A write miss changes nothing. A write hit replaces only the byte at the offset and marks the line modified, whatever the write policy. It updates counters under LRU and LFU only, never changes which blocks are cached, and never touches other sets. |
| CacheSpec.FreshLines | cpu-cache-simulator/cache.py:21-23 | A fresh cache has `size // block_size` new lines and every read of it misses. |
| CacheSpec.LoadThenRead | cpu-cache-simulator/cache.py:62-101 | After `load(A, d)` the address hits. If it missed before, the hit line is the victim and `read(A)` returns `d`. |
| CacheSpec.LoadedLineAddress | cpu-cache-simulator/cache.py:95-99 | After `load(A, d)`, the victim line's physical address is A with its offset bits cleared. |
| CacheSpec.WriteThenRead | cpu-cache-simulator/cache.py:120-123 | After a write hit, `read` returns the old block with the byte replaced at the address's offset. |
| CacheSpec.SameBlocksSameLookup | cpu-cache-simulator/cache.py:48-52 | Changing counters, dirty flags or data changes neither which line an address hits nor the one-line-per-block property. |
| CacheSpec.LoadAfterMissKeepsNoDuplicates | cpu-cache-simulator/cache.py:69-99 | A load after a miss keeps at most one valid line per block in every set. |
| MainMemory.BlockAt | cpu-cache-simulator/memory.py:33-46 | `get_block` succeeds exactly when the aligned block lies in memory. It then returns `block_size` bytes, byte i being memory's byte at the block start plus i. |
| MainMemory.WithBlock | cpu-cache-simulator/memory.py:48-61 | `set_block` succeeds under the same condition. It keeps the length, puts the data inside the block and leaves every other byte as it was. |
| MainMemory.SameBlock | cpu-cache-simulator/memory.py:40-46 | Two addresses of one block have the same block start and read the same block. |
| MainMemory.SetThenGet | cpu-cache-simulator/memory.py:48-61 | After storing `d` at A, reading from any address of A's block returns `d`. |
| MainMemory.Memory.GetBlock | cpu-cache-simulator/memory.py:33-46 | `get_block` on the object reads its bytes through `BlockAt`. The contract of `BlockAt` states its result. |
| MainMemory.Memory.constructor | cpu-cache-simulator/memory.py:8-12 | Memory holds exactly `size` bytes with the given initial contents. |
| MainMemory.Memory.SetBlock | cpu-cache-simulator/memory.py:48-61 | The in-place slice store leaves memory equal to `WithBlock`. It reports IndexError exactly when `WithBlock` does, and then changes nothing. |
| CacheImpl.Cache.constructor | cpu-cache-simulator/cache.py:21-36 | The new cache's lines are `FreshLines`. |
| CacheImpl.Cache.FindLine | cpu-cache-simulator/cache.py:48-52 | The loop over the set returns what `Find` returns. |
| CacheImpl.Cache.Read | cpu-cache-simulator/cache.py:38-60 | `read` returns `ReadBlock` of the old lines and leaves the lines `ReadLines` describes. |
| CacheImpl.Cache.SelectVictim | cpu-cache-simulator/cache.py:77-81 | The victim loop ends on the leftmost least-used line, and its index variable ends at `mapping - 1`. |
| CacheImpl.Cache.Evict | cpu-cache-simulator/cache.py:73-89 | It chooses `Victim`, reports the index `load` returns, and leaves the lines `Evicted` describes. |
| CacheImpl.Cache.Load | cpu-cache-simulator/cache.py:62-101 | `load` returns `LoadInfo` of the old lines and leaves the lines `LoadLines` describes. |
| CacheImpl.Cache.Write | cpu-cache-simulator/cache.py:103-129 | `write` returns true exactly on a hit and leaves the lines `WriteLines` describes. |
| CacheImpl.Cache.UpdateUse | cpu-cache-simulator/cache.py:193-208 | The in-place counter loop leaves the lines `UseUpdated` describes. |
| Driver.ReadCounts | cpu-cache-simulator/simulator.py:10-21 | A read counts a hit exactly when the address was resident, and a miss when it was not and the fetch succeeded. A failed fetch raises and changes nothing. |
| Driver.ReadValue | cpu-cache-simulator/simulator.py:10-27 | A hit returns the cached byte at the address's offset. A miss that returns a value returns memory's byte at the address, from before the read. |
| Driver.ReadMakesResident | cpu-cache-simulator/simulator.py:15-18 | After a read that hit or fetched its block, the address hits. |
| Driver.ReadMissLines | cpu-cache-simulator/simulator.py:16-21 | On a miss whose fetch succeeds, the new lines are those of the load followed by `read`'s counter update. |
| Driver.ReadMissMemory | cpu-cache-simulator/simulator.py:23-25 | On a miss with a dirty victim, memory becomes the victim's data stored at the block of `load`'s index, or stays unchanged when that block is out of range. |
| Driver.ReadWriteBack | cpu-cache-simulator/simulator.py:23-25 | A read keeps memory's length. It changes memory only when the victim was dirty, and then only inside the block containing `load`'s index, a number below `mapping`. |
| Driver.WriteCounts | cpu-cache-simulator/simulator.py:32-39 | A write counts exactly one hit or one miss, a hit exactly when the address was resident. |
| Driver.WriteThroughEffect | cpu-cache-simulator/simulator.py:41-45 | Under write-through, a successful write leaves `byte` at the address in memory and every other byte unchanged. A failed one leaves memory unchanged. A miss leaves the cache alone, and a hit leaves the byte in the cache. |
| Driver.WriteBackEffect | cpu-cache-simulator/simulator.py:46-51 | Under write-back, memory is never touched. After a hit, or a miss whose block was fetched, the resident block holds `byte` at the address's offset. |
| Driver.WriteBackMissState | cpu-cache-simulator/simulator.py:46-51 | A write-back miss whose fetch succeeds loads the block, patches the cached copy and leaves memory exactly as it was. |
| Driver.ReadKeepsNoDuplicates | cpu-cache-simulator/simulator.py:15-18 | A read keeps at most one valid line per block, whatever its miss branch stores. |
| Driver.WriteKeepsNoDuplicates | cpu-cache-simulator/simulator.py:46-51 | A write under either policy keeps at most one valid line per block. |
| Driver.ReadStep | cpu-cache-simulator/simulator.py:8-27 | The effect of `read` on the machine state. `ReadCounts`, `ReadValue`, `ReadMakesResident`, `ReadMissLines`, `ReadMissMemory` and `ReadWriteBack` state its contract. |
| Driver.ReadStoring | cpu-cache-simulator/simulator.py:8-27 | `read` with what `load` returned passed in. `ReadStep` passes `LoadInfo` and the corrected read `LoadInfoFixed`. `ReadKeepsNoDuplicates` states its contract for every such value. |
| Driver.ReadMissStep | cpu-cache-simulator/simulator.py:15-25 | The miss branch of `read`: fetch, load, read, count, store. `ReadCounts`, `ReadMissLines` and `ReadMissMemory` state its contract. |
| Driver.StoreVictim | cpu-cache-simulator/simulator.py:23-25 | Storing what `load` returned. `ReadMissMemory` and `ReadWriteBack` state its contract. |
| Driver.WriteStep | cpu-cache-simulator/simulator.py:30-51 | The effect of `write` on the machine state. `WriteCounts`, `WriteThroughEffect`, `WriteBackEffect`, `WriteBackMissState` and `WriteKeepsNoDuplicates` state its contract. |
| Driver.WriteToMemory | cpu-cache-simulator/simulator.py:41-45 | The write-through branch: fetch, patch, store. `WriteThroughEffect` states its contract. |
| Driver.AllocateAndWrite | cpu-cache-simulator/simulator.py:46-51 | The write-back miss branch: fetch, load, write into the cache. `WriteBackEffect` and `WriteBackMissState` state its contract. |
| Driver.Simulator.constructor | cpu-cache-simulator/simulator.py:79-84 | The session starts with zero counters, a fresh cache and the given memory contents. |
| Driver.Simulator.Read | cpu-cache-simulator/simulator.py:8-27 | Running `read` on the objects returns and leaves exactly what `ReadStep` describes, and keeps one line per block. |
| Driver.Simulator.ReadMiss | cpu-cache-simulator/simulator.py:15-25 | The miss branch of `read` on the objects matches `ReadMissStep`, storing `LoadInfo` of the old lines. |
| Driver.Simulator.WriteBackVictim | cpu-cache-simulator/simulator.py:23-25 | Storing what `load` returned matches `StoreVictim`. |
| Driver.Simulator.Write | cpu-cache-simulator/simulator.py:30-51 | Running `write` on the objects leaves exactly what `WriteStep` describes. |
| Driver.Simulator.StoreThrough | cpu-cache-simulator/simulator.py:41-45 | The write-through branch on the objects matches `WriteToMemory`. |
| Driver.Simulator.Allocate | cpu-cache-simulator/simulator.py:46-51 | The write-back miss branch on the objects matches `AllocateAndWrite`. |
| Coherence.FreshCoherent | cpu-cache-simulator/cache.py:21-23 | A fresh cache over any memory is coherent and shows memory's byte at every address. |
| Coherence.UseOnlyKeeps | cpu-cache-simulator/cache.py:193-208 | Updating only counters keeps coherence and every observed value. |
| Coherence.ResidentInRange | cpu-cache-simulator/simulator.py:10-14 | In a coherent state an address that hits lies inside memory. |
| Coherence.WriteHitKeeps | cpu-cache-simulator/cache.py:120-123 | A write hit keeps coherence. Afterwards the written address shows the byte and every other address its old value. |
| Coherence.WriteThroughKeeps | cpu-cache-simulator/simulator.py:41-45 | A write-through write whose block is in memory keeps coherence. Afterwards only the written address shows a new value. |
| Findings.LoadInfoFixed | cpu-cache-simulator/cache.py:91-93 | The corrected `load` result: nothing for a clean victim; otherwise the victim's data with an address whose tag is the victim's, whose set is the address's set and whose offset is 0. |
| Findings.ReadStepFixed | cpu-cache-simulator/simulator.py:8-27 | `read` storing `LoadInfoFixed`. `ReadFixedKeepsView` states its contract. |
| Findings.AllocateAndWriteFixed | cpu-cache-simulator/simulator.py:46-51 | The write-back miss branch with the victim stored at its own address. `WriteFixedKeepsView` states its contract. |
| Findings.WriteStepFixed | cpu-cache-simulator/simulator.py:30-51 | `write` with the corrected write-back miss. `WriteFixedKeepsView` states its contract. |
| Findings.FillCoherent | cpu-cache-simulator/simulator.py:16-25 | The corrected miss keeps coherence. |
| Findings.FillKeeps | cpu-cache-simulator/simulator.py:16-25 | The corrected miss keeps coherence and changes no observed value. |
| Findings.ReadFixedKeepsView | cpu-cache-simulator/simulator.py:8-27 | The corrected `read` raises exactly when the block lies outside memory, returns the observed value, keeps coherence and changes no observed value. |
| Findings.WriteFixedKeepsView | cpu-cache-simulator/simulator.py:30-51 | The corrected `write` raises exactly when the block lies outside memory and keeps coherence. Afterwards the written address shows the byte and every other address its old value, under either policy. |
| Findings.ReadMisplacesVictim | cpu-cache-simulator/simulator.py:23-25 | As written, a read miss with a dirty victim leaves the victim's block uncached. Unless the block of `load`'s index is the victim's own, every byte of the victim's block then shows memory's stale byte, where it showed the victim's before. |
| Findings.ReadClobbersIndexBlock | cpu-cache-simulator/simulator.py:23-25 | As written, the dirty victim's bytes land in the block containing `load`'s index. |
| Findings.WriteMissDropsVictim | cpu-cache-simulator/simulator.py:46-51 | As written, a write-back write miss with a dirty victim leaves memory untouched and the victim's block uncached. Every byte of that block then shows memory's stale byte, where it showed the victim's before. |
| Findings.ExampleMissReady | cpu-cache-simulator/simulator.py:15-17 | The example state meets the hypotheses of the two findings at address 0: it is coherent, 0 misses and its block lies in memory. |
| Findings.ExampleDirtyVictim | cpu-cache-simulator/cache.py:79-93 | In the example, the victim of the miss at 0 is the dirty line holding block 96. `load` reports index 1, whose block is block 0, which lies in memory. The victim holds 7 where memory holds 0. |
| Findings.ReadLosesVictimByte | cpu-cache-simulator/simulator.py:23-25 | `ReadMisplacesVictim` at the first byte of the victim's block: that byte afterwards shows memory's stale byte. |
| Findings.ExampleReadLosesWrite | cpu-cache-simulator/simulator.py:8-27 | In the example, address 96 shows 7 before `read(0)` and 0 after it. |
| Findings.ExampleWriteLosesWrite | cpu-cache-simulator/simulator.py:46-51 | In the example, address 96 shows 7 before a write-back `write(0, byte)` and 0 after it. |
| Findings.ExampleView | cpu-cache-simulator/simulator.py:10-14 | In the example, address 96 shows 7 through the cache. |

## Left out

- The command loop, argument parsing, printing, `randread`/`randwrite` and the hit-ratio statistics (simulator.py from line 54) are input, output and floating point. `Cache.print_section`, `Memory.print_section` and util.py are display code.
- `math.log` in the shift computation is replaced by given exponents, with the sizes required to match them exactly.
- `random.randint` in RAND eviction is the parameter `r < mapping`.
- Memory's random initial contents are a parameter of the constructors.
- The write policy, the program's global `args.WRITE`, is a parameter of `Write`.
- The hit and miss counters are fields of the `Simulator` class.
- Bytes are unbounded integers. The program never checks or truncates them, so no width is modelled.
- Lines are values stored in an array. The program shares `Line` objects between `_lines` and the slice `_get_set` returns, and shares data lists between the memory copy, the line and `load`'s result. No shared list is changed through one name and read through another, so values give the same results.
- MainMemory.Memory.SetBlock: requires data of exactly one block. Python's slice assignment would change the memory's length for other lengths, and no caller does that.
- CacheImpl.Cache.Load: requires data of exactly one block, which is what `get_block` always returns.
- CacheSpec.PhysicalAddress: requires an index inside the line array. Python would raise for an index past the end and wrap for a negative one; the program only passes its own line indices.
- Driver.Simulator.Read: requires `r < mapping`, standing for the range of `random.randint`. The same holds for the other members taking `r`.

## Findings

| source | as written | input that shows it | evidently intended | confidence | as-written member | corrected member |
|---|---|---|---|---|---|---|
| cpu-cache-simulator/cache.py:91-93 with cpu-cache-simulator/simulator.py:24-25 | `load` returns the leftover loop index (`mapping - 1`, or the random pick) with the dirty victim's data, and `read` stores that data at the block containing that small number | 64-byte, 2-way, LRU, write-back cache of 8-byte blocks over 256 bytes of zeros. Set 0 holds block 64 clean (use 2) and block 96 dirty with 7 in every byte (use 1), as read(64), read(96), writes of 7 to 96..103 and read(64) leave it. `read(0)` evicts block 96 and stores its bytes over block 0, so address 96 shows 0 instead of 7 | `load` returns the victim's physical address, so the dirty block goes back where it came from and no observed value changes | not executed | Driver.ReadStep, Findings.ReadMisplacesVictim, Findings.ReadClobbersIndexBlock, Findings.ExampleDirtyVictim, Findings.ExampleReadLosesWrite | Findings.LoadInfoFixed, Findings.ReadStepFixed, Findings.ReadFixedKeepsView |
| cpu-cache-simulator/simulator.py:46-51 | on a write-back write miss the value `load` returns is discarded, so a dirty victim's block never reaches memory | the same state; `write(0, 5)` under write-back evicts block 96 and address 96 then shows 0 instead of 7 | the victim is written back to its own address, as `read` intends to do | not executed | Driver.AllocateAndWrite, Findings.WriteMissDropsVictim, Findings.ExampleDirtyVictim, Findings.ExampleWriteLosesWrite | Findings.AllocateAndWriteFixed, Findings.WriteStepFixed, Findings.WriteFixedKeepsView |

The `Simulator` class and `ReadStep`/`WriteStep` keep the behaviour as written, since they model the program. The corrected definitions sit beside them in `Findings`, and the intended property is proved there.
