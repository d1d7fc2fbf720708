/** The driver routines `read` and `write` of simulator.py: they send each access to the cache,
    fetch the block from memory on a miss, write back what `load` hands out, apply the write
    policy, and count hits and misses. The command loop, printing and random accesses around
    them are not part of this model. */
module Driver {
  import opened LineRecord
  import opened CacheConfig
  import opened CacheSpec
  import opened MainMemory
  import opened CacheImpl

  /** Everything the two routines change: the cache's lines, memory's bytes and the two
      counters the program keeps as globals. */
  datatype Machine = Machine(lines: seq<Line>, mem: seq<int>, hits: nat, misses: nat)

  /** `read(address)`. `r` is the random pick `load` uses under RAND. When IndexError is raised
      part-way, the changes made before it stay. */
  function ReadStep(cfg: Config, m: Machine, address: int, r: nat): (step: (Result<int>, Machine))
    requires LinesOk(cfg, m.lines) && r < cfg.mapping
  {
    ReadStoring(cfg, m, address, r, LoadInfo(cfg, m.lines, address, r))
  }

  /** `read` whose miss branch stores `info` as what `load` returned for this access. */
  function ReadStoring(cfg: Config, m: Machine, address: int, r: nat, info: Option<(int, seq<int>)>)
    : (step: (Result<int>, Machine))
    requires LinesOk(cfg, m.lines) && r < cfg.mapping
    requires info.Some? ==> |info.value.1| == cfg.blockSize
  {
    match ReadBlock(cfg, m.lines, address)
    case Some(cached) =>
      (Ok(cached[Offset(cfg, address)]), m.(lines := ReadLines(cfg, m.lines, address), hits := m.hits + 1))
    case None => ReadMissStep(cfg, m, address, r, info)
  }

  /** The miss branch of `read`: fetch the block, load it, read the byte from the cache, count
      the miss, then store `info`, what `load` returned. */
  function ReadMissStep(cfg: Config, m: Machine, address: int, r: nat, info: Option<(int, seq<int>)>)
    : (step: (Result<int>, Machine))
    requires LinesOk(cfg, m.lines) && r < cfg.mapping && ReadBlock(cfg, m.lines, address).None?
    requires info.Some? ==> |info.value.1| == cfg.blockSize
  {
    match BlockAt(m.mem, cfg.blockSize, address)
    case IndexError => (IndexError, m)
    case Ok(block) =>
      var loaded := LoadLines(cfg, m.lines, address, block, r);
      LoadThenRead(cfg, m.lines, address, block, r);
      var cached := ReadBlock(cfg, loaded, address).value;
      var m1 := m.(lines := ReadLines(cfg, loaded, address), misses := m.misses + 1);
      StoreVictim(cfg.blockSize, cached[Offset(cfg, address)], m1, info)
  }

  /** Storing what `load` returned: nothing for a clean victim, otherwise the victim's data at
      the block containing the returned number; `value` is what the routine returns when that
      store does not raise. */
  function StoreVictim<T>(blockSize: nat, value: T, m: Machine, info: Option<(int, seq<int>)>)
    : (step: (Result<T>, Machine))
    requires blockSize > 0 && (info.Some? ==> |info.value.1| == blockSize)
  {
    match info
    case None => (Ok(value), m)
    case Some(victim) =>
      match WithBlock(m.mem, blockSize, victim.0, victim.1)
      case IndexError => (IndexError, m)
      case Ok(mem) => (Ok(value), m.(mem := mem))
  }

  /** `write(address, byte)` under the write policy `policy`: the cache write, the counters, then
      the policy's memory traffic. */
  function WriteStep(cfg: Config, policy: WritePolicy, m: Machine, address: int, byte: int, r: nat)
    : (step: (Result<()>, Machine))
    requires LinesOk(cfg, m.lines) && r < cfg.mapping
  {
    var hit := ReadBlock(cfg, m.lines, address).Some?;
    var m1 := m.(lines := WriteLines(cfg, m.lines, address, byte),
                 hits := if hit then m.hits + 1 else m.hits,
                 misses := if hit then m.misses else m.misses + 1);
    if policy == WriteThrough then WriteToMemory(cfg, m1, address, byte)
    else if hit then (Ok(()), m1)
    else AllocateAndWrite(cfg, m1, address, byte, r)
  }

  /** Write-through: fetch the block, patch the byte and store the block back. */
  function WriteToMemory(cfg: Config, m: Machine, address: int, byte: int): (step: (Result<()>, Machine))
    requires WellFormed(cfg)
  {
    match BlockAt(m.mem, cfg.blockSize, address)
    case IndexError => (IndexError, m)
    case Ok(block) =>
      match WithBlock(m.mem, cfg.blockSize, address, block[Offset(cfg, address) := byte])
      case IndexError => (IndexError, m)
      case Ok(mem) => (Ok(()), m.(mem := mem))
  }

  /** Write-back miss: fetch the block, load it (what `load` returns is dropped) and write the
      byte into the cache. */
  function AllocateAndWrite(cfg: Config, m: Machine, address: int, byte: int, r: nat)
    : (step: (Result<()>, Machine))
    requires LinesOk(cfg, m.lines) && r < cfg.mapping
  {
    match BlockAt(m.mem, cfg.blockSize, address)
    case IndexError => (IndexError, m)
    case Ok(block) =>
      var loaded := LoadLines(cfg, m.lines, address, block, r);
      (Ok(()), m.(lines := WriteLines(cfg, loaded, address, byte)))
  }

  // ------------------------------------------------------------------------- lemmas

  /** A read counts exactly one hit or one miss once it gets past fetching the block: a hit iff
      the address was resident. When the fetch raises, nothing has changed. */
  lemma ReadCounts(cfg: Config, m: Machine, address: int, r: nat)
    requires LinesOk(cfg, m.lines) && r < cfg.mapping
    ensures var hit := ReadBlock(cfg, m.lines, address).Some?;
      var (res, next) := ReadStep(cfg, m, address, r);
      && (hit ==> res.Ok? && next.hits == m.hits + 1 && next.misses == m.misses)
      && (!hit && BlockAt(m.mem, cfg.blockSize, address).Ok? ==>
            next.hits == m.hits && next.misses == m.misses + 1)
      && (!hit && BlockAt(m.mem, cfg.blockSize, address).IndexError? ==> res.IndexError? && next == m)
  {
  }

  /** A read returns the cached byte at the address's offset on a hit, and on a miss the byte
      memory held at the address before the read. */
  lemma ReadValue(cfg: Config, m: Machine, address: int, r: nat)
    requires LinesOk(cfg, m.lines) && r < cfg.mapping
    ensures var cached := ReadBlock(cfg, m.lines, address);
      var res := ReadStep(cfg, m, address, r).0;
      && (cached.Some? ==> res == Ok(cached.value[Offset(cfg, address)]))
      && (cached.None? && res.Ok? ==> 0 <= address < |m.mem| && res.value == m.mem[address])
  {
    AddressSplit(cfg, address);
    var cached := ReadBlock(cfg, m.lines, address);
    if cached.None? {
      var got := BlockAt(m.mem, cfg.blockSize, address);
      if got.Ok? {
        LoadThenRead(cfg, m.lines, address, got.value, r);
        assert BlockStart(cfg.blockSize, address) + Offset(cfg, address) == address;
      }
    }
  }

  /** After a read that fetched or found its block, the address hits in the cache. */
  lemma ReadMakesResident(cfg: Config, m: Machine, address: int, r: nat)
    requires LinesOk(cfg, m.lines) && r < cfg.mapping
    requires ReadBlock(cfg, m.lines, address).Some? || BlockAt(m.mem, cfg.blockSize, address).Ok?
    ensures ReadBlock(cfg, ReadStep(cfg, m, address, r).1.lines, address).Some?
  {
    var ls := m.lines;
    if ReadBlock(cfg, ls, address).Some? {
      SameBlocksSameLookup(cfg, ls, ReadLines(cfg, ls, address), address);
    } else {
      var block := BlockAt(m.mem, cfg.blockSize, address).value;
      var loaded := LoadLines(cfg, ls, address, block, r);
      LoadThenRead(cfg, ls, address, block, r);
      SameBlocksSameLookup(cfg, loaded, ReadLines(cfg, loaded, address), address);
    }
  }

  /** On a miss whose block fetch succeeds, the lines after the read are those of the load
      followed by the use-counter update. */
  lemma ReadMissLines(cfg: Config, m: Machine, address: int, r: nat)
    requires LinesOk(cfg, m.lines) && r < cfg.mapping
    requires ReadBlock(cfg, m.lines, address).None? && BlockAt(m.mem, cfg.blockSize, address).Ok?
    ensures ReadStep(cfg, m, address, r).1.lines
      == ReadLines(cfg, LoadLines(cfg, m.lines, address, BlockAt(m.mem, cfg.blockSize, address).value, r), address)
  {
  }

  /** A write-back write miss whose block fetch succeeds loads the block, patches the cached
      copy and leaves memory as it was. */
  lemma WriteBackMissState(cfg: Config, m: Machine, address: int, byte: int, r: nat)
    requires LinesOk(cfg, m.lines) && r < cfg.mapping
    requires ReadBlock(cfg, m.lines, address).None? && BlockAt(m.mem, cfg.blockSize, address).Ok?
    ensures var next := WriteStep(cfg, WriteBack, m, address, byte, r).1;
      && next.mem == m.mem
      && next.lines
         == WriteLines(cfg, LoadLines(cfg, m.lines, address, BlockAt(m.mem, cfg.blockSize, address).value, r), address, byte)
  {
  }

  /** On a miss that evicts a dirty line, memory after the read is the victim's data stored at
      the block of the number `load` returned, or unchanged when that block is out of range (the
      read then raises). */
  lemma ReadMissMemory(cfg: Config, m: Machine, address: int, r: nat)
    requires LinesOk(cfg, m.lines) && r < cfg.mapping
    requires ReadBlock(cfg, m.lines, address).None? && BlockAt(m.mem, cfg.blockSize, address).Ok?
    requires LoadInfo(cfg, m.lines, address, r).Some?
    ensures var info := LoadInfo(cfg, m.lines, address, r).value;
      var next := ReadStep(cfg, m, address, r).1;
      && (InRange(|m.mem|, cfg.blockSize, info.0) ==> next.mem == WithBlock(m.mem, cfg.blockSize, info.0, info.1).value)
      && (!InRange(|m.mem|, cfg.blockSize, info.0) ==> next.mem == m.mem)
  {
  }

  /** Memory changes on a read only when the victim was dirty, and then only inside the block
      that contains the victim's position within its set (`victim_info[0]`, a number below
      `mapping`), not the block the victim held. */
  lemma ReadWriteBack(cfg: Config, m: Machine, address: int, r: nat)
    requires LinesOk(cfg, m.lines) && r < cfg.mapping
    ensures var next := ReadStep(cfg, m, address, r).1;
      var info := LoadInfo(cfg, m.lines, address, r);
      && |next.mem| == |m.mem|
      && (ReadBlock(cfg, m.lines, address).Some? || info.None? ==> next.mem == m.mem)
      && (info.Some? ==> 0 <= info.value.0 < cfg.mapping)
      && (info.Some? ==>
            forall i :: 0 <= i < |m.mem| && next.mem[i] != m.mem[i] ==>
              BlockStart(cfg.blockSize, info.value.0) <= i < BlockStart(cfg.blockSize, info.value.0) + cfg.blockSize)
  {
  }

  /** A write always counts exactly one hit or one miss, a hit iff the address was resident. */
  lemma WriteCounts(cfg: Config, policy: WritePolicy, m: Machine, address: int, byte: int, r: nat)
    requires LinesOk(cfg, m.lines) && r < cfg.mapping
    ensures var hit := ReadBlock(cfg, m.lines, address).Some?;
      var next := WriteStep(cfg, policy, m, address, byte, r).1;
      && next.hits + next.misses == m.hits + m.misses + 1
      && (next.hits == m.hits + 1 <==> hit)
  {
  }

  /** Write-through: a successful write leaves `byte` at the address in memory and every other
      byte as it was; a miss leaves the cache alone (no write-allocate); a hit leaves the same
      byte in the cache. A failed write leaves memory unchanged. */
  lemma WriteThroughEffect(cfg: Config, m: Machine, address: int, byte: int, r: nat)
    requires LinesOk(cfg, m.lines) && r < cfg.mapping
    ensures var (res, next) := WriteStep(cfg, WriteThrough, m, address, byte, r);
      && |next.mem| == |m.mem|
      && (res.Ok? ==> 0 <= address < |m.mem|)
      && (res.Ok? ==> forall i :: 0 <= i < |m.mem| ==> next.mem[i] == if i == address then byte else m.mem[i])
      && (res.IndexError? ==> next.mem == m.mem)
      && (ReadBlock(cfg, m.lines, address).None? ==> next.lines == m.lines)
      && (ReadBlock(cfg, m.lines, address).Some? ==>
            ReadBlock(cfg, next.lines, address).Some? &&
            ReadBlock(cfg, next.lines, address).value[Offset(cfg, address)] == byte)
  {
    AddressSplit(cfg, address);
    var ls := m.lines;
    var found := Lookup(cfg, ls, address);
    if found.Some? {
      WriteThenRead(cfg, ls, address, byte, found.value);
    }
    var got := BlockAt(m.mem, cfg.blockSize, address);
    if got.Ok? {
      assert BlockStart(cfg.blockSize, address) + Offset(cfg, address) == address;
    }
  }

  /** Write-back: memory is never touched. A hit, and a miss whose block could be fetched, leave
      `byte` at the address's offset of the resident block. */
  lemma WriteBackEffect(cfg: Config, m: Machine, address: int, byte: int, r: nat)
    requires LinesOk(cfg, m.lines) && r < cfg.mapping
    ensures var (res, next) := WriteStep(cfg, WriteBack, m, address, byte, r);
      && next.mem == m.mem
      && (ReadBlock(cfg, m.lines, address).Some? ==> res.Ok?)
      && (res.Ok? ==>
            ReadBlock(cfg, next.lines, address).Some? &&
            ReadBlock(cfg, next.lines, address).value[Offset(cfg, address)] == byte)
  {
    AddressSplit(cfg, address);
    var ls := m.lines;
    var found := Lookup(cfg, ls, address);
    if found.Some? {
      WriteThenRead(cfg, ls, address, byte, found.value);
    } else {
      var got := BlockAt(m.mem, cfg.blockSize, address);
      if got.Ok? {
        var loaded := LoadLines(cfg, ls, address, got.value, r);
        LoadThenRead(cfg, ls, address, got.value, r);
        WriteThenRead(cfg, loaded, address, byte, Victim(cfg, ls, address, r));
      }
    }
  }

  /** The driver keeps one valid line per block in every set: it loads only after a miss. This
      holds whatever the miss branch stores, so for the corrected read as well. */
  lemma ReadKeepsNoDuplicates(cfg: Config, m: Machine, address: int, r: nat, info: Option<(int, seq<int>)>)
    requires LinesOk(cfg, m.lines) && r < cfg.mapping && NoDuplicateTags(cfg, m.lines)
    requires info.Some? ==> |info.value.1| == cfg.blockSize
    ensures LinesOk(cfg, ReadStoring(cfg, m, address, r, info).1.lines)
    ensures NoDuplicateTags(cfg, ReadStoring(cfg, m, address, r, info).1.lines)
  {
    var ls := m.lines;
    if ReadBlock(cfg, ls, address).Some? {
      SameBlocksSameLookup(cfg, ls, ReadLines(cfg, ls, address), address);
    } else {
      var got := BlockAt(m.mem, cfg.blockSize, address);
      if got.Ok? {
        var loaded := LoadLines(cfg, ls, address, got.value, r);
        LoadAfterMissKeepsNoDuplicates(cfg, ls, address, got.value, r);
        SameBlocksSameLookup(cfg, loaded, ReadLines(cfg, loaded, address), address);
      }
    }
  }

  lemma WriteKeepsNoDuplicates(cfg: Config, policy: WritePolicy, m: Machine, address: int, byte: int, r: nat)
    requires LinesOk(cfg, m.lines) && r < cfg.mapping && NoDuplicateTags(cfg, m.lines)
    ensures LinesOk(cfg, WriteStep(cfg, policy, m, address, byte, r).1.lines)
    ensures NoDuplicateTags(cfg, WriteStep(cfg, policy, m, address, byte, r).1.lines)
  {
    var ls := m.lines;
    SameBlocksSameLookup(cfg, ls, WriteLines(cfg, ls, address, byte), address);
    if policy == WriteBack && ReadBlock(cfg, ls, address).None? {
      var got := BlockAt(m.mem, cfg.blockSize, address);
      if got.Ok? {
        var loaded := LoadLines(cfg, ls, address, got.value, r);
        LoadAfterMissKeepsNoDuplicates(cfg, ls, address, got.value, r);
        SameBlocksSameLookup(cfg, loaded, WriteLines(cfg, loaded, address, byte), address);
      }
    }
  }

  // -------------------------------------------------------------------------- driver

  /** The program's session: a cache, a memory and the two counters, which the program keeps as
      module globals. */
  class Simulator {
    var hits: nat
    var misses: nat
    const cache: Cache
    const memory: Memory

    ghost predicate Valid()
      reads this, cache, cache.lines, memory
    {
      && cache.Valid() && memory.Valid()
      && memory.blockSize == cache.cfg.blockSize
      && NoDuplicateTags(cache.cfg, cache.lines[..])
    }

    ghost function State(): Machine
      reads this, cache, cache.lines, memory
    {
      Machine(cache.lines[..], memory.data, hits, misses)
    }

    /** The set-up of simulator.py: a memory of `memSize` bytes (initially `contents`), a cache
        built from the same sizes, and both counters at zero. */
    constructor (memSize: nat, cacheSize: nat, blockSize: nat, mapping: nat,
                 replace: Replacement, write: WritePolicy, tagShift: nat, setShift: nat,
                 contents: seq<int>)
      requires WellFormed(Config(cacheSize, memSize, blockSize, mapping, replace, write, tagShift, setShift))
      requires |contents| == memSize
      ensures Valid() && fresh(cache) && fresh(cache.lines) && fresh(memory)
      ensures cache.cfg == Config(cacheSize, memSize, blockSize, mapping, replace, write, tagShift, setShift)
      ensures State() == Machine(FreshLines(cache.cfg), contents, 0, 0)
    {
      hits, misses := 0, 0;
      memory := new Memory(memSize, blockSize, contents);
      cache := new Cache(cacheSize, memSize, blockSize, mapping, replace, write, tagShift, setShift);
    }

    /** `read(address, memory, cache)`. */
    method Read(address: int, r: nat) returns (result: Result<int>)
      requires Valid() && r < cache.cfg.mapping
      modifies this, cache.lines, memory
      ensures Valid()
      ensures (result, State()) == ReadStep(cache.cfg, old(State()), address, r)
    {
      ghost var m := State();
      var cacheBlock := cache.Read(address);
      if cacheBlock.Some? {
        SameBlocksSameLookup(cache.cfg, m.lines, cache.lines[..], address);
        hits := hits + 1;
        result := Ok(cacheBlock.value[Offset(cache.cfg, address)]);
      } else {
        result := ReadMiss(address, r);
      }
    }

    /** The miss branch of `read`: fetch the block, load it (evicting a victim), read it back,
        count the miss and store the victim's block as `load` reported it. */
    method ReadMiss(address: int, r: nat) returns (result: Result<int>)
      requires Valid() && r < cache.cfg.mapping && ReadBlock(cache.cfg, cache.lines[..], address).None?
      modifies this, cache.lines, memory
      ensures Valid()
      ensures (result, State())
        == ReadMissStep(cache.cfg, old(State()), address, r, LoadInfo(cache.cfg, old(State()).lines, address, r))
    {
      ghost var m := State();
      var block := memory.GetBlock(address);
      if block.IndexError? {
        return IndexError;
      }
      var victimInfo := cache.Load(address, block.value, r);
      LoadThenRead(cache.cfg, m.lines, address, block.value, r);
      LoadAfterMissKeepsNoDuplicates(cache.cfg, m.lines, address, block.value, r);
      ghost var loaded := cache.lines[..];
      var cacheBlock := cache.Read(address);
      SameBlocksSameLookup(cache.cfg, loaded, cache.lines[..], address);
      misses := misses + 1;
      result := WriteBackVictim(cacheBlock.value[Offset(cache.cfg, address)], victimInfo);
    }

    /** The end of `read`'s miss branch: when `load` returned something, store it with
        `set_block`, which may raise. */
    method WriteBackVictim(value: int, info: Option<(int, seq<int>)>) returns (result: Result<int>)
      requires Valid() && (info.Some? ==> |info.value.1| == memory.blockSize)
      modifies memory
      ensures Valid()
      ensures (result, State()) == StoreVictim(cache.cfg.blockSize, value, old(State()), info)
    {
      result := Ok(value);
      if info.Some? {
        var stored := memory.SetBlock(info.value.0, info.value.1);
        if stored.IndexError? {
          result := IndexError;
        }
      }
    }

    /** `write(address, byte, memory, cache)`; `policy` is the program's `args.WRITE`. */
    method Write(address: int, byte: int, policy: WritePolicy, r: nat) returns (result: Result<()>)
      requires Valid() && r < cache.cfg.mapping
      modifies this, cache.lines, memory
      ensures Valid()
      ensures (result, State()) == WriteStep(cache.cfg, policy, old(State()), address, byte, r)
    {
      ghost var m := State();
      var written := cache.Write(address, byte);
      SameBlocksSameLookup(cache.cfg, m.lines, cache.lines[..], address);
      if written {
        hits := hits + 1;
      } else {
        misses := misses + 1;
      }
      assert State() == m.(lines := WriteLines(cache.cfg, m.lines, address, byte), hits := hits, misses := misses);
      if policy == WriteThrough {
        result := StoreThrough(address, byte);
      } else if policy == WriteBack && !written {
        result := Allocate(address, byte, r);
      } else {
        result := Ok(());
      }
    }

    /** The write-through branch of `write`: fetch the block, patch the byte, store the block. */
    method StoreThrough(address: int, byte: int) returns (result: Result<()>)
      requires Valid()
      modifies memory
      ensures Valid()
      ensures (result, State()) == WriteToMemory(cache.cfg, old(State()), address, byte)
    {
      var block := memory.GetBlock(address);
      if block.IndexError? {
        return IndexError;
      }
      var patched := block.value[Offset(cache.cfg, address) := byte];
      var stored := memory.SetBlock(address, patched);
      if stored.IndexError? {
        return IndexError;
      }
      result := Ok(());
    }

    /** The write-back miss branch of `write`: fetch the block, load it (dropping what `load`
        returns) and write the byte into the cache. */
    method Allocate(address: int, byte: int, r: nat) returns (result: Result<()>)
      requires Valid() && r < cache.cfg.mapping && ReadBlock(cache.cfg, cache.lines[..], address).None?
      modifies cache.lines
      ensures Valid()
      ensures (result, State()) == AllocateAndWrite(cache.cfg, old(State()), address, byte, r)
    {
      ghost var before := cache.lines[..];
      var block := memory.GetBlock(address);
      if block.IndexError? {
        return IndexError;
      }
      var dropped := cache.Load(address, block.value, r);
      LoadAfterMissKeepsNoDuplicates(cache.cfg, before, address, block.value, r);
      ghost var loaded := cache.lines[..];
      var rewritten := cache.Write(address, byte);
      SameBlocksSameLookup(cache.cfg, loaded, cache.lines[..], address);
      result := Ok(());
    }
  }
}
