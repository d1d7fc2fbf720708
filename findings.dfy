/** Two places where the driver loses data, each shown on a concrete state, and the corrected
    driver with the property the program evidently intends proved about it: the cache is
    invisible, so every address shows the value last written to it.

    1. `load` hands back `(index, data)` where `index` is the victim's position within its set,
       and `read` stores the victim's block at that number as if it were an address.
    2. On a write miss under write-back, `write` throws away what `load` returns, so a dirty
       victim's block never reaches memory. */
module Findings {
  import opened LineRecord
  import opened CacheConfig
  import opened CacheSpec
  import opened MainMemory
  import opened Driver
  import opened Coherence

  // ------------------------------------------------------------- corrected definitions

  /** `load`'s result with the victim's own address (`get_physical_address` of the victim)
      in place of the leftover loop index: the tag and the set are the victim's, the offset is
      zero. */
  function LoadInfoFixed(cfg: Config, ls: seq<Line>, address: int, r: nat): (info: Option<(int, seq<int>)>)
    requires LinesOk(cfg, ls) && r < cfg.mapping
    ensures var v := Victim(cfg, ls, address, r);
      && (info.None? <==> !ls[v].modified)
      && (info.Some? ==> info.value.1 == ls[v].data)
      && (info.Some? ==>
            && Tag(cfg, info.value.0) == ls[v].tag
            && SetIndex(cfg, info.value.0) == SetIndex(cfg, address)
            && Offset(cfg, info.value.0) == 0)
  {
    var v := Victim(cfg, ls, address, r);
    InSetIff(cfg, address, v);
    if ls[v].modified then Some((PhysicalAddress(cfg, ls, v), ls[v].data)) else None
  }

  /** `read` with the victim written back to its own address. */
  function ReadStepFixed(cfg: Config, m: Machine, address: int, r: nat): (step: (Result<int>, Machine))
    requires LinesOk(cfg, m.lines) && r < cfg.mapping
  {
    ReadStoring(cfg, m, address, r, LoadInfoFixed(cfg, m.lines, address, r))
  }

  /** Write-back miss, corrected: load the block, write the byte, and store the victim's old
      block at the victim's address. */
  function AllocateAndWriteFixed(cfg: Config, m: Machine, address: int, byte: int, r: nat)
    : (step: (Result<()>, Machine))
    requires LinesOk(cfg, m.lines) && r < cfg.mapping
  {
    match BlockAt(m.mem, cfg.blockSize, address)
    case IndexError => (IndexError, m)
    case Ok(block) =>
      var loaded := LoadLines(cfg, m.lines, address, block, r);
      var m1 := m.(lines := WriteLines(cfg, loaded, address, byte));
      StoreVictim(cfg.blockSize, (), m1, LoadInfoFixed(cfg, m.lines, address, r))
  }

  /** `write` with the write-back miss corrected; write-through is unchanged. */
  function WriteStepFixed(cfg: Config, policy: WritePolicy, m: Machine, address: int, byte: int, r: nat)
    : (step: (Result<()>, Machine))
    requires LinesOk(cfg, m.lines) && r < cfg.mapping
  {
    var hit := ReadBlock(cfg, m.lines, address).Some?;
    var m1 := m.(lines := WriteLines(cfg, m.lines, address, byte),
                 hits := if hit then m.hits + 1 else m.hits,
                 misses := if hit then m.misses else m.misses + 1);
    if policy == WriteThrough then WriteToMemory(cfg, m1, address, byte)
    else if hit then (Ok(()), m1)
    else AllocateAndWriteFixed(cfg, m1, address, byte, r)
  }

  // ------------------------------------------------------------- the corrected miss

  /** A coherent state in which `address` misses and its block can be fetched. */
  predicate MissReady(cfg: Config, ls: seq<Line>, mem: seq<int>, address: int, r: nat) {
    && Coherent(cfg, ls, mem) && r < cfg.mapping
    && ReadBlock(cfg, ls, address).None? && BlockAt(mem, cfg.blockSize, address).Ok?
  }

  /** On a miss the victim, if valid, holds some other block, and a dirty victim's block fits in
      memory, so writing it back cannot raise. */
  lemma VictimBlockApart(cfg: Config, ls: seq<Line>, mem: seq<int>, address: int, r: nat)
    requires MissReady(cfg, ls, mem, address, r)
    ensures var v := Victim(cfg, ls, address, r);
      && (ls[v].valid ==> PhysicalAddress(cfg, ls, v) != BlockStart(cfg.blockSize, address))
      && (ls[v].modified ==> ls[v].valid && WithBlock(mem, cfg.blockSize, PhysicalAddress(cfg, ls, v), ls[v].data).Ok?)
  {
    var v := Victim(cfg, ls, address, r);
    LineBlock(cfg, ls, v, address);
    assert LineCoherent(cfg, ls, mem, v);
  }

  /** Memory after the corrected write-back of the victim. */
  function WrittenBack(cfg: Config, ls: seq<Line>, mem: seq<int>, address: int, r: nat): (res: seq<int>)
    requires MissReady(cfg, ls, mem, address, r)
    ensures |res| == |mem|
  {
    VictimBlockApart(cfg, ls, mem, address, r);
    match LoadInfoFixed(cfg, ls, address, r)
    case None => mem
    case Some(victim) => WithBlock(mem, cfg.blockSize, victim.0, victim.1).value
  }

  /** The corrected miss keeps the state coherent. */
  lemma FillCoherent(cfg: Config, ls: seq<Line>, mem: seq<int>, address: int, r: nat)
    requires MissReady(cfg, ls, mem, address, r)
    ensures Coherent(cfg, LoadLines(cfg, ls, address, BlockAt(mem, cfg.blockSize, address).value, r),
                     WrittenBack(cfg, ls, mem, address, r))
  {
    var bs := cfg.blockSize;
    var block := BlockAt(mem, bs, address).value;
    var loaded := LoadLines(cfg, ls, address, block, r);
    var mem' := WrittenBack(cfg, ls, mem, address, r);
    var v := Victim(cfg, ls, address, r);
    var p := BlockStart(bs, address);
    VictimBlockApart(cfg, ls, mem, address, r);
    LoadedLineAddress(cfg, ls, address, block, r);
    LoadAfterMissKeepsNoDuplicates(cfg, ls, address, block, r);
    StartAligned(bs, address);
    LineAligned(cfg, ls, v);
    forall k | 0 <= k < |loaded| ensures LineCoherent(cfg, loaded, mem', k) {
      if k == v {
        if ls[v].modified {
          OtherBlockKept(mem, bs, PhysicalAddress(cfg, ls, v), ls[v].data, p);
        }
        assert BlockAt(mem', bs, p) == BlockAt(mem, bs, address);
      } else {
        assert loaded[k] == ls[k].(use := loaded[k].use);
        assert PhysicalAddress(cfg, loaded, k) == PhysicalAddress(cfg, ls, k);
        assert LineCoherent(cfg, ls, mem, k);
        if ls[k].valid && ls[v].modified {
          DistinctBlocks(cfg, ls, k, v);
          LineAligned(cfg, ls, k);
          OtherBlockKept(mem, bs, PhysicalAddress(cfg, ls, v), ls[v].data, PhysicalAddress(cfg, ls, k));
        }
      }
    }
  }

  /** The corrected miss changes no observed value: the fetched block shows what memory held,
      and the victim's block, no longer cached, is now in memory. */
  lemma FillView(cfg: Config, ls: seq<Line>, mem: seq<int>, address: int, r: nat, b: int)
    requires MissReady(cfg, ls, mem, address, r) && 0 <= b < |mem|
    ensures var loaded := LoadLines(cfg, ls, address, BlockAt(mem, cfg.blockSize, address).value, r);
      View(cfg, loaded, WrittenBack(cfg, ls, mem, address, r), b) == View(cfg, ls, mem, b)
  {
    var v := Victim(cfg, ls, address, r);
    var sb := BlockStart(cfg.blockSize, b);
    if sb == BlockStart(cfg.blockSize, address) {
      FillViewFetched(cfg, ls, mem, address, r, b);
    } else if ls[v].valid && sb == PhysicalAddress(cfg, ls, v) {
      FillViewVictim(cfg, ls, mem, address, r, b);
    } else {
      FillViewOther(cfg, ls, mem, address, r, b);
    }
  }

  /** Lines other than the victim keep their blocks and data through the load. */
  lemma LoadKeepsOthers(cfg: Config, ls: seq<Line>, address: int, d: seq<int>, r: nat, b: int)
    requires LinesOk(cfg, ls) && r < cfg.mapping && |d| == cfg.blockSize
    ensures var loaded := LoadLines(cfg, ls, address, d, r);
      forall k :: 0 <= k < |ls| && k != Victim(cfg, ls, address, r) ==>
        HeldBy(cfg, loaded, k, b) == HeldBy(cfg, ls, k, b) && loaded[k].data == ls[k].data
  {
    var loaded := LoadLines(cfg, ls, address, d, r);
    forall k | 0 <= k < |ls| && k != Victim(cfg, ls, address, r)
      ensures HeldBy(cfg, loaded, k, b) == HeldBy(cfg, ls, k, b) && loaded[k].data == ls[k].data
    {
      assert loaded[k] == ls[k].(use := loaded[k].use);
      assert PhysicalAddress(cfg, loaded, k) == PhysicalAddress(cfg, ls, k);
    }
  }

  lemma FillViewFetched(cfg: Config, ls: seq<Line>, mem: seq<int>, address: int, r: nat, b: int)
    requires MissReady(cfg, ls, mem, address, r) && 0 <= b < |mem|
    requires BlockStart(cfg.blockSize, b) == BlockStart(cfg.blockSize, address)
    ensures var loaded := LoadLines(cfg, ls, address, BlockAt(mem, cfg.blockSize, address).value, r);
      View(cfg, loaded, WrittenBack(cfg, ls, mem, address, r), b) == View(cfg, ls, mem, b)
  {
    var block := BlockAt(mem, cfg.blockSize, address).value;
    var loaded := LoadLines(cfg, ls, address, block, r);
    var v := Victim(cfg, ls, address, r);
    LoadedLineAddress(cfg, ls, address, block, r);
    LoadAfterMissKeepsNoDuplicates(cfg, ls, address, block, r);
    ViewHeld(cfg, loaded, WrittenBack(cfg, ls, mem, address, r), v, b);
    ViewByLine(cfg, ls, address);
    ViewFree(cfg, ls, mem, b);
  }

  lemma FillViewVictim(cfg: Config, ls: seq<Line>, mem: seq<int>, address: int, r: nat, b: int)
    requires MissReady(cfg, ls, mem, address, r) && 0 <= b < |mem|
    requires ls[Victim(cfg, ls, address, r)].valid
    requires BlockStart(cfg.blockSize, b) == PhysicalAddress(cfg, ls, Victim(cfg, ls, address, r))
    ensures var loaded := LoadLines(cfg, ls, address, BlockAt(mem, cfg.blockSize, address).value, r);
      View(cfg, loaded, WrittenBack(cfg, ls, mem, address, r), b) == View(cfg, ls, mem, b)
  {
    var block := BlockAt(mem, cfg.blockSize, address).value;
    var loaded := LoadLines(cfg, ls, address, block, r);
    var v := Victim(cfg, ls, address, r);
    var mem' := WrittenBack(cfg, ls, mem, address, r);
    VictimBlockApart(cfg, ls, mem, address, r);
    VictimBlockEvicted(cfg, ls, mem, address, r, b);
    LoadAfterMissKeepsNoDuplicates(cfg, ls, address, block, r);
    UncachedView(cfg, loaded, mem', b);
    ViewHeld(cfg, ls, mem, v, b);
    VictimBytes(cfg, ls, mem, address, r, b);
  }

  /** Where the corrected miss stores the victim, memory holds the victim's byte; where the
      victim was clean, memory already held it. */
  lemma VictimBytes(cfg: Config, ls: seq<Line>, mem: seq<int>, address: int, r: nat, b: int)
    requires MissReady(cfg, ls, mem, address, r) && 0 <= b < |mem|
    requires ls[Victim(cfg, ls, address, r)].valid
    requires BlockStart(cfg.blockSize, b) == PhysicalAddress(cfg, ls, Victim(cfg, ls, address, r))
    ensures WrittenBack(cfg, ls, mem, address, r)[b] == ls[Victim(cfg, ls, address, r)].data[Offset(cfg, b)]
  {
    var v := Victim(cfg, ls, address, r);
    VictimBlockApart(cfg, ls, mem, address, r);
    LineAligned(cfg, ls, v);
    assert LineCoherent(cfg, ls, mem, v);
  }

  lemma FillViewOther(cfg: Config, ls: seq<Line>, mem: seq<int>, address: int, r: nat, b: int)
    requires MissReady(cfg, ls, mem, address, r) && 0 <= b < |mem|
    requires BlockStart(cfg.blockSize, b) != BlockStart(cfg.blockSize, address)
    requires !(ls[Victim(cfg, ls, address, r)].valid &&
               BlockStart(cfg.blockSize, b) == PhysicalAddress(cfg, ls, Victim(cfg, ls, address, r)))
    ensures var loaded := LoadLines(cfg, ls, address, BlockAt(mem, cfg.blockSize, address).value, r);
      View(cfg, loaded, WrittenBack(cfg, ls, mem, address, r), b) == View(cfg, ls, mem, b)
  {
    var bs := cfg.blockSize;
    var block := BlockAt(mem, bs, address).value;
    var loaded := LoadLines(cfg, ls, address, block, r);
    var v := Victim(cfg, ls, address, r);
    VictimBlockApart(cfg, ls, mem, address, r);
    LoadedLineAddress(cfg, ls, address, block, r);
    LoadAfterMissKeepsNoDuplicates(cfg, ls, address, block, r);
    LoadKeepsOthers(cfg, ls, address, block, r, b);
    ViewByLine(cfg, loaded, b);
    ViewByLine(cfg, ls, b);
    AddressSplit(cfg, b);
    assert !HeldBy(cfg, loaded, v, b) && !HeldBy(cfg, ls, v, b);
    if ls[v].modified {
      OtherBlockKept(mem, bs, PhysicalAddress(cfg, ls, v), ls[v].data, b);
    }
    if exists k :: 0 <= k < |ls| && HeldBy(cfg, ls, k, b) {
      var k :| 0 <= k < |ls| && HeldBy(cfg, ls, k, b);
      assert HeldBy(cfg, loaded, k, b);
    }
  }

  lemma FillKeeps(cfg: Config, ls: seq<Line>, mem: seq<int>, address: int, r: nat)
    requires MissReady(cfg, ls, mem, address, r)
    ensures var loaded := LoadLines(cfg, ls, address, BlockAt(mem, cfg.blockSize, address).value, r);
      && Coherent(cfg, loaded, WrittenBack(cfg, ls, mem, address, r))
      && forall b :: 0 <= b < |mem| ==>
           View(cfg, loaded, WrittenBack(cfg, ls, mem, address, r), b) == View(cfg, ls, mem, b)
  {
    FillCoherent(cfg, ls, mem, address, r);
    forall b | 0 <= b < |mem|
      ensures View(cfg, LoadLines(cfg, ls, address, BlockAt(mem, cfg.blockSize, address).value, r),
                   WrittenBack(cfg, ls, mem, address, r), b) == View(cfg, ls, mem, b)
    {
      FillView(cfg, ls, mem, address, r, b);
    }
  }

  // ------------------------------------------------------- the corrected driver is invisible

  /** A read under the corrected driver returns the value the address shows, raises exactly when
      the address's block lies outside memory, keeps the state coherent and changes no value. */
  lemma ReadFixedKeepsView(cfg: Config, m: Machine, address: int, r: nat)
    requires Coherent(cfg, m.lines, m.mem) && r < cfg.mapping
    ensures var (res, next) := ReadStepFixed(cfg, m, address, r);
      && Coherent(cfg, next.lines, next.mem) && |next.mem| == |m.mem|
      && (res.Ok? <==> InRange(|m.mem|, cfg.blockSize, address))
      && (res.Ok? ==> 0 <= address < |m.mem| && res.value == View(cfg, m.lines, m.mem, address))
      && forall b :: 0 <= b < |m.mem| ==> View(cfg, next.lines, next.mem, b) == View(cfg, m.lines, m.mem, b)
  {
    var ls := m.lines;
    AddressSplit(cfg, address);
    if ReadBlock(cfg, ls, address).Some? {
      ResidentInRange(cfg, ls, m.mem, address);
      UseOnlyKeeps(cfg, ls, ReadLines(cfg, ls, address), m.mem);
    } else if BlockAt(m.mem, cfg.blockSize, address).Ok? {
      var block := BlockAt(m.mem, cfg.blockSize, address).value;
      var loaded := LoadLines(cfg, ls, address, block, r);
      FillKeeps(cfg, ls, m.mem, address, r);
      VictimBlockApart(cfg, ls, m.mem, address, r);
      var mem' := WrittenBack(cfg, ls, m.mem, address, r);
      assert ReadStepFixed(cfg, m, address, r).1.mem == mem';
      UseOnlyKeeps(cfg, loaded, ReadLines(cfg, loaded, address), mem');
      LoadThenRead(cfg, ls, address, block, r);
      assert BlockStart(cfg.blockSize, address) + Offset(cfg, address) == address;
    }
  }

  /** A write under the corrected driver, under either policy, raises exactly when the
      address's block lies outside memory, keeps the state coherent, and afterwards the written
      address shows the byte and every other address its old value. */
  lemma WriteFixedKeepsView(cfg: Config, policy: WritePolicy, m: Machine, address: int, byte: int, r: nat)
    requires Coherent(cfg, m.lines, m.mem) && r < cfg.mapping
    ensures var (res, next) := WriteStepFixed(cfg, policy, m, address, byte, r);
      && Coherent(cfg, next.lines, next.mem) && |next.mem| == |m.mem|
      && (res.Ok? <==> InRange(|m.mem|, cfg.blockSize, address))
      && forall b :: 0 <= b < |m.mem| ==>
           View(cfg, next.lines, next.mem, b) == if res.Ok? && b == address then byte else View(cfg, m.lines, m.mem, b)
  {
    var ls := m.lines;
    var hit := ReadBlock(cfg, ls, address).Some?;
    if hit {
      ResidentInRange(cfg, ls, m.mem, address);
    }
    if policy == WriteThrough {
      if BlockAt(m.mem, cfg.blockSize, address).Ok? {
        WriteThroughKeeps(cfg, ls, m.mem, address, byte);
      }
    } else if hit {
      WriteHitKeeps(cfg, ls, m.mem, address, byte);
    } else if BlockAt(m.mem, cfg.blockSize, address).Ok? {
      var block := BlockAt(m.mem, cfg.blockSize, address).value;
      var loaded := LoadLines(cfg, ls, address, block, r);
      FillKeeps(cfg, ls, m.mem, address, r);
      VictimBlockApart(cfg, ls, m.mem, address, r);
      var mem' := WrittenBack(cfg, ls, m.mem, address, r);
      LoadThenRead(cfg, ls, address, block, r);
      WriteHitKeeps(cfg, loaded, mem', address, byte);
      assert WriteStepFixed(cfg, policy, m, address, byte, r).1.lines == WriteLines(cfg, loaded, address, byte);
      assert WriteStepFixed(cfg, policy, m, address, byte, r).1.mem == mem';
    }
  }

  // ------------------------------------------------------------- the code as written

  /** A 64-byte two-way cache of 8-byte blocks (four sets) over 256 bytes of memory, LRU and
      write-back. Set 0 holds block 64 clean (use 2) and block 96 dirty with 7 in every byte
      (use 1); memory is all zeros, so address 96 shows 7 only through the cache. The driver
      reaches this state from an empty cache with read(64), read(96), a write of 7 to each of
      addresses 96 to 103, and read(64). */
  const ExampleConfig := Config(64, 256, 8, 2, LRU, WriteBack, 5, 3)
  const ExampleLines := [Line(2, false, true, 2, seq(8, _ => 0)), Line(1, true, true, 3, seq(8, _ => 7))]
                        + seq(6, _ => NewLine(8))

  predicate Zeros(mem: seq<int>) {
    |mem| == 256 && forall i :: 0 <= i < |mem| ==> mem[i] == 0
  }

  lemma ExampleGeometry()
    ensures WellFormed(ExampleConfig) && NumLines(ExampleConfig) == 8 && |ExampleLines| == 8
    ensures LinesOk(ExampleConfig, ExampleLines)
    ensures Tag(ExampleConfig, 96) == 3 && SetIndex(ExampleConfig, 96) == 0 && Offset(ExampleConfig, 96) == 0
    ensures Tag(ExampleConfig, 0) == 0 && SetIndex(ExampleConfig, 0) == 0 && Offset(ExampleConfig, 0) == 0
    ensures PhysicalAddress(ExampleConfig, ExampleLines, 0) == 64
    ensures PhysicalAddress(ExampleConfig, ExampleLines, 1) == 96
    ensures forall k :: 2 <= k < 8 ==> ExampleLines[k] == NewLine(8)
  {
    assert Pow2(5) == 32 && Pow2(3) == 8 && Pow2(2) == 4;
  }

  /** Address 0's block in the example's memory is all zeros. */
  lemma ExampleBlock0(mem: seq<int>)
    requires Zeros(mem)
    ensures BlockAt(mem, 8, 0) == Ok(seq(8, _ => 0))
  {
    assert BlockAt(mem, 8, 0).value == seq(8, _ => 0);
  }

  lemma ExampleView(mem: seq<int>)
    requires Zeros(mem)
    ensures View(ExampleConfig, ExampleLines, mem, 96) == 7
  {
    ExampleGeometry();
    assert Hit(ExampleConfig, ExampleLines, 96, 1);
  }

  lemma ExampleVictim()
    ensures Victim(ExampleConfig, ExampleLines, 0, 0) == 1
  {
    ExampleGeometry();
    LeftmostMinUnique(ExampleLines, 0, 2, Victim(ExampleConfig, ExampleLines, 0, 0), 1);
  }

  lemma ExampleMissAt0()
    ensures ReadBlock(ExampleConfig, ExampleLines, 0).None?
  {
    ExampleGeometry();
    assert !Matches(ExampleLines[0], 0) && !Matches(ExampleLines[1], 0);
  }

  lemma ExampleCoherent(mem: seq<int>)
    requires Zeros(mem)
    ensures Coherent(ExampleConfig, ExampleLines, mem)
  {
    var cfg, ls := ExampleConfig, ExampleLines;
    ExampleGeometry();
    assert BlockAt(mem, 8, 64).value == ls[0].data;
    forall k | 0 <= k < |ls| ensures LineCoherent(cfg, ls, mem, k) {
      if k >= 2 {
        assert ls[k] == NewLine(8);
      }
    }
  }

  /** After a load on a miss, no line holds the victim's old block any more. */
  lemma VictimBlockEvicted(cfg: Config, ls: seq<Line>, mem: seq<int>, address: int, r: nat, b: int)
    requires MissReady(cfg, ls, mem, address, r)
    requires ls[Victim(cfg, ls, address, r)].valid
    requires BlockStart(cfg.blockSize, b) == PhysicalAddress(cfg, ls, Victim(cfg, ls, address, r))
    ensures ReadBlock(cfg, LoadLines(cfg, ls, address, BlockAt(mem, cfg.blockSize, address).value, r), b).None?
  {
    var block := BlockAt(mem, cfg.blockSize, address).value;
    var loaded := LoadLines(cfg, ls, address, block, r);
    var v := Victim(cfg, ls, address, r);
    VictimBlockApart(cfg, ls, mem, address, r);
    LoadedLineAddress(cfg, ls, address, block, r);
    LoadAfterMissKeepsNoDuplicates(cfg, ls, address, block, r);
    LoadKeepsOthers(cfg, ls, address, block, r, b);
    ViewByLine(cfg, loaded, b);
    forall k | 0 <= k < |ls| ensures !HeldBy(cfg, loaded, k, b) {
      if k != v && ls[k].valid {
        DistinctBlocks(cfg, ls, k, v);
      }
    }
  }

  lemma SameBlocksSameMiss(cfg: Config, ls: seq<Line>, res: seq<Line>, b: int)
    requires LinesOk(cfg, ls) && LinesOk(cfg, res) && SameBlocks(ls, res)
    ensures ReadBlock(cfg, res, b).None? == ReadBlock(cfg, ls, b).None?
  {
    SameBlocksSameLookup(cfg, ls, res, b);
  }

  lemma UncachedView(cfg: Config, ls: seq<Line>, mem: seq<int>, b: int)
    requires LinesOk(cfg, ls) && 0 <= b < |mem| && ReadBlock(cfg, ls, b).None?
    ensures View(cfg, ls, mem, b) == mem[b]
  {
  }

  /** Before the miss, the dirty victim's block shows the victim's bytes. */
  lemma VictimShown(cfg: Config, ls: seq<Line>, mem: seq<int>, v: nat, i: int)
    requires Coherent(cfg, ls, mem) && v < |ls| && ls[v].valid && 0 <= i < cfg.blockSize
    ensures var q := PhysicalAddress(cfg, ls, v);
      && 0 <= q && q + cfg.blockSize <= |mem| && BlockStart(cfg.blockSize, q + i) == q
      && View(cfg, ls, mem, q + i) == ls[v].data[i]
  {
    var q := PhysicalAddress(cfg, ls, v);
    assert LineCoherent(cfg, ls, mem, v);
    LineAligned(cfg, ls, v);
    WithinBlock(cfg.blockSize, q, i);
    ViewHeld(cfg, ls, mem, v, q + i);
  }

  /** As written, a read miss whose victim is dirty leaves the victim's block uncached and stores
      the victim's bytes in the block containing `load`'s index. Unless that block is the
      victim's own, every address of the victim's block afterwards shows memory's stale byte
      where it showed the victim's. */
  lemma ReadMisplacesVictim(cfg: Config, m: Machine, address: int, r: nat, i: int)
    requires MissReady(cfg, m.lines, m.mem, address, r)
    requires m.lines[Victim(cfg, m.lines, address, r)].modified && 0 <= i < cfg.blockSize
    ensures var v := Victim(cfg, m.lines, address, r);
      var q := PhysicalAddress(cfg, m.lines, v);
      var index := LoadInfo(cfg, m.lines, address, r).value.0;
      var next := ReadStep(cfg, m, address, r).1;
      && 0 <= q && q + cfg.blockSize <= |m.mem|
      && View(cfg, m.lines, m.mem, q + i) == m.lines[v].data[i]
      && LinesOk(cfg, next.lines) && |next.mem| == |m.mem|
      && (BlockStart(cfg.blockSize, index) != q ==> View(cfg, next.lines, next.mem, q + i) == m.mem[q + i])
  {
    var v := Victim(cfg, m.lines, address, r);
    var q := PhysicalAddress(cfg, m.lines, v);
    var index := LoadInfo(cfg, m.lines, address, r).value.0;
    assert LineCoherent(cfg, m.lines, m.mem, v);
    VictimShown(cfg, m.lines, m.mem, v, i);
    var next := ReadStep(cfg, m, address, r).1;
    ReadMissMemory(cfg, m, address, r);
    ReadMissLines(cfg, m, address, r);
    StaleAfterWriteBack(cfg, m, next.lines, next.mem, address, r, q + i);
  }

  /** The victim's block as seen through the lines of the read's load, over memory into which the
      victim's bytes were written at some other block (or not at all). */
  lemma StaleAfterWriteBack(cfg: Config, m: Machine, ls': seq<Line>, mem': seq<int>, address: int, r: nat, b: int)
    requires MissReady(cfg, m.lines, m.mem, address, r)
    requires m.lines[Victim(cfg, m.lines, address, r)].modified && 0 <= b < |m.mem|
    requires BlockStart(cfg.blockSize, b) == PhysicalAddress(cfg, m.lines, Victim(cfg, m.lines, address, r))
    requires ls' == ReadLines(cfg, LoadLines(cfg, m.lines, address, BlockAt(m.mem, cfg.blockSize, address).value, r), address)
    requires var info := LoadInfo(cfg, m.lines, address, r).value;
      && (InRange(|m.mem|, cfg.blockSize, info.0) ==> mem' == WithBlock(m.mem, cfg.blockSize, info.0, info.1).value)
      && (!InRange(|m.mem|, cfg.blockSize, info.0) ==> mem' == m.mem)
    ensures LinesOk(cfg, ls') && |mem'| == |m.mem|
    ensures BlockStart(cfg.blockSize, LoadInfo(cfg, m.lines, address, r).value.0) != BlockStart(cfg.blockSize, b)
            ==> View(cfg, ls', mem', b) == m.mem[b]
  {
    var info := LoadInfo(cfg, m.lines, address, r).value;
    VictimBlockApart(cfg, m.lines, m.mem, address, r);
    if BlockStart(cfg.blockSize, info.0) != BlockStart(cfg.blockSize, b) {
      OutsideOtherBlock(cfg.blockSize, info.0, b);
      KeptOutside(m.mem, mem', cfg.blockSize, info.0, info.1, b);
      StaleAfterLoad(cfg, m.lines, m.mem, ls', mem', address, r, b);
    }
  }

  /** As written, the dirty victim's bytes land in the block containing `load`'s index. */
  lemma ReadClobbersIndexBlock(cfg: Config, m: Machine, address: int, r: nat, i: int)
    requires MissReady(cfg, m.lines, m.mem, address, r)
    requires m.lines[Victim(cfg, m.lines, address, r)].modified && 0 <= i < cfg.blockSize
    ensures var index := LoadInfo(cfg, m.lines, address, r).value.0;
      var next := ReadStep(cfg, m, address, r).1;
      && |next.mem| == |m.mem|
      && (InRange(|m.mem|, cfg.blockSize, index) ==>
            next.mem[BlockStart(cfg.blockSize, index) + i] == m.lines[Victim(cfg, m.lines, address, r)].data[i])
  {
    ReadMissMemory(cfg, m, address, r);
  }

  /** After a load on a miss, an address of the victim's old block shows memory's byte through
      any lines that keep the loaded lines' blocks, over any memory that still holds the old byte
      there. */
  lemma StaleAfterLoad(cfg: Config, ls: seq<Line>, mem: seq<int>, ls': seq<Line>, mem': seq<int>,
                       address: int, r: nat, b: int)
    requires MissReady(cfg, ls, mem, address, r) && ls[Victim(cfg, ls, address, r)].valid
    requires BlockStart(cfg.blockSize, b) == PhysicalAddress(cfg, ls, Victim(cfg, ls, address, r))
    requires LinesOk(cfg, ls')
    requires SameBlocks(LoadLines(cfg, ls, address, BlockAt(mem, cfg.blockSize, address).value, r), ls')
    requires |mem'| == |mem| && 0 <= b < |mem| && mem'[b] == mem[b]
    ensures View(cfg, ls', mem', b) == mem[b]
  {
    var loaded := LoadLines(cfg, ls, address, BlockAt(mem, cfg.blockSize, address).value, r);
    VictimBlockEvicted(cfg, ls, mem, address, r, b);
    SameBlocksSameMiss(cfg, loaded, ls', b);
    UncachedView(cfg, ls', mem', b);
  }

  /** A memory that is `mem` with one block possibly stored holds `mem`'s byte outside that block. */
  lemma KeptOutside(mem: seq<int>, mem': seq<int>, bs: nat, p: int, d: seq<int>, x: int)
    requires bs > 0 && |d| == bs && 0 <= x < |mem|
    requires !(BlockStart(bs, p) <= x < BlockStart(bs, p) + bs)
    requires InRange(|mem|, bs, p) ==> mem' == WithBlock(mem, bs, p, d).value
    requires !InRange(|mem|, bs, p) ==> mem' == mem
    ensures |mem'| == |mem| && mem'[x] == mem[x]
  {
  }

  /** An address lies outside every block other than its own. */
  lemma OutsideOtherBlock(bs: nat, p: int, b: int)
    requires bs > 0 && BlockStart(bs, p) != BlockStart(bs, b)
    ensures !(BlockStart(bs, p) <= b < BlockStart(bs, p) + bs)
  {
    StartAligned(bs, p);
    StartAligned(bs, b);
    StartsApart(bs, BlockStart(bs, p), BlockStart(bs, b));
  }

  /** As written, a write miss under write-back whose victim is dirty leaves memory untouched
      and the victim's block uncached: every address of that block afterwards shows memory's
      stale byte where it showed the victim's. */
  lemma WriteMissDropsVictim(cfg: Config, m: Machine, address: int, byte: int, r: nat, i: int)
    requires MissReady(cfg, m.lines, m.mem, address, r)
    requires m.lines[Victim(cfg, m.lines, address, r)].modified && 0 <= i < cfg.blockSize
    ensures var v := Victim(cfg, m.lines, address, r);
      var q := PhysicalAddress(cfg, m.lines, v);
      var next := WriteStep(cfg, WriteBack, m, address, byte, r).1;
      && 0 <= q && q + cfg.blockSize <= |m.mem|
      && View(cfg, m.lines, m.mem, q + i) == m.lines[v].data[i]
      && next.mem == m.mem && LinesOk(cfg, next.lines)
      && View(cfg, next.lines, next.mem, q + i) == m.mem[q + i]
  {
    var v := Victim(cfg, m.lines, address, r);
    var q := PhysicalAddress(cfg, m.lines, v);
    assert LineCoherent(cfg, m.lines, m.mem, v);
    VictimShown(cfg, m.lines, m.mem, v, i);
    var next := WriteStep(cfg, WriteBack, m, address, byte, r).1;
    WriteBackMissState(cfg, m, address, byte, r);
    StaleAfterAllocate(cfg, m, next.lines, address, byte, r, q + i);
  }

  /** The victim's block as seen through the lines of a write-back write miss, over memory as it
      was. */
  lemma StaleAfterAllocate(cfg: Config, m: Machine, ls': seq<Line>, address: int, byte: int, r: nat, b: int)
    requires MissReady(cfg, m.lines, m.mem, address, r) && m.lines[Victim(cfg, m.lines, address, r)].valid
    requires BlockStart(cfg.blockSize, b) == PhysicalAddress(cfg, m.lines, Victim(cfg, m.lines, address, r))
    requires 0 <= b < |m.mem|
    requires ls' == WriteLines(cfg, LoadLines(cfg, m.lines, address, BlockAt(m.mem, cfg.blockSize, address).value, r), address, byte)
    ensures LinesOk(cfg, ls') && View(cfg, ls', m.mem, b) == m.mem[b]
  {
    StaleAfterLoad(cfg, m.lines, m.mem, ls', m.mem, address, r, b);
  }

  /** The example meets every hypothesis of `ReadMisplacesVictim` and `WriteMissDropsVictim` at
      address 0 (with `r` = 0, which LRU ignores): the access misses and its block is in memory. */
  lemma ExampleMissReady(cfg: Config, m: Machine)
    requires cfg == ExampleConfig && m.lines == ExampleLines && Zeros(m.mem)
    ensures MissReady(cfg, m.lines, m.mem, 0, 0)
  {
    ExampleGeometry();
    ExampleCoherent(m.mem);
    ExampleMissAt0();
    ExampleBlock0(m.mem);
  }

  /** The victim of the example's miss is the dirty line holding block 96, and the read writes it
      back over block 0 (index 1 taken as an address), not block 96. */
  lemma ExampleDirtyVictim(cfg: Config, m: Machine)
    requires cfg == ExampleConfig && m.lines == ExampleLines && Zeros(m.mem)
    ensures LinesOk(cfg, m.lines) && cfg.mapping == 2
    ensures var v := Victim(cfg, m.lines, 0, 0);
      && v == 1 && m.lines[v].modified && PhysicalAddress(cfg, m.lines, v) == 96
      && LoadInfo(cfg, m.lines, 0, 0).value.0 == 1 && BlockStart(cfg.blockSize, 1) == 0
      && InRange(|m.mem|, cfg.blockSize, 1)
      && m.lines[v].data[0] == 7 && m.mem[96] == 0
  {
    ExampleGeometry();
    ExampleVictim();
  }

  /** `ReadMisplacesVictim` at the first byte `q` of the victim's block, for a caller that
      knows `q` and `load`'s index. */
  lemma ReadLosesVictimByte(cfg: Config, m: Machine, address: int, r: nat, q: int, index: int)
    requires MissReady(cfg, m.lines, m.mem, address, r)
    requires m.lines[Victim(cfg, m.lines, address, r)].modified
    requires q == PhysicalAddress(cfg, m.lines, Victim(cfg, m.lines, address, r))
    requires index == LoadInfo(cfg, m.lines, address, r).value.0 && BlockStart(cfg.blockSize, index) != q
    ensures 0 <= q < |m.mem|
    ensures var next := ReadStep(cfg, m, address, r).1;
      && LinesOk(cfg, next.lines) && |next.mem| == |m.mem|
      && View(cfg, next.lines, next.mem, q) == m.mem[q]
  {
    ReadMisplacesVictim(cfg, m, address, r, 0);
  }

  /** In the example, a read of address 0 loses the 7 at address 96: before it the address shows
      7, afterwards memory's 0. */
  lemma ExampleReadLosesWrite(cfg: Config, m: Machine)
    requires cfg == ExampleConfig && m.lines == ExampleLines && Zeros(m.mem)
    ensures LinesOk(cfg, m.lines) && cfg.mapping == 2 && View(cfg, m.lines, m.mem, 96) == 7
      && var next := ReadStep(cfg, m, 0, 0).1;
      LinesOk(cfg, next.lines) && |next.mem| == 256 && View(cfg, next.lines, next.mem, 96) == 0
  {
    ExampleMissReady(cfg, m);
    ExampleDirtyVictim(cfg, m);
    ExampleView(m.mem);
    ReadLosesVictimByte(cfg, m, 0, 0, 96, 1);
  }

  /** In the example, a write-back write to address 0 loses the 7 at address 96 in the same way. */
  lemma ExampleWriteLosesWrite(cfg: Config, m: Machine, byte: int)
    requires cfg == ExampleConfig && m.lines == ExampleLines && Zeros(m.mem)
    ensures LinesOk(cfg, m.lines) && cfg.mapping == 2 && View(cfg, m.lines, m.mem, 96) == 7
      && var next := WriteStep(cfg, WriteBack, m, 0, byte, 0).1;
      LinesOk(cfg, next.lines) && |next.mem| == 256 && View(cfg, next.lines, next.mem, 96) == 0
  {
    ExampleMissReady(cfg, m);
    ExampleDirtyVictim(cfg, m);
    WriteMissDropsVictim(cfg, m, 0, byte, 0, 0);
  }
}
