/** What the cache is for: it must be invisible. Every byte of memory has one value a program
    observes, the cached copy when its block is resident and memory's byte otherwise, and a
    coherent state is one where that view is consistent: one line per block, every resident
    block lies inside memory, and every clean resident block equals memory's copy. */
module Coherence {
  import opened LineRecord
  import opened CacheConfig
  import opened CacheSpec
  import opened MainMemory

  /** Line `k` holds the block containing address `b`. */
  predicate HeldBy(cfg: Config, ls: seq<Line>, k: nat, b: int)
    requires WellFormed(cfg) && k < |ls| == NumLines(cfg)
  {
    ls[k].valid && PhysicalAddress(cfg, ls, k) == BlockStart(cfg.blockSize, b)
  }

  /** Line `k` is consistent with memory: an invalid line is clean, a valid line's block lies
      inside memory, and a valid clean line holds memory's copy of its block. */
  predicate LineCoherent(cfg: Config, ls: seq<Line>, mem: seq<int>, k: nat)
    requires WellFormed(cfg) && k < |ls| == NumLines(cfg)
  {
    && (!ls[k].valid ==> !ls[k].modified)
    && (ls[k].valid ==> InRange(|mem|, cfg.blockSize, PhysicalAddress(cfg, ls, k)))
    && (ls[k].valid && !ls[k].modified ==>
          BlockAt(mem, cfg.blockSize, PhysicalAddress(cfg, ls, k)) == Ok(ls[k].data))
  }

  predicate Coherent(cfg: Config, ls: seq<Line>, mem: seq<int>) {
    && LinesOk(cfg, ls)
    && NoDuplicateTags(cfg, ls)
    && forall k :: 0 <= k < |ls| ==> LineCoherent(cfg, ls, mem, k)
  }

  /** The value a program observes at address `b`. */
  function View(cfg: Config, ls: seq<Line>, mem: seq<int>, b: int): (v: int)
    requires LinesOk(cfg, ls) && 0 <= b < |mem|
  {
    match ReadBlock(cfg, ls, b)
    case Some(d) => d[Offset(cfg, b)]
    case None => mem[b]
  }

  // ---------------------------------------------------------------- blocks and lines

  /** A line holds the block of `b` exactly when it sits in `b`'s set and carries `b`'s tag. */
  lemma LineBlock(cfg: Config, ls: seq<Line>, k: nat, b: int)
    requires LinesOk(cfg, ls) && k < |ls|
    ensures (InSet(cfg, b, k) && Tag(cfg, b) == ls[k].tag)
            <==> PhysicalAddress(cfg, ls, k) == BlockStart(cfg.blockSize, b)
  {
    AddressSplit(cfg, b);
    InSetIff(cfg, b, k);
    LineSetInRange(cfg, k);
    var p := PhysicalAddress(cfg, ls, k);
    if p == BlockStart(cfg.blockSize, b) {
      AddressJoin(cfg, b, ls[k].tag, k / cfg.mapping, Offset(cfg, b));
    }
  }

  /** With one line per block, the line holding `b`'s block is what `read` finds, and when no
      line holds it `read` misses. */
  lemma ViewByLine(cfg: Config, ls: seq<Line>, b: int)
    requires LinesOk(cfg, ls) && NoDuplicateTags(cfg, ls)
    ensures forall k :: 0 <= k < |ls| && HeldBy(cfg, ls, k, b) ==> ReadBlock(cfg, ls, b) == Some(ls[k].data)
    ensures (forall k :: 0 <= k < |ls| ==> !HeldBy(cfg, ls, k, b)) ==> ReadBlock(cfg, ls, b).None?
  {
    forall k | 0 <= k < |ls| && HeldBy(cfg, ls, k, b)
      ensures ReadBlock(cfg, ls, b) == Some(ls[k].data)
    {
      LineBlock(cfg, ls, k, b);
      assert Matches(ls[k], Tag(cfg, b));
      var j := Lookup(cfg, ls, b).value;
      assert Hit(cfg, ls, b, j);
      InSetIff(cfg, b, k);
      InSetIff(cfg, b, j);
    }
    if forall k :: 0 <= k < |ls| ==> !HeldBy(cfg, ls, k, b) {
      forall k | InSet(cfg, b, k) ensures !Matches(ls[k], Tag(cfg, b)) {
        LineBlock(cfg, ls, k, b);
      }
    }
  }

  /** The value at `b` when line `k` holds its block: the line's byte at `b`'s offset. */
  lemma ViewHeld(cfg: Config, ls: seq<Line>, mem: seq<int>, k: nat, b: int)
    requires LinesOk(cfg, ls) && NoDuplicateTags(cfg, ls) && 0 <= b < |mem|
    requires k < |ls| && HeldBy(cfg, ls, k, b)
    ensures View(cfg, ls, mem, b) == ls[k].data[Offset(cfg, b)]
  {
    ViewByLine(cfg, ls, b);
  }

  /** The value at `b` when no line holds its block: memory's byte. */
  lemma ViewFree(cfg: Config, ls: seq<Line>, mem: seq<int>, b: int)
    requires LinesOk(cfg, ls) && NoDuplicateTags(cfg, ls) && 0 <= b < |mem|
    requires forall k :: 0 <= k < |ls| ==> !HeldBy(cfg, ls, k, b)
    ensures View(cfg, ls, mem, b) == mem[b]
  {
    ViewByLine(cfg, ls, b);
  }

  /** Two valid lines of a cache with one line per block hold different blocks. */
  lemma DistinctBlocks(cfg: Config, ls: seq<Line>, i: nat, j: nat)
    requires LinesOk(cfg, ls) && NoDuplicateTags(cfg, ls)
    requires i < |ls| && j < |ls| && i != j && ls[i].valid && ls[j].valid
    ensures PhysicalAddress(cfg, ls, i) != PhysicalAddress(cfg, ls, j)
  {
    if i < j {
      assert !(i / cfg.mapping == j / cfg.mapping && ls[i].tag == ls[j].tag);
    } else {
      assert !(j / cfg.mapping == i / cfg.mapping && ls[j].tag == ls[i].tag);
    }
  }

  /** A line's physical address is the start of its own block. */
  lemma LineAligned(cfg: Config, ls: seq<Line>, k: nat)
    requires LinesOk(cfg, ls) && k < |ls|
    ensures BlockStart(cfg.blockSize, PhysicalAddress(cfg, ls, k)) == PhysicalAddress(cfg, ls, k)
  {
  }

  /** Two different block starts are a whole block apart. */
  lemma StartsApart(bs: nat, p: int, q: int)
    requires bs > 0 && p % bs == 0 && q % bs == 0 && p != q
    ensures p + bs <= q || q + bs <= p
  {
    var pq, qq := p / bs, q / bs;
    assert p == pq * bs && q == qq * bs;
    if pq < qq {
      MulLe(pq + 1, qq, bs);
    } else {
      MulLe(qq + 1, pq, bs);
    }
  }

  /** A block start is a multiple of the block size. */
  lemma StartAligned(bs: nat, a: int)
    requires bs > 0
    ensures BlockStart(bs, a) % bs == 0
  {
    DivModUnique(BlockStart(bs, a), bs, a / bs, 0);
  }

  /** Address `q + i` of a block starting at `q` has that block's start and offset `i`. */
  lemma WithinBlock(bs: nat, q: int, i: int)
    requires bs > 0 && q % bs == 0 && 0 <= i < bs
    ensures BlockStart(bs, q + i) == q && (q + i) % bs == i
  {
    DivModUnique(q + i, bs, q / bs, i);
  }

  /** Writing one block leaves every other block as it was. */
  lemma OtherBlockKept(mem: seq<int>, bs: nat, q: int, d: seq<int>, p: int)
    requires bs > 0 && |d| == bs && WithBlock(mem, bs, q, d).Ok?
    requires BlockStart(bs, p) != BlockStart(bs, q)
    ensures BlockAt(WithBlock(mem, bs, q, d).value, bs, p) == BlockAt(mem, bs, p)
    ensures forall i :: 0 <= i < |mem| && BlockStart(bs, p) <= i < BlockStart(bs, p) + bs ==>
      WithBlock(mem, bs, q, d).value[i] == mem[i]
  {
    var sp, sq := BlockStart(bs, p), BlockStart(bs, q);
    StartAligned(bs, p);
    StartAligned(bs, q);
    StartsApart(bs, sp, sq);
    var m := WithBlock(mem, bs, q, d).value;
    forall i | 0 <= i < |mem| && sp <= i < sp + bs ensures m[i] == mem[i] {
      assert !(sq <= i < sq + bs);
    }
    if InRange(|mem|, bs, p) {
      assert BlockAt(m, bs, p).value == BlockAt(mem, bs, p).value;
    }
  }

  // ------------------------------------------------------------ steps that keep the view

  /** A fresh cache over any memory is coherent, and every address shows memory's byte. */
  lemma FreshCoherent(cfg: Config, mem: seq<int>)
    requires WellFormed(cfg)
    ensures Coherent(cfg, FreshLines(cfg), mem)
    ensures forall b :: 0 <= b < |mem| ==> View(cfg, FreshLines(cfg), mem, b) == mem[b]
  {
    var ls := FreshLines(cfg);
    assert forall k :: 0 <= k < |ls| ==> !ls[k].valid;
    forall k | 0 <= k < |ls| ensures LineCoherent(cfg, ls, mem, k) {
      assert ls[k] == NewLine(cfg.blockSize);
    }
  }

  /** Changing only `use` counters keeps coherence and every observed value. */
  lemma UseOnlyKeeps(cfg: Config, ls: seq<Line>, res: seq<Line>, mem: seq<int>)
    requires Coherent(cfg, ls, mem) && LinesOk(cfg, res) && |res| == |ls|
    requires forall k :: 0 <= k < |ls| ==> res[k] == ls[k].(use := res[k].use)
    ensures Coherent(cfg, res, mem)
    ensures forall b :: 0 <= b < |mem| ==> View(cfg, res, mem, b) == View(cfg, ls, mem, b)
  {
    assert SameBlocks(ls, res);
    SameBlocksSameLookup(cfg, ls, res, 0);
    forall k | 0 <= k < |ls| ensures LineCoherent(cfg, res, mem, k) {
      assert PhysicalAddress(cfg, res, k) == PhysicalAddress(cfg, ls, k);
      assert LineCoherent(cfg, ls, mem, k);
    }
    forall b | 0 <= b < |mem| ensures View(cfg, res, mem, b) == View(cfg, ls, mem, b) {
      SameBlocksSameLookup(cfg, ls, res, b);
      if Lookup(cfg, ls, b).Some? {
        var j := Lookup(cfg, ls, b).value;
        assert res[j].data == ls[j].data;
      }
    }
  }

  /** The line an address hits holds the address's block. */
  lemma HitHolds(cfg: Config, ls: seq<Line>, a: int, j: nat)
    requires LinesOk(cfg, ls) && Hit(cfg, ls, a, j)
    ensures j < |ls| && HeldBy(cfg, ls, j, a)
  {
    LineBlock(cfg, ls, j, a);
  }

  /** In a coherent state an address whose block is resident lies inside memory. */
  lemma ResidentInRange(cfg: Config, ls: seq<Line>, mem: seq<int>, a: int)
    requires Coherent(cfg, ls, mem) && ReadBlock(cfg, ls, a).Some?
    ensures InRange(|mem|, cfg.blockSize, a) && 0 <= a < |mem|
  {
    var j := Lookup(cfg, ls, a).value;
    HitHolds(cfg, ls, a, j);
    assert LineCoherent(cfg, ls, mem, j);
    LineAligned(cfg, ls, j);
    AddressSplit(cfg, a);
  }

  /** A write hit under write-back: the line becomes dirty with the byte patched in, so the
      state stays coherent and only the written address shows a new value. */
  lemma WriteHitKeeps(cfg: Config, ls: seq<Line>, mem: seq<int>, a: int, byte: int)
    requires Coherent(cfg, ls, mem) && ReadBlock(cfg, ls, a).Some?
    ensures Coherent(cfg, WriteLines(cfg, ls, a, byte), mem)
    ensures forall b :: 0 <= b < |mem| ==>
      View(cfg, WriteLines(cfg, ls, a, byte), mem, b) == if b == a then byte else View(cfg, ls, mem, b)
  {
    var res := WriteLines(cfg, ls, a, byte);
    var j := Lookup(cfg, ls, a).value;
    HitHolds(cfg, ls, a, j);
    SameBlocksSameLookup(cfg, ls, res, a);
    forall k | 0 <= k < |ls| ensures LineCoherent(cfg, res, mem, k) {
      assert PhysicalAddress(cfg, res, k) == PhysicalAddress(cfg, ls, k);
      assert LineCoherent(cfg, ls, mem, k);
    }
    forall b | 0 <= b < |mem|
      ensures View(cfg, res, mem, b) == if b == a then byte else View(cfg, ls, mem, b)
    {
      WriteHitView(cfg, ls, mem, a, byte, j, b);
    }
  }

  lemma WriteHitView(cfg: Config, ls: seq<Line>, mem: seq<int>, a: int, byte: int, j: nat, b: int)
    requires Coherent(cfg, ls, mem) && Hit(cfg, ls, a, j) && 0 <= b < |mem|
    requires NoDuplicateTags(cfg, WriteLines(cfg, ls, a, byte))
    ensures View(cfg, WriteLines(cfg, ls, a, byte), mem, b) == if b == a then byte else View(cfg, ls, mem, b)
  {
    var res := WriteLines(cfg, ls, a, byte);
    var bs := cfg.blockSize;
    HitHolds(cfg, ls, a, j);
    forall k | 0 <= k < |ls| ensures HeldBy(cfg, res, k, b) == HeldBy(cfg, ls, k, b) {
      assert PhysicalAddress(cfg, res, k) == PhysicalAddress(cfg, ls, k);
    }
    if BlockStart(bs, b) == BlockStart(bs, a) {
      ViewHeld(cfg, ls, mem, j, b);
      ViewHeld(cfg, res, mem, j, b);
      assert (b == a) == (Offset(cfg, b) == Offset(cfg, a));
    } else if exists k :: 0 <= k < |ls| && HeldBy(cfg, ls, k, b) {
      var k :| 0 <= k < |ls| && HeldBy(cfg, ls, k, b);
      assert k != j;
      assert res[k] == ls[k].(use := res[k].use);
      ViewHeld(cfg, ls, mem, k, b);
      ViewHeld(cfg, res, mem, k, b);
    } else {
      ViewFree(cfg, ls, mem, b);
      ViewFree(cfg, res, mem, b);
    }
  }

  /** A write under write-through: the cache write followed by storing the patched block. The
      state stays coherent and only the written address shows a new value. */
  lemma WriteThroughKeeps(cfg: Config, ls: seq<Line>, mem: seq<int>, a: int, byte: int)
    requires Coherent(cfg, ls, mem) && BlockAt(mem, cfg.blockSize, a).Ok?
    ensures var block := BlockAt(mem, cfg.blockSize, a).value;
      var stored := WithBlock(mem, cfg.blockSize, a, block[Offset(cfg, a) := byte]);
      && stored.Ok?
      && Coherent(cfg, WriteLines(cfg, ls, a, byte), stored.value)
      && forall b :: 0 <= b < |mem| ==>
           View(cfg, WriteLines(cfg, ls, a, byte), stored.value, b) == if b == a then byte else View(cfg, ls, mem, b)
  {
    var bs := cfg.blockSize;
    AddressSplit(cfg, a);
    var block := BlockAt(mem, bs, a).value;
    var patched := block[Offset(cfg, a) := byte];
    var mem' := WithBlock(mem, bs, a, patched).value;
    var res := WriteLines(cfg, ls, a, byte);
    SameBlocksSameLookup(cfg, ls, res, a);
    ViewByLine(cfg, ls, a);
    forall k | 0 <= k < |ls| ensures LineCoherent(cfg, res, mem', k) {
      assert PhysicalAddress(cfg, res, k) == PhysicalAddress(cfg, ls, k);
      assert LineCoherent(cfg, ls, mem, k);
      if res[k].valid && !res[k].modified {
        assert res[k] == ls[k].(use := res[k].use);
        if Lookup(cfg, ls, a).Some? {
          var j := Lookup(cfg, ls, a).value;
          HitHolds(cfg, ls, a, j);
          DistinctBlocks(cfg, ls, k, j);
        }
        LineAligned(cfg, ls, k);
        OtherBlockKept(mem, bs, a, patched, PhysicalAddress(cfg, ls, k));
      }
    }
    forall b | 0 <= b < |mem|
      ensures View(cfg, res, mem', b) == if b == a then byte else View(cfg, ls, mem, b)
    {
      WriteThroughView(cfg, ls, mem, a, byte, b);
    }
  }

  lemma WriteThroughView(cfg: Config, ls: seq<Line>, mem: seq<int>, a: int, byte: int, b: int)
    requires Coherent(cfg, ls, mem) && BlockAt(mem, cfg.blockSize, a).Ok? && 0 <= b < |mem|
    requires NoDuplicateTags(cfg, WriteLines(cfg, ls, a, byte))
    ensures var block := BlockAt(mem, cfg.blockSize, a).value;
      var stored := WithBlock(mem, cfg.blockSize, a, block[Offset(cfg, a) := byte]);
      && stored.Ok?
      && View(cfg, WriteLines(cfg, ls, a, byte), stored.value, b) == if b == a then byte else View(cfg, ls, mem, b)
  {
    var bs := cfg.blockSize;
    var block := BlockAt(mem, bs, a).value;
    var patched := block[Offset(cfg, a) := byte];
    var mem' := WithBlock(mem, bs, a, patched).value;
    var res := WriteLines(cfg, ls, a, byte);
    if Lookup(cfg, ls, a).Some? {
      var j := Lookup(cfg, ls, a).value;
      WriteHitView(cfg, ls, mem, a, byte, j, b);
      if BlockStart(bs, b) == BlockStart(bs, a) {
        HitHolds(cfg, ls, a, j);
        assert PhysicalAddress(cfg, res, j) == PhysicalAddress(cfg, ls, j);
        ViewHeld(cfg, res, mem, j, b);
        ViewHeld(cfg, res, mem', j, b);
      } else {
        OtherBlockKept(mem, bs, a, patched, b);
        ViewSameByte(cfg, res, mem, mem', b);
      }
    } else {
      assert res == ls;
      WriteThroughMissView(cfg, ls, mem, a, byte, b);
    }
  }

  /** Two memories that agree at `b` show the same value there through the same lines. */
  lemma ViewSameByte(cfg: Config, ls: seq<Line>, mem: seq<int>, mem': seq<int>, b: int)
    requires LinesOk(cfg, ls) && 0 <= b < |mem| && |mem'| == |mem| && mem'[b] == mem[b]
    ensures View(cfg, ls, mem', b) == View(cfg, ls, mem, b)
  {
  }

  /** A write-through miss leaves the lines alone and patches memory's copy of the block. */
  lemma WriteThroughMissView(cfg: Config, ls: seq<Line>, mem: seq<int>, a: int, byte: int, b: int)
    requires Coherent(cfg, ls, mem) && BlockAt(mem, cfg.blockSize, a).Ok? && 0 <= b < |mem|
    requires ReadBlock(cfg, ls, a).None?
    ensures var block := BlockAt(mem, cfg.blockSize, a).value;
      var stored := WithBlock(mem, cfg.blockSize, a, block[Offset(cfg, a) := byte]);
      && stored.Ok?
      && View(cfg, ls, stored.value, b) == if b == a then byte else View(cfg, ls, mem, b)
  {
    var bs := cfg.blockSize;
    var block := BlockAt(mem, bs, a).value;
    var patched := block[Offset(cfg, a) := byte];
    var mem' := WithBlock(mem, bs, a, patched).value;
    if BlockStart(bs, b) == BlockStart(bs, a) {
      ViewByLine(cfg, ls, a);
      assert forall k :: 0 <= k < |ls| ==> !HeldBy(cfg, ls, k, b);
      ViewFree(cfg, ls, mem, b);
      ViewFree(cfg, ls, mem', b);
      assert (b == a) == (Offset(cfg, b) == Offset(cfg, a));
      assert mem'[b] == patched[Offset(cfg, b)];
    } else {
      OtherBlockKept(mem, bs, a, patched, b);
      ViewSameByte(cfg, ls, mem, mem', b);
    }
  }
}
