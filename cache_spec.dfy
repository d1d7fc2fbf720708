/** The cache of cache.py as functions over the sequence of its lines: lookup within a set,
    victim selection, the `use` counter update, and the effect of `read`, `load` and `write`.
    The class in module CacheImpl runs the program's loops and is proved equal to these. */
module CacheSpec {
  import opened LineRecord
  import opened CacheConfig

  datatype Option<T> = None | Some(value: T)

  /** The invariant the cache keeps on its lines: one line per block of cache, every line holds a
      whole block, and under LRU and FIFO every `use` counter stays within [0, mapping]. */
  predicate LinesOk(cfg: Config, ls: seq<Line>) {
    && WellFormed(cfg)
    && |ls| == NumLines(cfg)
    && (forall k :: 0 <= k < |ls| ==> |ls[k].data| == cfg.blockSize)
    && (Bounded(cfg.replace) ==> forall k :: 0 <= k < |ls| ==> ls[k].use <= cfg.mapping)
  }

  /** Index of the first line of the address's set (`_get_set`): the set is the `mapping` lines
      starting here. */
  function SetBase(cfg: Config, address: int): (base: nat)
    requires WellFormed(cfg)
    ensures base + cfg.mapping <= NumLines(cfg)
    ensures base == SetIndex(cfg, address) * cfg.mapping
  {
    var s := SetIndex(cfg, address);
    MulLe(s + 1, NumSets(cfg), cfg.mapping);
    s * cfg.mapping
  }

  predicate InSet(cfg: Config, address: int, k: int)
    requires WellFormed(cfg)
  {
    SetBase(cfg, address) <= k < SetBase(cfg, address) + cfg.mapping
  }

  /** A line index lies in the address's set exactly when it divides down to the set index. */
  lemma InSetIff(cfg: Config, address: int, k: int)
    requires WellFormed(cfg)
    ensures InSet(cfg, address, k) <==> k / cfg.mapping == SetIndex(cfg, address)
  {
    var s, m := SetIndex(cfg, address), cfg.mapping;
    if InSet(cfg, address, k) {
      DivModUnique(k, m, s, k - s * m);
    }
    if k / m == s {
      assert k == s * m + k % m;
    }
  }

  /** `get_physical_address`: the address of the first byte of the block held by line `i`. It
      splits back into the line's tag, the line's set and offset zero. */
  function PhysicalAddress(cfg: Config, ls: seq<Line>, i: nat): (a: int)
    requires WellFormed(cfg) && i < |ls| == NumLines(cfg)
    ensures Tag(cfg, a) == ls[i].tag && SetIndex(cfg, a) == i / cfg.mapping && Offset(cfg, a) == 0
  {
    var s := i / cfg.mapping;
    LineSetInRange(cfg, i);
    AddressJoin(cfg, ls[i].tag * Pow2(cfg.tagShift) + s * cfg.blockSize, ls[i].tag, s, 0);
    ls[i].tag * Pow2(cfg.tagShift) + s * cfg.blockSize
  }

  lemma LineSetInRange(cfg: Config, i: nat)
    requires WellFormed(cfg) && i < NumLines(cfg)
    ensures i / cfg.mapping < NumSets(cfg)
  {
    var s := i / cfg.mapping;
    if s >= NumSets(cfg) {
      MulLe(NumSets(cfg), s, cfg.mapping);
    }
  }

  // ------------------------------------------------------------------------- lookup

  predicate Matches(l: Line, tag: int) {
    l.tag == tag && l.valid
  }

  /** `j` is the first line of [lo, hi) that is valid and carries `tag`. */
  predicate FirstMatch(ls: seq<Line>, lo: nat, hi: nat, tag: int, j: int)
    requires hi <= |ls|
  {
    lo <= j < hi && Matches(ls[j], tag) && forall k :: lo <= k < j ==> !Matches(ls[k], tag)
  }

  /** The linear scan of a set that `read` and `write` share. */
  function Find(ls: seq<Line>, lo: nat, hi: nat, tag: int): (r: Option<nat>)
    requires lo <= hi <= |ls|
    ensures r.Some? ==> FirstMatch(ls, lo, hi, tag, r.value)
    ensures r.None? ==> forall k :: lo <= k < hi ==> !Matches(ls[k], tag)
    decreases hi - lo
  {
    if lo == hi then None
    else if Matches(ls[lo], tag) then Some(lo)
    else Find(ls, lo + 1, hi, tag)
  }

  lemma FirstMatchUnique(ls: seq<Line>, lo: nat, hi: nat, tag: int, i: int, j: int)
    requires hi <= |ls|
    requires FirstMatch(ls, lo, hi, tag, i) && FirstMatch(ls, lo, hi, tag, j)
    ensures i == j
  {
  }

  /** The line an address hits, if any. */
  function Lookup(cfg: Config, ls: seq<Line>, address: int): (found: Option<nat>)
    requires LinesOk(cfg, ls)
  {
    var base := SetBase(cfg, address);
    Find(ls, base, base + cfg.mapping, Tag(cfg, address))
  }

  predicate Hit(cfg: Config, ls: seq<Line>, address: int, j: int)
    requires LinesOk(cfg, ls)
  {
    var base := SetBase(cfg, address);
    FirstMatch(ls, base, base + cfg.mapping, Tag(cfg, address), j)
  }

  lemma LookupHit(cfg: Config, ls: seq<Line>, address: int, j: int)
    requires LinesOk(cfg, ls) && Hit(cfg, ls, address, j)
    ensures Lookup(cfg, ls, address) == Some(j)
  {
    var base := SetBase(cfg, address);
    var r := Lookup(cfg, ls, address);
    if r.Some? {
      FirstMatchUnique(ls, base, base + cfg.mapping, Tag(cfg, address), r.value, j);
    }
  }

  /** What `read` returns: the data of the first valid line of the set whose tag is the
      address's, or nothing. */
  function ReadBlock(cfg: Config, ls: seq<Line>, address: int): (r: Option<seq<int>>)
    requires LinesOk(cfg, ls)
    ensures r.None? <==> forall k :: InSet(cfg, address, k) ==> !Matches(ls[k], Tag(cfg, address))
    ensures forall j :: Hit(cfg, ls, address, j) ==> r == Some(ls[j].data)
    ensures r.Some? ==> |r.value| == cfg.blockSize
  {
    var base := SetBase(cfg, address);
    match Lookup(cfg, ls, address)
    case None => None
    case Some(j) =>
      assert forall i :: Hit(cfg, ls, address, i) ==> i == j by {
        forall i | Hit(cfg, ls, address, i) ensures i == j {
          FirstMatchUnique(ls, base, base + cfg.mapping, Tag(cfg, address), i, j);
        }
      }
      Some(ls[j].data)
  }

  // ------------------------------------------------------------------- use counters

  /** `_update_use` applied to line `j` of the set starting at `base`. Under LRU and FIFO a line
      below the ceiling `mapping` is raised to it and every line of the set that was above its
      old value is lowered by one; under LFU the line's counter grows by one; under RAND
      nothing changes. */
  function UseUpdated(cfg: Config, ls: seq<Line>, base: nat, j: nat): (r: seq<Line>)
    requires LinesOk(cfg, ls) && base + cfg.mapping <= |ls| && base <= j < base + cfg.mapping
    ensures LinesOk(cfg, r) && |r| == |ls|
    ensures forall k :: 0 <= k < |ls| ==> r[k] == ls[k].(use := r[k].use)
    ensures forall k :: 0 <= k < |ls| && !(base <= k < base + cfg.mapping) ==> r[k] == ls[k]
    ensures cfg.replace == LFU ==> r == ls[j := ls[j].(use := ls[j].use + 1)]
    ensures cfg.replace == RAND ==> r == ls
    ensures Bounded(cfg.replace) && ls[j].use == cfg.mapping ==> r == ls
    ensures Bounded(cfg.replace) ==> r[j].use == cfg.mapping
    ensures Bounded(cfg.replace) ==>
      forall k :: base <= k < base + cfg.mapping && k != j ==>
        r[k].use == if ls[k].use > ls[j].use then ls[k].use - 1 else ls[k].use
    ensures Bounded(cfg.replace) ==>
      forall k1, k2 ::
        (base <= k1 < base + cfg.mapping && base <= k2 < base + cfg.mapping &&
         k1 != j && k2 != j && ls[k1].use <= ls[k2].use) ==> r[k1].use <= r[k2].use
  {
    match cfg.replace
    case LFU => ls[j := ls[j].(use := ls[j].use + 1)]
    case RAND => ls
    case _ => Promoted(ls, base, base + cfg.mapping, j, cfg.mapping)
  }

  /** The counter update of LRU and FIFO on the lines [lo, hi): line `j` is raised to `ceiling`
      and the lines above its old value are lowered by one, unless it was already at `ceiling`. */
  function Promoted(ls: seq<Line>, lo: nat, hi: nat, j: nat, ceiling: nat): (r: seq<Line>)
    requires lo <= j < hi <= |ls| && forall k :: lo <= k < hi ==> ls[k].use <= ceiling
    ensures |r| == |ls|
    ensures forall k :: 0 <= k < |ls| ==> r[k] == ls[k].(use := r[k].use)
    ensures forall k :: 0 <= k < |ls| && !(lo <= k < hi) ==> r[k] == ls[k]
    ensures ls[j].use == ceiling ==> r == ls
    ensures r[j].use == ceiling
    ensures forall k :: lo <= k < hi && k != j ==>
      r[k].use == if ls[k].use > ls[j].use then ls[k].use - 1 else ls[k].use
    ensures forall k1, k2 ::
      (lo <= k1 < hi && lo <= k2 < hi && k1 != j && k2 != j && ls[k1].use <= ls[k2].use) ==> r[k1].use <= r[k2].use
  {
    var was := ls[j].use;
    if was < ceiling then
      seq(|ls|, k requires 0 <= k < |ls| =>
        if k == j then ls[k].(use := ceiling)
        else if lo <= k < hi && ls[k].use > was then ls[k].(use := ls[k].use - 1)
        else ls[k])
    else ls
  }

  // --------------------------------------------------------------------------- load

  /** The victim is the leftmost line of [lo, hi) with the least `use`. */
  predicate IsLeftmostMin(ls: seq<Line>, lo: nat, hi: nat, v: int)
    requires hi <= |ls|
  {
    && lo <= v < hi
    && (forall k :: lo <= k < hi ==> ls[v].use <= ls[k].use)
    && (forall k :: lo <= k < v ==> ls[v].use < ls[k].use)
  }

  function LeftmostMinUse(ls: seq<Line>, lo: nat, hi: nat): (v: nat)
    requires lo < hi <= |ls|
    ensures IsLeftmostMin(ls, lo, hi, v)
    decreases hi - lo
  {
    if lo + 1 == hi then lo
    else
      var m := LeftmostMinUse(ls, lo + 1, hi);
      if ls[lo].use <= ls[m].use then lo else m
  }

  /** The tie-break is pinned: exactly one line is the leftmost minimum. */
  lemma LeftmostMinUnique(ls: seq<Line>, lo: nat, hi: nat, v: int, w: int)
    requires hi <= |ls| && IsLeftmostMin(ls, lo, hi, v) && IsLeftmostMin(ls, lo, hi, w)
    ensures v == w
  {
    assert ls[v].use == ls[w].use;
  }

  /** The line `load` evicts. `r` stands for the program's random choice under RAND. */
  function Victim(cfg: Config, ls: seq<Line>, address: int, r: nat): (v: nat)
    requires LinesOk(cfg, ls) && r < cfg.mapping
    ensures InSet(cfg, address, v) && v < |ls|
    ensures cfg.replace == RAND ==> v == SetBase(cfg, address) + r
    ensures cfg.replace != RAND ==>
      IsLeftmostMin(ls, SetBase(cfg, address), SetBase(cfg, address) + cfg.mapping, v)
    ensures cfg.mapping == 1 ==> v == SetBase(cfg, address)
  {
    var base := SetBase(cfg, address);
    if cfg.replace == RAND then base + r else LeftmostMinUse(ls, base, base + cfg.mapping)
  }

  /** The first half of `load`: except under RAND the victim's counter is reset to zero, and under
      FIFO the counter update then raises it to the ceiling and ages the rest of the set. */
  function Evicted(cfg: Config, ls: seq<Line>, address: int, r: nat): (res: seq<Line>)
    requires LinesOk(cfg, ls) && r < cfg.mapping
    ensures LinesOk(cfg, res) && |res| == |ls|
    ensures forall k :: 0 <= k < |ls| ==> res[k] == ls[k].(use := res[k].use)
  {
    var v := Victim(cfg, ls, address, r);
    var reset := if cfg.replace == RAND then ls else ls[v := ls[v].(use := 0)];
    if cfg.replace == FIFO then UseUpdated(cfg, reset, SetBase(cfg, address), v) else reset
  }

  /** The lines after `load(address, d)`: the victim's counter is reset (and, under FIFO, raised
      to the ceiling by the counter update, which ages the rest of the set); then the victim
      becomes a clean valid line holding `d` under the address's tag. */
  function LoadLines(cfg: Config, ls: seq<Line>, address: int, d: seq<int>, r: nat): (res: seq<Line>)
    requires LinesOk(cfg, ls) && r < cfg.mapping && |d| == cfg.blockSize
    ensures LinesOk(cfg, res) && |res| == |ls|
    ensures forall k :: 0 <= k < |ls| && !InSet(cfg, address, k) ==> res[k] == ls[k]
    ensures var v := Victim(cfg, ls, address, r);
      && res[v].valid && !res[v].modified && res[v].tag == Tag(cfg, address) && res[v].data == d
      && res[v].use == match cfg.replace
                       case LRU => 0
                       case LFU => 0
                       case FIFO => cfg.mapping
                       case RAND => ls[v].use
    ensures var v := Victim(cfg, ls, address, r);
      forall k :: 0 <= k < |ls| && k != v ==> res[k] == ls[k].(use := res[k].use)
    ensures var v := Victim(cfg, ls, address, r);
      cfg.replace != FIFO ==> forall k :: 0 <= k < |ls| && k != v ==> res[k] == ls[k]
    ensures var v := Victim(cfg, ls, address, r);
      cfg.replace == FIFO ==> forall k :: InSet(cfg, address, k) && k != v ==>
        res[k].use == if ls[k].use > 0 then ls[k].use - 1 else 0
  {
    var v := Victim(cfg, ls, address, r);
    var aged := Evicted(cfg, ls, address, r);
    aged[v := aged[v].(modified := false, valid := true, tag := Tag(cfg, address), data := d)]
  }

  /** What `load` returns: nothing when the victim is clean; otherwise the victim's old data
      paired with the program's leftover index (the last index of the scan, `mapping - 1`,
      or the random pick under RAND), which is a position within the set, not an address. */
  function LoadInfo(cfg: Config, ls: seq<Line>, address: int, r: nat): (info: Option<(int, seq<int>)>)
    requires LinesOk(cfg, ls) && r < cfg.mapping
    ensures var v := Victim(cfg, ls, address, r);
      && (info.None? <==> !ls[v].modified)
      && (info.Some? ==> info.value.1 == ls[v].data)
      && (info.Some? ==> info.value.0 == if cfg.replace == RAND then r else cfg.mapping - 1)
      && (info.Some? ==> 0 <= info.value.0 < cfg.mapping)
  {
    var v := Victim(cfg, ls, address, r);
    if ls[v].modified then
      Some((if cfg.replace == RAND then r else cfg.mapping - 1, ls[v].data))
    else None
  }

  // --------------------------------------------------------------------------- read

  /** The lines after `read`: a hit under LRU or LFU updates the hit line's counter; nothing
      else changes, and a miss changes nothing. */
  function ReadLines(cfg: Config, ls: seq<Line>, address: int): (res: seq<Line>)
    requires LinesOk(cfg, ls)
    ensures LinesOk(cfg, res) && |res| == |ls|
    ensures forall k :: 0 <= k < |ls| ==> res[k] == ls[k].(use := res[k].use)
    ensures forall k :: 0 <= k < |ls| && !InSet(cfg, address, k) ==> res[k] == ls[k]
    ensures ReadBlock(cfg, ls, address).None? ==> res == ls
    ensures cfg.replace == FIFO || cfg.replace == RAND ==> res == ls
    ensures forall j :: Hit(cfg, ls, address, j) && cfg.replace == LRU ==> res[j].use == cfg.mapping
    ensures forall j :: Hit(cfg, ls, address, j) && cfg.replace == LFU ==>
      res == ls[j := ls[j].(use := ls[j].use + 1)]
  {
    match Lookup(cfg, ls, address)
    case None => ls
    case Some(j) =>
      assert forall i :: Hit(cfg, ls, address, i) ==> i == j by {
        forall i | Hit(cfg, ls, address, i) ensures i == j {
          LookupHit(cfg, ls, address, i);
        }
      }
      if cfg.replace == LRU || cfg.replace == LFU then UseUpdated(cfg, ls, SetBase(cfg, address), j)
      else ls
  }

  // -------------------------------------------------------------------------- write

  /** The lines after `write(address, byte)`: on a hit the byte at the address's offset is
      replaced, the line is marked modified (under either write policy), and under LRU or LFU
      its counter is updated; a miss changes nothing. */
  function WriteLines(cfg: Config, ls: seq<Line>, address: int, byte: int): (res: seq<Line>)
    requires LinesOk(cfg, ls)
    ensures LinesOk(cfg, res) && |res| == |ls|
    ensures forall k :: 0 <= k < |ls| && !InSet(cfg, address, k) ==> res[k] == ls[k]
    ensures forall k :: 0 <= k < |ls| ==> res[k].valid == ls[k].valid && res[k].tag == ls[k].tag
    ensures ReadBlock(cfg, ls, address).None? ==> res == ls
    ensures forall j :: Hit(cfg, ls, address, j) ==>
      && res[j].data == ls[j].data[Offset(cfg, address) := byte]
      && res[j].modified && res[j].valid && res[j].tag == ls[j].tag
      && (forall k :: 0 <= k < |ls| && k != j ==> res[k] == ls[k].(use := res[k].use))
    ensures !(cfg.replace == LRU || cfg.replace == LFU) ==>
      forall k :: 0 <= k < |ls| ==> res[k].use == ls[k].use
    ensures forall j :: Hit(cfg, ls, address, j) && cfg.replace == LRU ==> res[j].use == cfg.mapping
    ensures forall j :: Hit(cfg, ls, address, j) && cfg.replace == LFU ==> res[j].use == ls[j].use + 1
  {
    match Lookup(cfg, ls, address)
    case None => ls
    case Some(j) =>
      assert forall i :: Hit(cfg, ls, address, i) ==> i == j by {
        forall i | Hit(cfg, ls, address, i) ensures i == j {
          LookupHit(cfg, ls, address, i);
        }
      }
      var patched := ls[j := ls[j].(data := ls[j].data[Offset(cfg, address) := byte], modified := true)];
      if cfg.replace == LRU || cfg.replace == LFU then UseUpdated(cfg, patched, SetBase(cfg, address), j)
      else patched
  }

  // ------------------------------------------------------------------------- lemmas

  /** The lines of a fresh cache (cache.py builds `size // block_size` new lines): every read
      of a fresh cache misses. */
  function FreshLines(cfg: Config): (ls: seq<Line>)
    requires WellFormed(cfg)
    ensures LinesOk(cfg, ls)
    ensures forall k :: 0 <= k < |ls| ==> ls[k] == NewLine(cfg.blockSize)
    ensures forall a :: ReadBlock(cfg, ls, a).None?
  {
    seq(NumLines(cfg), _ => NewLine(cfg.blockSize))
  }

  /** After `load(address, d)` the address hits; if it missed before, the hit is the victim
      line and `read` returns `d`. */
  lemma LoadThenRead(cfg: Config, ls: seq<Line>, address: int, d: seq<int>, r: nat)
    requires LinesOk(cfg, ls) && r < cfg.mapping && |d| == cfg.blockSize
    ensures Lookup(cfg, LoadLines(cfg, ls, address, d, r), address).Some?
    ensures ReadBlock(cfg, ls, address).None? ==>
      && Hit(cfg, LoadLines(cfg, ls, address, d, r), address, Victim(cfg, ls, address, r))
      && ReadBlock(cfg, LoadLines(cfg, ls, address, d, r), address) == Some(d)
  {
    var res, v := LoadLines(cfg, ls, address, d, r), Victim(cfg, ls, address, r);
    var base, tag := SetBase(cfg, address), Tag(cfg, address);
    assert Matches(res[v], tag);
    if ReadBlock(cfg, ls, address).None? {
      forall k | base <= k < v ensures !Matches(res[k], tag) {
        assert InSet(cfg, address, k);
        assert res[k] == ls[k].(use := res[k].use);
      }
      assert Hit(cfg, res, address, v);
    }
  }

  /** After `load(address, d)`, `get_physical_address` of the victim line is the address with
      its offset bits cleared: the line records which block it holds. */
  lemma LoadedLineAddress(cfg: Config, ls: seq<Line>, address: int, d: seq<int>, r: nat)
    requires LinesOk(cfg, ls) && r < cfg.mapping && |d| == cfg.blockSize
    ensures PhysicalAddress(cfg, LoadLines(cfg, ls, address, d, r), Victim(cfg, ls, address, r))
            == address - Offset(cfg, address)
  {
    var v := Victim(cfg, ls, address, r);
    InSetIff(cfg, address, v);
    AddressSplit(cfg, address);
  }

  /** A write hit is visible to the next read: it returns the block with the byte replaced. */
  lemma WriteThenRead(cfg: Config, ls: seq<Line>, address: int, byte: int, j: int)
    requires LinesOk(cfg, ls) && Hit(cfg, ls, address, j)
    ensures ReadBlock(cfg, WriteLines(cfg, ls, address, byte), address)
            == Some(ls[j].data[Offset(cfg, address) := byte])
  {
    var res := WriteLines(cfg, ls, address, byte);
    var base, tag := SetBase(cfg, address), Tag(cfg, address);
    forall k | base <= k < j ensures !Matches(res[k], tag) {
      assert res[k] == ls[k].(use := res[k].use);
    }
    assert Hit(cfg, res, address, j);
  }

  // ------------------------------------------------------------ one line per block

  /** No set holds two valid lines with the same tag. `load` does not check residency, so this
      is kept only by callers that load after a miss, as the driver does. */
  predicate NoDuplicateTags(cfg: Config, ls: seq<Line>)
    requires WellFormed(cfg)
  {
    forall i, j :: 0 <= i < j < |ls| && i / cfg.mapping == j / cfg.mapping && ls[i].valid && ls[j].valid
      ==> ls[i].tag != ls[j].tag
  }

  /** The two line sequences cache the same blocks: they differ at most in counters, dirty
      flags and data. */
  predicate SameBlocks(ls: seq<Line>, res: seq<Line>) {
    |res| == |ls| && forall k :: 0 <= k < |ls| ==> res[k].valid == ls[k].valid && res[k].tag == ls[k].tag
  }

  /** Changing counters, dirty flags or data changes neither which line an address hits nor the
      one-line-per-block property. */
  lemma {:induction false} SameBlocksSameLookup(cfg: Config, ls: seq<Line>, res: seq<Line>, address: int)
    requires LinesOk(cfg, ls) && LinesOk(cfg, res) && SameBlocks(ls, res)
    ensures Lookup(cfg, res, address) == Lookup(cfg, ls, address)
    ensures NoDuplicateTags(cfg, ls) ==> NoDuplicateTags(cfg, res)
  {
    var base, tag := SetBase(cfg, address), Tag(cfg, address);
    FindSameMatches(ls, res, base, base + cfg.mapping, tag);
  }

  lemma {:induction false} FindSameMatches(ls: seq<Line>, res: seq<Line>, lo: nat, hi: nat, tag: int)
    requires lo <= hi <= |ls| && SameBlocks(ls, res)
    ensures Find(res, lo, hi, tag) == Find(ls, lo, hi, tag)
    decreases hi - lo
  {
    if lo < hi {
      assert Matches(res[lo], tag) == Matches(ls[lo], tag);
      FindSameMatches(ls, res, lo + 1, hi, tag);
    }
  }

  /** A load after a miss keeps one line per block: the victim takes the address's tag, which no
      valid line of the set carried, and every other line keeps its tag and valid flag. */
  lemma LoadAfterMissKeepsNoDuplicates(cfg: Config, ls: seq<Line>, address: int, d: seq<int>, r: nat)
    requires LinesOk(cfg, ls) && r < cfg.mapping && |d| == cfg.blockSize
    requires ReadBlock(cfg, ls, address).None? && NoDuplicateTags(cfg, ls)
    ensures NoDuplicateTags(cfg, LoadLines(cfg, ls, address, d, r))
  {
    var res, v := LoadLines(cfg, ls, address, d, r), Victim(cfg, ls, address, r);
    var m := cfg.mapping;
    InSetIff(cfg, address, v);
    forall i, j | 0 <= i < j < |res| && i / m == j / m && res[i].valid && res[j].valid
      ensures res[i].tag != res[j].tag
    {
      if i == v || j == v {
        var o := if i == v then j else i;
        InSetIff(cfg, address, o);
        assert res[o] == ls[o].(use := res[o].use);
        assert !Matches(ls[o], Tag(cfg, address));
      } else {
        assert res[i] == ls[i].(use := res[i].use);
        assert res[j] == ls[j].(use := res[j].use);
      }
    }
  }
}
