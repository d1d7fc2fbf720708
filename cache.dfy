/** The `Cache` class of cache.py: an array of lines updated in place by `read`, `load` and
    `write`, each proved to produce exactly the lines the functions of CacheSpec describe. */
module CacheImpl {
  import opened LineRecord
  import opened CacheConfig
  import opened CacheSpec

  class Cache {
    const cfg: Config
    var lines: array<Line>

    ghost predicate Valid()
      reads this, lines
    {
      LinesOk(cfg, lines[..])
    }

    /** `Cache.__init__`: `size // block_size` new lines. */
    constructor (size: nat, memSize: nat, blockSize: nat, mapping: nat,
                 replace: Replacement, write: WritePolicy, tagShift: nat, setShift: nat)
      requires WellFormed(Config(size, memSize, blockSize, mapping, replace, write, tagShift, setShift))
      ensures cfg == Config(size, memSize, blockSize, mapping, replace, write, tagShift, setShift)
      ensures Valid() && fresh(lines)
      ensures lines[..] == FreshLines(cfg)
    {
      var c := Config(size, memSize, blockSize, mapping, replace, write, tagShift, setShift);
      GeometryFacts(c);
      var a := new Line[size / blockSize](_ => NewLine(blockSize));
      assert a[..] == FreshLines(c);
      cfg, lines := c, a;
    }

    /** The scan of a set for a valid line carrying `tag`, shared by `read` and `write`. */
    method FindLine(tag: int, base: nat) returns (found: Option<nat>)
      requires Valid() && base + cfg.mapping <= lines.Length
      ensures found == Find(lines[..], base, base + cfg.mapping, tag)
    {
      var i := 0;
      while i < cfg.mapping
        invariant 0 <= i <= cfg.mapping
        invariant Find(lines[..], base + i, base + cfg.mapping, tag)
                  == Find(lines[..], base, base + cfg.mapping, tag)
      {
        if lines[base + i].tag == tag && lines[base + i].valid {
          return Some(base + i);
        }
        i := i + 1;
      }
      return None;
    }

    /** `read`: the block of the line the address hits, or nothing. */
    method Read(address: int) returns (block: Option<seq<int>>)
      requires Valid()
      modifies lines
      ensures Valid()
      ensures block == ReadBlock(cfg, old(lines[..]), address)
      ensures lines[..] == ReadLines(cfg, old(lines[..]), address)
    {
      var tag := Tag(cfg, address);
      var base := SetBase(cfg, address);
      var line := FindLine(tag, base);
      if line.Some? {
        if cfg.replace == LRU || cfg.replace == LFU {
          UpdateUse(line.value, base);
        }
        block := Some(lines[line.value].data);
      } else {
        block := None;
      }
    }

    /** The victim scan of `load`: `victim` starts at the set's first line and is replaced by any
        line whose `use` is strictly smaller; `index` is what the loop variable holds after the
        loop. */
    method SelectVictim(base: nat) returns (victim: nat, index: nat)
      requires Valid() && base + cfg.mapping <= lines.Length
      ensures IsLeftmostMin(lines[..], base, base + cfg.mapping, victim)
      ensures index == cfg.mapping - 1
    {
      victim, index := base, 0;
      var i := 0;
      while i < cfg.mapping
        invariant 0 <= i <= cfg.mapping
        invariant IsLeftmostMin(lines[..], base, base + if i == 0 then 1 else i, victim)
        invariant i > 0 ==> index == i - 1
      {
        index := i;
        if lines[base + i].use < lines[victim].use {
          victim := base + i;
        }
        i := i + 1;
      }
    }

    /** The first half of `load`: choose the victim and, except under RAND, reset its counter
        (and under FIFO promote it). `index` is the value `load` reports for a dirty victim. */
    method Evict(address: int, r: nat) returns (victim: nat, index: nat)
      requires Valid() && r < cfg.mapping
      modifies lines
      ensures Valid()
      ensures victim == Victim(cfg, old(lines[..]), address, r)
      ensures index == if cfg.replace == RAND then r else cfg.mapping - 1
      ensures lines[..] == Evicted(cfg, old(lines[..]), address, r)
    {
      ghost var before := lines[..];
      var base := SetBase(cfg, address);
      if cfg.replace == LRU || cfg.replace == LFU || cfg.replace == FIFO {
        victim, index := SelectVictim(base);
        LeftmostMinUnique(before, base, base + cfg.mapping, victim, LeftmostMinUse(before, base, base + cfg.mapping));
        lines[victim] := lines[victim].(use := 0);
        assert lines[..] == before[victim := before[victim].(use := 0)];
        if cfg.replace == FIFO {
          UpdateUse(victim, base);
        }
      } else {
        index := r;
        victim := base + r;
      }
    }

    /** `load`: evict a victim of the address's set and install `data` there. */
    method Load(address: int, data: seq<int>, r: nat) returns (victimInfo: Option<(int, seq<int>)>)
      requires Valid() && |data| == cfg.blockSize && r < cfg.mapping
      modifies lines
      ensures Valid()
      ensures victimInfo == LoadInfo(cfg, old(lines[..]), address, r)
      ensures lines[..] == LoadLines(cfg, old(lines[..]), address, data, r)
    {
      var tag := Tag(cfg, address);
      var victim, index := Evict(address, r);
      victimInfo := None;
      if lines[victim].modified {
        victimInfo := Some((index, lines[victim].data));
      }
      lines[victim] := lines[victim].(modified := false, valid := true, tag := tag, data := data);
    }

    /** `write`: on a hit, patch one byte of the line and mark it modified. */
    method Write(address: int, byte: int) returns (written: bool)
      requires Valid()
      modifies lines
      ensures Valid()
      ensures written <==> ReadBlock(cfg, old(lines[..]), address).Some?
      ensures lines[..] == WriteLines(cfg, old(lines[..]), address, byte)
    {
      ghost var before := lines[..];
      var tag := Tag(cfg, address);
      var base := SetBase(cfg, address);
      var line := FindLine(tag, base);
      if line.Some? {
        var j := line.value;
        AddressSplit(cfg, address);
        ghost var patched := before[j := before[j].(data := before[j].data[Offset(cfg, address) := byte], modified := true)];
        lines[j] := lines[j].(data := lines[j].data[Offset(cfg, address) := byte]);
        lines[j] := lines[j].(modified := true);
        assert lines[..] == patched;
        if cfg.replace == LRU || cfg.replace == LFU {
          UpdateUse(j, base);
        }
      }
      written := line.Some?;
    }

    /** `_update_use` on line `j` of the set starting at `base`. */
    method UpdateUse(j: nat, base: nat)
      requires Valid() && base + cfg.mapping <= lines.Length && base <= j < base + cfg.mapping
      modifies lines
      ensures Valid()
      ensures lines[..] == UseUpdated(cfg, old(lines[..]), base, j)
    {
      ghost var goal := UseUpdated(cfg, lines[..], base, j);
      if cfg.replace == LRU || cfg.replace == FIFO {
        var use := lines[j].use;
        if lines[j].use < cfg.mapping {
          lines[j] := lines[j].(use := cfg.mapping);
          var i := 0;
          while i < cfg.mapping
            invariant 0 <= i <= cfg.mapping
            invariant forall k :: 0 <= k < lines.Length ==>
              lines[k] == if k == j || base <= k < base + i then goal[k] else old(lines[k])
          {
            var k := base + i;
            if k != j && lines[k].use > use {
              lines[k] := lines[k].(use := lines[k].use - 1);
            }
            i := i + 1;
          }
        }
      } else if cfg.replace == LFU {
        lines[j] := lines[j].(use := lines[j].use + 1);
      }
      assert lines[..] == goal;
    }
  }
}
