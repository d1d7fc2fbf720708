/** The configuration of a cache (cache.py, `Cache.__init__`) and the split of an address into
    tag, set index and offset (`_get_tag`, `_get_set`, `get_offset`).

    All sizes are powers of two. The program derives its two shift amounts with a floating
    point logarithm; here they are given as exponents that must match the sizes exactly. */
module CacheConfig {

  datatype Replacement = LRU | LFU | FIFO | RAND

  datatype WritePolicy = WriteBack | WriteThrough

  /** The policies whose `use` counters follow the bounded counter scheme. */
  predicate Bounded(p: Replacement) {
    p == LRU || p == FIFO
  }

  /** The constant part of a cache: total size, memory size, block size, lines per set
      (`mapping`), both policies, and the shift amounts `tagShift = log2(size / mapping)` and
      `setShift = log2(blockSize)`. */
  datatype Config = Config(
    size: nat, memSize: nat, blockSize: nat, mapping: nat,
    replace: Replacement, write: WritePolicy,
    tagShift: nat, setShift: nat)

  function Pow2(n: nat): (p: nat)
    ensures p >= 1
  {
    if n == 0 then 1 else 2 * Pow2(n - 1)
  }

  lemma {:induction false} Pow2Add(m: nat, n: nat)
    ensures Pow2(m + n) == Pow2(m) * Pow2(n)
  {
    if m > 0 {
      Pow2Add(m - 1, n);
      calc {
        Pow2(m + n);
        2 * Pow2(m - 1 + n);
        2 * (Pow2(m - 1) * Pow2(n));
        (2 * Pow2(m - 1)) * Pow2(n);
      }
    }
  }

  /** The sizes the program is built for: the block size is 2^setShift, `size / mapping` is
      exactly 2^tagShift, and the cache holds at least one whole set. */
  predicate WellFormed(cfg: Config) {
    && cfg.mapping >= 1
    && cfg.blockSize == Pow2(cfg.setShift)
    && cfg.setShift <= cfg.tagShift
    && cfg.size == cfg.mapping * Pow2(cfg.tagShift)
  }

  /** Number of sets; the program's set mask is this minus one. */
  function NumSets(cfg: Config): (n: nat)
    requires WellFormed(cfg)
    ensures n >= 1
  {
    Pow2(cfg.tagShift - cfg.setShift)
  }

  /** Number of lines, `size // block_size` in the program. */
  function NumLines(cfg: Config): (n: nat)
    requires WellFormed(cfg)
  {
    cfg.mapping * NumSets(cfg)
  }

  /** `address >> tag_shift`: Python shifts floor, as Dafny's `/` does for a positive divisor. */
  function Tag(cfg: Config, address: int): (t: int)
  {
    address / Pow2(cfg.tagShift)
  }

  /** `address & (block_size - 1)`: on Python's unbounded two's complement integers this is the
      non-negative remainder, also for negative addresses. */
  function Offset(cfg: Config, address: int): (o: nat)
    requires WellFormed(cfg)
  {
    address % cfg.blockSize
  }

  /** `(address >> set_shift) & set_mask` with `set_mask == NumSets - 1`. */
  function SetIndex(cfg: Config, address: int): (s: nat)
    requires WellFormed(cfg)
  {
    (address / cfg.blockSize) % NumSets(cfg)
  }

  // ---------------------------------------------------------------- arithmetic helpers

  lemma MulLe(x: int, y: int, d: nat)
    requires x <= y
    ensures x * d <= y * d
  {
  }

  /** Euclidean division is determined by its defining equation. */
  lemma DivModUnique(a: int, d: int, q: int, r: int)
    requires d > 0 && 0 <= r < d && a == q * d + r
    ensures a / d == q && a % d == r
  {
    var q0, r0 := a / d, a % d;
    assert a == q0 * d + r0;
    if q0 < q {
      MulLe(q0 + 1, q, d);
      assert false;
    } else if q < q0 {
      MulLe(q + 1, q0, d);
      assert false;
    }
  }

  /** Dividing by `b` and then by `c` is dividing by `b * c`; the remainders combine. */
  lemma DivDiv(a: int, b: int, c: int)
    requires b > 0 && c > 0
    ensures a / (b * c) == (a / b) / c
    ensures a == (a / b) / c * (b * c) + ((a / b) % c) * b + a % b
    ensures 0 <= ((a / b) % c) * b + a % b < b * c
  {
    var q, r := a / b, a % b;
    var t, s := q / c, q % c;
    assert a == q * b + r;
    assert q == t * c + s;
    assert q * b == t * (b * c) + s * b by {
      assert q * b == (t * c + s) * b;
    }
    MulLe(s, c - 1, b);
    assert s * b + r < b * c;
    DivModUnique(a, b * c, t, s * b + r);
  }

  /** The program's own derived quantities agree with the ones used here. */
  lemma GeometryFacts(cfg: Config)
    requires WellFormed(cfg)
    ensures Pow2(cfg.tagShift) == cfg.blockSize * NumSets(cfg)
    ensures cfg.size / cfg.mapping == Pow2(cfg.tagShift)
    ensures cfg.size / (cfg.blockSize * cfg.mapping) == NumSets(cfg)
    ensures cfg.size / cfg.blockSize == NumLines(cfg)
    ensures cfg.blockSize * cfg.mapping <= cfg.size
  {
    Pow2Add(cfg.setShift, cfg.tagShift - cfg.setShift);
    SizeQuotients(cfg.size, cfg.blockSize, cfg.mapping, NumSets(cfg));
  }

  lemma SizeQuotients(size: int, b: int, m: int, n: int)
    requires b > 0 && m > 0 && n > 0 && size == m * (b * n)
    ensures size / m == b * n
    ensures size / (b * m) == n
    ensures size / b == m * n
    ensures b * m <= size
  {
    DivModUnique(size, m, b * n, 0);
    assert size == n * (b * m);
    DivModUnique(size, b * m, n, 0);
    assert size == (m * n) * b;
    DivModUnique(size, b, m * n, 0);
    MulLe(1, n, b * m);
  }

  /** Splitting an address and recombining the parts gives the address back, with every part in
      its range: `tag << tag_shift | set << set_shift | offset == address`. */
  lemma AddressSplit(cfg: Config, a: int)
    requires WellFormed(cfg)
    ensures 0 <= Offset(cfg, a) < cfg.blockSize
    ensures 0 <= SetIndex(cfg, a) < NumSets(cfg)
    ensures a == Tag(cfg, a) * Pow2(cfg.tagShift) + SetIndex(cfg, a) * cfg.blockSize + Offset(cfg, a)
  {
    GeometryFacts(cfg);
    DivDiv(a, cfg.blockSize, NumSets(cfg));
  }

  /** The split is unique: any tag, in-range set index and in-range offset that recombine to an
      address are that address's parts. */
  lemma AddressJoin(cfg: Config, a: int, t: int, s: int, o: int)
    requires WellFormed(cfg)
    requires 0 <= o < cfg.blockSize && 0 <= s < NumSets(cfg)
    requires a == t * Pow2(cfg.tagShift) + s * cfg.blockSize + o
    ensures Tag(cfg, a) == t && SetIndex(cfg, a) == s && Offset(cfg, a) == o
  {
    var bs, n := cfg.blockSize, NumSets(cfg);
    GeometryFacts(cfg);
    JoinParts(a, bs, n, t, s, o);
  }

  lemma JoinParts(a: int, b: int, c: int, t: int, s: int, o: int)
    requires b > 0 && c > 0 && 0 <= o < b && 0 <= s < c
    requires a == t * (b * c) + s * b + o
    ensures a / (b * c) == t && (a / b) % c == s && a % b == o
  {
    assert a == (t * c + s) * b + o;
    DivModUnique(a, b, t * c + s, o);
    DivModUnique(t * c + s, c, t, s);
    DivDiv(a, b, c);
  }
}
