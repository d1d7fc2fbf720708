/** Main memory (memory.py): a flat list of bytes read and written one block at a time. Both
    operations act on the block-aligned region containing the address and raise IndexError when
    that region does not lie inside the memory. */
module MainMemory {

  /** The outcome of an operation that may raise IndexError. */
  datatype Result<T> = Ok(value: T) | IndexError

  /** First address of the block containing `address` (Python's `%` is non-negative for a
      positive block size, as Dafny's is). */
  function BlockStart(blockSize: nat, address: int): (start: int)
    requires blockSize > 0
  {
    address - address % blockSize
  }

  predicate InRange(size: int, blockSize: nat, address: int)
    requires blockSize > 0
  {
    0 <= BlockStart(blockSize, address) && BlockStart(blockSize, address) + blockSize <= size
  }

  /** `get_block`: a copy of the `blockSize` bytes of the block containing `address`. */
  function BlockAt(mem: seq<int>, blockSize: nat, address: int): (r: Result<seq<int>>)
    requires blockSize > 0
    ensures r.Ok? <==> InRange(|mem|, blockSize, address)
    ensures r.Ok? ==> |r.value| == blockSize
    ensures r.Ok? ==>
      forall i :: 0 <= i < blockSize ==> r.value[i] == mem[BlockStart(blockSize, address) + i]
  {
    var start := BlockStart(blockSize, address);
    if start < 0 || start + blockSize > |mem| then IndexError
    else Ok(mem[start..start + blockSize])
  }

  /** `set_block`: the memory with the block containing `address` replaced by `d`. */
  function WithBlock(mem: seq<int>, blockSize: nat, address: int, d: seq<int>): (r: Result<seq<int>>)
    requires blockSize > 0 && |d| == blockSize
    ensures r.Ok? <==> InRange(|mem|, blockSize, address)
    ensures r.Ok? ==> |r.value| == |mem|
    ensures r.Ok? ==>
      forall i :: 0 <= i < |mem| ==>
        r.value[i] == if BlockStart(blockSize, address) <= i < BlockStart(blockSize, address) + blockSize
                      then d[i - BlockStart(blockSize, address)] else mem[i]
  {
    var start := BlockStart(blockSize, address);
    if start < 0 || start + blockSize > |mem| then IndexError
    else Ok(mem[..start] + d + mem[start + blockSize..])
  }

  /** Two addresses of the same block read the same bytes; the block's first address is a
      multiple of the block size and the address lies inside its block. */
  lemma SameBlock(mem: seq<int>, blockSize: nat, a: int, b: int)
    requires blockSize > 0 && a / blockSize == b / blockSize
    ensures BlockStart(blockSize, a) == BlockStart(blockSize, b)
    ensures BlockAt(mem, blockSize, a) == BlockAt(mem, blockSize, b)
  {
    assert a - a % blockSize == (a / blockSize) * blockSize;
    assert b - b % blockSize == (b / blockSize) * blockSize;
  }

  /** Writing a block and reading it back, from any address of that block, gives the block. */
  lemma SetThenGet(mem: seq<int>, blockSize: nat, a: int, b: int, d: seq<int>)
    requires blockSize > 0 && |d| == blockSize && a / blockSize == b / blockSize
    requires WithBlock(mem, blockSize, a, d).Ok?
    ensures BlockAt(WithBlock(mem, blockSize, a, d).value, blockSize, b) == Ok(d)
  {
    SameBlock(mem, blockSize, a, b);
    var m := WithBlock(mem, blockSize, a, d).value;
    var got := BlockAt(m, blockSize, b).value;
    assert got == d;
  }

  /** Memory as the program holds it: `_data` is a list the block writes overwrite. */
  class Memory {
    const size: nat
    const blockSize: nat
    var data: seq<int>

    ghost predicate Valid()
      reads this
    {
      blockSize > 0 && |data| == size
    }

    /** `Memory.__init__`: the program fills memory with random bytes; here the initial
        contents are a parameter. */
    constructor (size: nat, blockSize: nat, contents: seq<int>)
      requires blockSize > 0 && |contents| == size
      ensures Valid()
      ensures this.size == size && this.blockSize == blockSize && data == contents
    {
      this.size, this.blockSize, data := size, blockSize, contents;
    }

    /** `get_block`, a read-only query. */
    function GetBlock(address: int): (block: Result<seq<int>>)
      reads this
      requires Valid()
    {
      BlockAt(data, blockSize, address)
    }

    /** `set_block`: overwrite the block containing `address`; a failing call changes nothing. */
    method SetBlock(address: int, d: seq<int>) returns (r: Result<()>)
      requires Valid() && |d| == blockSize
      modifies this
      ensures Valid()
      ensures r.Ok? <==> WithBlock(old(data), blockSize, address, d).Ok?
      ensures r.Ok? ==> data == WithBlock(old(data), blockSize, address, d).value
      ensures r.IndexError? ==> data == old(data)
    {
      var start := address - address % blockSize;
      var end := start + blockSize;
      if start < 0 || end > size {
        return IndexError;
      }
      data := data[..start] + d + data[end..];
      return Ok(());
    }
  }
}
