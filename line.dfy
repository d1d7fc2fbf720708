/** A cache line (line.py): one slot of the cache holding a block and its bookkeeping.
    The program mutates these records in place; here a line is a value and the cache
    keeps its lines as the elements of an array, overwriting one element per update. */
module LineRecord {

  /** `use` is the replacement-policy counter, `modified` the dirty flag, `valid` is set by the
      first load, `tag` names the memory block held and `data` is the block's bytes. */
  datatype Line = Line(use: nat, modified: bool, valid: bool, tag: int, data: seq<int>)

  /** The initial state of a line of `size` bytes: unused, clean, invalid, tag 0, all zero. */
  function NewLine(size: nat): (l: Line)
    ensures l.use == 0 && !l.modified && !l.valid && l.tag == 0
    ensures |l.data| == size && forall i :: 0 <= i < size ==> l.data[i] == 0
  {
    Line(0, false, false, 0, seq(size, _ => 0))
  }
}
