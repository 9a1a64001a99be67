/** copyContext: the copy loop that a file source and each archived file run through. */
module Source {
  import opened Base

  /** What one Read returns: some bytes, and nil, io.EOF or another error along with them. */
  datatype ReadEnd = More | Eof | Broken

  datatype Read = Read(data: Bytes, end: ReadEnd)

  /** nil, the context's error, the writer's error, the reader's error. */
  datatype CopyErr = Nil | Cancelled | WriteFailed | ReadFailed

  /** What the writer does with the chunk of read i; a short write comes with an error. */
  datatype Sink = Sink(takes: nat -> nat, fails: nat -> bool) {
    ghost predicate Valid(steps: seq<Read>) {
      forall i: nat :: i < |steps| && takes(i) < |steps[i].data| ==> fails(i)
    }
  }

  function Data(steps: seq<Read>): seq<Bytes> {
    seq(|steps|, i requires 0 <= i < |steps| => steps[i].data)
  }

  /**
   `steps` ends with the first read that reports an end; `cancelled(i)` is the context before read i.
   A nil result means that every byte of the source was written, those that came along with io.EOF
   included, and counted; on any error what was written is a prefix of what was read.
   */
  method CopyContext(steps: seq<Read>, cancelled: nat -> bool, sink: Sink)
    returns (written: Bytes, total: nat, err: CopyErr)
    requires |steps| > 0 && !steps[|steps| - 1].end.More?
    requires forall i :: 0 <= i < |steps| - 1 ==> steps[i].end.More?
    requires sink.Valid(steps)
    ensures total == |written| && written <= Concat(Data(steps))
    ensures err == Nil <==>
      && steps[|steps| - 1].end.Eof?
      && (forall i: nat :: i < |steps| ==> !cancelled(i) && (steps[i].data != [] ==> !sink.fails(i)))
    ensures err == Nil ==> written == Concat(Data(steps))
  {
    written, total := [], 0;
    ghost var all := Data(steps);
    var i := 0;
    while true
      invariant i < |steps| && total == |written| && written == Concat(all[..i])
      invariant forall k: nat :: k < i ==> !cancelled(k) && (steps[k].data != [] ==> !sink.fails(k))
      decreases |steps| - i
    {
      ConcatNext(all, i);
      if cancelled(i) {
        return written, total, Cancelled;
      }
      var n := |steps[i].data|;
      if n > 0 {
        var nw := if sink.takes(i) < n then sink.takes(i) else n;
        written := written + steps[i].data[..nw];
        total := total + nw;
        if sink.fails(i) {
          return written, total, WriteFailed;
        }
      }
      i := i + 1;
      if steps[i - 1].end.Eof? {
        return written, total, Nil;
      }
      if steps[i - 1].end.Broken? {
        return written, total, ReadFailed;
      }
    }
  }
}
