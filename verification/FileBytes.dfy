/** What the daemon's Read and Write RPCs do to the bytes of a file.

    The calls into the operating system are the functions `OsTruncate`, `OsWrite` and `OsReadFull`;
    the reference they are measured against is `ByteAfter` below, which gives each byte of a file
    directly from the list of operations performed on it. */
module FileBytes {
  type Byte = bv8

  type Bytes = seq<Byte>

  const READ_CAP := 0x10_0000

  function Max(a: int, b: int): int { if a < b then b else a }

  function Zeros(n: nat): Bytes { seq(n, _ => 0) }

  function ZeroExtend(c: Bytes, n: nat): Bytes { if |c| < n then c + Zeros(n - |c|) else c }

  function OsTruncate(c: Bytes, size: nat): Bytes { ZeroExtend(c, size)[..size] }

  /** `write(2)` at a position, which may lie beyond the end; writing nothing does not extend. */
  function OsWrite(c: Bytes, pos: nat, data: Bytes): Bytes {
    if data == [] then c
    else
      var base := ZeroExtend(c, pos + |data|);
      base[..pos] + data + base[pos + |data|..]
  }

  function OsReadFull(c: Bytes, pos: nat, length: nat): Bytes {
    if pos >= |c| then [] else if |c| - pos <= length then c[pos..] else c[pos..pos + length]
  }

  datatype Error = NotFound | TooLarge | Invalid | OsError

  datatype Result<+T> = Success(value: T) | Failure(error: Error)

  class FSHandlers {
    const maxFileBytes: int
    var files: map<string, Bytes>

    constructor (maxFileBytes: int)
      ensures files == map[] && this.maxFileBytes == maxFileBytes
    {
      this.maxFileBytes := maxFileBytes;
      files := map[];
    }

    /** The Write RPC, whose third mode, an empty truncating write, sizes the file to `offset`.
        `refused` is an operating-system error before anything has been touched. A negative offset
        is an error in the third mode, after the file has been created, and writes at 0 otherwise. */
    method Write(path: string, offset: int, data: Bytes, truncate: bool, refused: bool) returns (r: Result<nat>)
      modifies this
      ensures refused ==> r == Failure(OsError) && files == old(files)
      ensures !refused && truncate && data == [] && offset < 0 ==>
                r == Failure(Invalid) && files == old(files)[path := Contents(old(files), path)]
      ensures !refused && !(truncate && data == [] && offset < 0) ==>
                && r == Success(|data|)
                && files == old(files)[
                     path := After(Contents(old(files), path), WriteOp(Max(0, offset), data, truncate))]
    {
      if refused { return Failure(OsError); }
      if truncate && data == [] {
        if path !in files {
          files := files[path := []];
        }
        if offset < 0 {
          assert files == old(files)[path := Contents(old(files), path)];
          return Failure(Invalid);
        }
        TruncateIsAfter(files[path], offset);
        files := files[path := OsTruncate(files[path], offset)];
        return Success(0);
      }
      var content: Bytes := if path in files then files[path] else [];
      if truncate { content := []; }
      var pos: nat := 0;
      if offset > 0 { pos := offset; }
      WriteIsAfter(Contents(old(files), path), pos, data, truncate);
      files := files[path := OsWrite(content, pos, data)];
      r := Success(|data|);
    }

    /** The Read RPC. The data are exactly the bytes at the offset, at most the capped length of
        them, and `eof` says exactly that they reach the end of the file. A negative offset reads
        from 0, and then `eof` says that the file is shorter than the capped length. */
    method Read(path: string, offset: int, length: int) returns (r: Result<(Bytes, bool)>)
      ensures path !in files ==> r == Failure(NotFound)
      ensures path in files && TooBig(maxFileBytes, files[path], offset, length) ==> r == Failure(TooLarge)
      ensures path in files && !TooBig(maxFileBytes, files[path], offset, length) ==>
                var c, pos := files[path], Max(0, offset);
                && r.Success?
                && |r.value.0| == Max(0, if |c| - pos < Capped(length) then |c| - pos else Capped(length))
                && (forall i: nat | i < |r.value.0| :: r.value.0[i] == c[pos + i])
                && (offset >= 0 ==> (r.value.1 <==> offset + |r.value.0| >= |c|))
                && (offset >= 0 ==> r == Success(ReadAt(c, offset, length)))
                && (offset < 0 ==> (r.value.1 <==> |c| < Capped(length)))
    {
      if path !in files { return Failure(NotFound); }
      var c := files[path];
      if maxFileBytes > 0 && |c| > maxFileBytes && offset == 0 && length >= |c| {
        return Failure(TooLarge);
      }
      var pos: nat := 0;
      if offset > 0 { pos := offset; }
      var n := length;
      if n <= 0 || n > READ_CAP { n := READ_CAP; }
      var buf := OsReadFull(c, pos, n);
      var short := |buf| < n;
      r := Success((buf, short || offset + |buf| >= |c|));
    }
  }

  function Capped(length: int): nat { if length <= 0 || length > READ_CAP then READ_CAP else length }

  predicate TooBig(max: int, c: Bytes, offset: int, length: int) {
    max > 0 && |c| > max && offset == 0 && length >= |c|
  }

  function Contents(files: map<string, Bytes>, path: string): Bytes { if path in files then files[path] else [] }

  function ReadAt(c: Bytes, offset: nat, length: int): (Bytes, bool) {
    var buf := OsReadFull(c, offset, Capped(length));
    (buf, offset + |buf| >= |c|)
  }

  // ---- the reference: one operation on a zero-filled sequence ----

  datatype Op = WriteOp(offset: nat, data: Bytes, truncate: bool)

  predicate Sizes(op: Op) { op.truncate && op.data == [] }

  function At(c: Bytes, i: nat): Byte { if i < |c| then c[i] else 0 }

  /** The size of a file of `size` bytes after the operation. */
  function SizeAfter(size: nat, op: Op): nat {
    if Sizes(op) then op.offset
    else
      var kept := if op.truncate then 0 else size;
      if op.data == [] then kept else Max(kept, op.offset + |op.data|)
  }

  /** The byte at `i` after the operation, if it was `b` before; 0 stands for a byte past the end. */
  function ByteWritten(b: Byte, i: nat, op: Op): Byte {
    if Sizes(op) then (if i < op.offset then b else 0)
    else if op.offset <= i < op.offset + |op.data| then op.data[i - op.offset]
    else if op.truncate then 0
    else b
  }

  function After(c: Bytes, op: Op): Bytes {
    seq(SizeAfter(|c|, op), i requires 0 <= i => ByteWritten(At(c, i), i, op))
  }

  /** One read returns at most a mebibyte, and that much when no length or a longer one is asked for. */
  lemma ReadsAMebibyteAtMost(c: Bytes, offset: nat, length: int)
    ensures var data := ReadAt(c, offset, length).0;
      |data| <= 1048576 && (0 < length <= 1048576 ==> |data| <= length)
      && (!(0 < length <= 1048576) && offset + 1048576 <= |c| ==> data == c[offset..offset + 1048576])
  {
  }

  /** The size limit stops only a request for a whole file that is larger: from its beginning, and of
      at least its size. */
  lemma OnlyWholeFilesAreTooBig(max: int, c: Bytes, offset: int, length: int)
    ensures TooBig(max, c, offset, length) <==> 0 < max < |c| <= length && offset == 0
  {
  }

  lemma TruncateIsAfter(c: Bytes, size: nat)
    ensures OsTruncate(c, size) == After(c, WriteOp(size, [], true))
  {
  }

  lemma WriteIsAfter(c: Bytes, pos: nat, data: Bytes, truncate: bool)
    requires !(truncate && data == [])
    ensures OsWrite(if truncate then [] else c, pos, data) == After(c, WriteOp(pos, data, truncate))
  {
    var base := if truncate then [] else c;
    var op := WriteOp(pos, data, truncate);
    assert |OsWrite(base, pos, data)| == |After(c, op)|;
    forall i | 0 <= i < |After(c, op)|
      ensures OsWrite(base, pos, data)[i] == After(c, op)[i]
    {
    }
  }

  /** The operations one after the other. */
  function AfterAll(c: Bytes, ops: seq<Op>): Bytes {
    if ops == [] then c else After(AfterAll(c, ops[..|ops| - 1]), ops[|ops| - 1])
  }

  /** How many operations there are up to the last one that fixes the size. */
  function Fixed(ops: seq<Op>): nat
    ensures Fixed(ops) <= |ops|
  {
    if ops == [] then 0 else if ops[|ops| - 1].truncate then |ops| else Fixed(ops[..|ops| - 1])
  }

  function End(op: Op): nat { op.offset + |op.data| }

  /** `size` is the largest of the size fixed last, or else the original one, and the ends of the
      writes since. */
  ghost predicate LargestEnd(size: nat, original: nat, ops: seq<Op>) {
    var k := Fixed(ops);
    var base := if k == 0 then original else End(ops[k - 1]);
    && base <= size
    && (forall i | k <= i < |ops| && ops[i].data != [] :: End(ops[i]) <= size)
    && (size == base || exists i :: k <= i < |ops| && ops[i].data != [] && End(ops[i]) == size)
  }

  lemma LargestEndStep(before: nat, original: nat, ops: seq<Op>)
    requires ops != [] && LargestEnd(before, original, ops[..|ops| - 1])
    ensures LargestEnd(SizeAfter(before, ops[|ops| - 1]), original, ops)
  {
    var n := |ops| - 1;
    var op := ops[n];
    var k := Fixed(ops[..n]);
    if !op.truncate && before != (if k == 0 then original else End(ops[k - 1])) {
      var i :| k <= i < n && ops[..n][i].data != [] && End(ops[..n][i]) == before;
      assert ops[i].data != [] && End(ops[i]) == before;
    }
  }

  /** The final byte at `i`, found by going back to the last operation that decides it: the last
      write that covers it, or a later truncation below it, or the original byte. */
  function ByteAfter(c: Bytes, ops: seq<Op>, i: nat): Byte {
    if ops == [] then At(c, i)
    else
      var op := ops[|ops| - 1];
      if op.offset <= i < op.offset + |op.data| then op.data[i - op.offset]
      else if op.truncate && (op.data != [] || i >= op.offset) then 0
      else ByteAfter(c, ops[..|ops| - 1], i)
  }

  /** After any sequence of writes, truncating writes and resizes, a file holds exactly the bytes
      the reference gives, with zeros in every gap, and reaches to the largest end written since its
      size was last fixed. */
  lemma {:induction false} FileHoldsLastWrites(c: Bytes, ops: seq<Op>)
    ensures LargestEnd(|AfterAll(c, ops)|, |c|, ops)
    ensures forall i: nat :: At(AfterAll(c, ops), i) == ByteAfter(c, ops, i)
  {
    if ops != [] {
      var n := |ops| - 1;
      FileHoldsLastWrites(c, ops[..n]);
      var before := AfterAll(c, ops[..n]);
      LargestEndStep(|before|, |c|, ops);
      forall i: nat
        ensures At(AfterAll(c, ops), i) == ByteAfter(c, ops, i)
      {
        assert At(before, i) == ByteAfter(c, ops[..n], i);
      }
    }
  }

  /** Reading on from `offset` by the length returned, until EOF. */
  function ReadToEnd(c: Bytes, offset: nat, length: int): Bytes
    decreases |c| - offset
  {
    var (data, eof) := ReadAt(c, offset, length);
    if eof then data else data + ReadToEnd(c, offset + |data|, length)
  }

  /** It terminates with the rest of the file, whatever length is asked for: every read before the
      end makes progress. */
  lemma {:induction false} ReadToEndIsTheFile(c: Bytes, offset: nat, length: int)
    requires offset <= |c|
    ensures ReadToEnd(c, offset, length) == c[offset..]
    decreases |c| - offset
  {
    var (data, eof) := ReadAt(c, offset, length);
    if !eof {
      ReadToEndIsTheFile(c, offset + |data|, length);
      assert c[offset..] == data + c[offset + |data|..];
    }
  }
}
