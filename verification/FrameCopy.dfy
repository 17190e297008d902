/**
 * `NWebSurfaceAdapter::CopyFrame` and `OutputFrameCallback`: a frame of RGBA rows is copied into a
 * surface buffer with its own row stride.
 */
module FrameCopy {
  import opened Options

  const BITS_PER_PIXEL := 4
  const TWO_TO_THE_32 := 0x1_0000_0000

  type uint32 = n: int | 0 <= n < TWO_TO_THE_32

  function Wrap32(n: int): uint32 {
    n % TWO_TO_THE_32
  }

  // ----- the bounds check -----

  // The check made before each row, in 32-bit arithmetic.
  predicate RowRejected(copiedSize: uint32, stride: uint32, size: uint32) {
    Wrap32(copiedSize + stride) > size
  }

  // The check before row k, when `copiedSize` is k * stride in 32 bits.
  predicate RejectedAt(stride: uint32, size: uint32, k: nat) {
    RowRejected(Wrap32(k * stride), stride, size)
  }

  predicate RowsFitStride(row: nat, stride: nat) { 0 < stride && row <= stride }

  // A call accepts row k when every check up to it passes and memcpy_s copies.
  ghost predicate Accepts(row: nat, stride: uint32, size: uint32, k: nat) {
    RowsFitStride(row, stride) && forall i :: 0 <= i <= k ==> !RejectedAt(stride, size, i)
  }

  ghost predicate OverrunsAt(row: nat, height: nat, stride: uint32, size: uint32, k: nat) {
    k < height && Accepts(row, stride, size, k) && k * stride + stride > size
  }

  // Some row is accepted although its end lies behind the buffer's.
  ghost predicate Overruns(row: nat, height: nat, stride: uint32, size: uint32) {
    exists k :: OverrunsAt(row, height, stride, size, k)
  }

  // What a caller can look at before the call: nothing is copied, or all rows fit, or the end of the first
  // row that does not fit is still below 2^32.
  predicate ChecksHold(row: nat, height: nat, stride: uint32, size: uint32) {
    !RowsFitStride(row, stride) || height * stride <= size || (size / stride + 1) * stride < TWO_TO_THE_32
  }

  // MAIN: a call accepts a row that does not fit exactly when that condition fails.
  lemma ChecksHoldExactly(row: nat, height: nat, stride: uint32, size: uint32)
    ensures Overruns(row, height, stride, size) <==> !ChecksHold(row, height, stride, size)
  {
    if 0 < stride && row <= stride {
      var q := size / stride;
      Quotient(stride, size, q);
      if !ChecksHold(row, height, stride, size) {
        FirstMisfitIsAccepted(row, height, stride, size, q);
      }
      if k: nat :| OverrunsAt(row, height, stride, size, k) {
        MisfitMeansWrap(row, height, stride, size, q, k);
      }
    }
  }

  lemma Quotient(stride: uint32, size: uint32, q: nat)
    requires 0 < stride && q == size / stride
    ensures q * stride <= size < (q + 1) * stride == q * stride + stride
  {
  }

  lemma FirstMisfit(stride: uint32, size: uint32) returns (q: nat)
    requires 0 < stride
    ensures q == size / stride && q * stride <= size < (q + 1) * stride == q * stride + stride
  {
    q := size / stride;
    Quotient(stride, size, q);
  }

  // Rows before the first misfit `q` end within the buffer.
  lemma FitsBefore(stride: uint32, size: uint32, q: nat, i: nat)
    requires q * stride <= size && i < q
    ensures i * stride + stride <= size && Wrap32(i * stride) == i * stride
    ensures !RejectedAt(stride, size, i)
  {
    Earlier(stride, i, q);
    NoWrap(i * stride);
    NoWrap(i * stride + stride);
  }

  lemma FirstMisfitIsAccepted(row: nat, height: nat, stride: uint32, size: uint32, q: nat)
    requires q * stride <= size < (q + 1) * stride == q * stride + stride
    requires row <= stride && 0 < stride && height * stride > size && q * stride + stride >= TWO_TO_THE_32
    ensures OverrunsAt(row, height, stride, size, q)
  {
    if height <= q {
      NoMore(stride, height, q);
    }
    NoWrap(q * stride);
    WrapOnce(q * stride + stride);
    forall i | 0 <= i <= q ensures !RejectedAt(stride, size, i) {
      if i < q {
        FitsBefore(stride, size, q, i);
      }
    }
  }

  lemma MisfitMeansWrap(row: nat, height: nat, stride: uint32, size: uint32, q: nat, k: nat)
    requires q * stride <= size < (q + 1) * stride == q * stride + stride
    requires OverrunsAt(row, height, stride, size, k)
    ensures height * stride > size && q * stride + stride >= TWO_TO_THE_32
  {
    Earlier(stride, k, height);
    if k < q {
      FitsBefore(stride, size, q, k);
    }
    NoWrap(q * stride);
    assert !RejectedAt(stride, size, q);
    if q * stride + stride < TWO_TO_THE_32 {
      NoWrap(q * stride + stride);
    }
  }

  lemma NoMore(width: nat, a: nat, b: nat)
    requires a <= b
    ensures a * width <= b * width
  {
    var d := b - a;
    assert b * width == a * width + d * width;
  }

  lemma NoWrap(n: int)
    requires 0 <= n < TWO_TO_THE_32
    ensures Wrap32(n) == n
  {
  }

  lemma WrapOnce(n: int)
    requires TWO_TO_THE_32 <= n < 2 * TWO_TO_THE_32
    ensures Wrap32(n) == n - TWO_TO_THE_32
  {
  }

  // Four rows of one gigabyte without padding, in a buffer one byte short of 2^32: the fourth is accepted
  // although its last byte lies behind the buffer.
  lemma FourthRowOverruns()
    ensures OverrunsAt(0x4000_0000, 4, 0x4000_0000, 0xFFFF_FFFF, 3)
    ensures !ChecksHold(0x4000_0000, 4, 0x4000_0000, 0xFFFF_FFFF)
  {
  }

  // ----- how many rows a call copies -----

  // The first row from `k` whose check rejects, or `height`.
  function RowsAccepted(height: nat, stride: uint32, size: uint32, k: nat): (n: nat)
    requires k <= height
    ensures k <= n <= height
    ensures n < height ==> RejectedAt(stride, size, n)
    ensures forall i :: k <= i < n ==> !RejectedAt(stride, size, i)
    decreases height - k
  {
    if k == height || RejectedAt(stride, size, k) then k
    else RowsAccepted(height, stride, size, k + 1)
  }

  // memcpy_s refuses already the first row when rows are wider than the stride or the stride is 0.
  function RowsCopied(row: nat, height: nat, stride: uint32, size: uint32): (n: nat)
    ensures n <= height
  {
    if RowsFitStride(row, stride) then RowsAccepted(height, stride, size, 0) else 0
  }

  // A call runs over the end exactly when the rows it copies do not fit.
  lemma OverrunsByRows(row: nat, height: nat, stride: uint32, size: uint32)
    ensures Overruns(row, height, stride, size) <==> RowsCopied(row, height, stride, size) * stride > size
  {
    var n := RowsCopied(row, height, stride, size);
    if k: nat :| OverrunsAt(row, height, stride, size, k) {
      OverrunIsCopied(row, height, stride, size, k, n);
    }
    if n * stride > size {
      LastCopiedOverruns(row, height, stride, size, n);
    }
  }

  lemma OverrunIsCopied(row: nat, height: nat, stride: uint32, size: uint32, k: nat, n: nat)
    requires OverrunsAt(row, height, stride, size, k) && n == RowsCopied(row, height, stride, size)
    ensures n * stride > size
  {
    assert n < height ==> RejectedAt(stride, size, n);
    assert k < n;
    Earlier(stride, k, n);
  }

  lemma LastCopiedOverruns(row: nat, height: nat, stride: uint32, size: uint32, n: nat)
    requires n == RowsCopied(row, height, stride, size) && n * stride > size
    ensures Overruns(row, height, stride, size)
  {
    Predecessor(stride, n);
    assert OverrunsAt(row, height, stride, size, n - 1);
  }

  lemma Predecessor(width: nat, n: nat)
    requires n > 0
    ensures (n - 1) * width + width == n * width
  {
  }

  // MAIN: while the condition holds, a call copies as many rows as fit, and is successful exactly when all do.
  lemma RowsCopiedExactly(row: nat, height: nat, stride: uint32, size: uint32)
    requires ChecksHold(row, height, stride, size)
    ensures RowsCopied(row, height, stride, size) == height <==> Copyable(row, height, stride, size)
    ensures RowsFitStride(row, stride) ==>
              RowsCopied(row, height, stride, size) == if height * stride <= size then height else size / stride
  {
    if RowsFitStride(row, stride) {
      var n := RowsCopied(row, height, stride, size);
      if height * stride <= size {
        if n < height {
          FitsBefore(stride, size, height, n);
        }
      } else {
        var q := FirstMisfit(stride, size);
        MisfitRejected(height, stride, size, q);
        if n < q {
          FitsBefore(stride, size, q, n);
        }
      }
    }
  }

  lemma MisfitRejected(height: nat, stride: uint32, size: uint32, q: nat)
    requires q * stride <= size < (q + 1) * stride == q * stride + stride < TWO_TO_THE_32 && height * stride > size
    ensures q < height && RejectedAt(stride, size, q)
  {
    if height <= q {
      NoMore(stride, height, q);
    }
    NoWrap(q * stride);
    NoWrap(q * stride + stride);
  }

  // ----- one copied frame -----

  // `before` with `rows` rows of `row` bytes each, taken from `src`, laid over it at multiples of `stride`.
  function Frame(before: seq<bv8>, src: seq<bv8>, row: nat, stride: nat, rows: nat): (after: seq<bv8>)
    requires row <= stride && rows * stride <= |before| && rows * row <= |src|
    ensures |after| == |before|
  {
    if rows == 0 then before
    else
      LastRowFits(row, stride, rows, |before|, |src|);
      var from := (rows - 1) * row;
      LaidOver(Frame(before, src, row, stride, rows - 1), src[from..from + row], (rows - 1) * stride)
  }

  function LaidOver(g: seq<bv8>, x: seq<bv8>, at: nat): (f: seq<bv8>)
    requires at + |x| <= |g|
    ensures |f| == |g|
  {
    g[..at] + x + g[at + |x|..]
  }

  lemma LastRowFits(row: nat, stride: nat, rows: nat, size: nat, srcSize: nat)
    requires row <= stride && rows * stride <= size && rows * row <= srcSize && rows > 0
    ensures 0 <= (rows - 1) * stride && (rows - 1) * stride + stride == rows * stride
    ensures 0 <= (rows - 1) * row && (rows - 1) * row + row == rows * row
  {
  }

  lemma Earlier(width: nat, r: nat, rows: nat)
    requires r < rows
    ensures 0 <= r * width && r * width + width == (r + 1) * width <= rows * width
  {
    var d := rows - r - 1;
    assert rows * width == (r + 1) * width + d * width;
    assert d * width >= 0;
  }

  // The row of `f` at offset `at` is the source row at offset `from`, its padding that of `before`.
  ghost predicate RowIs(f: seq<bv8>, before: seq<bv8>, src: seq<bv8>, row: nat, stride: nat, at: nat, from: nat) {
    && at + stride <= |f| == |before| && from + row <= |src| && row <= stride
    && f[at..at + row] == src[from..from + row]
    && f[at + row..at + stride] == before[at + row..at + stride]
  }

  // MAIN: row r of the frame is row r of the source, and the padding behind it is untouched.
  lemma {:induction false} FrameByRows(before: seq<bv8>, src: seq<bv8>, row: nat, stride: nat, rows: nat, r: nat,
                                       f: seq<bv8>, at: nat, from: nat)
    requires row <= stride && rows * stride <= |before| && rows * row <= |src|
    requires f == Frame(before, src, row, stride, rows)
    requires r < rows && at == r * stride && from == r * row
    ensures RowIs(f, before, src, row, stride, at, from)
  {
    var g, last, lastFrom := WithoutLastRow(before, src, row, stride, rows, f);
    Earlier(stride, r, rows);
    Earlier(row, r, rows);
    if r < rows - 1 {
      Earlier(stride, r, rows - 1);
      FrameByRows(before, src, row, stride, rows - 1, r, g, at, from);
      KeepsRow(g, before, src, row, stride, at, from, src[lastFrom..lastFrom + row], last);
    } else {
      FrameTail(before, src, row, stride, rows - 1, last);
      PlacesRow(g, before, src, row, stride, last, lastFrom);
    }
  }

  lemma WithoutLastRow(before: seq<bv8>, src: seq<bv8>, row: nat, stride: nat, rows: nat, f: seq<bv8>)
    returns (g: seq<bv8>, last: nat, lastFrom: nat)
    requires row <= stride && rows * stride <= |before| && rows * row <= |src| && rows > 0
    requires f == Frame(before, src, row, stride, rows)
    ensures last == (rows - 1) * stride && last + stride == rows * stride
    ensures lastFrom == (rows - 1) * row && lastFrom + row == rows * row
    ensures |g| == |before| && g == Frame(before, src, row, stride, rows - 1)
    ensures f == LaidOver(g, src[lastFrom..lastFrom + row], last)
  {
    LastRowFits(row, stride, rows, |before|, |src|);
    last, lastFrom := (rows - 1) * stride, (rows - 1) * row;
    g := Frame(before, src, row, stride, rows - 1);
  }

  lemma KeepsRow(g: seq<bv8>, before: seq<bv8>, src: seq<bv8>, row: nat, stride: nat, at: nat, from: nat,
                 x: seq<bv8>, last: nat)
    requires RowIs(g, before, src, row, stride, at, from) && at + stride <= last && last + |x| <= |g|
    ensures RowIs(LaidOver(g, x, last), before, src, row, stride, at, from)
  {
    KeepsEarlier(g, x, last, at, at + row);
    KeepsEarlier(g, x, last, at + row, at + stride);
  }

  lemma KeepsEarlier(g: seq<bv8>, x: seq<bv8>, at: nat, lo: nat, hi: nat)
    requires lo <= hi <= at && at + |x| <= |g|
    ensures LaidOver(g, x, at)[lo..hi] == g[lo..hi]
  {
  }

  lemma PlacesRow(g: seq<bv8>, before: seq<bv8>, src: seq<bv8>, row: nat, stride: nat, at: nat, from: nat)
    requires row <= stride && at + stride <= |g| == |before| && from + row <= |src|
    requires g[at..] == before[at..]
    ensures RowIs(LaidOver(g, src[from..from + row], at), before, src, row, stride, at, from)
  {
    var f := LaidOver(g, src[from..from + row], at);
    forall i | at + row <= i < at + stride ensures f[i] == before[i] {
      assert f[i] == g[i] == g[at..][i - at] == before[at..][i - at];
    }
  }

  lemma NextRow(before: seq<bv8>, src: seq<bv8>, row: nat, stride: nat, r: nat, g: seq<bv8>, from: nat, at: nat)
    requires row <= stride && from == r * row && at == r * stride
    requires at + stride == (r + 1) * stride <= |before| && from + row == (r + 1) * row <= |src|
    requires g == if r == 0 then before else Frame(before, src, row, stride, r)
    ensures LaidOver(g, src[from..from + row], at) == Frame(before, src, row, stride, r + 1)
  {
  }

  // MAIN: everything behind the last row is untouched.
  lemma {:induction false} FrameTail(before: seq<bv8>, src: seq<bv8>, row: nat, stride: nat, rows: nat, end: nat)
    requires row <= stride && rows * stride <= |before| && rows * row <= |src| && end == rows * stride
    ensures Frame(before, src, row, stride, rows)[end..] == before[end..]
  {
    if rows > 0 {
      LastRowFits(row, stride, rows, |before|, |src|);
      var at := (rows - 1) * stride;
      FrameTail(before, src, row, stride, rows - 1, at);
      var g := Frame(before, src, row, stride, rows - 1);
      assert g[end..] == g[at..][stride..];
      assert before[end..] == before[at..][stride..];
    }
  }

  // A surface buffer: GetVirAddr (unless it is not mapped, the memory from its first byte on, of which the
  // first `size` bytes are the buffer's), GetStride and GetSize.
  class SurfaceBuffer {
    const data: array<bv8>
    const mapped: bool
    const stride: uint32
    const size: uint32

    constructor (data: array<bv8>, mapped: bool, stride: uint32, size: uint32)
      ensures this.data == data && this.mapped == mapped && this.stride == stride && this.size == size
    {
      this.data, this.mapped, this.stride, this.size := data, mapped, stride, size;
    }

    // If mapped, the memory is apart from the frame's, and contains the buffer and what a call for a frame
    // of `height` rows of `row` bytes accepts.
    ghost predicate Usable(src: array<bv8>, row: nat, height: nat) {
      mapped ==> data != src && size <= data.Length && RowsCopied(row, height, stride, size) * stride <= data.Length
    }
  }

  // memcpy_s: refused when the destination is empty or smaller than the source; then the destination
  // range is left in an unspecified state.
  method MemcpyS(dst: array<bv8>, at: nat, destMax: nat, src: array<bv8>, from: nat, count: nat) returns (ok: bool)
    requires dst != src && at + destMax <= dst.Length && from + count <= src.Length
    modifies dst
    ensures ok <==> 0 < destMax && count <= destMax
    ensures ok ==> dst[..] == LaidOver(old(dst[..]), src[..][from..from + count], at)
    ensures !ok ==> forall i :: 0 <= i < dst.Length && !(at <= i < at + destMax) ==> dst[i] == old(dst[i])
  {
    ok := 0 < destMax && count <= destMax;
    if ok {
      for k := 0 to count
        invariant forall i :: 0 <= i < dst.Length ==>
                    dst[i] == if at <= i < at + k then src[from + i - at] else old(dst[i])
      {
        dst[at + k] := src[from + k];
      }
    }
  }

  // What decides whether a frame of `height` rows of `row` bytes is copied.
  predicate Copyable(row: nat, height: nat, stride: nat, size: nat) {
    height == 0 || (0 < stride && row <= stride && height * stride <= size)
  }

  // The first `rows` rows are copied; with none there is no condition on strides.
  ghost predicate RowsDone(before: seq<bv8>, after: seq<bv8>, src: seq<bv8>, row: nat, stride: nat, rows: nat) {
    if rows == 0 then after == before
    else
      && RowsFitStride(row, stride) && rows * stride <= |before| && rows * row <= |src|
      && after == Frame(before, src, row, stride, rows)
  }

  // What a call leaves in the memory: the rows it copied. If rows do not fit the stride, none is, and the
  // first row's place is unspecified if copying was tried.
  ghost predicate Copied(before: seq<bv8>, after: seq<bv8>, src: seq<bv8>, row: nat, height: nat, stride: uint32,
                         size: uint32)
  {
    if RowsFitStride(row, stride) then
      RowsDone(before, after, src, row, stride, RowsCopied(row, height, stride, size))
    else
      && |after| == |before|
      && forall i :: 0 <= i < |before| && (height == 0 || stride > size || stride <= i) ==> after[i] == before[i]
  }

  // MAIN: while the condition holds, a call, successful or not, leaves the memory behind the buffer alone.
  lemma BehindUntouched(before: seq<bv8>, after: seq<bv8>, src: seq<bv8>, row: nat, height: nat, stride: uint32,
                        size: uint32)
    requires Copied(before, after, src, row, height, stride, size) && size <= |before|
    requires ChecksHold(row, height, stride, size)
    ensures |after| == |before| && after[size..] == before[size..]
  {
    ChecksHoldExactly(row, height, stride, size);
    OverrunsByRows(row, height, stride, size);
    if RowsFitStride(row, stride) {
      RowsTail(before, after, src, row, stride, RowsCopied(row, height, stride, size), size);
    }
  }

  lemma RowsTail(before: seq<bv8>, after: seq<bv8>, src: seq<bv8>, row: nat, stride: nat, rows: nat, size: nat)
    requires RowsDone(before, after, src, row, stride, rows) && rows * stride <= size <= |before|
    ensures |after| == |before| && after[size..] == before[size..]
  {
    if rows > 0 {
      var end := rows * stride;
      FrameTail(before, src, row, stride, rows, end);
      assert after[size..] == after[end..][size - end..];
      assert before[size..] == before[end..][size - end..];
    }
  }

  // Row `r`, whose check passes: where it ends in the source and in the memory.
  lemma RowHasPlace(row: uint32, height: nat, stride: uint32, size: uint32, r: nat, from: nat, at: nat,
                    length: nat, srcLength: nat)
    requires r < height && r <= RowsAccepted(height, stride, size, 0) && (r > 0 ==> RowsFitStride(row, stride))
    requires !RejectedAt(stride, size, r) && from == r * row && at == r * stride
    requires size <= length && RowsCopied(row, height, stride, size) * stride <= length && height * row <= srcLength
    ensures r < RowsAccepted(height, stride, size, 0)
    ensures from + row == (r + 1) * row && from + row <= srcLength
    ensures at + stride == (r + 1) * stride && at + stride <= length
  {
    Earlier(row, r, height);
    var n := RowsAccepted(height, stride, size, 0);
    Earlier(stride, r, n);
    if r == 0 {
      NoWrap(stride);
    }
  }

  lemma WrapAgain(at: nat, stride: uint32)
    ensures Wrap32(Wrap32(at) + stride) == Wrap32(at + stride)
  {
  }

  lemma NextRowDone(before: seq<bv8>, g: seq<bv8>, after: seq<bv8>, src: seq<bv8>, row: nat, stride: nat, r: nat,
                    from: nat, at: nat)
    requires RowsDone(before, g, src, row, stride, r) && RowsFitStride(row, stride)
    requires from == r * row && at == r * stride && at + row <= |g|
    requires at + stride == (r + 1) * stride <= |before| && from + row == (r + 1) * row <= |src|
    requires after == LaidOver(g, src[from..from + row], at)
    ensures RowsDone(before, after, src, row, stride, r + 1)
  {
    NextRow(before, src, row, stride, r, g, from, at);
  }

  // The call ends before row `r`, whose check rejects or which memcpy_s refuses, or behind the last row.
  lemma EndsAt(row: nat, height: nat, stride: uint32, size: uint32, r: nat)
    requires r <= RowsAccepted(height, stride, size, 0) && (r > 0 ==> RowsFitStride(row, stride))
    requires r == height || RejectedAt(stride, size, r) || !RowsFitStride(row, stride)
    ensures RowsCopied(row, height, stride, size) == r
  {
  }

  // The loop of CopyFrame before row `r`.
  ghost predicate Before(before: seq<bv8>, now: seq<bv8>, src: seq<bv8>, row: nat, height: nat, stride: uint32,
                         size: uint32, r: nat, from: nat, at: nat, copiedSize: uint32)
  {
    && from == r * row && at == r * stride && copiedSize == Wrap32(at)
    && r <= RowsAccepted(height, stride, size, 0) && (r > 0 ==> RowsFitStride(row, stride))
    && RowsDone(before, now, src, row, stride, r)
  }

  method CopyRows(dst: array<bv8>, src: array<bv8>, row: uint32, height: uint32, stride: uint32, size: uint32)
    returns (ok: bool)
    requires dst != src && size <= dst.Length && RowsCopied(row, height, stride, size) * stride <= dst.Length
    requires height * row <= src.Length
    modifies dst
    ensures ok == (RowsCopied(row, height, stride, size) == height)
    ensures Copied(old(dst[..]), dst[..], src[..], row, height, stride, size)
  {
    var copiedSize: uint32 := 0;
    var srcAt: nat, dstAt: nat := 0, 0;
    ghost var before := dst[..];
    for currHeight := 0 to height
      invariant Before(before, dst[..], src[..], row, height, stride, size, currHeight, srcAt, dstAt, copiedSize)
    {
      var ret := CopyRow(dst, src, row, height, stride, size, currHeight, srcAt, dstAt, copiedSize, before);
      if !ret {
        return false;
      }
      srcAt := srcAt + row;
      dstAt := dstAt + stride;
      copiedSize := Wrap32(copiedSize + stride);
    }
    EndsAt(row, height, stride, size, height);
    return true;
  }

  // The body of that loop, but for the cursors.
  method CopyRow(dst: array<bv8>, src: array<bv8>, row: uint32, height: uint32, stride: uint32, size: uint32,
                 r: uint32, srcAt: nat, dstAt: nat, copiedSize: uint32, ghost before: seq<bv8>)
    returns (ok: bool)
    requires dst != src && size <= dst.Length && RowsCopied(row, height, stride, size) * stride <= dst.Length
    requires height * row <= src.Length && r < height
    requires Before(before, dst[..], src[..], row, height, stride, size, r, srcAt, dstAt, copiedSize)
    modifies dst
    ensures ok ==> Before(before, dst[..], src[..], row, height, stride, size, r + 1, srcAt + row, dstAt + stride,
                          Wrap32(copiedSize + stride))
    ensures !ok ==> RowsCopied(row, height, stride, size) == r
    ensures !ok ==> Copied(before, dst[..], src[..], row, height, stride, size)
  {
    if RowRejected(copiedSize, stride, size) {
      EndsAt(row, height, stride, size, r);
      return false;
    }
    RowHasPlace(row, height, stride, size, r, srcAt, dstAt, dst.Length, src.Length);
    ghost var g := dst[..];
    ok := MemcpyS(dst, dstAt, stride, src, srcAt, row);
    if !ok {
      EndsAt(row, height, stride, size, r);
      return false;
    }
    NextRowDone(before, g, dst[..], src[..], row, stride, r, srcAt, dstAt);
    WrapAgain(dstAt, stride);
  }

  lemma RowsCopiedIfChecksHold(row: nat, height: nat, stride: uint32, size: uint32)
    ensures ChecksHold(row, height, stride, size) ==>
              (RowsCopied(row, height, stride, size) == height <==> Copyable(row, height, stride, size))
  {
    if ChecksHold(row, height, stride, size) {
      RowsCopiedExactly(row, height, stride, size);
    }
  }

  // A row takes four bytes per pixel, as long as that fits 32 bits.
  lemma RowBytes(width: uint32)
    ensures width < 0x4000_0000 ==> Wrap32(width * BITS_PER_PIXEL) == 4 * width
  {
  }

  method CopyFrame(surfaceBuffer: SurfaceBuffer?, src: array<bv8>, width: uint32, height: uint32) returns (ok: bool)
    requires surfaceBuffer != null ==> surfaceBuffer.Usable(src, Wrap32(width * BITS_PER_PIXEL), height)
    requires height * Wrap32(width * BITS_PER_PIXEL) <= src.Length
    modifies if surfaceBuffer == null then {} else {surfaceBuffer.data}
    ensures surfaceBuffer == null ==> !ok
    ensures surfaceBuffer != null ==>
              var b := surfaceBuffer;
              var row := Wrap32(width * BITS_PER_PIXEL);
              && ok == (b.mapped && RowsCopied(row, height, b.stride, b.size) == height)
              && (ChecksHold(row, height, b.stride, b.size) ==>
                    ok == (b.mapped && Copyable(row, height, b.stride, b.size)))
              && (if b.mapped then Copied(old(b.data[..]), b.data[..], src[..], row, height, b.stride, b.size)
                  else b.data[..] == old(b.data[..]))
  {
    if surfaceBuffer == null {
      return false;
    }
    var dst := surfaceBuffer.data;
    if !surfaceBuffer.mapped {
      return false;
    }
    var srcStride: uint32 := Wrap32(width * BITS_PER_PIXEL);
    RowsCopiedIfChecksHold(srcStride, height, surfaceBuffer.stride, surfaceBuffer.size);
    ok := CopyRows(dst, src, srcStride, height, surfaceBuffer.stride, surfaceBuffer.size);
  }

  // ----- one frame callback -----

  // What the producer side of a surface sees; a flushed buffer comes with the bytes it then holds.
  datatype Event =
    | Obtained(buffer: SurfaceBuffer)
    | Cancelled(buffer: SurfaceBuffer)
    | Flushed(buffer: SurfaceBuffer, content: seq<bv8>)

  class Surface {
    var log: seq<Event>

    constructor ()
      ensures log == []
    {
      log := [];
    }
  }

  // Each buffer obtained is settled by the next event, a flush or a cancel of that buffer.
  ghost predicate Settled(log: seq<Event>)
    decreases |log|
  {
    log == [] ||
    (|log| >= 2
     && log[|log| - 2].Obtained?
     && !log[|log| - 1].Obtained?
     && log[|log| - 1].buffer == log[|log| - 2].buffer
     && Settled(log[..|log| - 2]))
  }

  lemma SettleOne(log: seq<Event>, buffer: SurfaceBuffer, last: Event)
    requires !last.Obtained? && last.buffer == buffer
    ensures Settled(log + [Obtained(buffer)] + [last]) <==> Settled(log)
  {
    var l := log + [Obtained(buffer)] + [last];
    assert l[..|l| - 2] == log;
  }

  // Surface::RequestBuffer answers with an error or a buffer, possibly null; then a fence is allocated.
  datatype Reply = Reply(ok: bool, buffer: SurfaceBuffer?, fenceAllocated: bool)

  method RequestBuffer(surface: Surface, reply: Reply) returns (buffer: SurfaceBuffer?)
    modifies surface
    ensures buffer == if reply.ok && reply.fenceAllocated then reply.buffer else null
    ensures surface.log == old(surface.log)
                           + (if reply.ok && reply.buffer != null then [Obtained(reply.buffer)] else [])
  {
    if reply.ok && reply.buffer != null {
      surface.log := surface.log + [Obtained(reply.buffer)];
    }
    if !reply.ok {
      return null;
    }
    if !reply.fenceAllocated {
      return null;
    }
    return reply.buffer;
  }

  // `surface` is null when the weak reference has expired.
  method OutputFrameCallback(src: array<bv8>, width: uint32, height: uint32, surface: Surface?, reply: Reply,
                             flushOk: bool)
    returns (ok: bool)
    requires reply.buffer != null ==> reply.buffer.Usable(src, Wrap32(width * BITS_PER_PIXEL), height)
    requires height * Wrap32(width * BITS_PER_PIXEL) <= src.Length
    modifies if surface == null then {} else {surface}
    modifies if reply.buffer == null then {} else {reply.buffer.data}
    ensures surface == null ==> !ok
    // nothing obtained, nothing settled
    ensures surface != null && (!reply.ok || reply.buffer == null) ==> !ok && surface.log == old(surface.log)
    // the buffer is obtained and dropped exactly when the fence cannot be allocated ...
    ensures surface != null && reply.ok && reply.buffer != null ==>
              if !reply.fenceAllocated then !ok && surface.log == old(surface.log) + [Obtained(reply.buffer)]
              // ... and otherwise flushed or cancelled, and flushed only with all rows copied
              else
                var b := reply.buffer;
                var row := Wrap32(width * BITS_PER_PIXEL);
                if b.mapped && RowsCopied(row, height, b.stride, b.size) == height then
                  && ok == flushOk
                  && surface.log == old(surface.log) + [Obtained(b)] + [Flushed(b, b.data[..])]
                  && RowsDone(old(b.data[..]), b.data[..], src[..], row, b.stride, height)
                else !ok && surface.log == old(surface.log) + [Obtained(b)] + [Cancelled(b)]
    ensures surface != null && reply.ok && reply.buffer != null && reply.fenceAllocated ==>
              var b := reply.buffer;
              var row := Wrap32(width * BITS_PER_PIXEL);
              ChecksHold(row, height, b.stride, b.size) ==>
                (surface.log[|surface.log| - 1].Flushed? <==> b.mapped && Copyable(row, height, b.stride, b.size))
    ensures surface != null && Settled(old(surface.log)) ==>
              (Settled(surface.log) <==> !(reply.ok && reply.buffer != null && !reply.fenceAllocated))
  {
    if surface == null {
      return false;
    }
    var buffer := RequestBuffer(surface, reply);
    if buffer == null {
      return false;
    }
    RowsCopiedIfChecksHold(Wrap32(width * BITS_PER_PIXEL), height, buffer.stride, buffer.size);
    var copied := CopyFrame(buffer, src, width, height);
    if !copied {
      SettleOne(old(surface.log), buffer, Cancelled(buffer));
      surface.log := surface.log + [Cancelled(buffer)];
      return false;
    }
    SettleOne(old(surface.log), buffer, Flushed(buffer, buffer.data[..]));
    surface.log := surface.log + [Flushed(buffer, buffer.data[..])];
    return flushOk;
  }
}
