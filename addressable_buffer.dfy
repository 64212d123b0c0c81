/** The byte-slice implementation of `AddressableBuffer` (src/lib.rs): a
    borrowed `&[u8]` read by position and length against an external-memory
    handle it never touches. The buffer is its byte sequence; a read returns
    the bytes of the requested run as a value. */
module AddressableBuffer {
  import opened BufferErrors

  type byte = b: int | 0 <= b < 0x100

  /** A handle to external memory (the `&mut E` argument of every read). `S`
      is whatever state the backend keeps; `X` is the error its accesses fail
      with, the associated type `E::ExternalMemoryError`. */
  datatype ExternalMemory<S, X> = ExternalMemory(state: S)

  /** Rust's `Option`, as returned by `<[u8]>::get`. */
  datatype Option<T> = None | Some(value: T)

  /** Rust's `Result`, the return type of every fallible buffer operation. */
  datatype Result<T, E> = Ok(value: T) | Err(error: E)

  /** `<[T]>::get(start..end)`: the run `[start, end)` when the range is
      well-formed and inside the slice, `None` otherwise. */
  function GetRange<T>(s: seq<T>, start: nat, end: nat): (r: Option<seq<T>>)
    ensures r.Some? <==> start <= end <= |s|
    ensures r.Some? ==> |r.value| == end - start
    ensures r.Some? ==> forall i :: 0 <= i < |r.value| ==> r.value[i] == s[start + i]
  {
    if start <= end <= |s| then Some(s[start..end]) else None
  }

  /** `total_len`: the addressable length of the buffer. */
  function TotalLen(buf: seq<byte>): nat {
    |buf|
  }

  /** `read_slice`: the `sliceLen` bytes at `position`. A start beyond the
      end is `OutOfRange`, whatever the length asked for; a valid start whose
      tail is too short is `DataTooShort`. The handle `ext` is neither read
      nor changed, and no `External` error is ever produced. */
  function ReadSlice<S, X>(buf: seq<byte>, ext: ExternalMemory<S, X>, position: nat, sliceLen: nat)
    : (r: Result<seq<byte>, BufferError<X>>)
    ensures position > TotalLen(buf) ==> r == Err(OutOfRange(position, TotalLen(buf)))
    ensures position <= TotalLen(buf) < position + sliceLen ==> r == Err(DataTooShort(position, sliceLen))
    ensures r.Ok? <==> position + sliceLen <= TotalLen(buf)
    ensures r.Ok? ==> |r.value| == sliceLen
    ensures r.Ok? ==> forall i :: 0 <= i < sliceLen ==> r.value[i] == buf[position + i]
    ensures r.Err? ==> !r.error.External?
  {
    if |buf| < position then
      Err(OutOfRange(position, |buf|))
    else
      match GetRange(buf, position, position + sliceLen)
      case Some(a) => Ok(a)
      case None => Err(DataTooShort(position, sliceLen))
  }

  /** The trait's default `read_byte`, given what `read_slice(ext, position, 1)`
      returned: its error is passed on unchanged, otherwise the first byte of
      the slice is the result. The source indexes `[0]` without a check, so a
      `read_slice` that returned an empty slice would panic; that is this
      function's precondition. */
  function DefaultReadByte<X>(slice: Result<seq<byte>, BufferError<X>>): (r: Result<byte, BufferError<X>>)
    requires slice.Ok? ==> |slice.value| >= 1
    ensures r.Err? <==> slice.Err?
    ensures r.Err? ==> r.error == slice.error
    ensures r.Ok? ==> r.value == slice.value[0]
  {
    match slice
    case Err(e) => Err(e)
    case Ok(s) => Ok(s[0])
  }

  /** `read_byte` on a byte slice: the default method over this `read_slice`.
      It succeeds exactly below the end; at the end it is a too-short read of
      one byte, and beyond the end the start is out of range. */
  function ReadByte<S, X>(buf: seq<byte>, ext: ExternalMemory<S, X>, position: nat): (r: Result<byte, BufferError<X>>)
    ensures r.Ok? <==> position < TotalLen(buf)
    ensures r.Ok? ==> r.value == buf[position]
    ensures position == TotalLen(buf) ==> r == Err(DataTooShort(position, 1))
    ensures position > TotalLen(buf) ==> r == Err(OutOfRange(position, TotalLen(buf)))
  {
    DefaultReadByte(ReadSlice(buf, ext, position, 1))
  }

  /** `limit_length`: the first `newLen` bytes. The source slices `[..newLen]`
      and panics when `newLen` exceeds the length; here that is the
      precondition. */
  function LimitLength(buf: seq<byte>, newLen: nat): (r: seq<byte>)
    requires newLen <= TotalLen(buf)
    ensures TotalLen(r) == newLen
    ensures forall i :: 0 <= i < newLen ==> r[i] == buf[i]
  {
    buf[..newLen]
  }

  // ---------------------------------------------------------------------
  // Properties relating several calls.

  /** A read of length zero succeeds exactly when the start is within the
      buffer (the end itself included), and yields no bytes. */
  lemma EmptyReadAtAnyValidPosition<S, X>(buf: seq<byte>, ext: ExternalMemory<S, X>, position: nat)
    ensures var r := ReadSlice(buf, ext, position, 0);
      (r.Ok? <==> position <= TotalLen(buf)) && (r.Ok? ==> r.value == [])
  {
  }

  /** `read_slice` is independent of the handle it is given. */
  lemma ReadSliceIgnoresHandle<S, X>(buf: seq<byte>, ext1: ExternalMemory<S, X>, ext2: ExternalMemory<S, X>, position: nat, sliceLen: nat)
    ensures ReadSlice(buf, ext1, position, sliceLen) == ReadSlice(buf, ext2, position, sliceLen)
  {
  }

  /** `read_byte` agrees with a one-byte `read_slice` in every case: the same
      error, or the only byte of the slice. */
  lemma ReadByteAgreesWithReadSlice<S, X>(buf: seq<byte>, ext: ExternalMemory<S, X>, position: nat)
    ensures var b, s := ReadByte(buf, ext, position), ReadSlice(buf, ext, position, 1);
      (b.Err? <==> s.Err?) && (b.Err? ==> b.error == s.error) && (b.Ok? ==> s.value == [b.value])
  {
  }

  /** Every byte of a successful slice read is what `read_byte` returns at
      that position. */
  lemma ReadSliceAgreesWithReadByte<S, X>(buf: seq<byte>, ext: ExternalMemory<S, X>, position: nat, sliceLen: nat, i: nat)
    requires ReadSlice(buf, ext, position, sliceLen).Ok?
    requires i < sliceLen
    ensures ReadByte(buf, ext, position + i) == Ok(ReadSlice(buf, ext, position, sliceLen).value[i])
  {
  }

  /** Two adjacent reads succeed exactly when the read covering both does,
      and then the long read is the two short ones joined. */
  lemma ReadSliceSplit<S, X>(buf: seq<byte>, ext: ExternalMemory<S, X>, position: nat, n: nat, m: nat)
    ensures var whole := ReadSlice(buf, ext, position, n + m);
      var first := ReadSlice(buf, ext, position, n);
      var second := ReadSlice(buf, ext, position + n, m);
      (whole.Ok? <==> first.Ok? && second.Ok?)
      && (whole.Ok? ==> whole.value == first.value + second.value)
  {
  }

  /** Limiting to the whole length changes nothing. */
  lemma LimitToTotalLenIsIdentity(buf: seq<byte>)
    ensures LimitLength(buf, TotalLen(buf)) == buf
  {
  }

  /** Limiting twice is limiting once to the smaller length. */
  lemma LimitLengthTwice(buf: seq<byte>, outer: nat, inner: nat)
    requires inner <= outer <= TotalLen(buf)
    ensures LimitLength(LimitLength(buf, outer), inner) == LimitLength(buf, inner)
  {
  }

  /** A limited view gives a sub-parser exactly the reads that end within
      the limit, with the original bytes; a read past the limit fails as it
      would on a buffer of length `newLen`. */
  lemma ReadSliceThroughLimit<S, X>(buf: seq<byte>, ext: ExternalMemory<S, X>, newLen: nat, position: nat, sliceLen: nat)
    requires newLen <= TotalLen(buf)
    ensures var limited := ReadSlice(LimitLength(buf, newLen), ext, position, sliceLen);
      if position + sliceLen <= newLen then limited == ReadSlice(buf, ext, position, sliceLen)
      else if position <= newLen then limited == Err(DataTooShort(position, sliceLen))
      else limited == Err(OutOfRange(position, newLen))
  {
    if position + sliceLen <= newLen {
      var lim := LimitLength(buf, newLen);
      assert lim[position..position + sliceLen] == buf[position..position + sliceLen];
    }
  }

  /** A worked example: the buffer 10 20 30 40 (hex). */
  lemma ConcreteScenario<S, X>(ext: ExternalMemory<S, X>)
    ensures var buf: seq<byte> := [0x10, 0x20, 0x30, 0x40];
      && TotalLen(buf) == 4
      && ReadSlice(buf, ext, 0, 2) == Ok([0x10, 0x20])
      && ReadSlice(buf, ext, 3, 2) == Err(DataTooShort(3, 2))
      && ReadSlice(buf, ext, 5, 1) == Err(OutOfRange(5, 4))
      && ReadSlice(buf, ext, 4, 0) == Ok([])
      && ReadByte(buf, ext, 2) == Ok(0x30)
      && ReadByte(buf, ext, 4) == Err(DataTooShort(4, 1))
      && LimitLength(buf, 2) == [0x10, 0x20]
  {
    var buf: seq<byte> := [0x10, 0x20, 0x30, 0x40];
    assert buf[0..2] == [0x10, 0x20];
  }
}
