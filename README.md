# external-memory-tools: the byte-slice addressable buffer

This project models the core of the `external-memory-tools` crate: a buffer
read by position and length, an error type for failed reads, and the text of
those errors. The crate defines `AddressableBuffer`, a trait for byte buffers
that may live in external, fallible memory. It also defines one
implementation, on a plain byte slice `&[u8]`.

- `AddressableBuffer` (module, `addressable_buffer.dfy`) holds the slice
  implementation. The buffer is a `seq<byte>`. `TotalLen` is its length.
  `ReadSlice` is the bounds-checked primitive read. `DefaultReadByte` is the
  trait's default `read_byte`, and `ReadByte` applies it to the slice's
  `read_slice`. `LimitLength` is the prefix view. `GetRange` is the slice
  method `get(start..end)` that `read_slice` relies on.
- `BufferErrors` (module, `buffer_error.dfy`) holds the `BufferError`
  datatype. It is generic over `X`, the backend's error type. `ErrorText` is
  `error_text`. The backend error's own `Display` text is a function
  parameter `display: X -> string`.
- `Decimal` (module, `decimal.dfy`) renders a number the way `format!` prints
  a `usize`. `DecimalValue` reads a numeral back and is the reference that
  the rendering is proved against.

The external-memory handle `&mut E` is a value of type `ExternalMemory<S, X>`.
`S` is the backend's state. `X` is its error type, which stands for the
associated type `E::ExternalMemoryError`. The slice implementation ignores
the handle. Every operation is a function that returns no new handle, so
the handle is unchanged by construction. A read returns the requested bytes
as a sequence value, not a borrowed view.

## Model

| member | source | states |
|---|---|---|
| AddressableBuffer.GetRange | src/lib.rs:81 | `get(start..end)` gives a run exactly when `start <= end <= len`; the run has `end - start` bytes, and byte `i` of it is byte `start + i` of the slice |
| AddressableBuffer.ReadSlice | src/lib.rs:69-88 | a start past the end gives `OutOfRange{position, total_length}` whatever the length asked for; a valid start with too short a tail gives `DataTooShort{position, minimal_length: slice_len}`; the read succeeds exactly when `position + slice_len <= total_len`, and then yields `slice_len` bytes equal to the buffer's from `position`; `External` never occurs |
| AddressableBuffer.DefaultReadByte | src/lib.rs:57-60 | the default `read_byte` fails exactly when the underlying `read_slice` fails, with the same error, and otherwise returns the slice's first byte; it needs a non-empty slice, since the source indexes `[0]` unchecked |
| AddressableBuffer.ReadByte | src/lib.rs:57-60 | on a byte slice, `read_byte` succeeds exactly below `total_len` and returns the byte there; at `total_len` it is `DataTooShort{position, 1}`; beyond, `OutOfRange{position, total_len}` |
| AddressableBuffer.LimitLength | src/lib.rs:89-91 | for `new_len <= total_len` the result has length `new_len` and keeps every byte below `new_len` |
| AddressableBuffer.EmptyReadAtAnyValidPosition | src/lib.rs:75-86 | a zero-length read succeeds exactly when `position <= total_len` (the end included) and yields no bytes |
| AddressableBuffer.ReadSliceIgnoresHandle | src/lib.rs:69-74 | the result of `read_slice` does not depend on the external-memory handle |
| AddressableBuffer.ReadByteAgreesWithReadSlice | src/lib.rs:57-60 | `read_byte(p)` and `read_slice(p, 1)` fail together with the same error, and on success the slice is exactly the one byte returned |
| AddressableBuffer.ReadSliceAgreesWithReadByte | src/lib.rs:57-88 | every byte of a successful slice read is what `read_byte` returns at that position |
| AddressableBuffer.ReadSliceSplit | src/lib.rs:75-87 | a read of `n + m` bytes succeeds exactly when the adjacent reads of `n` and then `m` bytes both do, and is then their concatenation |
| AddressableBuffer.LimitToTotalLenIsIdentity | src/lib.rs:89-91 | limiting to the current length returns the same buffer |
| AddressableBuffer.LimitLengthTwice | src/lib.rs:89-91 | limiting to `outer` and then to `inner <= outer` equals limiting to `inner` once |
| AddressableBuffer.ReadSliceThroughLimit | src/lib.rs:75-91 | through a view limited to `new_len`, a read that ends within the limit returns what the full buffer returns; a longer one from a valid start is `DataTooShort`; a start past `new_len` is `OutOfRange` with `total_length: new_len` |
| AddressableBuffer.ConcreteScenario | src/lib.rs:57-91 | on the bytes `10 20 30 40`: `read_slice(0, 2)` is `10 20`, `read_slice(3, 2)` is `DataTooShort{3, 2}`, `read_slice(5, 1)` is `OutOfRange{5, 4}`, `read_slice(4, 0)` is empty, `read_byte(2)` is `30`, `read_byte(4)` is `DataTooShort{4, 1}`, and `limit_length(2)` is `10 20` |
| BufferErrors.ErrorTextIdentifiesError | src/lib.rs:107-114 | two errors have the same message exactly when they are the same `DataTooShort` or `OutOfRange` error, or both are `External` with equal backend texts; messages of different variants never coincide |
| BufferErrors.DataTooShortExample | src/lib.rs:110 | `DataTooShort{position: 3, minimal_length: 2}` renders as "Data is too short for expected content. Expected at least 2 element(s) after position 3." |
| BufferErrors.OutOfRangeExample | src/lib.rs:112 | `OutOfRange{position: 4096, total_length: 170}` renders as "Position 4096 is out of range for data length 170." |
| BufferErrors.ExternalExample | src/lib.rs:111 | `External(e)` renders as "Error accessing external memory. " followed by the backend error's own text |
| Decimal.NatToDecimal | src/lib.rs:110-112 | a number's text is a non-empty run of decimal digits with no leading zero |
| Decimal.DecimalRoundTrip | src/lib.rs:110-112 | reading the text back as a decimal numeral gives the number |
| Decimal.NatToDecimalInjective | src/lib.rs:110-112 | distinct numbers print as distinct texts |

`TotalLen` (src/lib.rs:66-68) is the sequence length. `ErrorText`
(src/lib.rs:108-114) is stated through the lemmas above. Neither has a
contract of its own.

`limit_length` (src/lib.rs:89-91) only slices and panics when `new_len`
exceeds the length. The model makes `new_len <= total_len` a precondition
and has no fallible variant.

## Left out

- Machine-word overflow of `position + slice_len` (src/lib.rs:81). Positions and lengths are `nat`. In Rust a debug build panics on that overflow, and a release build wraps. The wrapped range is then reversed, so `get` returns `None` and the read fails with `DataTooShort`.
- The `ExternalMemory` marker trait, its `()` instance and the empty `NoEntries` error with its `Display` (src/lib.rs:31-46). The backend is the datatype `ExternalMemory<S, X>`, with `X` its error type. `X` may be instantiated with any type, an empty one included.
- The `AddressableBuffer` trait as an abstraction over other implementations (src/lib.rs:48-62). Only the slice implementation exists in the crate. The default `read_byte` is modelled as `DefaultReadByte`, a function of whatever `read_slice` returned.
- Borrowing and zero copy (src/lib.rs:65). A read returns a sequence value.
- The `Display` and `std::error::Error` impls (src/lib.rs:117-128). They only forward to `error_text` or return `None`. The derived `Debug` and `Eq` are structural.
- The `no_std`, `extern crate` and feature-gated imports (src/lib.rs:4-29). They are build wiring.
