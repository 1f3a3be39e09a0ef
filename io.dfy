/**
 * The vocabulary the harness shares with Rust's standard library: bytes,
 * 64-bit unsigned integers, categorized I/O errors, `Result` and panics.
 */
module Io {

  /** A `u8`. */
  type Byte = b: int | 0 <= b < 256

  /** One more than the largest `usize` (and `u64`) on a 64-bit target. */
  const USIZE_LIMIT: nat := 0x1_0000_0000_0000_0000

  /** A `usize`. */
  type Usize = n: nat | n < USIZE_LIMIT

  datatype Option<+T> = None | Some(value: T)

  /** The portable error categories (`std::io::ErrorKind`) the model can produce. */
  datatype ErrorKind =
    | NotFound
    | PermissionDenied
    | AlreadyExists
    | InvalidInput
    | Uncategorized
    | Other

  /** What an error says beyond its kind: an OS error number, or one of the
      harness's own messages with the data it formats into them. */
  datatype Detail =
    | Os(errno: nat)
    | OkValueMismatch
    | ErrKindMismatch(kind1: ErrorKind, kind2: ErrorKind)
    | ResultMismatch(firstIsOk: bool)
    | BytesMismatch(offset: nat, byte1: Byte, byte2: Byte)
    | Usage

  datatype IoError = IoError(kind: ErrorKind, detail: Detail)

  /** `std::io::Result<T>`. */
  datatype IoResult<+T> = Ok(value: T) | Err(error: IoError)

  const ENOENT: nat := 2
  const EBADF: nat := 9
  const EACCES: nat := 13
  const EEXIST: nat := 17
  const EINVAL: nat := 22

  /** How the standard library categorizes an OS error number. */
  function KindOfErrno(errno: nat): ErrorKind
  {
    if errno == ENOENT then NotFound
    else if errno == EACCES then PermissionDenied
    else if errno == EEXIST then AlreadyExists
    else if errno == EINVAL then InvalidInput
    else Uncategorized
  }

  function OsError(errno: nat): IoError
  {
    IoError(KindOfErrno(errno), Os(errno))
  }

  /** The places where the harness can panic instead of returning. */
  datatype PanicReason =
    | CeilingUnset          // `MAX_FILE_SIZE.get().unwrap()` before initialisation
    | DivisionByZero        // `% 0` with a zero ceiling
    | ArithmeticOverflow    // `size * 1024 * 1024` beyond `usize`
    | InvalidFileSize       // `expect("Invalid maximum file size")`
    | IndexOutOfBounds      // `args[0]` with no arguments at all
    | AssertEqFailed        // `assert_eq!` in the panicking comparator
    | MixedOutcome          // `panic!("Oh noes")` in the panicking comparator

  /** A computation that either returns a value or panics. */
  datatype Panicking<+T> = Returned(value: T) | Panicked(reason: PanicReason)
}
