/**
 * Shared vocabulary of the planner model: bytes, the 32-byte SHA-256 digest,
 * Option, and the Result type that stands for Rust's panics (`expect`,
 * `unwrap`, an out-of-range index), which abort the whole planning run.
 */
module Types {

  type byte = b: int | 0 <= b < 256

  /** `Sha256::output_bytes()`: a SHA-256 digest is 32 bytes long. */
  const DIGEST_LEN: nat := 32

  type Hash = s: seq<byte> | |s| == DIGEST_LEN witness seq(32, _ => 0)

  datatype Option<T> = None | Some(value: T)

  /** Why a run aborts; each one is a panic site of the planner. */
  datatype Reason =
    | CannotOpen        // File::open(..).expect(..)
    | NoMetadata        // fs::metadata(..).expect("can't access metadata")
    | NoTimestamp       // neither creation nor modification time is available
    | EmptyAsciiValue   // `&val_asc[..][0]` on an ASCII field with no strings
    | BadFileName       // file_name().expect("bad file name")

  datatype Fatal = Fatal(reason: Reason, path: string)

  datatype Result<T> = Success(value: T) | Failure(error: Fatal)
}
