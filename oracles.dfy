/**
 * What the planner learns from outside itself, given as data: for each path
 * the outcomes of successive `read` calls on the opened file, the file's
 * creation and modification dates (already converted to local year/month by
 * `chrono`), and what the EXIF reader makes of it; plus the SHA-256 function
 * and `exif::DateTime::from_ascii`, both uninterpreted.
 */
module Oracles {
  import opened Types

  /** `HASHBUFSZ` in `hash_file`: the read buffer is 4096 * 16 bytes. */
  const HASH_BUF_SIZE: nat := 4096 * 16

  /** The bytes one `read` can return: never more than the buffer holds. */
  type Chunk = s: seq<byte> | |s| <= HASH_BUF_SIZE

  /** One call of `Read::read`: the bytes read (none at end of file) or an error. */
  datatype ReadOutcome = Bytes(data: Chunk) | ReadError

  /** A local calendar date, as far as the planner uses it. */
  datatype Date = Date(year: int, month: nat)

  /** `Metadata::created` and `Metadata::modified`; None where the platform has none. */
  datatype FsTimes = FsTimes(created: Option<Date>, modified: Option<Date>)

  /** `exif::DateTime`: only the calendar part matters here. */
  datatype ExifDateTime = ExifDateTime(year: nat, month: nat, day: nat)

  datatype Tag = DateTimeTag | OtherTag(code: nat)

  /** A field value: ASCII strings (each a byte string) or any other kind. */
  datatype Value = Ascii(strings: seq<seq<byte>>) | OtherValue

  datatype Field = Field(tag: Tag, value: Value)

  /** `exif::Reader::new`: an error, or the fields in the reader's order. */
  datatype ExifContainer = ReaderError | Fields(fields: seq<Field>)

  /**
   * Everything the planner can learn about one existing file. `readable`
   * says whether `File::open` succeeds on it; a file can exist, and be
   * stat'ed, without being readable.
   */
  datatype FileInfo = FileInfo(readable: bool, script: seq<ReadOutcome>, times: FsTimes, exif: ExifContainer)

  /**
   * The environment of one planning run. A path outside `files` cannot be
   * stat'ed (`fs::metadata` fails) nor opened.
   */
  datatype Env = Env(
    files: map<string, FileInfo>,
    sha256: seq<byte> -> Hash,
    parseDateTime: seq<byte> -> Option<ExifDateTime>)

  /** `File::open(path)` succeeds. */
  predicate Openable(env: Env, path: string) {
    path in env.files && env.files[path].readable
  }

  /** The outcome of the read call with index `i`; past the script, end of file. */
  function ReadAt(script: seq<ReadOutcome>, i: nat): ReadOutcome {
    if i < |script| then script[i] else Bytes([])
  }
}
