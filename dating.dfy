/**
 * The creation date of a file: `get_fs_create_date`, `conv_field_datetime`,
 * `get_exif_create_date` and the choice between them made in `make_outpath`.
 */
module Dating {
  import opened Types
  import opened Oracles

  /**
   * `get_fs_create_date`: the creation time, or the modification time where
   * the platform has no creation time; a panic when the file cannot be
   * stat'ed or has neither.
   */
  function FsCreateDate(env: Env, path: string): (r: Result<Date>)
    ensures r.Success? <==> path in env.files && (env.files[path].times.created.Some? || env.files[path].times.modified.Some?)
    ensures r.Success? && env.files[path].times.created.Some? ==> r.value == env.files[path].times.created.value
    ensures r.Success? && env.files[path].times.created.None? ==> r.value == env.files[path].times.modified.value
  {
    if path !in env.files then Failure(Fatal(NoMetadata, path))
    else
      var times := env.files[path].times;
      match times.created
      case Some(d) => Success(d)
      case None =>
        match times.modified
        case Some(d) => Success(d)
        case None => Failure(Fatal(NoTimestamp, path))
  }

  /**
   * `conv_field_datetime`: an ASCII field's first string parsed as a date and
   * time; None for any other kind of value or a string that does not parse.
   * An ASCII value with no strings at all makes the indexing panic.
   */
  function ConvFieldDateTime(fld: Field, parse: seq<byte> -> Option<ExifDateTime>, path: string): (r: Result<Option<ExifDateTime>>)
    ensures r.Failure? <==> fld.value.Ascii? && |fld.value.strings| == 0
    ensures r.Failure? ==> r.error == Fatal(EmptyAsciiValue, path)
    ensures r.Success? && r.value.Some? ==>
      fld.value.Ascii? && |fld.value.strings| > 0 && parse(fld.value.strings[0]) == r.value
  {
    match fld.value
    case OtherValue => Success(None)
    case Ascii(strs) =>
      if |strs| == 0 then Failure(Fatal(EmptyAsciiValue, path)) else Success(parse(strs[0]))
  }

  /** The local date of an EXIF date and time (`Local.ymd`), day dropped. */
  function DateOf(dt: ExifDateTime): Date {
    Date(dt.year, dt.month)
  }

  /** A field that ends the search: a `DateTime` field that converts or panics. */
  predicate Decides(fld: Field, parse: seq<byte> -> Option<ExifDateTime>, path: string) {
    fld.tag == DateTimeTag && ConvFieldDateTime(fld, parse, path) != Success(None)
  }

  /** What the search returns once it reaches a deciding field. */
  function Decision(fld: Field, parse: seq<byte> -> Option<ExifDateTime>, path: string): Result<Option<Date>> {
    match ConvFieldDateTime(fld, parse, path)
    case Failure(e) => Failure(e)
    case Success(None) => Success(None)
    case Success(Some(dt)) => Success(Some(DateOf(dt)))
  }

  /**
   * The loop of `get_exif_create_date` over the reader's fields: the first
   * `DateTime` field whose value converts gives the date; no other tag is
   * ever consulted.
   */
  function FirstDateTime(fields: seq<Field>, parse: seq<byte> -> Option<ExifDateTime>, path: string): (r: Result<Option<Date>>)
    ensures r == Success(None) <==> forall i | 0 <= i < |fields| :: !Decides(fields[i], parse, path)
    ensures r != Success(None) ==>
      exists i | 0 <= i < |fields| ::
        && Decides(fields[i], parse, path)
        && (forall j | 0 <= j < i :: !Decides(fields[j], parse, path))
        && r == Decision(fields[i], parse, path)
    decreases |fields|
  {
    if fields == [] then Success(None)
    else if fields[0].tag != DateTimeTag then
      var r := FirstDateTime(fields[1..], parse, path);
      assert forall i | 1 <= i < |fields| :: fields[i] == fields[1..][i - 1];
      r
    else
      match ConvFieldDateTime(fields[0], parse, path)
      case Failure(e) => Failure(e)
      case Success(Some(dt)) => Success(Some(DateOf(dt)))
      case Success(None) =>
        var r := FirstDateTime(fields[1..], parse, path);
        assert forall i | 1 <= i < |fields| :: fields[i] == fields[1..][i - 1];
        r
  }

  /**
   * `get_exif_create_date`: a panic if the file cannot be opened, None if it
   * holds no readable EXIF data, otherwise the first `DateTime` field's date.
   */
  function ExifCreateDate(env: Env, path: string): (r: Result<Option<Date>>)
    ensures !Openable(env, path) ==> r == Failure(Fatal(CannotOpen, path))
    ensures Openable(env, path) && env.files[path].exif.ReaderError? ==> r == Success(None)
    ensures Openable(env, path) && r.Failure? ==> r.error == Fatal(EmptyAsciiValue, path)
  {
    if !Openable(env, path) then Failure(Fatal(CannotOpen, path))
    else match env.files[path].exif
      case ReaderError => Success(None)
      case Fields(fields) => FirstDateTime(fields, env.parseDateTime, path)
  }

  /** `fld` is a `DateTime` field whose first string parses to a date and time in the year and month `d`. */
  predicate DatedBy(fld: Field, parse: seq<byte> -> Option<ExifDateTime>, d: Date) {
    && fld.tag == DateTimeTag && fld.value.Ascii? && |fld.value.strings| > 0
    && parse(fld.value.strings[0]).Some? && DateOf(parse(fld.value.strings[0]).value) == d
  }

  /**
   * The date `make_outpath` files a source under: with `use_exif`, the EXIF
   * date when there is one and the filesystem date otherwise; without it,
   * always the filesystem date.
   */
  function CreateDate(env: Env, useExif: bool, path: string): (r: Result<Date>)
    ensures !useExif ==> r == FsCreateDate(env, path)
    ensures useExif && ExifCreateDate(env, path) == Success(None) ==> r == FsCreateDate(env, path)
    ensures useExif && ExifCreateDate(env, path).Success? && ExifCreateDate(env, path).value.Some? ==>
      r == Success(ExifCreateDate(env, path).value.value)
    ensures useExif && ExifCreateDate(env, path).Failure? ==> r == Failure(ExifCreateDate(env, path).error)
  {
    if useExif then
      match ExifCreateDate(env, path)
      case Failure(e) => Failure(e)
      case Success(Some(d)) => Success(d)
      case Success(None) => FsCreateDate(env, path)
    else FsCreateDate(env, path)
  }

  // ---------------------------------------------------------------------
  // Properties

  /**
   * Fields with other tags, and `DateTime` fields whose value is not ASCII
   * or does not parse, are skipped: putting them in front changes nothing.
   */
  lemma {:induction false} SkippedFieldsIgnored(skipped: seq<Field>, rest: seq<Field>, parse: seq<byte> -> Option<ExifDateTime>, path: string)
    requires forall i | 0 <= i < |skipped| :: !Decides(skipped[i], parse, path)
    ensures FirstDateTime(skipped + rest, parse, path) == FirstDateTime(rest, parse, path)
    decreases |skipped|
  {
    if skipped != [] {
      var all := skipped + rest;
      assert all[0] == skipped[0] && all[1..] == skipped[1..] + rest;
      SkipOne(all, parse, path);
      SkippedFieldsIgnored(skipped[1..], rest, parse, path);
    } else {
      assert skipped + rest == rest;
    }
  }

  /** One field that does not decide is passed over. */
  lemma SkipOne(fields: seq<Field>, parse: seq<byte> -> Option<ExifDateTime>, path: string)
    requires fields != [] && !Decides(fields[0], parse, path)
    ensures FirstDateTime(fields, parse, path) == FirstDateTime(fields[1..], parse, path)
  {
  }

  /**
   * A readable EXIF container whose first deciding field is a `DateTime`
   * string that parses places the file by that date, whatever its
   * filesystem times say.
   */
  lemma ExifDateWins(env: Env, path: string, skipped: seq<Field>, s: seq<byte>, more: seq<seq<byte>>, rest: seq<Field>, dt: ExifDateTime)
    requires Openable(env, path)
    requires env.files[path].exif == Fields(skipped + [Field(DateTimeTag, Ascii([s] + more))] + rest)
    requires forall i | 0 <= i < |skipped| :: !Decides(skipped[i], env.parseDateTime, path)
    requires env.parseDateTime(s) == Some(dt)
    ensures CreateDate(env, true, path) == Success(Date(dt.year, dt.month))
  {
    var fld := Field(DateTimeTag, Ascii([s] + more));
    assert skipped + [fld] + rest == skipped + ([fld] + rest);
    SkippedFieldsIgnored(skipped, [fld] + rest, env.parseDateTime, path);
  }

  /**
   * Without a deciding field the date falls back to the filesystem: the
   * creation time when there is one, the modification time otherwise.
   */
  lemma FsDateFallback(env: Env, path: string, useExif: bool)
    requires path in env.files
    requires useExif ==> Openable(env, path)
    requires useExif ==>
      || env.files[path].exif.ReaderError?
      || forall i | 0 <= i < |env.files[path].exif.fields| :: !Decides(env.files[path].exif.fields[i], env.parseDateTime, path)
    ensures env.files[path].times.created.Some? ==>
      CreateDate(env, useExif, path) == Success(env.files[path].times.created.value)
    ensures env.files[path].times.created.None? && env.files[path].times.modified.Some? ==>
      CreateDate(env, useExif, path) == Success(env.files[path].times.modified.value)
  {
  }

  /** An EXIF date always comes from a `DateTime` field whose first string parses. */
  lemma ExifDateFromField(env: Env, path: string)
    requires ExifCreateDate(env, path).Success? && ExifCreateDate(env, path).value.Some?
    ensures Openable(env, path) && env.files[path].exif.Fields?
    ensures exists i | 0 <= i < |env.files[path].exif.fields| ::
      DatedBy(env.files[path].exif.fields[i], env.parseDateTime, ExifCreateDate(env, path).value.value)
  {
    var fields := env.files[path].exif.fields;
    var r := FirstDateTime(fields, env.parseDateTime, path);
    assert r == ExifCreateDate(env, path) && r != Success(None);
    var i :| 0 <= i < |fields| && Decides(fields[i], env.parseDateTime, path) && r == Decision(fields[i], env.parseDateTime, path);
    DecisionDates(fields[i], env.parseDateTime, path);
  }

  /** A deciding field that yields a date is a `DateTime` field whose first string parses to it. */
  lemma DecisionDates(fld: Field, parse: seq<byte> -> Option<ExifDateTime>, path: string)
    requires Decides(fld, parse, path)
    requires Decision(fld, parse, path).Success? && Decision(fld, parse, path).value.Some?
    ensures DatedBy(fld, parse, Decision(fld, parse, path).value.value)
  {
  }
}
