/**
 * The directory handle the tag files live in: a map from file name to
 * content, with injectable faults. A name in `unreadable` cannot be read
 * (the file handle or the reader fails); a name in `unwritable` cannot be
 * written (acquiring the handle with `create`, opening the writable stream
 * or writing fails).
 */
module Storage {
  import opened Wrappers

  /**
   * What a file holds, as far as this model distinguishes it:
   * - `Text`: a plain-text file, such as a legacy tag file;
   * - `Record`: a JSON object whose members are lists of strings, plus
   *   (when `extraText` is `Some`) a string member `extra_text`;
   * - `Corrupt`: content that does not parse as such an object.
   */
  datatype Content =
    | Text(text: string)
    | Record(fields: map<string, seq<string>>, extraText: Option<string>)
    | Corrupt

  /** An I/O failure, naming the file whose handle, stream or write failed. */
  datatype IoError = IoError(fileName: string)

  /** Outcome of an operation that may reject with an I/O error. */
  datatype Outcome = Pass | Fail(error: IoError)

  /** What reading `name` yields: `None` when the file is absent or cannot be read. */
  function ReadFrom(files: map<string, Content>, unreadable: set<string>, name: string): Option<Content>
  {
    if name in files && name !in unreadable then Some(files[name]) else None
  }

  /** Creating or overwriting `name` with `c`: the outcome and the new file map. */
  function WriteTo(files: map<string, Content>, unwritable: set<string>, name: string, c: Content): (Outcome, map<string, Content>)
  {
    if name in unwritable then (Fail(IoError(name)), files) else (Pass, files[name := c])
  }

  /** Reading after a passing write gives what was written, and every other name reads as before. */
  lemma ReadAfterWrite(files: map<string, Content>, unreadable: set<string>, unwritable: set<string>,
                       name: string, other: string, c: Content)
    requires WriteTo(files, unwritable, name, c).0 == Pass
    ensures var files' := WriteTo(files, unwritable, name, c).1;
      && (name !in unreadable ==> ReadFrom(files', unreadable, name) == Some(c))
      && (other != name ==> ReadFrom(files', unreadable, other) == ReadFrom(files, unreadable, other))
  {
  }

  /** How the promise of `readCtFile` or `readTrainingTagsFile` ends. */
  datatype Settlement =
    | Rejected
    | Resolved(fields: map<string, seq<string>>, extraText: Option<string>)
    | Pending

  /**
   * Reading and parsing a file as `readCtFile` and `readTrainingTagsFile` do.
   * A missing handle or a failed read rejects. The parse runs inside the
   * reader's `onload` callback, so a file that does not parse throws there:
   * neither `resolve` nor `reject` is called and the promise never settles.
   */
  function ReadRecord(file: Option<Content>): Settlement
  {
    match file
    case None => Rejected
    case Some(Record(fields, extra)) => Resolved(fields, extra)
    case Some(_) => Pending
  }

  /** `record[key]` on a parsed record: `undefined` for a missing member. */
  function Member(fields: map<string, seq<string>>, key: string): Option<seq<string>>
  {
    if key in fields then Some(fields[key]) else None
  }

  class Directory {
    var files: map<string, Content>
    const unreadable: set<string>
    const unwritable: set<string>

    constructor (files: map<string, Content>, unreadable: set<string>, unwritable: set<string>)
      ensures this.files == files && this.unreadable == unreadable && this.unwritable == unwritable
    {
      this.files := files;
      this.unreadable := unreadable;
      this.unwritable := unwritable;
    }

    /** Reading a file as text and parsing it. */
    function Read(name: string): Option<Content>
      reads this
    {
      ReadFrom(files, unreadable, name)
    }

    /** getFileHandle(name, {create: true}), createWritable() and write(c). */
    method Write(name: string, c: Content) returns (r: Outcome)
      modifies this
      ensures r == Fail(IoError(name)) <==> name in unwritable
      ensures r == Pass <==> name !in unwritable
      ensures files == if r == Pass then old(files)[name := c] else old(files)
    {
      if name in unwritable {
        r := Fail(IoError(name));
      } else {
        files := files[name := c];
        r := Pass;
      }
    }
  }
}
