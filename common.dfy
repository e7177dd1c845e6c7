/** Values shared by both log parsers: optional values, Python errors, and the
    shapes of the loaders' inputs and outputs. */
module Common {

  datatype Option<T> = None | Some(value: T)

  /** The Python exceptions the parsers can raise or catch. */
  datatype PyError =
    | TypeError   // a non-list `files`, or `in` applied to None
    | RegexError  // `re.error` while compiling a pattern

  datatype Result<T> = Ok(value: T) | Err(error: PyError)

  /** What a load method does besides filling its table: return, or raise. */
  datatype Outcome = Pass | Raised(error: PyError)

  /** A raw line handed to a parser; Python's None is `None`. */
  type Line = Option<string>

  /** A parsed record: its tokens, in column order. */
  type Record = seq<string>

  /** A column of a table and its position in a record. */
  datatype Column = Column(name: string, index: nat)

  /** One file as a loader sees it: its path and the lines `readlines()` gives. */
  datatype LogFile = LogFile(path: string, lines: seq<string>)

  /** The `files` argument of a loader: a Python list, or any other value. */
  datatype FilesArg = FileList(files: seq<LogFile>) | NotAList

  /** The lines of a file as the parsers receive them (never None). */
  function AsLines(lines: seq<string>): (r: seq<Line>)
    ensures |r| == |lines|
    ensures forall i :: 0 <= i < |lines| ==> r[i] == Some(lines[i])
  {
    seq(|lines|, i requires 0 <= i < |lines| => Some(lines[i]))
  }
}
