/**
  What the handlers see of JSON: a property read off a parsed request body, and a
  data file holding a JSON array that is read whole, appended to and written back whole.
 */
module JsonFile {
  import opened Wrappers

  /**
    `body.field` after JSON parsing: missing (`undefined`), a string, or some other
    JSON value (null, number, boolean, array, object).
   */
  datatype Value = Absent | Text(s: string) | NonText

  /**
    A data file as `readFileSync` + `JSON.parse` find it: not there yet, unreadable or
    not a JSON array (so reading, parsing or `push` throws), or an array of records.
   */
  datatype FileState<T> = Missing | Corrupt | Stored(records: seq<T>)

  /**
    How the file system answers the calls the model does not see: whether the data
    directory exists or can be created, and whether `writeFileSync` succeeds.
   */
  datatype StoreIo = StoreIo(dirReady: bool, writeOk: bool)

  /** Whether a save reported success, and the file afterwards. */
  datatype Saved<T> = Saved(ok: bool, file: FileState<T>)

  /** The array a read-modify-write starts from: a missing file reads as `[]`. */
  function Load<T>(file: FileState<T>): (r: Option<seq<T>>)
    ensures r.None? <==> file.Corrupt?
    ensures file.Stored? ==> r == Some(file.records)
    ensures file.Missing? ==> r == Some([])
  {
    match file
    case Missing => Some([])
    case Corrupt => None
    case Stored(records) => Some(records)
  }
}
