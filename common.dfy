/** Values shared by every module: JavaScript's "undefined or a value" and
    "returned or thrown". */
module Common {

  /** `undefined` (None) or a value. */
  datatype Option<+T> = None | Some(value: T)

  /** A call that returns a value or throws an error. */
  datatype Result<+T, +E> = Returned(value: T) | Thrown(error: E)

  /** The JSON file behind a file store: the records it holds as last
      written. Serialisation and parsing are not modelled; a record read back
      is the record written. */
  class JsonFile<T> {
    var records: seq<T>

    constructor (records: seq<T>)
      ensures this.records == records
    {
      this.records := records;
    }

    /** `writeJsonToFile(data)`. */
    method Write(data: seq<T>)
      modifies this
      ensures records == data
    {
      records := data;
    }
  }
}
