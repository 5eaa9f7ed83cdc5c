/** The cells dirsql stores: SQLite's five storage classes. NaN is left out, so
    that equality of cells is equality of values. */
module Values {
  newtype byte = x: int | 0 <= x < 256

  datatype Value =
    | Null
    | Integer(n: int)
    | Real(x: real)
    | Infinity(negative: bool)
    | Text(text: string)
    | Blob(bytes: seq<byte>)

  /** A row as callers see it: its cells by column name. */
  type Row = map<string, Value>
}
