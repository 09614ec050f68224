// A cursor row and the defaulting getters that read it
// (`getStringValue`, `getIntValue`, `getLongValue`).
module Rows {
  import opened Text
  import Int32

  /** One cell of a cursor row. `Broken` is a cell whose read throws. */
  datatype Cell = Null | Str(s: string) | Num(n: int) | Broken

  /** A row maps column names to cells; an absent name is a column the cursor lacks. */
  type Row = map<string, Cell>

  /** Whether reading `column` of `row` yields a value (the column exists, is non-null, reads). */
  predicate Readable(row: Row, column: string)
  {
    column in row && (row[column].Str? || row[column].Num?)
  }

  /** `getStringValue(column, default)`: the cell as text, or `default` when the
    * column is missing, null, or its read throws. */
  function GetStringValue(row: Row, column: string, default: string := ""): (r: string)
    ensures !Readable(row, column) ==> r == default
    ensures Readable(row, column) && row[column].Str? ==> r == row[column].s
    ensures Readable(row, column) && row[column].Num? ==> TextToInt(r) == row[column].n
  {
    if column !in row then default
    else match row[column]
      case Str(s) => s
      case Num(n) => TextToIntOfDecimal(n); IntToDecimal(n)
      case _ => default
  }

  /** `getLongValue(column)`: the cell as an integer, or 0. */
  function GetLongValue(row: Row, column: string): (r: int)
    ensures !Readable(row, column) ==> r == 0
    ensures Readable(row, column) && row[column].Num? ==> r == row[column].n
  {
    if column !in row then 0
    else match row[column]
      case Str(s) => TextToInt(s)
      case Num(n) => n
      case _ => 0
  }

  /** `getIntValue(column)`: like `getLongValue`, narrowed to a 32-bit `Int`. */
  function GetIntValue(row: Row, column: string): (r: int)
    ensures Int32.InRange(r)
    ensures !Readable(row, column) ==> r == 0
    ensures Int32.InRange(GetLongValue(row, column)) ==> r == GetLongValue(row, column)
  {
    Int32.Wrap(GetLongValue(row, column))
  }

  /** The numeric getter and the text getter never disagree: the number read
    * from a cell is the number its text denotes. */
  lemma LongAgreesWithString(row: Row, column: string)
    ensures GetLongValue(row, column) == TextToInt(GetStringValue(row, column))
  {
    if column in row && row[column].Num? {
      TextToIntOfDecimal(row[column].n);
    }
  }
}
