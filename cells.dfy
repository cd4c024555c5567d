/** One spreadsheet cell as pandas hands it over: missing (`NaN`) or a value
    whose Python `str()` is the given text. */
module Cells {

  datatype Cell = Missing | Text(text: string)

  datatype Option<+T> = None | Some(value: T)

  /** `Series.astype(str)` on one cell: a missing cell becomes the text "nan". */
  function AsStr(c: Cell): (s: string)
    ensures c.Text? ==> s == c.text
    ensures c.Missing? ==> s == "nan"
  {
    match c
    case Missing => "nan"
    case Text(t) => t
  }

  /** `str(x) if pd.notna(x) else ""` on one cell: a missing cell becomes "". */
  function OrEmpty(c: Cell): (s: string)
    ensures c.Text? ==> s == c.text
    ensures c.Missing? ==> s == ""
  {
    match c
    case Missing => ""
    case Text(t) => t
  }

  /** `float(x) if pd.notna(x) else 0.0` on a quantity cell. */
  function AmountOrZero(q: Option<real>): (v: real)
    ensures q.Some? ==> v == q.value
    ensures q.None? ==> v == 0.0
  {
    match q
    case None => 0.0
    case Some(x) => x
  }
}
