/** The scalar values that metadata maps hold, and their Python `str()` rendering. */
module Values {
  import PyText

  /** A metadata value: the source stores booleans, integers and strings. */
  datatype MetaValue = MBool(b: bool) | MInt(i: int) | MText(s: string)

  type Metadata = map<string, MetaValue>

  /** What an f-string placeholder shows for the value. */
  function Render(v: MetaValue): string {
    match v
    case MBool(b) => if b then "True" else "False"
    case MInt(i) => PyText.IntToString(i)
    case MText(s) => s
  }
}
