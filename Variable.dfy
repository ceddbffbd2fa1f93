/**
 * PScript.Structure: the four-variant value model. The C# class hierarchy
 * (NullVariable, NumberVariable, StringVariable, BoolVariable) becomes one
 * datatype; each variant's payload is the value its constructor stored.
 */
module Variables {

  /** C#'s `int`. */
  newtype int32 = x: int | -0x8000_0000 <= x < 0x8000_0000

  const MaxInt32: int := 0x7fff_ffff

  datatype VariableKind = Null | Number | String | Bool

  datatype Variable =
    | NullVariable
    | NumberVariable(number: int32)
    | StringVariable(text: string)
    | BoolVariable(flag: bool)
  {
    /** The tag each subclass reports. */
    function Kind(): (k: VariableKind)
      ensures k == Null <==> NullVariable?
      ensures k == Number <==> NumberVariable?
      ensures k == String <==> StringVariable?
      ensures k == Bool <==> BoolVariable?
    {
      match this
      case NullVariable => Null
      case NumberVariable(_) => Number
      case StringVariable(_) => String
      case BoolVariable(_) => Bool
    }

    /** A fresh variable of the same kind holding the same payload. */
    function Clone(): (c: Variable)
      ensures c.Kind() == Kind()
      ensures c == this
    {
      match this
      case NullVariable => NullVariable
      case NumberVariable(n) => NumberVariable(n)
      case StringVariable(s) => StringVariable(s)
      case BoolVariable(b) => BoolVariable(b)
    }
  }
}
