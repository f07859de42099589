/** Runtime values. `ReturnValueObj` and `ErrorObj` are the evaluator's two short-circuit
    signals; the others are ordinary values. The shared TRUE, FALSE and NULL instances of
    the interpreter are plain values here, so identity and equality coincide. */
module Objects {
  import opened SwiftInt

  datatype Object =
    | IntegerObj(intValue: Int64)
    | BooleanObj(boolValue: bool)
    | NullObj
    | ReturnValueObj(inner: Object)
    | ErrorObj(message: string)

  /** The type name an object reports; error messages print it. */
  function TypeName(o: Object): string
  {
    match o
    case IntegerObj(_) => "INTEGER"
    case BooleanObj(_) => "BOOLEAN"
    case NullObj => "NULL"
    case ReturnValueObj(_) => "RETURN_VALUE"
    case ErrorObj(_) => "ERROR"
  }

  /** Objects of different kinds report different type names. */
  lemma TypeNameDistinguishesKinds(a: Object, b: Object)
    ensures TypeName(a) == TypeName(b) <==>
      (a.IntegerObj? && b.IntegerObj?) || (a.BooleanObj? && b.BooleanObj?) ||
      (a.NullObj? && b.NullObj?) || (a.ReturnValueObj? && b.ReturnValueObj?) ||
      (a.ErrorObj? && b.ErrorObj?)
  {
  }
}
