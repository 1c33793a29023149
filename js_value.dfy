/**
 * The JavaScript values that the type guards of the code components look
 * at.  `isCodeToken`, `isCodeScope` and the `CodeMetrics` guard all ask
 * whether one property of a value is defined.
 */
module JsValues {

  datatype Value =
    | Undefined
    | Null
    | Boolean(b: bool)
    | Number(n: real)
    | Text(s: string)
    | Array(items: seq<Value>)
    | Object(props: map<string, Value>)

  /**
   * `value?.[name] !== undefined` for the property names the guards use
   * (`content`, `fragments`): optional chaining gives `undefined` on
   * `null` and `undefined`, and primitives and arrays have no such property.
   */
  predicate HasDefined(value: Value, name: string)
  {
    value.Object? && name in value.props && value.props[name] != Undefined
  }
}
