/** The slice of JavaScript's dynamic values that the navigation code inspects. */
module JsValues {
  import opened Optional

  /** A JavaScript number: NaN or an ordinary value. */
  datatype Num = NaN | Finite(value: real)

  /** A JavaScript value as the coordinate handling sees it. For a plain object
      only its `coordinates` property matters. */
  datatype JsValue =
    | Undefined
    | Null
    | Number(n: Num)
    | Str(s: string)
    | Array(items: seq<JsValue>)
    | Object(coordinates: Option<JsValue>)
}
