/** Run-time values of the scripting language that the model needs to tell apart. */
module JsValues {

  /** A value whose `typeof` is "number" (kept exact, as a real) or "string". */
  datatype JsValue = Number(n: real) | Text(s: string)
}
