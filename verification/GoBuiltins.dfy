/** Go's built-in functions in use. */
module GoBuiltins {
  function Min(a: int, b: int): int {
    if a < b then a else b
  }
}
