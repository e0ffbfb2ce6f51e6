/** Integer helpers shared by the list-shaping operations. */
module Numbers {

  /** Python's `min(a, b)`. */
  function Min(a: int, b: int): (m: int)
    ensures m <= a && m <= b
    ensures m == a || m == b
  {
    if a <= b then a else b
  }
}
