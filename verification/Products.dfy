/** Multiplication keeps order. */
module Products {

  lemma Times(x: int, y: int, k: int)
    requires x <= y && k >= 0
    ensures x * k <= y * k
  {
  }
}
