/**
 * JavaScript numbers as the pages compare them: a finite value or `NaN`.
 * Every ordering comparison with `NaN` is false, so `a < b` and `a >= b` are
 * not each other's negation.
 */
module Numbers {
  datatype JsNumber = Num(value: real) | NaN

  /** `a < b` */
  predicate Less(a: JsNumber, b: JsNumber) {
    a.Num? && b.Num? && a.value < b.value
  }

  /** `a >= b` */
  predicate AtLeast(a: JsNumber, b: JsNumber) {
    a.Num? && b.Num? && a.value >= b.value
  }

  /** The two comparisons exclude each other, and both are false exactly
      when one side is `NaN`. */
  lemma LessAtLeast(a: JsNumber, b: JsNumber)
    ensures !(Less(a, b) && AtLeast(a, b))
    ensures !Less(a, b) && !AtLeast(a, b) <==> a.NaN? || b.NaN?
  {
  }
}
