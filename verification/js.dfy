/**
 * The parts of JavaScript's value semantics the front end relies on:
 * numbers that may be NaN or infinite, and truthiness of numbers and strings.
 */
module Js {
  import opened Wrappers

  /** An IEEE double as JavaScript sees it; finite values are exact reals here. */
  datatype Number = Finite(v: real) | NaN | PosInf | NegInf {

    /** `!!x`: 0 and NaN are falsy, everything else is truthy. */
    predicate Truthy() {
      (Finite? && v != 0.0) || PosInf? || NegInf?
    }
  }

  /** `x || y` on numbers. */
  function Or(x: Number, y: Number): (r: Number)
    ensures r.Truthy() <==> x.Truthy() || y.Truthy()
    ensures x.Truthy() ==> r == x
    ensures !x.Truthy() ==> r == y
  {
    if x.Truthy() then x else y
  }

  /** `!!s` for a string that may be null/undefined: only a non-empty string is truthy. */
  predicate TruthyString(s: Option<string>) {
    s.Some? && s.value != ""
  }
}
