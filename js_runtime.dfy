/**
 * The JavaScript built-ins whose exact numeric or locale behaviour the catalog depends on.
 * They are kept abstract: the model is proved for every choice of these functions that
 * satisfies the (few) properties stated below, and not for IEEE-754 doubles.
 */
module JsRuntime {
  import opened Wrappers

  datatype Js = Js(
    /** `parseFloat(s)`; `None` stands for `NaN`. */
    parseFloat: string -> Option<real>,
    /** `x.toFixed(digits)`. */
    toFixed: (real, nat) -> string,
    /** `x => Math.pow(x, 0.75)`. */
    pow075: real -> real,
    /** `(a, b) => a.localeCompare(b) <= 0`. */
    localeLe: (string, string) -> bool)

  /** A positive number raised to a positive power is positive. */
  ghost predicate PowPositive(js: Js) {
    forall x: real :: x > 0.0 ==> js.pow075(x) > 0.0
  }

  /** `localeCompare` orders all strings totally and consistently. */
  ghost predicate LocaleIsTotalPreorder(js: Js) {
    && (forall a, b :: js.localeLe(a, b) || js.localeLe(b, a))
    && (forall a, b, c :: js.localeLe(a, b) && js.localeLe(b, c) ==> js.localeLe(a, c))
  }

  /** `parseFloat(s) || 0`: `NaN` (and `0`) become `0`. */
  function NumberOrZero(js: Js, s: string): real {
    match js.parseFloat(s)
    case Some(x) => x
    case None => 0.0
  }
}
