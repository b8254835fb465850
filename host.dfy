/**
 * The collaborators the core calls but does not implement: the translation
 * lookup, the locale-aware number formatter, the date formatter and
 * JavaScript's conversions between numbers and strings. Each is an
 * arbitrary function, so every property proved holds whatever they return.
 */
module Host {
  import opened Wrappers
  import opened JsValues

  datatype Env = Env(
    /** `this.translate(key)` */
    translate: string -> string,
    /** `Number(v).toLocaleString(localeStr, {minimumFractionDigits: p, maximumFractionDigits: p})` */
    formatNumber: (real, JsValue) -> string,
    /** `moment().set({year, month, date}).format("ddd, MMM Do Y")`, month counted from 0 */
    formatDate: (real, real, real) -> string,
    /** `String(n)` */
    numberToString: real -> string,
    /** `Number(s)`; `None` is NaN */
    stringToNumber: string -> Option<real>
  )
}
