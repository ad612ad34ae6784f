/** The `errors` state both forms keep: field to message, where a field shows
    an error when its message is a non-empty string. */
module FormErrors {

  /** `errors[name]` is truthy. */
  predicate HasError<K>(errors: map<K, string>, k: K) {
    k in errors && errors[k] != ""
  }

  /** `if (errors[name]) setErrors(prev => ({ ...prev, [name]: '' }))`. */
  function ClearError<K>(errors: map<K, string>, k: K): (r: map<K, string>)
    ensures r.Keys == errors.Keys
    ensures !HasError(r, k)
    ensures forall g :: g != k && g in errors ==> r[g] == errors[g]
  {
    if HasError(errors, k) then errors[k := ""] else errors
  }
}
