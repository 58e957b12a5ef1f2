/**
 * The few zod checks the request schemas use, over parsed JSON. An object
 * schema keeps only its declared keys, so parsing is `Pick` followed by
 * the per-field checks.
 */
module Zod {
  import opened Json

  /** `z.string().min(1)`. */
  predicate NonEmptyString(v: Value) {
    v.Str? && |v.s| >= 1
  }

  /** `z.number().int()`. */
  predicate IsInteger(v: Value) {
    v.Num? && v.n.Floor as real == v.n
  }

  /** `z.enum([...])` over the given literals. */
  predicate OneOf(v: Value, options: set<string>) {
    v.Str? && v.s in options
  }

  /** `z.array(z.string())`. */
  predicate StringArray(v: Value) {
    v.Arr? && forall i :: 0 <= i < |v.items| ==> v.items[i].Str?
  }

  /** The declared keys of an object schema: the others are stripped from the output. */
  function Pick(o: Object, keys: set<string>): (r: Object)
    ensures r.Keys == o.Keys * keys
    ensures forall k :: k in r ==> r[k] == o[k]
  {
    map k | k in o.Keys * keys :: o[k]
  }
}
