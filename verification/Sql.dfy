/** SQL values as the guards see them: nullable columns and three-valued conditions. */
module Sql {

  /** A nullable column, a missing JSON key, or an absent row. */
  datatype Option<+T> = None | Some(value: T)

  /** A uuid is represented by its canonical text, so `id::text` is the identity. */
  type Uuid = string

  /** Columns that no guard reads on their own: they only take part in whole-row comparison. */
  type Columns = map<string, string>

  datatype Truth = Yes | No | Unknown

  function Lit(b: bool): Truth {
    if b then Yes else No
  }

  function Not(a: Truth): Truth {
    match a
    case Yes => No
    case No => Yes
    case Unknown => Unknown
  }

  function And(a: Truth, b: Truth): Truth {
    if a == No || b == No then No else if a == Yes && b == Yes then Yes else Unknown
  }

  function Or(a: Truth, b: Truth): Truth {
    if a == Yes || b == Yes then Yes else if a == No && b == No then No else Unknown
  }

  /** `a <> b`, which is unknown as soon as one side is null. */
  function Ne<T(==)>(a: Option<T>, b: Option<T>): Truth {
    if a.None? || b.None? then Unknown else Lit(a.value != b.value)
  }

  /** `a > 0` for a nullable integer. */
  function Positive(a: Option<int>): Truth {
    if a.None? then Unknown else Lit(a.value > 0)
  }

  /** `IF condition THEN RAISE`: an unknown condition does not raise. */
  predicate Raises(condition: Truth) {
    condition == Yes
  }

  /** A CHECK constraint rejects only a condition that is false. */
  predicate CheckPasses(condition: Truth) {
    condition != No
  }
}
