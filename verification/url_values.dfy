/**
 Go's `net/url.Values`: a map from a parameter name to its list of values.
 Every builder in the client libraries uses `Set`, which replaces the list
 with a single value; the encoded query text is left to the HTTP layer.
 */
module UrlValues {

  type Values = map<string, seq<string>>

  /** `url.Values{}`: no parameters. */
  const Empty: Values := map[]

  /** `v.Set(k, value)`: `k` now holds exactly `value`; every other key is untouched. */
  function Set(v: Values, k: string, value: string): (r: Values)
    ensures r.Keys == v.Keys + {k}
    ensures r[k] == [value]
    ensures forall j :: j in v && j != k ==> r[j] == v[j]
  {
    v[k := [value]]
  }

  /** `v.Get(k)`: the first value of `k`, or "" when there is none. */
  function Get(v: Values, k: string): (r: string)
    ensures k !in v ==> r == ""
    ensures k in v && |v[k]| > 0 ==> r == v[k][0]
  {
    if k in v && |v[k]| > 0 then v[k][0] else ""
  }

  /** `if cond { v.Set(k, value) }`, the shape of every optional parameter. */
  function SetIf(v: Values, cond: bool, k: string, value: string): (r: Values)
    ensures cond ==> r == Set(v, k, value)
    ensures !cond ==> r == v
  {
    if cond then Set(v, k, value) else v
  }

  /** What `Set` stores, `Get` reads back. */
  lemma GetSet(v: Values, k: string, value: string)
    ensures Get(Set(v, k, value), k) == value
  {
  }

  /** A parameter written once with `Set` holds exactly one value. */
  predicate SingleValued(v: Values)
  {
    forall k :: k in v ==> |v[k]| == 1
  }

  /** `Set` keeps every parameter single-valued. */
  lemma SetKeepsSingleValued(v: Values, k: string, value: string)
    requires SingleValued(v)
    ensures SingleValued(Set(v, k, value))
  {
  }

  /** An optional `Set` keeps every parameter single-valued too. */
  lemma SetIfKeepsSingleValued(v: Values, cond: bool, k: string, value: string)
    requires SingleValued(v)
    ensures SingleValued(SetIf(v, cond, k, value))
  {
    if cond {
      SetKeepsSingleValued(v, k, value);
    }
  }

  /** An optional `Set` adds its own key when it fires, and no other. */
  lemma SetIfKeys(v: Values, cond: bool, k: string, value: string)
    ensures SetIf(v, cond, k, value).Keys == if cond then v.Keys + {k} else v.Keys
  {
  }
}
