/** The client's request step: before a query is sent, every parameter whose value is
    `null`, `undefined` or the empty string is dropped, so that it does not appear in the
    query string at all. */
module Api {

  /** A parameter value as the client holds it. */
  datatype JsValue = Undefined | Null | Str(s: string) | Num(n: int)

  /** Query parameters by name. The order in which they are listed is left out. */
  type QueryParams<K> = map<K, JsValue>

  /** `v != null && v !== ''`: loose inequality with `null` also rejects `undefined`; the
      number zero is kept. */
  predicate Sendable(v: JsValue) {
    !v.Undefined? && !v.Null? && v != Str("")
  }

  /** The parameters that are actually sent. */
  function CleanParams<K>(params: QueryParams<K>): (sent: QueryParams<K>)
    ensures forall k :: k in sent ==> k in params && sent[k] == params[k]
    ensures forall k :: k in sent ==> sent[k] != Null && sent[k] != Undefined && sent[k] != Str("")
    ensures forall k :: k in params && Sendable(params[k]) ==> k in sent
  {
    map k | k in params && Sendable(params[k]) :: params[k]
  }

  /** Cleaning what was already cleaned changes nothing. */
  lemma CleanIdempotent<K>(params: QueryParams<K>)
    ensures CleanParams(CleanParams(params)) == CleanParams(params)
  {
    var once := CleanParams(params);
    assert CleanParams(once).Keys == once.Keys;
  }

  /** Parameters that agree on every sendable entry are sent alike: what is dropped does not
      matter. */
  lemma CleanIgnoresDropped<K>(a: QueryParams<K>, b: QueryParams<K>)
    requires forall k :: (k in a && Sendable(a[k])) <==> (k in b && Sendable(b[k]))
    requires forall k :: k in a && Sendable(a[k]) ==> a[k] == b[k]
    ensures CleanParams(a) == CleanParams(b)
  {
    assert CleanParams(a).Keys == CleanParams(b).Keys;
  }
}
