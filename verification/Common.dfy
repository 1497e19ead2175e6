/** Small shared vocabulary: optional values, results of store transitions
    and the "nothing else changes" frame used by every store operation. */
module Common {

  /** A JSON field that may be absent (or `None` in the Python dict). */
  datatype Option<+T> = None | Some(value: T)

  /** The result of an operation that either succeeds with a value or is
      refused with an error; a refused store transition writes nothing. */
  datatype Result<+R, +E> = Ok(value: R) | Err(error: E)

  /** `b` is `a` with at most the entry for `k` changed, added or removed. */
  ghost predicate SameExcept<K(!new), V>(a: map<K, V>, b: map<K, V>, k: K) {
    forall j :: j != k ==> (j in a <==> j in b) && (j in a ==> a[j] == b[j])
  }

  /** `order` lists every key of `m` exactly once: the iteration order of a
      Python dict. */
  ghost predicate ListsKeys<K(!new), V>(order: seq<K>, m: map<K, V>) {
    && (forall i :: 0 <= i < |order| ==> order[i] in m)
    && (forall k :: k in m ==> k in order)
    && (forall i, j :: 0 <= i < j < |order| ==> order[i] != order[j])
  }
}
