/** Small vocabulary shared by every module. */
module Prelude {

  /** Stands for a value that may be missing: a zero `time.Time`, a NULL column, a lookup miss. */
  datatype Option<+T> = None | Some(value: T)

  /** Stands for Go's `(value, error)` results; the error text is not modelled. */
  datatype Result<+T> = Ok(value: T) | Err

  /** Map lookup that reports a miss. */
  function Lookup<K, V>(m: map<K, V>, k: K): (r: Option<V>)
    ensures r.Some? <==> k in m
    ensures k in m ==> r == Some(m[k])
  {
    if k in m then Some(m[k]) else None
  }

  function Min(a: real, b: real): (m: real)
    ensures m <= a && m <= b && (m == a || m == b)
  {
    if a < b then a else b
  }

  /** Tokens a refill rate yields over a stretch of time. */
  function Accrued(elapsed: real, rate: real): real {
    elapsed * rate
  }

  lemma AccruedAdds(a: real, b: real, rate: real)
    ensures Accrued(a + b, rate) == Accrued(a, rate) + Accrued(b, rate)
  {
  }

  lemma AccruedNonNegative(elapsed: real, rate: real)
    requires elapsed >= 0.0 && rate >= 0.0
    ensures Accrued(elapsed, rate) >= 0.0
  {
  }

  lemma AccruedMonotone(a: real, b: real, rate: real, rate': real)
    requires 0.0 <= a <= b && 0.0 <= rate <= rate'
    ensures Accrued(a, rate) <= Accrued(b, rate')
  {
    assert a * rate <= b * rate;
    assert b * rate <= b * rate';
  }
}
