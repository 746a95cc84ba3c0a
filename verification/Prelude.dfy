/** The optional and fallible values the other modules share. */
module Prelude {

  datatype Option<+T> = None | Some(value: T)

  datatype Result<+T, +E> = Ok(value: T) | Err(error: E)

  /** How a call to the outside fails: it was not carried out, or it was and only
      its answer did not arrive. The caller sees the text and cannot tell. */
  datatype Fault = Rejected(text: string) | Unanswered(text: string)

  /** Calls are numbered; which of them fail, and how, is a function of the number. */
  type Faults = nat -> Option<Fault>

  predicate CarriedOut(fault: Option<Fault>) {
    fault.None? || fault.value.Unanswered?
  }

  function ErrorText(fault: Option<Fault>): Option<string> {
    match fault case None => None case Some(f) => Some(f.text)
  }

  /** None of the calls numbered from m up to n failed. */
  ghost predicate NoFaults(f: Faults, m: nat, n: nat) {
    forall k :: m <= k < n ==> f(k).None?
  }

  function Entry<K, V>(m: map<K, V>, k: K): Option<V> {
    if k in m then Some(m[k]) else None
  }

  /** No element occurs at two positions. */
  ghost predicate Distinct<T>(s: seq<T>) {
    forall i, j :: 0 <= i < j < |s| ==> s[i] != s[j]
  }
}
