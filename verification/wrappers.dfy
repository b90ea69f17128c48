/** The optional value used wherever the Java code uses a nullable reference. */
module Wrappers {

  datatype Option<+T> = None | Some(value: T)

  /** `m.getOrDefault(k, d)` of a Java map. */
  function GetOrDefault<K, V>(m: map<K, V>, k: K, d: V): (v: V)
    ensures k in m ==> v == m[k]
    ensures k !in m ==> v == d
  {
    if k in m then m[k] else d
  }
}
