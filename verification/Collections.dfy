/** Small facts about numbers, sequences and maps that several models use. */
module Collections {
  import opened Wrappers

  function Min(a: nat, b: nat): (m: nat)
    ensures m <= a && m <= b && (m == a || m == b)
  {
    if a < b then a else b
  }

  function Max(a: nat, b: nat): (m: nat)
    ensures a <= m && b <= m && (m == a || m == b)
  {
    if a < b then b else a
  }

  function InsertAt<T>(a: seq<T>, i: nat, v: T): seq<T>
    requires i <= |a|
  {
    a[..i] + [v] + a[i..]
  }

  function DeleteAt<T>(a: seq<T>, i: nat): seq<T>
    requires i < |a|
  {
    a[..i] + a[i + 1..]
  }

  lemma Cat(a: string, b: string, c: string)
    ensures (a + b) + c == a + (b + c) && "" + a == a
  {}

  function Find<K, V>(m: map<K, V>, k: K): Option<V> { if k in m then Some(m[k]) else None }

  /** Some key, always the same one for the same map. */
  ghost function Pick<K, V>(m: map<K, V>): K
    requires m != map[]
    ensures Pick(m) in m
  {
    var k :| k in m; k
  }
}
