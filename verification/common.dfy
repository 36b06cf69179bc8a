/** Shared vocabulary: optional values, results, and the insertion-ordered
    dictionaries that the Python source builds its check results in. */
module Common {

  datatype Option<+T> = None | Some(value: T) {
    function GetOr(default: T): T {
      match this
      case Some(v) => v
      case None => default
    }
  }

  datatype Result<+T, +E> = Ok(value: T) | Err(error: E)

  /** A Python dict, in insertion order. */
  type Entries<K, V> = seq<(K, V)>

  /** The keys of a dict, in insertion order (`list(d.keys())`). */
  function Keys<K, V>(d: Entries<K, V>): (ks: seq<K>)
    ensures |ks| == |d|
    ensures forall i :: 0 <= i < |d| ==> ks[i] == d[i].0
  {
    seq(|d|, i requires 0 <= i < |d| => d[i].0)
  }

  predicate HasKey<K(==), V>(d: Entries<K, V>, k: K) {
    exists i :: 0 <= i < |d| && d[i].0 == k
  }

  /** `[k for k, v in d.items() if bad(v)]`: the keys whose value is bad,
      in insertion order. */
  function KeysWhere<K, V>(d: Entries<K, V>, bad: V -> bool): (ks: seq<K>)
    ensures |ks| <= |d|
  {
    if |d| == 0 then []
    else (if bad(d[0].1) then [d[0].0] else []) + KeysWhere(d[1..], bad)
  }

  /** A key is listed exactly when some entry under it holds a bad value. */
  lemma {:induction false} KeysWhereMembers<K, V>(d: Entries<K, V>, bad: V -> bool, k: K)
    ensures k in KeysWhere(d, bad) <==> exists i :: 0 <= i < |d| && d[i].0 == k && bad(d[i].1)
  {
    if |d| > 0 {
      KeysWhereMembers(d[1..], bad, k);
      assert forall i :: 1 <= i < |d| ==> d[i] == d[1..][i - 1];
      if k in KeysWhere(d[1..], bad) {
        var i :| 0 <= i < |d[1..]| && d[1..][i].0 == k && bad(d[1..][i].1);
        assert d[i + 1] == d[1..][i];
      }
    }
  }

  /** Scanning a dict splits over its parts: the bad keys of `a + b` are the
      bad keys of `a` followed by those of `b`. With the one-entry case this
      fixes the order of the list completely. */
  lemma {:induction false} KeysWhereAppend<K, V>(a: Entries<K, V>, b: Entries<K, V>, bad: V -> bool)
    ensures KeysWhere(a + b, bad) == KeysWhere(a, bad) + KeysWhere(b, bad)
  {
    if |a| == 0 {
      assert a + b == b;
    } else {
      var head := if bad(a[0].1) then [a[0].0] else [];
      assert (a + b)[0] == a[0] && (a + b)[1..] == a[1..] + b;
      assert KeysWhere(a + b, bad) == head + KeysWhere(a[1..] + b, bad);
      KeysWhereAppend(a[1..], b, bad);
      assert KeysWhere(a, bad) == head + KeysWhere(a[1..], bad);
    }
  }

  /** `[x for x in s if keep(x)]`. */
  function Filter<T(!new)>(s: seq<T>, keep: T -> bool): (r: seq<T>)
    ensures |r| <= |s|
    ensures forall x :: x in r <==> x in s && keep(x)
  {
    if |s| == 0 then []
    else
      var rest := Filter(s[1..], keep);
      assert forall x :: x in s <==> x == s[0] || x in s[1..];
      (if keep(s[0]) then [s[0]] else []) + rest
  }
}
