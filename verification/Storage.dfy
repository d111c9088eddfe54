/** A contract's storage of instances: a mapping and the next index, read as a sequence. */
module Storage {

  // the mapping holds an instance for exactly the indices handed out
  ghost predicate Stored<T>(m: map<nat, T>, n: nat) { forall i :: i in m <==> 0 <= i < n }

  ghost function Listing<T>(m: map<nat, T>, n: nat): (s: seq<T>)
    requires Stored(m, n)
    ensures |s| == n && forall i :: 0 <= i < n ==> s[i] == m[i]
  {
    seq(n, i requires 0 <= i < n && i in m => m[i])
  }

  lemma Updated<T>(m: map<nat, T>, n: nat, i: nat, t: T)
    requires Stored(m, n) && i < n
    ensures Stored(m[i := t], n) && Listing(m[i := t], n) == Listing(m, n)[i := t]
  {
  }

  lemma Pushed<T>(m: map<nat, T>, n: nat, t: T)
    requires Stored(m, n)
    ensures Stored(m[n := t], n + 1) && Listing(m[n := t], n + 1) == Listing(m, n) + [t]
  {
  }
}
