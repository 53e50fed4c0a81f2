/** Optional values, error results and a law of sequences shared by the other modules. */
module Wrappers {

  datatype Option<+T> = None | Some(value: T)

  datatype Result<+T, +E> = Ok(value: T) | Err(error: E)

  lemma Associative<T>(a: seq<T>, b: seq<T>, c: seq<T>)
    ensures a + b + c == a + (b + c)
  {
  }

  lemma OneLonger<T>(s: seq<T>, from: nat, n: nat)
    requires from <= n < |s|
    ensures s[from..n + 1] == s[from..n] + [s[n]]
  {
  }
}
