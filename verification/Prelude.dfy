/** Small datatypes shared by every module of the model. */
module Prelude {

  /** Python's `None` or a value. */
  datatype Option<+T> = None | Some(value: T)

  /** A returned value, or the error that was raised instead. */
  datatype Result<+T, +E> = Ok(value: T) | Err(error: E)

  /** `picked` holds, in order, the chosen ones among the first `n` members of `s`; `at` says where
      they stand. */
  ghost predicate Picked<T(!new)>(s: seq<T>, n: nat, chosen: T -> bool, at: seq<nat>, picked: seq<T>)
    requires n <= |s|
  {
    && |at| == |picked| && (forall k | 0 <= k < |at| :: at[k] < n && picked[k] == s[at[k]])
    && (forall k, l :: 0 <= k < l < |at| ==> at[k] < at[l])
    && forall i: nat :: i in at <==> i < n && chosen(s[i])
  }

  lemma PickNext<T(!new)>(s: seq<T>, n: nat, chosen: T -> bool, at: seq<nat>, picked: seq<T>)
    requires n < |s| && Picked(s, n, chosen, at, picked)
    ensures if chosen(s[n]) then Picked(s, n + 1, chosen, at + [n], picked + [s[n]])
      else Picked(s, n + 1, chosen, at, picked)
  {
  }

  lemma PickNothing<T(!new)>(s: seq<T>, chosen: T -> bool)
    ensures Picked(s, 0, chosen, [], [])
  {
  }

  lemma Assoc<T>(a: seq<T>, b: seq<T>, c: seq<T>)
    ensures a + (b + c) == a + b + c
  {
  }

  lemma PrefixNext<T>(s: seq<T>, n: nat)
    requires n < |s|
    ensures s[..n + 1] == s[..n] + [s[n]] && s[..n + 1][..n] == s[..n]
  {
  }
}
