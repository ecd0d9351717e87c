/** How the parts of a sequence fit together. */
module Slices {
  lemma PartOfPrefix<T>(s: seq<T>, n: nat, k: nat)
    requires k <= n <= |s|
    ensures s[..n][..k] == s[..k]
  {
  }

  lemma PartOfSuffix<T>(s: seq<T>, k: nat, n: nat)
    requires k <= n <= |s|
    ensures s[k..][..n - k] == s[k..n] && s[k..][n - k..] == s[n..]
  {
  }

  lemma PartBehind<T>(s: seq<T>, k: nat, n: nat)
    requires k < n <= |s|
    ensures s[k..][1..][..n - k - 1] == s[k + 1..n] && s[k..][1..][n - k - 1..] == s[n..]
  {
  }

  lemma Parts<T>(s: seq<T>, i: nat, j: nat, more: seq<T>)
    requires i <= j <= |s|
    ensures s + more == s[..i] + (s[i..j] + (s[j..] + more))
    ensures s == s[..i] + (s[i..j] + s[j..])
  {
  }

  /** Behind element `k` of `s`, what follows `s` follows. */
  lemma CutAt<T>(s: seq<T>, k: nat, more: seq<T>)
    requires k < |s|
    ensures s + more == s[..k] + ([s[k]] + (s[k + 1..] + more))
  {
  }

  lemma Regroup<T>(a: seq<T>, b: seq<T>, c: seq<T>)
    ensures a + b + c == a + (b + c)
  {
  }

  /** Behind `a` comes `b`. */
  lemma Behind<T>(a: seq<T>, b: seq<T>)
    ensures (a + b)[..|a|] == a && (a + b)[|a|..] == b
  {
  }
}
