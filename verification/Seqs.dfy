/** Facts about sequences that proofs about recursive functions on them keep needing. */
module Seqs {
  lemma Assoc<T>(a: seq<T>, b: seq<T>, c: seq<T>)
    ensures a + b + c == a + (b + c)
  {
  }

  /** Dropping the last element of a concatenation drops it from the second part. */
  lemma LastOf<T>(a: seq<T>, b: seq<T>)
    requires b != []
    ensures |a + b| > 0 && (a + b)[|a + b| - 1] == b[|b| - 1] && (a + b)[..|a + b| - 1] == a + b[..|b| - 1]
  {
  }

  /** One element after the first `i`. */
  lemma TakeOne<T>(s: seq<T>, i: int)
    requires 0 <= i < |s|
    ensures s[..i + 1] != [] && s[..i + 1][..|s[..i + 1]| - 1] == s[..i] && s[..i + 1][|s[..i + 1]| - 1] == s[i]
    ensures s == s[..i + 1] + s[i + 1..]
  {
  }

  /** `one` stands in `s` from position `p` on. */
  ghost predicate StandsAt<T>(s: seq<T>, p: nat, one: seq<T>) {
    p + |one| <= |s| && forall k | 0 <= k < |one| :: s[p + k] == one[k]
  }

  lemma MiddleAt<T>(head: seq<T>, one: seq<T>, tail: seq<T>)
    ensures |head + one| == |head| + |one| && StandsAt(head + one + tail, |head|, one)
  {
  }

  lemma SameParts<T>(p: seq<T>, q: seq<T>)
    requires p != [] && q != [] && p[0] == q[0] && p[1..] == q[1..]
    ensures p == q
  {
    assert p == [p[0]] + p[1..] && q == [q[0]] + q[1..];
  }

  /** Dropping the first element of a concatenation drops it from the first part. */
  lemma FirstOf<T>(a: seq<T>, b: seq<T>)
    requires a != []
    ensures |a + b| > 0 && (a + b)[0] == a[0] && (a + b)[1..] == a[1..] + b
  {
  }
}
