/**
 * Regrouping facts about sequence concatenation, stated once over any
 * element type so that the proofs about strings, patterns and record lists
 * can use them without re-deriving sequence equality.
 */
module Seqs {

  lemma Assoc<T>(x: seq<T>, y: seq<T>, z: seq<T>)
    ensures x + (y + z) == (x + y) + z
  {
  }

  lemma Assoc4<T>(a: seq<T>, b: seq<T>, c: seq<T>, d: seq<T>, e: seq<T>)
    ensures a + b + c + d + e == a + (b + (c + (d + e)))
  {
  }

  lemma EmptyThen<T>(x: seq<T>)
    ensures [] + x == x
  {
  }

  lemma Single<T>(s: seq<T>)
    requires |s| == 1
    ensures s == [s[0]]
  {
  }

  /** Slices of `s` seen from its tail `s[1..]`, around position `k`. */
  lemma TailSlices<T>(s: seq<T>, k: nat)
    requires 0 < k < |s|
    ensures s[1..][..k - 1] == s[..k][1..] && s[1..][k - 1] == s[k] && s[1..][k..] == s[k + 1..]
    ensures s[..k][0] == s[0]
  {
  }

  lemma HeadThenTail<T>(s: seq<T>)
    requires s != []
    ensures [s[0]] + s[1..] == s
  {
  }

}
