/** Facts about sequences shared by the other modules. */
module Seqs {
  lemma AppendAssoc<T>(a: seq<T>, b: seq<T>, c: seq<T>)
    ensures (a + b) + c == a + (b + c)
  {
  }

  /** Dropping a prefix no longer than `a` from `a + c` drops it from `a`. */
  lemma DropAppend<T>(a: seq<T>, c: seq<T>, k: nat)
    requires k <= |a|
    ensures (a + c)[k..] == a[k..] + c
  {
    assert forall i :: 0 <= i < |a| - k + |c| ==> (a + c)[k..][i] == (a[k..] + c)[i];
  }
}
