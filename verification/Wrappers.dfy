/** Small types shared by the models. */
module Wrappers {
  /** A value that may be missing. */
  datatype Option<+T> = None | Some(value: T)

  /** An edge type: source label, destination label, edge label. */
  datatype Triplet = Triplet(src: nat, dst: nat, elabel: nat)

  /** A vertex by its position in the table of its label. */
  datatype VLid = VLid(vlabel: nat, lid: nat)

  lemma Assoc<T>(a: seq<T>, b: seq<T>, c: seq<T>)
    ensures (a + b) + c == a + (b + c)
  {
  }

  /** If every step so far was fine and the next agrees exactly if it is fine, all agree exactly if all are fine. */
  lemma {:induction false} Stepwise(agree: nat -> bool, ok: nat -> bool, n: nat)
    requires agree(0) && forall k: nat | k < n && (forall i: nat | i < k :: ok(i)) :: agree(k + 1) <==> ok(k)
    ensures (forall k: nat | k <= n :: agree(k)) <==> (forall k: nat | k < n :: ok(k))
  {
    if n > 0 {
      Stepwise(agree, ok, n - 1);
      if forall i: nat | i < n - 1 :: ok(i) { assert agree(n) <==> ok(n - 1); }
    }
  }

  /** What holds at 0 and is kept by every step holds at n. */
  lemma {:induction false} Climb(p: nat -> bool, n: nat)
    requires p(0) && forall k: nat | k < n && p(k) :: p(k + 1)
    ensures p(n)
  {
    if n > 0 { Climb(p, n - 1); }
  }
}
