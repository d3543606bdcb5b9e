/**
 * Renaming columns and undoing it: the map from column names to column ids and the schema's
 * list of columns, under a list of renames and under the swapped list in the same order.
 */
module Renames {
  import opened Wrappers

  type Ids = map<string, nat>

  datatype Pair = Pair(old_: string, new_: string)

  /** The kind of a property and what the column holds. */
  datatype Body = Body(varchar: bool, value: int)

  datatype Col = Col(name: string, body: Body, dead: bool)

  // ------------------------------------------------------------------------------------
  // The name map
  // ------------------------------------------------------------------------------------

  /** rename_column: the id moves; a name already taken keeps its id and the moved one is lost. */
  function Move(m: Ids, p: Pair): (r: Ids) {
    if p.old_ !in m then m
    else if p.new_ in m - {p.old_} then m - {p.old_}
    else (m - {p.old_})[p.new_ := m[p.old_]]
  }

  /** The first k renames. */
  function MoveAll(m: Ids, ps: seq<Pair>, k: nat): (r: Ids)
    requires k <= |ps|
  {
    if k == 0 then m else Move(MoveAll(m, ps, k - 1), ps[k - 1])
  }

  function Swap(ps: seq<Pair>): (r: seq<Pair>)
    ensures |r| == |ps| && forall i | 0 <= i < |ps| :: r[i] == Pair(ps[i].new_, ps[i].old_)
  {
    seq(|ps|, i requires 0 <= i < |ps| => Pair(ps[i].new_, ps[i].old_))
  }

  predicate DistinctOlds(ps: seq<Pair>) {
    forall i, j | 0 <= i < j < |ps| :: ps[i].old_ != ps[j].old_
  }

  predicate DistinctNews(ps: seq<Pair>) {
    forall i, j | 0 <= i < j < |ps| :: ps[i].new_ != ps[j].new_
  }

  predicate OldsIn(m: Ids, ps: seq<Pair>) {
    forall i | 0 <= i < |ps| :: ps[i].old_ in m
  }

  predicate OneNamePerId(m: Ids) {
    forall a, b | a in m && b in m && m[a] == m[b] :: a == b
  }

  /** Where the first k renames take a name. */
  function Target(ps: seq<Pair>, k: nat, name: string): (t: string)
    requires k <= |ps|
  {
    if k == 0 then name else if ps[k - 1].old_ == name then ps[k - 1].new_ else Target(ps, k - 1, name)
  }

  /** Rename k does not run into a name that is taken. */
  predicate Free(m: Ids, ps: seq<Pair>, k: nat)
    requires k < |ps|
  {
    ps[k].new_ == ps[k].old_ || ps[k].new_ !in MoveAll(m, ps, k)
  }

  predicate AllFree(m: Ids, ps: seq<Pair>, k: nat)
    requires k <= |ps|
  {
    k == 0 || (AllFree(m, ps, k - 1) && Free(m, ps, k - 1))
  }

  lemma {:induction false} AllFreeAt(m: Ids, ps: seq<Pair>, k: nat, i: nat)
    requires i < k <= |ps| && AllFree(m, ps, k)
    ensures AllFree(m, ps, i) && Free(m, ps, i)
  {
    if i < k - 1 { AllFreeAt(m, ps, k - 1, i); }
  }

  lemma {:induction false} TargetOfOld(ps: seq<Pair>, k: nat, i: nat)
    requires DistinctOlds(ps) && k <= |ps| && i < |ps|
    ensures Target(ps, k, ps[i].old_) == if i < k then ps[i].new_ else ps[i].old_
  {
    if k > 0 { TargetOfOld(ps, k - 1, i); }
  }

  lemma {:induction false} TargetOfOther(ps: seq<Pair>, k: nat, name: string)
    requires k <= |ps| && forall i | 0 <= i < k :: ps[i].old_ != name
    ensures Target(ps, k, name) == name
  {
    if k > 0 { TargetOfOther(ps, k - 1, name); }
  }

  /** Every id sits where the renames take its name, and nothing else is in the map. */
  ghost predicate MovedTo(m: Ids, ps: seq<Pair>, k: nat, r: Ids)
    requires k <= |ps|
  {
    && (forall a | a in m :: Target(ps, k, a) in r && r[Target(ps, k, a)] == m[a])
    && (forall t | t in r :: Comes(m, ps, k, t))
  }

  ghost predicate Comes(m: Ids, ps: seq<Pair>, k: nat, t: string)
    requires k <= |ps|
  {
    exists a :: a in m && Target(ps, k, a) == t
  }

  lemma MovedOne(m: Ids, ps: seq<Pair>, k: nat, r: Ids)
    requires k < |ps| && DistinctOlds(ps) && OldsIn(m, ps) && OneNamePerId(m)
    requires MovedTo(m, ps, k, r) && (ps[k].new_ == ps[k].old_ || ps[k].new_ !in r)
    ensures MovedTo(m, ps, k + 1, Move(r, ps[k]))
  {
    var o, n, r' := ps[k].old_, ps[k].new_, Move(r, ps[k]);
    TargetOfOld(ps, k, k);
    forall a | a in m ensures Target(ps, k + 1, a) in r' && r'[Target(ps, k + 1, a)] == m[a] {
      if a != o { assert r[Target(ps, k, a)] == m[a] && r[o] == m[o]; }
    }
    forall t | t in r' ensures Comes(m, ps, k + 1, t) {
      if t == n {
        assert Target(ps, k + 1, o) == n;
      } else {
        assert Comes(m, ps, k, t);
        var a :| a in m && Target(ps, k, a) == t;
        assert Target(ps, k + 1, a) == t;
      }
    }
  }

  lemma {:induction false} Moved(m: Ids, ps: seq<Pair>, k: nat)
    requires k <= |ps| && DistinctOlds(ps) && OldsIn(m, ps) && OneNamePerId(m) && AllFree(m, ps, k)
    ensures MovedTo(m, ps, k, MoveAll(m, ps, k))
  {
    if k > 0 {
      Moved(m, ps, k - 1);
      assert Free(m, ps, k - 1);
      MovedOne(m, ps, k - 1, MoveAll(m, ps, k - 1));
    }
  }

  // A rename never makes the map larger, and smaller exactly where it runs into a taken name.

  lemma MoveSize(m: Ids, p: Pair)
    ensures |Move(m, p)| <= |m|
    ensures |Move(m, p)| == |m| <==> p.old_ !in m || p.new_ == p.old_ || p.new_ !in m
  {
    if p.old_ in m {
      var r := m - {p.old_};
      assert m.Keys == r.Keys + {p.old_};
      if p.new_ !in r { assert Move(m, p).Keys == r.Keys + {p.new_}; }
    }
  }

  lemma {:induction false} MoveAllSize(m: Ids, ps: seq<Pair>, i: nat, k: nat)
    requires i <= k <= |ps|
    ensures |MoveAll(m, ps, k)| <= |MoveAll(m, ps, i)|
  {
    if i < k {
      MoveAllSize(m, ps, i, k - 1);
      MoveSize(MoveAll(m, ps, k - 1), ps[k - 1]);
    }
  }

  /** An id under a name that no rename takes away stays. */
  lemma {:induction false} MoveKeeps(ids: Ids, ps: seq<Pair>, i: nat, k: nat, d: string)
    requires i <= k <= |ps| && d in MoveAll(ids, ps, i) && forall j | 0 <= j < |ps| :: ps[j].old_ != d
    ensures d in MoveAll(ids, ps, k)
    decreases k
  {
    if i < k { MoveKeeps(ids, ps, i, k - 1, d); }
  }

  /** A move of a known name changes the map for good, if nothing moves its new name on. */
  lemma BusyMoveShows(m: Ids, ps: seq<Pair>, i: nat)
    requires i < |ps| && MoveAll(m, ps, i) == m && ps[i].old_ in m && ps[i].new_ != ps[i].old_
    requires ps[i].new_ !in m ==> forall j | 0 <= j < |ps| :: ps[j].old_ != ps[i].new_
    ensures MoveAll(m, ps, |ps|) != m
  {
    if ps[i].new_ in m {
      MoveSize(m, ps[i]);
      MoveAllSize(m, ps, i + 1, |ps|);
    } else {
      assert ps[i].new_ in MoveAll(m, ps, i + 1);
      MoveKeeps(m, ps, i + 1, |ps|, ps[i].new_);
    }
  }

  lemma TargetIn(m: Ids, ps: seq<Pair>, k: nat, i: nat)
    requires k <= i < |ps| && DistinctOlds(ps) && OldsIn(m, ps) && OneNamePerId(m) && AllFree(m, ps, k)
    ensures ps[i].old_ in MoveAll(m, ps, k)
  {
    Moved(m, ps, k);
    TargetOfOld(ps, k, i);
  }

  /** If nothing got lost, no rename ran into a taken name. */
  lemma {:induction false} KeptAllFree(m: Ids, ps: seq<Pair>, k: nat)
    requires k <= |ps| && DistinctOlds(ps) && OldsIn(m, ps) && OneNamePerId(m)
    requires |MoveAll(m, ps, |ps|)| == |m|
    ensures AllFree(m, ps, k)
  {
    if k > 0 {
      KeptAllFree(m, ps, k - 1);
      TargetIn(m, ps, k - 1, k - 1);
      MoveAllSize(m, ps, 0, k - 1);
      MoveAllSize(m, ps, k, |ps|);
      MoveSize(MoveAll(m, ps, k - 1), ps[k - 1]);
    }
  }

  // ------------------------------------------------------------------------------------
  // There and back
  // ------------------------------------------------------------------------------------

  /** What a caller can check: no new name twice, and none in use. */
  predicate Unchained(m: Ids, ps: seq<Pair>) {
    && DistinctNews(ps)
    && forall i | 0 <= i < |ps| :: ps[i].new_ == ps[i].old_ || ps[i].new_ !in m
  }

  function ThereAndBack(m: Ids, ps: seq<Pair>): (r: Ids) {
    MoveAll(MoveAll(m, ps, |ps|), Swap(ps), |ps|)
  }

  lemma {:induction false} UnchainedFree(m: Ids, ps: seq<Pair>, k: nat)
    requires k <= |ps| && DistinctOlds(ps) && OldsIn(m, ps) && OneNamePerId(m) && Unchained(m, ps)
    ensures AllFree(m, ps, k)
  {
    if k > 0 {
      UnchainedFree(m, ps, k - 1);
      UnchainedFreeAt(m, ps, k - 1);
    }
  }

  lemma UnchainedFreeAt(m: Ids, ps: seq<Pair>, i: nat)
    requires i < |ps| && DistinctOlds(ps) && OldsIn(m, ps) && OneNamePerId(m) && Unchained(m, ps) && AllFree(m, ps, i)
    ensures Free(m, ps, i)
  {
    Moved(m, ps, i);
    assert ps[i].new_ in MoveAll(m, ps, i) ==> Comes(m, ps, i, ps[i].new_);
    forall a | a in m && Target(ps, i, a) == ps[i].new_ ensures ps[i].new_ == ps[i].old_ {
      if j: nat :| j < i && ps[j].old_ == a {
        TargetOfOld(ps, i, j);
      } else {
        TargetOfOther(ps, i, a);
      }
    }
  }

  /** After unchained renames the swapped list is unchained too. */
  lemma SwapUnchained(m: Ids, ps: seq<Pair>)
    requires DistinctOlds(ps) && OldsIn(m, ps) && OneNamePerId(m) && Unchained(m, ps)
    ensures var r := MoveAll(m, ps, |ps|); OldsIn(r, Swap(ps)) && OneNamePerId(r) && Unchained(r, Swap(ps))
  {
    UnchainedFree(m, ps, |ps|);
    Moved(m, ps, |ps|);
    var r := MoveAll(m, ps, |ps|);
    MovedOneName(m, ps, r);
    forall i | 0 <= i < |ps|
      ensures ps[i].new_ in r
      ensures ps[i].old_ == ps[i].new_ || ps[i].old_ !in r
    {
      TargetOfOld(ps, |ps|, i);
      if ps[i].old_ in r {
        assert Comes(m, ps, |ps|, ps[i].old_);
        var a :| a in m && Target(ps, |ps|, a) == ps[i].old_;
        NotLeft(m, ps, i, a);
      }
    }
  }

  /** The old name of a real rename is not in use afterwards. */
  lemma NotLeft(m: Ids, ps: seq<Pair>, i: nat, a: string)
    requires i < |ps| && DistinctOlds(ps) && OldsIn(m, ps) && Unchained(m, ps)
    requires a in m && Target(ps, |ps|, a) == ps[i].old_
    ensures ps[i].new_ == ps[i].old_
  {
    if j: nat :| j < |ps| && ps[j].old_ == a {
      TargetOfOld(ps, |ps|, j);
    } else {
      TargetOfOther(ps, |ps|, a);
    }
  }

  /** The swapped list takes every name back. */
  lemma TargetBack(m: Ids, ps: seq<Pair>, a: string)
    requires DistinctOlds(ps) && OldsIn(m, ps) && Unchained(m, ps) && a in m
    ensures Target(Swap(ps), |ps|, Target(ps, |ps|, a)) == a
  {
    var qs := Swap(ps);
    if i: nat :| i < |ps| && ps[i].old_ == a {
      TargetOfOld(ps, |ps|, i);
      TargetOfOld(qs, |ps|, i);
    } else {
      TargetOfOther(ps, |ps|, a);
      TargetOfOther(qs, |ps|, a);
    }
  }

  lemma BackOne(m: Ids, ps: seq<Pair>, r: Ids, z: Ids, a: string)
    requires DistinctOlds(ps) && OldsIn(m, ps) && Unchained(m, ps) && a in m
    requires MovedTo(m, ps, |ps|, r) && MovedTo(r, Swap(ps), |Swap(ps)|, z)
    ensures a in z && z[a] == m[a]
  {
    TargetBack(m, ps, a);
    var b := Target(ps, |ps|, a);
    assert b in r && r[b] == m[a];
    assert Target(Swap(ps), |Swap(ps)|, b) == a;
  }

  lemma BackNothingElse(m: Ids, ps: seq<Pair>, r: Ids, z: Ids, t: string)
    requires DistinctOlds(ps) && OldsIn(m, ps) && Unchained(m, ps) && t in z
    requires MovedTo(m, ps, |ps|, r) && MovedTo(r, Swap(ps), |Swap(ps)|, z)
    ensures t in m
  {
    assert Comes(r, Swap(ps), |Swap(ps)|, t);
    var b :| b in r && Target(Swap(ps), |Swap(ps)|, b) == t;
    assert Comes(m, ps, |ps|, b);
    var a :| a in m && Target(ps, |ps|, a) == b;
    TargetBack(m, ps, a);
  }

  lemma MovedThereAndBack(m: Ids, ps: seq<Pair>)
    requires DistinctOlds(ps) && OldsIn(m, ps) && OneNamePerId(m) && Unchained(m, ps)
    ensures MovedTo(m, ps, |ps|, MoveAll(m, ps, |ps|))
    ensures MovedTo(MoveAll(m, ps, |ps|), Swap(ps), |Swap(ps)|, ThereAndBack(m, ps))
  {
    UnchainedFree(m, ps, |ps|);
    Moved(m, ps, |ps|);
    SwapUnchained(m, ps);
    UnchainedFree(MoveAll(m, ps, |ps|), Swap(ps), |ps|);
    Moved(MoveAll(m, ps, |ps|), Swap(ps), |ps|);
  }

  lemma UnchainedComesBack(m: Ids, ps: seq<Pair>)
    requires DistinctOlds(ps) && OldsIn(m, ps) && OneNamePerId(m) && Unchained(m, ps)
    ensures ThereAndBack(m, ps) == m
  {
    var r, z := MoveAll(m, ps, |ps|), ThereAndBack(m, ps);
    forall a | a in m ensures a in z && z[a] == m[a] {
      MovedThereAndBack(m, ps);
      BackOne(m, ps, r, z, a);
    }
    forall t | t in z ensures t in m {
      MovedThereAndBack(m, ps);
      BackNothingElse(m, ps, r, z, t);
    }
  }

  /** If every id came back, no new name was in use, and none was given twice. */
  lemma CameBackUnchained(m: Ids, ps: seq<Pair>)
    requires DistinctOlds(ps) && OldsIn(m, ps) && OneNamePerId(m) && ThereAndBack(m, ps) == m
    ensures Unchained(m, ps)
  {
    var r, qs, n := MoveAll(m, ps, |ps|), Swap(ps), |ps|;
    MoveAllSize(m, ps, 0, n);
    MoveAllSize(r, qs, 0, n);
    KeptAllFree(m, ps, n);
    Moved(m, ps, n);
    forall i, j | 0 <= i < j < n ensures ps[i].new_ != ps[j].new_ {
      TargetOfOld(ps, n, i);
      TargetOfOld(ps, n, j);
      assert m[ps[i].old_] != m[ps[j].old_];
    }
    forall i: nat | i < n && ps[i].new_ in m ensures ps[i].new_ == ps[i].old_ {
      TakenNewIsOld(m, ps, i);
    }
  }

  /** A new name in use was free when its turn came, so it is an earlier old name; going back runs into it. */
  lemma TakenNewIsOld(m: Ids, ps: seq<Pair>, i: nat)
    requires i < |ps| && DistinctOlds(ps) && DistinctNews(ps) && OldsIn(m, ps) && OneNamePerId(m)
    requires AllFree(m, ps, |ps|) && MovedTo(m, ps, |ps|, MoveAll(m, ps, |ps|)) && ps[i].new_ in m
    requires |MoveAll(MoveAll(m, ps, |ps|), Swap(ps), |ps|)| == |MoveAll(m, ps, |ps|)|
    ensures ps[i].new_ == ps[i].old_
  {
    var r, qs := MoveAll(m, ps, |ps|), Swap(ps);
    AllFreeAt(m, ps, |ps|, i);
    Moved(m, ps, i);
    if j: nat :| j < i && ps[j].old_ == ps[i].new_ {
      SwapReady(m, ps);
      KeptAllFree(r, qs, |ps|);
      AllFreeAt(r, qs, |ps|, j);
      TargetIn(r, qs, j, i);
    } else {
      TargetOfOther(ps, i, ps[i].new_);
    }
  }

  lemma MovedOneName(m: Ids, ps: seq<Pair>, r: Ids)
    requires OneNamePerId(m) && MovedTo(m, ps, |ps|, r)
    ensures OneNamePerId(r)
  {
    forall a, b | a in r && b in r && r[a] == r[b] ensures a == b {
      assert Comes(m, ps, |ps|, a) && Comes(m, ps, |ps|, b);
      var a' :| a' in m && Target(ps, |ps|, a') == a;
      var b' :| b' in m && Target(ps, |ps|, b') == b;
    }
  }

  lemma SwapReady(m: Ids, ps: seq<Pair>)
    requires DistinctOlds(ps) && DistinctNews(ps) && OldsIn(m, ps) && OneNamePerId(m)
    requires MovedTo(m, ps, |ps|, MoveAll(m, ps, |ps|))
    ensures DistinctOlds(Swap(ps)) && OldsIn(MoveAll(m, ps, |ps|), Swap(ps)) && OneNamePerId(MoveAll(m, ps, |ps|))
  {
    forall i | 0 <= i < |ps| ensures ps[i].new_ in MoveAll(m, ps, |ps|) { TargetOfOld(ps, |ps|, i); }
    MovedOneName(m, ps, MoveAll(m, ps, |ps|));
  }

  /** Swapping the pairs in place undoes a list of renames exactly if it is unchained. */
  lemma ThereAndBackExact(m: Ids, ps: seq<Pair>)
    requires DistinctOlds(ps) && OldsIn(m, ps) && OneNamePerId(m)
    ensures ThereAndBack(m, ps) == m <==> Unchained(m, ps)
  {
    if Unchained(m, ps) { UnchainedComesBack(m, ps); }
    if ThereAndBack(m, ps) == m { CameBackUnchained(m, ps); }
  }
}
