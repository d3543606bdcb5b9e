/**
 * What read_ts_ and the ring bitmap mean: the publication frontier.
 */
module Frontier {
  import opened VersionManager
  import opened Exclusion

  predicate HoldsTs(p: Pc, t: nat) { (p.Inserting? || p.Updating?) && p.ts == t }

  ghost predicate Held(s: State, t: nat) {
    exists i :: 0 <= i < |s.pcs| && HoldsTs(s.pcs[i], t)
  }

  /** The timestamp was handed out (or recovered) and its holder has released it. */
  ghost predicate Finished(s: State, t: nat) { t < s.write && !Held(s, t) }

  /**
   * read_ts_ is the largest t with everything up to t finished, and the ring bits stand
   * for exactly the timestamps finished ahead of it.
   */
  ghost predicate AtFrontier(c: Config, s: State)
    requires WellShaped(c, s)
  {
    && (forall t: nat | t <= s.read :: Finished(s, t))
    && !Finished(s, s.read + 1)
    && (forall k | 0 <= k < c.ring ::
          s.bits[k] <==> exists t: nat :: s.read + 1 < t && Finished(s, t) && t % c.ring == k)
  }

  /** The hypothesis on the ring: no more than ring + 2 timestamps between the clocks. */
  predicate InWindow(c: Config, s: State) { s.write - s.read <= c.ring + 2 }

  ghost predicate FrontierInv(c: Config, s: State) {
    && Counted(c, s)
    && AtFrontier(c, s)
    && (forall i, t: nat | 0 <= i < c.sessions && HoldsTs(s.pcs[i], t) :: t < s.write)
    && (forall i, j, t: nat | 0 <= i < c.sessions && 0 <= j < c.sessions
          && HoldsTs(s.pcs[i], t) && HoldsTs(s.pcs[j], t) :: i == j)
    && (forall i | 0 <= i < c.sessions :: s.pcs[i].Reading? ==> s.pcs[i].ts <= s.read)
  }

  // ------------------------------------------------------------------------------------
  // The ring
  // ------------------------------------------------------------------------------------

  lemma SameSlot(ring: nat, a: nat, b: nat)
    requires 0 < ring && a <= b < a + ring && a % ring == b % ring
    ensures a == b
  {
    var qa, qb := a / ring, b / ring;
    assert a == ring * qa + a % ring && b == ring * qb + b % ring;
    if qa < qb { Multiples(ring, qa, qb); } else { Multiples(ring, qb, qa); }
  }

  lemma Multiples(ring: nat, p: nat, q: nat)
    requires p <= q
    ensures p < q ==> ring * p + ring <= ring * q
  {
    if p < q {
      assert ring * q == ring * (p + 1) + ring * (q - p - 1);
      assert ring * (q - p - 1) >= 0;
    }
  }

  /** The bits stand for the members of `done` above `lo`. */
  ghost predicate Marks(ring: nat, bits: seq<bool>, lo: nat, done: set<nat>) {
    && 0 < ring == |bits|
    && forall k | 0 <= k < ring :: bits[k] <==> exists t :: t in done && lo < t && t % ring == k
  }

  /** One round of the loop: a set bit can only stand for the next timestamp. */
  lemma SwallowOne(ring: nat, bits: seq<bool>, ts: nat, hi: nat, done: set<nat>)
    requires Marks(ring, bits, ts, done) && (forall t :: t in done ==> t < hi)
    requires hi - ts <= ring + 1 && bits[(ts + 1) % ring]
    ensures ts + 1 in done && Marks(ring, bits[(ts + 1) % ring := false], ts + 1, done)
  {
    var k := (ts + 1) % ring;
    forall t | t in done && ts < t && t % ring == k ensures t == ts + 1 {
      SameSlot(ring, ts + 1, t);
    }
    var bits' := bits[k := false];
    forall j | 0 <= j < ring
      ensures bits'[j] <==> exists t :: t in done && ts + 1 < t && t % ring == j
    {
      if j != k && bits[j] {
        var t :| t in done && ts < t && t % ring == j;
        assert ts + 1 < t;
      }
    }
  }

  lemma {:induction false} AdvanceReaches(ring: nat, bits: seq<bool>, ts: nat, hi: nat, done: set<nat>)
    requires Marks(ring, bits, ts, done) && (forall t :: t in done ==> t < hi)
    requires hi - ts <= ring + 1
    ensures var (ts', bits') := Advance(ring, bits, ts);
      && (forall t: nat | ts < t <= ts' :: t in done)
      && ts' + 1 !in done
      && Marks(ring, bits', ts', done)
    decreases multiset(bits)[true]
  {
    var k := (ts + 1) % ring;
    if bits[k] {
      SwallowOne(ring, bits, ts, hi, done);
      AdvanceReaches(ring, bits[k := false], ts + 1, hi, done);
    }
  }

  // ------------------------------------------------------------------------------------
  // Every step keeps the frontier
  // ------------------------------------------------------------------------------------

  ghost function FinishedSet(s: State): (done: set<nat>)
    ensures forall t: nat :: t in done <==> Finished(s, t)
  {
    set t: nat | t < s.write && !Held(s, t)
  }

  /** A step that neither takes nor releases a write timestamp leaves Finished as it was. */
  lemma SameHolders(s: State, s': State, i: nat)
    requires i < |s.pcs| == |s'.pcs| && s'.write == s.write && s'.pcs == s.pcs[i := s'.pcs[i]]
    requires forall t: nat :: HoldsTs(s.pcs[i], t) <==> HoldsTs(s'.pcs[i], t)
    ensures forall t: nat :: Finished(s, t) <==> Finished(s', t)
  {
    forall t: nat ensures Held(s, t) <==> Held(s', t) {
      if Held(s, t) {
        var j :| 0 <= j < |s.pcs| && HoldsTs(s.pcs[j], t);
        assert HoldsTs(s'.pcs[j], t);
      }
      if Held(s', t) {
        var j :| 0 <= j < |s'.pcs| && HoldsTs(s'.pcs[j], t);
        assert HoldsTs(s.pcs[j], t);
      }
    }
  }

  lemma TakeHolders(s: State, s': State, i: nat)
    requires i < |s.pcs| && s'.write == s.write + 1
    requires |s'.pcs| == |s.pcs| && s'.pcs == s.pcs[i := s'.pcs[i]]
    requires forall t: nat :: !HoldsTs(s.pcs[i], t)
    requires forall t: nat :: HoldsTs(s'.pcs[i], t) <==> t == s.write
    ensures forall t: nat :: Finished(s, t) <==> Finished(s', t)
  {
    forall t: nat | t < s.write ensures Held(s, t) <==> Held(s', t) {
      if Held(s, t) {
        var j :| 0 <= j < |s.pcs| && HoldsTs(s.pcs[j], t);
        assert HoldsTs(s'.pcs[j], t);
      }
      if Held(s', t) {
        var j :| 0 <= j < |s'.pcs| && HoldsTs(s'.pcs[j], t);
        assert HoldsTs(s.pcs[j], t);
      }
    }
    assert HoldsTs(s'.pcs[i], s.write);
  }

  /** The holder of `ts` lets go of it: `ts` and nothing else becomes finished. */
  lemma ReleaseHolders(c: Config, s: State, s': State, i: nat)
    requires FrontierInv(c, s) && i < c.sessions && (s.pcs[i].Inserting? || s.pcs[i].Updating?)
    requires s'.write == s.write && |s'.pcs| == |s.pcs| && s'.pcs == s.pcs[i := s'.pcs[i]]
    requires forall t: nat :: !HoldsTs(s'.pcs[i], t)
    ensures forall t: nat :: Finished(s', t) <==> Finished(s, t) || t == s.pcs[i].ts
  {
    var ts := s.pcs[i].ts;
    assert HoldsTs(s.pcs[i], ts);
    forall t: nat ensures Held(s', t) <==> Held(s, t) && t != ts {
      if Held(s, t) {
        var j :| 0 <= j < |s.pcs| && HoldsTs(s.pcs[j], t);
        if t != ts { assert HoldsTs(s'.pcs[j], t); }
      }
      if Held(s', t) {
        var j :| 0 <= j < |s'.pcs| && HoldsTs(s'.pcs[j], t);
        assert HoldsTs(s.pcs[j], t);
      }
    }
  }

  /** An updater that is alone finds every earlier timestamp published. */
  lemma AloneAtFrontier(c: Config, s: State, u: nat)
    requires FrontierInv(c, s) && u < c.sessions && (s.pcs[u].Drained? || s.pcs[u].Updating?)
    ensures s.pcs[u].Drained? ==> s.write == s.read + 1
    ensures s.pcs[u].Updating? ==> s.write == s.read + 2 && s.pcs[u].ts == s.read + 1
    ensures forall k | 0 <= k < c.ring :: !s.bits[k]
  {
    assert IsAlone(s.pcs[u]) && IsUpdater(s.pcs[u]);
    forall t: nat | Held(s, t) ensures s.pcs[u].Updating? && t == s.pcs[u].ts {
      var j :| 0 <= j < |s.pcs| && HoldsTs(s.pcs[j], t);
      assert !IsGranted(s.pcs[j]);
      assert IsUpdater(s.pcs[j]);
    }
    if s.pcs[u].Updating? {
      assert HoldsTs(s.pcs[u], s.pcs[u].ts);
      assert Held(s, s.pcs[u].ts);
      assert !Finished(s, s.pcs[u].ts);
    }
    assert Finished(s, s.read);
    assert s.read + 1 < s.write ==> Held(s, s.read + 1);
    forall t: nat | Finished(s, t) ensures t <= s.read + 1 { }
  }

  lemma PublishInsert(c: Config, s: State, i: nat)
    requires FrontierInv(c, s) && InWindow(c, s)
    requires i < c.sessions && s.pcs[i].Inserting?
    ensures AtFrontier(c, Exec(c, s, i, Publish))
    ensures s.read <= Exec(c, s, i, Publish).read
  {
    var s' := Exec(c, s, i, Publish);
    var ts := s.pcs[i].ts;
    assert HoldsTs(s.pcs[i], ts);
    ReleaseHolders(c, s, s', i);
    assert Held(s, ts);
    assert !Finished(s, ts);
    if ts == s.read + 1 {
      var done := FinishedSet(s');
      forall k | 0 <= k < c.ring
        ensures s.bits[k] <==> exists t :: t in done && ts < t && t % c.ring == k
      {
        if s.bits[k] {
          var t: nat :| s.read + 1 < t && Finished(s, t) && t % c.ring == k;
          assert t in done;
        }
        if t :| t in done && ts < t && t % c.ring == k {
          assert Finished(s, t);
        }
      }
      AdvanceReaches(c.ring, s.bits, ts, s.write, done);
      forall t: nat | t <= s'.read ensures Finished(s', t) {
        if t <= s.read { assert Finished(s, t); }
      }
      assert !Finished(s', s'.read + 1);
      forall k | 0 <= k < c.ring
        ensures s'.bits[k] <==> exists t: nat :: s'.read + 1 < t && Finished(s', t) && t % c.ring == k
      {
        if s'.bits[k] {
          var t :| t in done && s'.read < t && t % c.ring == k;
          assert Finished(s', t);
        }
      }
    } else {
      forall t: nat | t <= s'.read ensures Finished(s', t) { assert Finished(s, t); }
      forall k | 0 <= k < c.ring
        ensures s'.bits[k] <==> exists t: nat :: s'.read + 1 < t && Finished(s', t) && t % c.ring == k
      {
        if s.bits[k] {
          var t: nat :| s.read + 1 < t && Finished(s, t) && t % c.ring == k;
          assert Finished(s', t);
        }
        if t: nat :| s'.read + 1 < t && Finished(s', t) && t % c.ring == k {
          assert t == ts || Finished(s, t);
        }
        if k == ts % c.ring {
          assert Finished(s', ts);
          assert s.read + 1 < ts by { assert Finished(s, ts) || s.read < ts; }
        }
      }
    }
  }

  lemma PublishUpdate(c: Config, s: State, i: nat)
    requires FrontierInv(c, s) && i < c.sessions && s.pcs[i].Updating?
    ensures AtFrontier(c, Exec(c, s, i, Publish))
    ensures Exec(c, s, i, Publish).read == s.pcs[i].ts == s.read + 1
  {
    var s' := Exec(c, s, i, Publish);
    AloneAtFrontier(c, s, i);
    ReleaseHolders(c, s, s', i);
    forall t: nat | t <= s'.read ensures Finished(s', t) {
      if t <= s.read { assert Finished(s, t); }
    }
  }

  lemma RevertStep(c: Config, s: State, i: nat)
    requires FrontierInv(c, s) && i < c.sessions && s.pcs[i].Updating?
    ensures var s' := Exec(c, s, i, Revert);
      && s' == s.(pcs := s.pcs[i := Leaving], write := s.pcs[i].ts)
      && s.pcs[i].ts == s.read + 1
      && AtFrontier(c, s')
  {
    var s' := Exec(c, s, i, Revert);
    AloneAtFrontier(c, s, i);
    var mid := s.(pcs := s.pcs[i := Leaving]);
    ReleaseHolders(c, s, mid, i);
    forall t: nat ensures Finished(s', t) <==> Finished(s, t) {
      assert Finished(mid, t) <==> Finished(s, t) || t == s.pcs[i].ts;
      assert Held(s', t) <==> Held(mid, t);
      assert HoldsTs(s.pcs[i], s.pcs[i].ts);
      assert Held(s, s.pcs[i].ts);
    }
  }

  lemma FrontierStep(c: Config, s: State, i: nat, a: Act)
    requires FrontierInv(c, s) && Enabled(c, s, i, a)
    requires c.sessions <= c.threads + 1 && InWindow(c, s)
    ensures AtFrontier(c, Exec(c, s, i, a))
    ensures s.read <= Exec(c, s, i, a).read
  {
    var s' := Exec(c, s, i, a);
    if a.Publish? {
      if s.pcs[i].Inserting? { PublishInsert(c, s, i); } else { PublishUpdate(c, s, i); }
    } else if a.Revert? {
      RevertStep(c, s, i);
    } else if a.Take? && s.pcs[i] != Granted(false) {
      TakeHolders(s, s', i);
      SameFinished(c, s, s');
    } else {
      SameHolders(s, s', i);
      SameFinished(c, s, s');
    }
  }

  lemma SameFinished(c: Config, s: State, s': State)
    requires WellShaped(c, s) && WellShaped(c, s') && AtFrontier(c, s)
    requires s'.read == s.read && s'.bits == s.bits
    requires forall t: nat :: Finished(s, t) <==> Finished(s', t)
    ensures AtFrontier(c, s')
  {
    forall k | 0 <= k < c.ring
      ensures s'.bits[k] <==> exists t: nat :: s'.read + 1 < t && Finished(s', t) && t % c.ring == k
    {
      if s.bits[k] {
        var t: nat :| s.read + 1 < t && Finished(s, t) && t % c.ring == k;
        assert Finished(s', t);
      }
      if t: nat :| s'.read + 1 < t && Finished(s', t) && t % c.ring == k {
        assert Finished(s, t);
      }
    }
  }

  lemma HoldersStep(c: Config, s: State, i: nat, a: Act)
    requires FrontierInv(c, s) && Enabled(c, s, i, a)
    ensures var s' := Exec(c, s, i, a);
      && (forall j, t: nat | 0 <= j < c.sessions && HoldsTs(s'.pcs[j], t) :: t < s'.write)
      && (forall j, k, t: nat | 0 <= j < c.sessions && 0 <= k < c.sessions
            && HoldsTs(s'.pcs[j], t) && HoldsTs(s'.pcs[k], t) :: j == k)
  {
    var s' := Exec(c, s, i, a);
    forall j, t: nat | 0 <= j < c.sessions && HoldsTs(s'.pcs[j], t)
      ensures t < s'.write
      ensures j != i ==> HoldsTs(s.pcs[j], t)
    {
      if j != i {
        assert HoldsTs(s.pcs[j], t);
      }
    }
    if a.Take? {
      forall j, t: nat | 0 <= j < c.sessions && j != i && HoldsTs(s'.pcs[j], t)
        ensures !HoldsTs(s'.pcs[i], t)
      {
        assert HoldsTs(s.pcs[j], t);
      }
    }
  }

  lemma FrontierInvStep(c: Config, s: State, i: nat, a: Act)
    requires FrontierInv(c, s) && Enabled(c, s, i, a)
    requires c.sessions <= c.threads + 1 && InWindow(c, s)
    ensures FrontierInv(c, Exec(c, s, i, a))
  {
    CountedStep(c, s, i, a);
    FrontierStep(c, s, i, a);
    HoldersStep(c, s, i, a);
  }

  // ------------------------------------------------------------------------------------
  // Whole runs
  // ------------------------------------------------------------------------------------

  /** The clocks of `s` are at most `w` apart. */
  predicate Within(w: nat, s: State) { s.write - s.read <= w }

  ghost predicate IsRunWithin(c: Config, w: nat, run: seq<State>) {
    IsRun(c, run) && forall k | 0 <= k < |run| :: Within(w, run[k])
  }

  ghost predicate ReachableWithin(c: Config, w: nat, s: State) {
    exists run :: IsRunWithin(c, w, run) && run[|run| - 1] == s
  }

  lemma FrontierInit(c: Config, s: State)
    requires Init(c, s)
    ensures FrontierInv(c, s)
  {
    CountedInit(c, s);
    forall t: nat ensures !Held(s, t) { }
  }

  lemma {:induction false} RunFrontier(c: Config, w: nat, run: seq<State>)
    requires IsRunWithin(c, w, run) && w <= c.ring + 2 && c.sessions <= c.threads + 1
    ensures FrontierInv(c, run[|run| - 1])
  {
    if |run| == 1 {
      FrontierInit(c, run[0]);
    } else {
      PathInit(c, run);
      RunFrontier(c, w, run[..|run| - 1]);
      var i: nat, a: Act :| Enabled(c, run[|run| - 2], i, a) && run[|run| - 1] == Exec(c, run[|run| - 2], i, a);
      assert Within(w, run[|run| - 2]);
      FrontierInvStep(c, run[|run| - 2], i, a);
    }
  }

  /**
   * An updater's timestamp is always the one after read_ts_ and the last one handed out, and
   * the ring is empty: the error branch of release_update_timestamp is never taken, and
   * revert_update_timestamp by its holder returns true.
   */
  lemma UpdaterIsNext(c: Config, w: nat, s: State, u: nat)
    requires ReachableWithin(c, w, s) && w <= c.ring + 2 && c.sessions <= c.threads + 1
    requires WellShaped(c, s) && u < c.sessions && s.pcs[u].Updating?
    ensures s.pcs[u].ts == s.read + 1 && s.write == s.pcs[u].ts + 1
    ensures UpdateSection(c.ring, s.read, s.bits, s.pcs[u].ts) == (s.pcs[u].ts, s.bits)
    ensures Exec(c, s, u, Revert).pcs[u] == Leaving
    ensures forall k | 0 <= k < c.ring :: !s.bits[k]
  {
    var run :| IsRunWithin(c, w, run) && run[|run| - 1] == s;
    RunFrontier(c, w, run);
    AloneAtFrontier(c, s, u);
  }

  /** While an updater holds its timestamp, nobody else moves the clocks or the ring. */
  lemma OthersStandStill(c: Config, s: State, u: nat, i: nat, a: Act)
    requires FrontierInv(c, s) && Enabled(c, s, i, a)
    requires u < c.sessions && s.pcs[u].Updating? && i != u
    ensures var s' := Exec(c, s, i, a);
      s'.write == s.write && s'.read == s.read && s'.bits == s.bits
  {
    assert IsAlone(s.pcs[u]) && IsUpdater(s.pcs[u]);
    assert !IsGranted(s.pcs[i]) && !IsUpdater(s.pcs[i]);
  }

  ghost predicate HoldsThroughout(c: Config, path: seq<State>, u: nat) {
    IsPath(c, path) && forall k | 0 <= k < |path| ::
      WellShaped(c, path[k]) && u < c.sessions && path[k].pcs[u].Updating?
  }

  lemma FrozenStep(c: Config, s: State, u: nat, i: nat, a: Act)
    requires FrontierInv(c, s) && Enabled(c, s, i, a) && c.sessions <= c.threads + 1
    requires u < c.sessions && s.pcs[u].Updating? && Exec(c, s, i, a).pcs[u].Updating?
    ensures var s' := Exec(c, s, i, a);
      && FrontierInv(c, s')
      && s'.write == s.write && s'.read == s.read && s'.bits == s.bits && s'.pcs[u] == s.pcs[u]
  {
    AloneAtFrontier(c, s, u);
    if i != u { OthersStandStill(c, s, u, i, a); }
    FrontierInvStep(c, s, i, a);
  }

  lemma {:induction false} ClocksFrozen(c: Config, path: seq<State>, u: nat)
    requires HoldsThroughout(c, path, u) && FrontierInv(c, path[0])
    requires c.sessions <= c.threads + 1
    ensures var t := path[|path| - 1];
      && FrontierInv(c, t)
      && t.write == path[0].write && t.read == path[0].read && t.bits == path[0].bits
      && t.pcs[u] == path[0].pcs[u]
  {
    if |path| > 1 {
      PathInit(c, path);
      var before := path[..|path| - 1];
      assert forall k | 0 <= k < |before| :: before[k] == path[k];
      ClocksFrozen(c, before, u);
      var s := path[|path| - 2];
      var i: nat, a: Act :| Enabled(c, s, i, a) && path[|path| - 1] == Exec(c, s, i, a);
      FrozenStep(c, s, u, i, a);
    }
  }

  /**
   * Whatever the other sessions do while an updater holds its timestamp, reverting it puts
   * write_ts_, read_ts_ and the ring back to what they were before the timestamp was taken.
   */
  lemma RevertUndoesAcquire(c: Config, s: State, u: nat, path: seq<State>)
    requires FrontierInv(c, s) && c.sessions <= c.threads + 1
    requires u < c.sessions && s.pcs[u].Drained?
    requires HoldsThroughout(c, path, u) && path[0] == Exec(c, s, u, Take)
    ensures var t := Exec(c, path[|path| - 1], u, Revert);
      && t.write == s.write && t.read == s.read && t.bits == s.bits
      && t.pcs[u] == Leaving
      && Exec(c, t, u, GiveBack).pcs[u] == Returned
  {
    AloneAtFrontier(c, s, u);
    FrontierInvStep(c, s, u, Take);
    ClocksFrozen(c, path, u);
  }

  /** With no transaction open, every counter, bit and clock is back where it belongs. */
  lemma QuiescentManager(c: Config, w: nat, s: State)
    requires ReachableWithin(c, w, s) && w <= c.ring + 2 && c.sessions <= c.threads + 1
    requires WellShaped(c, s) && forall i | 0 <= i < c.sessions :: s.pcs[i].Idle?
    ensures s.pending == 0 && !s.claimed && s.write == s.read + 1
    ensures forall k | 0 <= k < c.ring :: !s.bits[k]
  {
    var run :| IsRunWithin(c, w, run) && run[|run| - 1] == s;
    RunFrontier(c, w, run);
    TotalIdle(c.threads, s.pcs);
    forall t: nat ensures !Held(s, t) { }
    assert Finished(s, s.read) && !Finished(s, s.read + 1);
    forall t: nat | Finished(s, t) ensures t <= s.read { }
  }

  // ------------------------------------------------------------------------------------
  // The ring bound is exact
  // ------------------------------------------------------------------------------------

  lemma ReachStepWithin(c: Config, w: nat, s: State, i: nat, a: Act)
    requires WellShaped(c, s) && ReachableWithin(c, w, s) && Enabled(c, s, i, a)
    requires Within(w, Exec(c, s, i, a))
    ensures ReachableWithin(c, w, Exec(c, s, i, a))
  {
    var run :| IsRunWithin(c, w, run) && run[|run| - 1] == s;
    var r := run + [Exec(c, s, i, a)];
    forall k | 0 <= k < |r| - 1 ensures Next(c, r[k], r[k + 1]) {
      if k < |run| - 1 { assert Next(c, run[k], run[k + 1]); }
    }
    forall k | 0 <= k < |r| ensures Within(w, r[k]) {
      if k < |run| { assert Within(w, run[k]); }
    }
    assert IsRunWithin(c, w, r) && r[|r| - 1] == Exec(c, s, i, a);
  }

  /** The ring after timestamps 2 .. k + 1 were released behind an open timestamp 1. */
  function Behind(ring: nat, k: nat): (bits: seq<bool>)
    requires 0 < ring
    ensures |bits| == ring
  {
    if k == 0 then seq(ring, _ => false) else Behind(ring, k - 1)[(k + 1) % ring := true]
  }

  /** Session 0 sits on timestamp 1 while session 1 has run `k` whole inserts. */
  function Lag(c: Config, k: nat): (s: State)
    requires 0 < c.ring && 2 <= c.sessions
    ensures WellShaped(c, s)
  {
    State(k + 2, 0, 1, false, Behind(c.ring, k), seq(c.sessions, i => if i == 0 then Inserting(1) else Idle))
  }

  lemma LagStart(c: Config, w: nat)
    requires 0 < c.ring && 2 <= c.sessions && 2 <= w
    ensures ReachableWithin(c, w, Lag(c, 0))
  {
    var s := Start(c, 0);
    assert IsRunWithin(c, w, [s]) && [s][0] == s;
    ReachStepWithin(c, w, s, 0, FetchAdd(true));
    var s1 := Exec(c, s, 0, FetchAdd(true));
    ReachStepWithin(c, w, s1, 0, Take);
    assert Exec(c, s1, 0, Take).pcs == Lag(c, 0).pcs;
  }

  /** Session 1 runs one whole insert while timestamp 1 is open. */
  lemma LagTurn(c: Config, s: State, w: nat)
    requires WellShaped(c, s) && 2 <= c.sessions && ReachableWithin(c, w, s)
    requires s.pcs[1] == Idle && s.pending >= 0 && s.read == 0 && 2 <= s.write < w
    ensures ReachableWithin(c, w, s.(write := s.write + 1, bits := s.bits[s.write % c.ring := true]))
  {
    ReachStepWithin(c, w, s, 1, FetchAdd(true));
    var s1 := Exec(c, s, 1, FetchAdd(true));
    ReachStepWithin(c, w, s1, 1, Take);
    LagRelease(c, s1.(pcs := s1.pcs[1 := Inserting(s.write)], write := s.write + 1), w);
    assert s.pcs[1 := Granted(true)][1 := Inserting(s.write)][1 := Published][1 := Idle] == s.pcs;
  }

  lemma LagRelease(c: Config, s: State, w: nat)
    requires WellShaped(c, s) && 2 <= c.sessions && ReachableWithin(c, w, s)
    requires s.pcs[1].Inserting? && s.pcs[1].ts != 1 && s.read == 0
    ensures ReachableWithin(c, w,
      s.(bits := s.bits[s.pcs[1].ts % c.ring := true], pending := s.pending - 1,
        pcs := s.pcs[1 := Published][1 := Idle]))
  {
    var run :| IsRunWithin(c, w, run) && run[|run| - 1] == s;
    assert Within(w, run[|run| - 1]);
    ReachStepWithin(c, w, s, 1, Publish);
    var s1 := Exec(c, s, 1, Publish);
    ReachStepWithin(c, w, s1, 1, Leave);
  }

  lemma {:induction false} LagReachable(c: Config, k: nat, w: nat)
    requires 0 < c.ring && 2 <= c.sessions && k + 2 <= w
    ensures ReachableWithin(c, w, Lag(c, k))
  {
    if k == 0 {
      LagStart(c, w);
    } else {
      LagReachable(c, k - 1, w);
      LagTurn(c, Lag(c, k - 1), w);
    }
  }

  /** The timestamps 2 .. k + 1. */
  function Block(k: nat): (b: set<nat>)
    ensures forall t: nat :: t in b <==> 2 <= t <= k + 1
  {
    if k == 0 then {} else Block(k - 1) + {k + 1}
  }

  lemma {:induction false} BehindMarks(ring: nat, k: nat)
    requires 0 < ring
    ensures Marks(ring, Behind(ring, k), 1, Block(k))
  {
    if k > 0 {
      BehindMarks(ring, k - 1);
      forall j | 0 <= j < ring
        ensures Behind(ring, k)[j] <==> exists t :: t in Block(k) && 1 < t && t % ring == j
      {
        if Behind(ring, k - 1)[j] {
          var t :| t in Block(k - 1) && 1 < t && t % ring == j;
          assert t in Block(k);
        }
        if t :| t in Block(k) && 1 < t && t % ring == j {
          assert t == k + 1 || t in Block(k - 1);
        }
        assert k + 1 in Block(k);
      }
    }
  }

  /** Timestamps 2 and ring + 2 share a bit, so ring + 1 of them look like ring. */
  lemma OverrunMarks(ring: nat)
    requires 0 < ring
    ensures Marks(ring, Behind(ring, ring + 1), 1, Block(ring))
  {
    var k := ring + 1;
    BehindMarks(ring, k);
    Wrap(ring);
    forall j | 0 <= j < ring
      ensures Behind(ring, k)[j] <==> exists t :: t in Block(ring) && 1 < t && t % ring == j
    {
      if Behind(ring, k)[j] {
        var t :| t in Block(k) && 1 < t && t % ring == j;
        if t == k + 1 { assert 2 in Block(ring) && 2 % ring == j; } else { assert t in Block(ring); }
      }
      if t :| t in Block(ring) && 1 < t && t % ring == j { assert t in Block(k); }
    }
  }

  lemma OverrunStopsShort(ring: nat)
    requires 0 < ring
    ensures Advance(ring, Behind(ring, ring + 1), 1).0 == ring + 1
  {
    OverrunMarks(ring);
    AdvanceReaches(ring, Behind(ring, ring + 1), 1, ring + 2, Block(ring));
    var reached := Advance(ring, Behind(ring, ring + 1), 1).0;
    assert reached + 1 !in Block(ring);
    assert reached > ring + 1 ==> ring + 2 in Block(ring);
  }

  lemma PublishLast(c: Config, s: State)
    requires WellShaped(c, s) && 0 < c.sessions && s.read == 0 && s.write == c.ring + 3
    requires s.pcs[0] == Inserting(1) && forall i | 1 <= i < c.sessions :: s.pcs[i] == Idle
    requires Advance(c.ring, s.bits, 1).0 == c.ring + 1
    ensures var s' := Exec(c, s, 0, Publish);
      s'.read == c.ring + 1 && s'.write == c.ring + 3 && Finished(s', s'.read + 1)
  {
    var s' := Exec(c, s, 0, Publish);
    forall t: nat ensures !Held(s', t) { }
  }

  /** One timestamp more, and two of them share a bit: the frontier stops short. */
  lemma OverrunLosesTimestamp(c: Config) returns (s: State)
    requires 0 < c.ring && 2 <= c.sessions
    ensures ReachableWithin(c, c.ring + 3, s) && WellShaped(c, s)
    ensures s.read == c.ring + 1 && Finished(s, s.read + 1)
  {
    LagReachable(c, c.ring + 1, c.ring + 3);
    var lag := Lag(c, c.ring + 1);
    OverrunStopsShort(c.ring);
    PublishLast(c, lag);
    ReachStepWithin(c, c.ring + 3, lag, 0, Publish);
    s := Exec(c, lag, 0, Publish);
  }

  lemma Wrap(ring: nat)
    requires 0 < ring
    ensures (ring + 2) % ring == 2 % ring
  {
    var q := 2 / ring;
    assert ring + 2 == ring * (q + 1) + 2 % ring;
    RemainderUnique(ring, ring + 2, q + 1, 2 % ring);
  }

  lemma RemainderUnique(ring: nat, n: nat, q: nat, r: nat)
    requires 0 < ring && n == ring * q + r && r < ring
    ensures n % ring == r
  {
    var q', r' := n / ring, n % ring;
    assert n == ring * q' + r';
    if q < q' { Multiples(ring, q, q'); } else { Multiples(ring, q', q); }
  }

  /**
   * read_ts_ is the exact publication frontier, and the ring bitmap refines the unbounded
   * set of finished timestamps, in every run whose clocks stay at most `w` apart, exactly
   * when `w` is no larger than ring + 2.
   */
  lemma WindowExact(c: Config, w: nat)
    requires 0 < c.ring && 2 <= c.sessions <= c.threads + 1
    ensures (forall s :: ReachableWithin(c, w, s) ==> WellShaped(c, s) && AtFrontier(c, s))
            <==> w <= c.ring + 2
  {
    if w <= c.ring + 2 {
      forall s | ReachableWithin(c, w, s) ensures WellShaped(c, s) && AtFrontier(c, s) {
        var run :| IsRunWithin(c, w, run) && run[|run| - 1] == s;
        RunFrontier(c, w, run);
      }
    } else {
      var s := OverrunLosesTimestamp(c);
      var run :| IsRunWithin(c, c.ring + 3, run) && run[|run| - 1] == s;
      assert forall k | 0 <= k < |run| :: Within(c.ring + 3, run[k]) ==> Within(w, run[k]);
      assert IsRunWithin(c, w, run);
      assert !AtFrontier(c, s);
    }
  }
}
