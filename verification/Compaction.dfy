/**
 * CompactTransaction::Commit releases its timestamp and then clears the manager, as two
 * calls: what may happen between them.
 */
module Compaction {
  import opened Wrappers
  import opened VersionManager
  import opened Exclusion
  import opened Frontier

  /** `clearing` is the session that committed a compaction and has clear() ahead of it. */
  datatype CState = CState(vm: State, clearing: Option<nat>)

  datatype CAct =
    | Plain(i: nat, a: Act)   // a step of the protocol
    | Commit(i: nat)          // the last store of release_update_timestamp in a compaction
    | Clear                   // clear(), all four stores at once

  function Cleared(s: State): (s': State) {
    s.(write := 1, read := 0, pending := 0, bits := seq(|s.bits|, _ => false))
  }

  predicate CEnabled(c: Config, s: CState, x: CAct)
    requires WellShaped(c, s.vm)
  {
    match x
    case Plain(i, a) => s.clearing != Some(i) && Enabled(c, s.vm, i, a)
    case Commit(i) => s.clearing == None && Enabled(c, s.vm, i, Unclaim)
    case Clear => s.clearing.Some?
  }

  function CExec(c: Config, s: CState, x: CAct): (s': CState)
    requires WellShaped(c, s.vm) && CEnabled(c, s, x)
    ensures WellShaped(c, s'.vm)
  {
    match x
    case Plain(i, a) => s.(vm := Exec(c, s.vm, i, a))
    case Commit(i) => CState(Exec(c, s.vm, i, Unclaim), Some(i))
    case Clear => CState(Cleared(s.vm), None)
  }

  ghost predicate CNext(c: Config, s: CState, s': CState) {
    WellShaped(c, s.vm) && exists x: CAct :: CEnabled(c, s, x) && s' == CExec(c, s, x)
  }

  ghost predicate CRun(c: Config, run: seq<CState>) {
    && 0 < |run| && Init(c, run[0].vm) && run[0].clearing == None
    && forall k :: 0 <= k < |run| - 1 ==> CNext(c, run[k], run[k + 1])
  }

  ghost predicate CReachable(c: Config, s: CState) {
    exists run :: CRun(c, run) && run[|run| - 1] == s
  }

  lemma CStep(c: Config, s: CState, x: CAct) returns (s': CState)
    requires WellShaped(c, s.vm) && CReachable(c, s) && CEnabled(c, s, x)
    ensures s' == CExec(c, s, x) && CReachable(c, s')
  {
    s' := CExec(c, s, x);
    var run :| CRun(c, run) && run[|run| - 1] == s;
    var r := run + [s'];
    forall k | 0 <= k < |r| - 1 ensures CNext(c, r[k], r[k + 1]) {
      if k < |run| - 1 { assert CNext(c, run[k], run[k + 1]); }
    }
    assert CRun(c, r) && r[|r| - 1] == s';
  }

  /** The session holds a timestamp that the restarted clock has not reached. */
  predicate HoldsTimestamp(p: Pc) { (p.Reading? && 0 < p.ts) || p.Inserting? || p.Updating? }

  predicate Quiet(c: Config, s: State)
    requires WellShaped(c, s)
  {
    s.pending == 0 && forall i | 0 <= i < c.sessions :: !HoldsTimestamp(s.pcs[i])
  }

  /**
   * A clear() after a compaction re-establishes every invariant of the manager, on a fresh
   * clock, exactly when the counter happens to be zero and no session has got hold of a
   * timestamp since the release.
   */
  lemma ResetExact(c: Config, s: State)
    requires FrontierInv(c, s)
    ensures FrontierInv(c, Cleared(s)) <==> Quiet(c, s)
    ensures Cleared(s).write == 1 && Cleared(s).read == 0
  {
    var s' := Cleared(s);
    if FrontierInv(c, s') {
      forall i | 0 <= i < c.sessions ensures !HoldsTimestamp(s.pcs[i]) {
        if HoldsTimestamp(s.pcs[i]) {
          HolderOutlivesClear(c, s, i);
        }
      }
    } else if Quiet(c, s) {
      assert Counted(c, s');
      forall t: nat ensures !Held(s', t) { }
      forall t: nat ensures Finished(s', t) <==> t == 0 { }
      assert AtFrontier(c, s');
    }
  }

  /** No timestamp taken before the clear fits the restarted clocks. */
  lemma HolderOutlivesClear(c: Config, s: State, i: nat)
    requires FrontierInv(c, s) && i < c.sessions && HoldsTimestamp(s.pcs[i])
    ensures !FrontierInv(c, Cleared(s))
  {
    var s' := Cleared(s);
    if !s.pcs[i].Reading? {
      var t := s.pcs[i].ts;
      assert HoldsTs(s.pcs[i], t) && HoldsTs(s'.pcs[i], t);
      assert Held(s, t);
      assert Finished(s, 0);
    }
  }

  /** In a gap that nobody enters, the counter is zero: the reset is sound. */
  lemma QuietGapIsSound(c: Config, s: State)
    requires FrontierInv(c, s)
    requires forall i | 0 <= i < c.sessions :: s.pcs[i].Idle? || s.pcs[i].Waiting? || s.pcs[i].Recheck?
    ensures FrontierInv(c, Cleared(s))
  {
    TotalUnits(c.threads, s.pcs);
    TotalOutside(c.threads, s.pcs);
    ResetExact(c, s);
  }

  /** Step k of the run is a clear(). */
  predicate ClearsAt(run: seq<CState>, k: nat) {
    k + 1 < |run| && run[k].clearing.Some? && run[k + 1].clearing.None?
  }

  ghost predicate CRunWithin(c: Config, w: nat, run: seq<CState>) {
    CRun(c, run) && forall k | 0 <= k < |run| :: Within(w, run[k].vm)
  }

  ghost predicate KeptSoFar(c: Config, run: seq<CState>, n: nat) {
    forall k | 0 <= k < |run| && k < n :: FrontierInv(c, run[k].vm)
  }

  ghost predicate QuietSoFar(c: Config, run: seq<CState>, n: nat) {
    forall k: nat | k + 1 < n && ClearsAt(run, k) :: WellShaped(c, run[k].vm) && Quiet(c, run[k].vm)
  }

  /** A step keeps the manager's invariant, a clear() exactly in a quiet moment. */
  lemma CStepExact(c: Config, s: CState, s': CState)
    requires FrontierInv(c, s.vm) && CNext(c, s, s')
    requires c.sessions <= c.threads + 1 && InWindow(c, s.vm)
    ensures FrontierInv(c, s'.vm) <==> (s.clearing.Some? && s'.clearing.None? ==> Quiet(c, s.vm))
  {
    var x :| CEnabled(c, s, x) && s' == CExec(c, s, x);
    match x
    case Plain(i, a) => FrontierInvStep(c, s.vm, i, a);
    case Commit(i) => FrontierInvStep(c, s.vm, i, Unclaim);
    case Clear => ResetExact(c, s.vm);
  }

  /**
   * Over every run with compactions: the manager's invariant holds throughout exactly if
   * every clear() finds the counter at zero and nobody with a timestamp.
   */
  lemma {:induction false} CompactionExact(c: Config, w: nat, run: seq<CState>, n: nat)
    requires CRunWithin(c, w, run) && w <= c.ring + 2 && c.sessions <= c.threads + 1 && 0 < n <= |run|
    ensures KeptSoFar(c, run, n) <==> QuietSoFar(c, run, n)
  {
    if n == 1 {
      FrontierInit(c, run[0].vm);
    } else {
      CompactionExact(c, w, run, n - 1);
      assert CNext(c, run[n - 2], run[n - 2 + 1]);
      assert Within(w, run[n - 2].vm);
      if KeptSoFar(c, run, n - 1) {
        CStepExact(c, run[n - 2], run[n - 1]);
        assert KeptSoFar(c, run, n) <==> FrontierInv(c, run[n - 1].vm);
        QuietNext(c, run, n);
      }
    }
  }

  lemma QuietNext(c: Config, run: seq<CState>, n: nat)
    requires 1 < n <= |run| && WellShaped(c, run[n - 2].vm)
    ensures QuietSoFar(c, run, n) <==>
            QuietSoFar(c, run, n - 1)
            && (run[n - 2].clearing.Some? && run[n - 1].clearing.None? ==> Quiet(c, run[n - 2].vm))
  {
    assert ClearsAt(run, n - 2) <==> run[n - 2].clearing.Some? && run[n - 1].clearing.None?;
    if QuietSoFar(c, run, n) {
      forall k: nat | k + 1 < n - 1 && ClearsAt(run, k) ensures WellShaped(c, run[k].vm) && Quiet(c, run[k].vm) { }
    }
  }

  lemma {:induction false} TotalOutside(threads: nat, pcs: seq<Pc>)
    requires forall i | 0 <= i < |pcs| :: Weight(threads, pcs[i]) == 0
    ensures Total(threads, pcs) == 0
  {
    if pcs != [] { TotalOutside(threads, pcs[1..]); }
  }

  // ------------------------------------------------------------------------------------
  // A reader in the gap
  // ------------------------------------------------------------------------------------

  /** Everybody idle but the sessions named; `pending` and `claimed` as given. */
  function Scene(c: Config, write: nat, read: nat, pending: int, claimed: bool, p0: Pc, p1: Pc, p2: Pc): (s: State)
    requires 0 < c.ring && 3 <= c.sessions
    ensures WellShaped(c, s)
  {
    State(write, read, pending, claimed, NoBits(c.ring), Cast(c.sessions, p0, p1, p2))
  }

  function NoBits(ring: nat): (bits: seq<bool>)
    ensures |bits| == ring && forall k | 0 <= k < ring :: !bits[k]
  {
    seq(ring, _ => false)
  }

  function Cast(n: nat, p0: Pc, p1: Pc, p2: Pc): (pcs: seq<Pc>)
    requires 3 <= n
    ensures |pcs| == n && pcs[0] == p0 && pcs[1] == p1 && pcs[2] == p2
    ensures forall i | 3 <= i < n :: pcs[i] == Idle
  {
    [p0, p1, p2] + seq(n - 3, _ => Idle)
  }

  /** One protocol step of one of the three: only its place and the counters change. */
  lemma SceneStep(c: Config, s: State, i: nat, a: Act, s': State, p0: Pc, p1: Pc, p2: Pc)
    requires WellShaped(c, s) && 3 <= c.sessions && i < 3 && Enabled(c, s, i, a)
    requires s.bits == NoBits(c.ring) && (forall k | 3 <= k < c.sessions :: s.pcs[k] == Idle)
    requires s' == Exec(c, s, i, a) && s'.bits == s.bits
    requires s'.pcs[0] == p0 && s'.pcs[1] == p1 && s'.pcs[2] == p2
    ensures s' == Scene(c, s'.write, s'.read, s'.pending, s'.claimed, p0, p1, p2)
  {
    assert s'.pcs == Cast(c.sessions, p0, p1, p2);
  }

  /** CStep for a protocol step between two scenes. */
  lemma Play(c: Config, s: CState, i: nat, a: Act, p0: Pc, p1: Pc, p2: Pc) returns (s': CState)
    requires WellShaped(c, s.vm) && 3 <= c.sessions && i < 3 && CReachable(c, s)
    requires CEnabled(c, s, Plain(i, a))
    requires s.vm.bits == NoBits(c.ring) && (forall k | 3 <= k < c.sessions :: s.vm.pcs[k] == Idle)
    requires var t := Exec(c, s.vm, i, a);
      t.bits == s.vm.bits && t.pcs[0] == p0 && t.pcs[1] == p1 && t.pcs[2] == p2
    ensures var t := Exec(c, s.vm, i, a);
      s' == CState(Scene(c, t.write, t.read, t.pending, t.claimed, p0, p1, p2), s.clearing)
    ensures CReachable(c, s')
  {
    SceneStep(c, s.vm, i, a, Exec(c, s.vm, i, a), p0, p1, p2);
    s' := CStep(c, s, Plain(i, a));
  }

  lemma GapStart(c: Config)
    requires 0 < c.ring && 3 <= c.sessions
    ensures CReachable(c, CState(Scene(c, 1, 0, 0, false, Idle, Idle, Idle), None))
  {
    var s := CState(Scene(c, 1, 0, 0, false, Idle, Idle, Idle), None);
    assert CRun(c, [s]) && [s][0] == s;
  }

  lemma GapDrained(c: Config)
    requires 0 < c.ring && 3 <= c.sessions
    ensures CReachable(c, CState(Scene(c, 1, 0, 0 - c.threads, true, Drained, Idle, Idle), None))
  {
    GapStart(c);
    var s := CState(Scene(c, 1, 0, 0, false, Idle, Idle, Idle), None);
    s := Play(c, s, 0, Claim, Claimed, Idle, Idle);
    s := Play(c, s, 0, Subtract, Drained, Idle, Idle);
  }

  lemma GapCompacted(c: Config)
    requires 0 < c.ring && 3 <= c.sessions
    ensures CReachable(c, CState(Scene(c, 2, 1, 0 - c.threads, true, Leaving, Idle, Idle), None))
  {
    GapDrained(c);
    var s := CState(Scene(c, 1, 0, 0 - c.threads, true, Drained, Idle, Idle), None);
    s := Play(c, s, 0, Take, Updating(1), Idle, Idle);
    s := Play(c, s, 0, Publish, Leaving, Idle, Idle);
  }

  /** Session 0 has compacted at timestamp 1 and released it; clear() is still to come. */
  lemma GapReached(c: Config)
    requires 0 < c.ring && 3 <= c.sessions
    ensures CReachable(c, CState(Scene(c, 2, 1, 0, false, Idle, Idle, Idle), Some(0)))
  {
    GapCompacted(c);
    var s := CState(Scene(c, 2, 1, 0 - c.threads, true, Leaving, Idle, Idle), None);
    s := Play(c, s, 0, GiveBack, Returned, Idle, Idle);
    SceneStep(c, s.vm, 0, Unclaim, Exec(c, s.vm, 0, Unclaim), Idle, Idle, Idle);
    s := CStep(c, s, Commit(0));
  }

  lemma GapEntered(c: Config)
    requires 0 < c.ring && 3 <= c.sessions
    ensures CReachable(c, CState(Scene(c, 2, 1, 1, false, Idle, Reading(1), Idle), Some(0)))
  {
    GapReached(c);
    var s := CState(Scene(c, 2, 1, 0, false, Idle, Idle, Idle), Some(0));
    s := Play(c, s, 1, FetchAdd(false), Idle, Granted(false), Idle);
    s := Play(c, s, 1, Take, Idle, Reading(1), Idle);
  }

  /** A read that spans the clear leaves the counter at -1 with nobody in a transaction. */
  lemma GapLosesOne(c: Config)
    requires 0 < c.ring && 3 <= c.sessions
    ensures CReachable(c, CState(Scene(c, 1, 0, -1, false, Idle, Idle, Idle), None))
  {
    GapEntered(c);
    var s := CState(Scene(c, 2, 1, 1, false, Idle, Reading(1), Idle), Some(0));
    s := CStep(c, s, Clear);
    assert s.vm.bits == NoBits(c.ring);
    s := Play(c, s, 1, ReleaseRead, Idle, Idle, Idle);
  }

  // ------------------------------------------------------------------------------------
  // One unit short
  // ------------------------------------------------------------------------------------

  /** The counter is one short and nobody is inside. */
  predicate Short(c: Config, s: State) {
    WellShaped(c, s) && 0 < c.threads && s.pending == -1 && !s.claimed
      && forall i | 0 <= i < c.sessions :: s.pcs[i] == Idle
  }

  ghost predicate NextBy(c: Config, s: State, s': State, who: set<nat>) {
    WellShaped(c, s) && exists i: nat, a: Act :: i in who && Enabled(c, s, i, a) && s' == Exec(c, s, i, a)
  }

  /** A path on which only the sessions in `who` take steps. */
  ghost predicate PathBy(c: Config, path: seq<State>, who: set<nat>) {
    0 < |path| && forall k | 0 <= k < |path| - 1 :: NextBy(c, path[k], path[k + 1], who)
  }

  predicate SomeGranted(s: State) { exists i :: 0 <= i < |s.pcs| && IsGranted(s.pcs[i]) }

  ghost predicate CanGrant(c: Config, s: State, who: set<nat>) {
    exists path :: PathBy(c, path, who) && path[0] == s && SomeGranted(path[|path| - 1])
  }

  /** All a session gets to alone: turned away and waiting, or an updater in its drain. */
  predicate Alone(c: Config, s: State, i: nat) {
    && WellShaped(c, s) && 0 < c.threads && (forall j | 0 <= j < c.sessions && j != i :: s.pcs[j] == Idle)
    && (i < c.sessions ==>
          || (s.pending == -1 && (s.pcs[i].Idle? || s.pcs[i].Waiting? || s.pcs[i].Claimed?))
          || (s.pending == 0 && s.pcs[i].BackOff?)
          || (s.pending == -1 - c.threads && s.pcs[i].Draining?))
  }

  lemma AloneStep(c: Config, s: State, s': State, i: nat)
    requires Alone(c, s, i) && NextBy(c, s, s', {i})
    ensures Alone(c, s', i)
  {
  }

  lemma {:induction false} AlonePath(c: Config, path: seq<State>, i: nat)
    requires PathBy(c, path, {i}) && Short(c, path[0])
    ensures Alone(c, path[|path| - 1], i)
  {
    if |path| > 1 {
      var p := path[..|path| - 1];
      forall k | 0 <= k < |p| - 1
        ensures NextBy(c, p[k], p[k + 1], {i}) { assert NextBy(c, path[k], path[k + 1], {i}); }
      AlonePath(c, p, i);
      assert NextBy(c, path[|path| - 2], path[|path| - 2 + 1], {i});
      AloneStep(c, path[|path| - 2], path[|path| - 1], i);
    }
  }

  lemma PathByMore(c: Config, path: seq<State>, who: set<nat>, more: set<nat>)
    requires PathBy(c, path, who) && who <= more
    ensures PathBy(c, path, more)
  {
    forall k | 0 <= k < |path| - 1 ensures NextBy(c, path[k], path[k + 1], more) {
      assert NextBy(c, path[k], path[k + 1], who);
      var i: nat, a: Act :| i in who && Enabled(c, path[k], i, a) && path[k + 1] == Exec(c, path[k], i, a);
    }
  }

  lemma AtMostOne(who: set<nat>) returns (i: nat)
    requires |who| < 2
    ensures who <= {i}
  {
    i := 0;
    if who != {} {
      i :| i in who;
      assert |who - {i}| == |who| - 1;
    }
  }

  lemma TwoOf(who: set<nat>) returns (i: nat, j: nat)
    requires |who| >= 2
    ensures i in who && j in who && i != j
  {
    i :| i in who;
    assert |who - {i}| == |who| - 1;
    j :| j in who - {i};
  }

  /** The unit that one session owes for a moment lets the other one in. */
  lemma TwoGrant(c: Config, s: State, i: nat, j: nat, who: set<nat>)
    requires Short(c, s) && i < c.sessions && j < c.sessions && i != j && i in who && j in who
    ensures CanGrant(c, s, who)
  {
    var s1 := Exec(c, s, i, FetchAdd(false));
    var s2 := Exec(c, s1, j, FetchAdd(false));
    var path := [s, s1, s2];
    assert NextBy(c, s, s1, who) && NextBy(c, s1, s2, who);
    assert PathBy(c, path, who) && path[0] == s && path[|path| - 1] == s2;
    assert IsGranted(s2.pcs[j]);
  }

  /** From one unit short a read or insert can be granted exactly if at least two sessions take steps. */
  lemma ShortExact(c: Config, s: State, who: set<nat>)
    requires Short(c, s) && forall i | i in who :: i < c.sessions
    ensures CanGrant(c, s, who) <==> |who| >= 2
  {
    if |who| >= 2 {
      var i, j := TwoOf(who);
      TwoGrant(c, s, i, j, who);
    } else {
      var i := AtMostOne(who);
      forall path | PathBy(c, path, who) && path[0] == s ensures !SomeGranted(path[|path| - 1]) {
        PathByMore(c, path, who, {i});
        AlonePath(c, path, i);
      }
    }
  }

  /** Session 2 is turned away, and on the unit it owes session 1 gets in. */
  lemma GapLetsOneIn(c: Config)
    requires 0 < c.ring && 3 <= c.sessions
    ensures CReachable(c, CState(Scene(c, 1, 0, 0, false, Idle, Granted(false), Waiting(false)), None))
  {
    GapLosesOne(c);
    var s := CState(Scene(c, 1, 0, -1, false, Idle, Idle, Idle), None);
    s := Play(c, s, 2, FetchAdd(false), Idle, Idle, BackOff(false));
    s := Play(c, s, 1, FetchAdd(false), Idle, Granted(false), BackOff(false));
    s := Play(c, s, 2, GiveUp, Idle, Granted(false), Waiting(false));
  }

  lemma GapClaimed(c: Config)
    requires 0 < c.ring && 3 <= c.sessions
    ensures CReachable(c, CState(Scene(c, 1, 0, 0, true, Claimed, Granted(false), Waiting(false)), None))
  {
    GapLetsOneIn(c);
    var s := CState(Scene(c, 1, 0, 0, false, Idle, Granted(false), Waiting(false)), None);
    s := Play(c, s, 0, Claim, Claimed, Granted(false), Waiting(false));
  }

  /**
   * Two sessions arriving together do get one of them in, and from then on the barrier is
   * gone: an updater passes its drain next to a running read, whatever thread_num_ is.
   */
  lemma GapBreaksExclusion(c: Config) returns (s: CState)
    requires 0 < c.ring && 3 <= c.sessions
    ensures CReachable(c, s) && WellShaped(c, s.vm) && !Exclusive(c, s.vm)
  {
    GapClaimed(c);
    s := CState(Scene(c, 1, 0, 0, true, Claimed, Granted(false), Waiting(false)), None);
    s := Play(c, s, 0, Subtract, Drained, Granted(false), Waiting(false));
    assert IsAlone(s.vm.pcs[0]) && IsGranted(s.vm.pcs[1]);
  }
}
