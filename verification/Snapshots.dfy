/**
 * What readers and recovery may rely on, over whole runs of concurrent transactions.
 */
module Snapshots {
  import opened Wrappers
  import opened VersionManager
  import opened Exclusion
  import opened Frontier
  import opened Records
  import opened Commits
  import opened Agreement

  lemma SRunInit(w: World, run: seq<Sys>)
    requires SRun(w, run) && 1 < |run|
    ensures SRun(w, run[..|run| - 1]) && SNext(w, run[|run| - 2], run[|run| - 1])
    ensures InWindow(w.c, run[|run| - 2].vm)
  {
    var r := run[..|run| - 1];
    forall k: nat | k + 1 < |r| ensures StepAt(w, r, k) { assert StepAt(w, run, k); }
    forall k | 0 <= k < |r| ensures InWindow(w.c, r[k].vm) {
      assert InWindow(w.c, run[k].vm);
    }
    assert StepAt(w, run, |run| - 2);
  }

  /** What holds in every run, whatever clashes. */
  lemma {:induction false} RunCore(w: World, run: seq<Sys>)
    requires SRun(w, run) && w.c.sessions <= w.c.threads + 1
    ensures CoreInv(w, run[|run| - 1])
  {
    if |run| == 1 {
      SysInit(w, run[0]);
    } else {
      SRunInit(w, run);
      RunCore(w, run[..|run| - 1]);
      CoreNext(w, run[|run| - 2], run[|run| - 1]);
    }
  }

  lemma CoreNext(w: World, s: Sys, s': Sys)
    requires CoreInv(w, s) && SNext(w, s, s') && InWindow(w.c, s.vm) && w.c.sessions <= w.c.threads + 1
    ensures CoreInv(w, s')
  {
    var i: nat, x: SAct :| SEnabled(w, s, i, x) && s' == SExec(w, s, i, x);
    CoreStep(w, s, i, x);
  }

  // ------------------------------------------------------------------------------------
  // Runs in which the graph and the log stay together
  // ------------------------------------------------------------------------------------

  /** The step can be one that meets no vertex already there and addresses what the log order says. */
  ghost predicate FineNext(w: World, s: Sys, s': Sys) {
    SysShaped(w, s) && exists i: nat, x: SAct :: SEnabled(w, s, i, x) && s' == SExec(w, s, i, x) && Fine(w, s, i, x)
  }

  ghost predicate FineAt(w: World, run: seq<Sys>, k: nat)
    requires k + 1 < |run|
  {
    FineNext(w, run[k], run[k + 1])
  }

  ghost predicate FineRun(w: World, run: seq<Sys>) {
    SRun(w, run) && forall k: nat | k + 1 < |run| :: FineAt(w, run, k)
  }

  ghost predicate Together(w: World, s: Sys) { SysShaped(w, s) && w.from <= s.barrier && Good(w, s) }

  lemma NextExact(w: World, s: Sys, s': Sys)
    requires SysInv(w, s) && SNext(w, s, s') && w.c.sessions <= w.c.threads + 1 && InWindow(w.c, s.vm)
    ensures Together(w, s') <==> FineNext(w, s, s')
    ensures CoreInv(w, s')
  {
    var i: nat, x: SAct :| SEnabled(w, s, i, x) && s' == SExec(w, s, i, x);
    StepExact(w, s, i, x);
    if FineNext(w, s, s') {
      var j: nat, y: SAct :| SEnabled(w, s, j, y) && s' == SExec(w, s, j, y) && Fine(w, s, j, y);
      StepExact(w, s, j, y);
    }
  }

  ghost predicate TogetherAt(w: World, run: seq<Sys>, k: nat)
    requires k < |run|
  {
    Together(w, run[k])
  }

  lemma OneMore(w: World, run: seq<Sys>, n: nat)
    requires SRun(w, run) && w.c.sessions <= w.c.threads + 1 && n + 1 < |run| && SysInv(w, run[n])
    ensures TogetherAt(w, run, n + 1) <==> FineAt(w, run, n)
    ensures FineAt(w, run, n) ==> SysInv(w, run[n + 1])
  {
    assert StepAt(w, run, n) && InWindow(w.c, run[n].vm);
    NextExact(w, run[n], run[n + 1]);
  }

  /** Up to state n, together exactly if fine. */
  ghost predicate ExactTo(w: World, run: seq<Sys>, n: nat)
    requires n < |run|
  {
    && ((forall k: nat | k <= n :: TogetherAt(w, run, k)) <==> (forall k: nat | k < n :: FineAt(w, run, k)))
    && ((forall k: nat | k < n :: FineAt(w, run, k)) ==> SysInv(w, run[n]))
  }

  lemma ExactStart(w: World, run: seq<Sys>)
    requires SRun(w, run)
    ensures ExactTo(w, run, 0)
  {
    SysInit(w, run[0]);
    assert TogetherAt(w, run, 0);
  }

  lemma ExactNext(w: World, run: seq<Sys>, n: nat)
    requires SRun(w, run) && w.c.sessions <= w.c.threads + 1 && n + 1 < |run| && ExactTo(w, run, n)
    ensures ExactTo(w, run, n + 1)
  {
    if forall k: nat | k < n :: FineAt(w, run, k) { OneMore(w, run, n); }
  }

  lemma PrefixExact(w: World, run: seq<Sys>, n: nat)
    requires SRun(w, run) && w.c.sessions <= w.c.threads + 1 && n < |run|
    ensures ExactTo(w, run, n)
  {
    ExactStart(w, run);
    for k := 0 to n
      invariant ExactTo(w, run, k)
    {
      ExactNext(w, run, k);
    }
  }

  /**
   * In a run the graph and the log are together in every state exactly if no ingestion meets a
   * vertex that another transaction made, and every change of an update addresses the same items
   * in the lists as they are and in the lists in log order.
   */
  lemma RunExact(w: World, run: seq<Sys>)
    requires SRun(w, run) && w.c.sessions <= w.c.threads + 1
    ensures (forall k: nat | k < |run| :: TogetherAt(w, run, k))
        <==> (forall k: nat | k + 1 < |run| :: FineAt(w, run, k))
  {
    PrefixExact(w, run, |run| - 1);
  }

  lemma RunKeepsInv(w: World, run: seq<Sys>, k: nat)
    requires FineRun(w, run) && w.c.sessions <= w.c.threads + 1 && k < |run|
    ensures SysInv(w, run[k])
  {
    PrefixExact(w, run, k);
  }

  ghost predicate ReadsAt(w: World, s: Sys, i: nat, r: nat) {
    SysShaped(w, s) && i < w.c.sessions && s.vm.pcs[i] == Reading(r)
  }

  lemma ReaderSeesPrefix(w: World, s: Sys, i: nat, r: nat)
    requires SysInv(w, s) && ReadsAt(w, s, i, r)
    ensures w.from <= r <= s.vm.read
    ensures forall u: nat :: !Updater(s, u)
    ensures s.barrier <= r && ReplayTo(w, s.wal, r) == Some(Visible(s.graph, r))
  {
    forall u: nat ensures !Updater(s, u) {
      assert u < w.c.sessions && IsAlone(s.vm.pcs[u]) ==> !IsGranted(s.vm.pcs[i]);
    }
    PrefixOfLog(w, s, r);
  }

  /**
   * In every such run, whatever the other sessions are in the middle of, a reader holding
   * snapshot r sees exactly the graph that replaying the log up to r builds, and that
   * replay does not fail.
   */
  lemma SnapshotIsLogPrefix(w: World, run: seq<Sys>, i: nat, r: nat)
    requires FineRun(w, run) && w.c.sessions <= w.c.threads + 1
    requires ReadsAt(w, run[|run| - 1], i, r)
    ensures w.from <= r
    ensures var s := run[|run| - 1]; ReplayTo(w, s.wal, r) == Some(Visible(s.graph, r))
  {
    RunKeepsInv(w, run, |run| - 1);
    ReaderSeesPrefix(w, run[|run| - 1], i, r);
  }

  /** The log up to a held snapshot is final: later steps only log later timestamps. */
  lemma LogFinal(w: World, s: Sys, i: nat, x: SAct, r: nat)
    requires SysInv(w, s) && SEnabled(w, s, i, x) && r <= s.vm.read
    ensures var s' := SExec(w, s, i, x);
      forall t | t <= r :: (t in s.wal <==> t in s'.wal) && (t in s.wal ==> s.wal[t] == s'.wal[t])
  {
    if x.Append? || x.Commit? {
      HeldPastRead(w.c, s.vm, i);
    }
  }

  /** Session `i` reads at `r` in the states a to b of the run. */
  ghost predicate KeepsReading(w: World, run: seq<Sys>, a: nat, b: nat, i: nat, r: nat) {
    a <= b < |run| && forall k | a <= k <= b :: ReadsAt(w, run[k], i, r)
  }

  lemma LogFinalNext(w: World, s: Sys, s': Sys, r: nat)
    requires SysInv(w, s) && SNext(w, s, s') && r <= s.vm.read
    ensures forall t | t <= r :: (t in s.wal <==> t in s'.wal) && (t in s.wal ==> s.wal[t] == s'.wal[t])
  {
    var j: nat, x: SAct :| SEnabled(w, s, j, x) && s' == SExec(w, s, j, x);
    LogFinal(w, s, j, x, r);
  }

  lemma StableStep(w: World, s: Sys, s': Sys, i: nat, r: nat)
    requires SysInv(w, s) && SysInv(w, s') && SNext(w, s, s')
    requires ReadsAt(w, s, i, r) && ReadsAt(w, s', i, r)
    ensures Visible(s.graph, r) == Visible(s'.graph, r)
  {
    ReaderSeesPrefix(w, s, i, r);
    ReaderSeesPrefix(w, s', i, r);
    LogFinalNext(w, s, s', r);
    ReplayLocal(w, s.wal, s'.wal, r);
  }

  lemma StableNext(w: World, run: seq<Sys>, b: nat, i: nat, r: nat)
    requires FineRun(w, run) && w.c.sessions <= w.c.threads + 1 && b + 1 < |run|
    requires ReadsAt(w, run[b], i, r) && ReadsAt(w, run[b + 1], i, r)
    ensures Visible(run[b].graph, r) == Visible(run[b + 1].graph, r)
  {
    RunKeepsInv(w, run, b);
    RunKeepsInv(w, run, b + 1);
    assert StepAt(w, run, b);
    StableStep(w, run[b], run[b + 1], i, r);
  }

  lemma {:induction false} ShownAlong(run: seq<Sys>, a: nat, b: nat, r: nat)
    requires a <= b < |run| && forall k | a < k <= b :: Visible(run[k - 1].graph, r) == Visible(run[k].graph, r)
    ensures Visible(run[a].graph, r) == Visible(run[b].graph, r)
    decreases b
  {
    if a < b { ShownAlong(run, a, b - 1, r); }
  }

  /** As long as a reader keeps its snapshot, no step of anybody changes what it sees. */
  lemma SnapshotIsStable(w: World, run: seq<Sys>, a: nat, b: nat, i: nat, r: nat)
    requires FineRun(w, run) && w.c.sessions <= w.c.threads + 1
    requires KeepsReading(w, run, a, b, i, r)
    ensures Visible(run[a].graph, r) == Visible(run[b].graph, r)
  {
    forall k | a < k <= b ensures Visible(run[k - 1].graph, r) == Visible(run[k].graph, r) {
      assert ReadsAt(w, run[k - 1], i, r) && ReadsAt(w, run[k], i, r);
      StableNext(w, run, k - 1, i, r);
    }
    ShownAlong(run, a, b, r);
  }

  /**
   * No partial commits: of an insert transaction at or below a held snapshot, every logged
   * record is visible, and nothing else was born at its timestamp.
   */
  lemma WholeOrNothing(w: World, run: seq<Sys>, i: nat, r: nat, t: nat)
    requires FineRun(w, run) && w.c.sessions <= w.c.threads + 1
    requires ReadsAt(w, run[|run| - 1], i, r)
    requires run[|run| - 1].barrier < t <= r
    ensures var s := run[|run| - 1];
      if t in s.wal then s.wal[t].Inserts? && BornFrom(s.graph, s.wal[t].log, t)
      else forall k :: k in s.graph ==> s.graph[k].birth != t
  {
    var s := run[|run| - 1];
    RunKeepsInv(w, run, |run| - 1);
    ReaderSeesPrefix(w, s, i, r);
    assert Finished(s.vm, t);
    assert BornFrom(s.graph, LogAt(s, t), t);
    if t in s.wal {
      assert LogAt(s, t) == s.wal[t].log;
    }
  }

  ghost predicate AllIdle(s: State) { forall i | 0 <= i < |s.pcs| :: s.pcs[i] == Idle }

  /**
   * Live equals replay: once every session is idle, the graph that concurrent inserts and
   * exclusive updates left behind is the one recovery rebuilds in timestamp order.
   */
  lemma LiveEqualsReplay(w: World, run: seq<Sys>)
    requires FineRun(w, run) && w.c.sessions <= w.c.threads + 1
    requires AllIdle(run[|run| - 1].vm)
    ensures var s := run[|run| - 1];
      && w.from <= s.vm.read
      && ReplayTo(w, s.wal, s.vm.read) == Some(Visible(s.graph, s.vm.read))
      && (forall k :: k in s.graph ==> s.graph[k].birth <= s.vm.read)
      && (forall t :: t in s.wal ==> w.from < t <= s.vm.read)
  {
    var s := run[|run| - 1];
    RunKeepsInv(w, run, |run| - 1);
    forall u: nat ensures !Updater(s, u) { }
    forall t: nat ensures !Held(s.vm, t) { }
    assert Finished(s.vm, s.vm.read) && !Finished(s.vm, s.vm.read + 1);
    PrefixOfLog(w, s, s.vm.read);
  }
}
