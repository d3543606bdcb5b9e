/**
 * How many sessions the updater's barrier carries: exactly thread_num_ + 1.
 */
module Exclusion {
  import opened VersionManager

  lemma CountedInit(c: Config, s: State)
    requires Init(c, s)
    ensures Counted(c, s)
  {
    TotalIdle(c.threads, s.pcs);
  }

  lemma {:induction false} TotalIdle(threads: nat, pcs: seq<Pc>)
    requires forall i :: 0 <= i < |pcs| ==> pcs[i] == Idle
    ensures Total(threads, pcs) == 0
  {
    if pcs != [] {
      TotalIdle(threads, pcs[1..]);
    }
  }

  lemma {:induction false} RunCounted(c: Config, run: seq<State>)
    requires IsRun(c, run) && c.sessions <= c.threads + 1
    ensures Counted(c, run[|run| - 1])
  {
    if |run| == 1 {
      CountedInit(c, run[0]);
    } else {
      PathInit(c, run);
      RunCounted(c, run[..|run| - 1]);
      var i: nat, a: Act :| Enabled(c, run[|run| - 2], i, a) && run[|run| - 1] == Exec(c, run[|run| - 2], i, a);
      CountedStep(c, run[|run| - 2], i, a);
    }
  }

  /** A fresh manager whose recovered timestamp is `ts`. */
  function Start(c: Config, ts: nat): (s: State)
    requires 0 < c.ring
    ensures Init(c, s) && s.read == ts
  {
    State(ts + 1, ts, 0, false, seq(c.ring, _ => false), seq(c.sessions, _ => Idle))
  }

  lemma StartReachable(c: Config, ts: nat)
    requires 0 < c.ring
    ensures Reachable(c, Start(c, ts))
  {
    var run := [Start(c, ts)];
    assert IsRun(c, run) && run[|run| - 1] == Start(c, ts);
  }

  /** The updater (session thread_num_ + 1) is alone, and `k` others have just been turned away. */
  function Crowd(c: Config, k: nat): (s: State)
    requires 0 < c.ring && k <= c.threads && c.threads + 2 <= c.sessions
    ensures WellShaped(c, s)
  {
    State(1, 0, k - c.threads, true, seq(c.ring, _ => false),
          seq(c.sessions, i requires 0 <= i =>
            if i < k then BackOff(false) else if i == c.threads + 1 then Drained else Idle))
  }

  lemma {:induction false} CrowdReachable(c: Config, k: nat)
    requires 0 < c.ring && k <= c.threads && c.threads + 2 <= c.sessions
    ensures Reachable(c, Crowd(c, k))
  {
    if k == 0 {
      StartReachable(c, 0);
      var u := c.threads + 1;
      ReachStep(c, Start(c, 0), u, Claim);
      var s := Exec(c, Start(c, 0), u, Claim);
      ReachStep(c, s, u, Subtract);
      assert Exec(c, s, u, Subtract).pcs == Crowd(c, 0).pcs;
    } else {
      CrowdReachable(c, k - 1);
      var s := Crowd(c, k - 1);
      ReachStep(c, s, k - 1, FetchAdd(false));
      assert Exec(c, s, k - 1, FetchAdd(false)).pcs == Crowd(c, k).pcs;
    }
  }

  /**
   * thread_num_ failed acquirers lift the counter back to zero, and the next fetch_add is
   * granted next to an updater that has finished draining.
   */
  lemma CrowdBreaksExclusion(c: Config) returns (s: State)
    requires 0 < c.ring && c.threads + 2 <= c.sessions
    ensures Reachable(c, s) && WellShaped(c, s) && !Exclusive(c, s)
  {
    CrowdReachable(c, c.threads);
    var t := Crowd(c, c.threads);
    ReachStep(c, t, c.threads, FetchAdd(false));
    s := Exec(c, t, c.threads, FetchAdd(false));
    assert IsAlone(s.pcs[c.threads + 1]) && IsGranted(s.pcs[c.threads]);
  }

  /**
   * Over every interleaving: no read or insert is granted or under way between the end of
   * an updater's drain and the moment it gives thread_num_ back, exactly when at most
   * thread_num_ + 1 sessions run.
   */
  lemma ExclusionExact(c: Config)
    requires 0 < c.ring
    ensures (forall s :: Reachable(c, s) ==> WellShaped(c, s) && Exclusive(c, s))
            <==> c.sessions <= c.threads + 1
  {
    if c.sessions <= c.threads + 1 {
      forall s | Reachable(c, s) ensures WellShaped(c, s) && Exclusive(c, s) {
        var run :| IsRun(c, run) && run[|run| - 1] == s;
        RunCounted(c, run);
      }
    } else {
      var s := CrowdBreaksExclusion(c);
    }
  }

  /** The pool hands out thread_num_ sessions, so the bound is met with one to spare. */
  lemma PoolIsExclusive(c: Config, s: State)
    requires c.sessions == c.threads && Reachable(c, s)
    ensures Counted(c, s)
  {
    var run :| IsRun(c, run) && run[|run| - 1] == s;
    RunCounted(c, run);
  }
}
