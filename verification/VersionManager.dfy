/**
 * The timestamp protocol of TPVersionManager as a step relation: every step is one
 * atomic operation of one session.  The bodies of the two `lock_` sections are one step
 * each; RingManager proves that the loop inside the section computes `ReleaseSection`.
 */
module VersionManager {

  /** `sessions` run concurrently, `threads` is thread_num_, `ring` is the size of buf_. */
  datatype Config = Config(sessions: nat, threads: nat, ring: nat)

  /** Where a session stands between two atomic operations. */
  datatype Pc =
    | Idle
    | BackOff(insert: bool)   // its fetch_add saw a negative counter; the decrement is owed
    | Waiting(insert: bool)   // asleep in the retry loop
    | Recheck(insert: bool)   // loaded a non-negative counter; fetch_add comes next
    | Granted(insert: bool)   // its fetch_add saw a non-negative counter; no timestamp yet
    | Reading(ts: nat)
    | Inserting(ts: nat)
    | Published               // insert timestamp released; the final fetch_sub is owed
    | Claimed                 // compare-exchange on pending_update_reqs_ won
    | Draining                // thread_num_ subtracted; waiting for the others
    | Drained                 // alone; no timestamp yet
    | Updating(ts: nat)
    | Leaving                 // timestamp released or reverted; thread_num_ is owed
    | Returned                // thread_num_ given back; pending_update_reqs_ still 1

  datatype State = State(
    write: nat,               // write_ts_
    read: nat,                // read_ts_
    pending: int,             // pending_reqs_
    claimed: bool,            // pending_update_reqs_ == 1
    bits: seq<bool>,          // buf_
    pcs: seq<Pc>)

  datatype Act =
    | FetchAdd(insert: bool)  // acquire_read / acquire_insert: pending_reqs_.fetch_add(1)
    | GiveUp                  // --pending_reqs_ after a failed fetch_add
    | Look                    // pending_reqs_.load() >= 0 in the retry loop
    | Take                    // read_ts_.load(), or write_ts_.fetch_add(1)
    | ReleaseRead             // release_read_timestamp
    | Publish                 // the lock section of release_insert / release_update
    | Leave                   // the last fetch_sub(1) of release_insert
    | Claim                   // successful compare-exchange of acquire_update
    | Subtract                // pending_reqs_.fetch_sub(thread_num_)
    | Drain                   // pending_reqs_.load() == -thread_num_
    | Revert                  // revert_update_timestamp's compare-exchange on write_ts_
    | GiveBack                // pending_reqs_ += thread_num_
    | Unclaim                 // pending_update_reqs_.store(0)

  // ------------------------------------------------------------------------------------
  // The lock sections
  // ------------------------------------------------------------------------------------

  /** The loop of release_insert_timestamp: swallow the run of set bits that follows `ts`. */
  function Advance(ring: nat, bits: seq<bool>, ts: nat): (r: (nat, seq<bool>))
    requires 0 < ring == |bits|
    ensures |r.1| == ring && ts <= r.0
    decreases multiset(bits)[true]
  {
    var k := (ts + 1) % ring;
    if bits[k] then Advance(ring, bits[k := false], ts + 1) else (ts, bits)
  }

  /** release_insert_timestamp between lock and unlock: the new read_ts_ and buf_. */
  function ReleaseSection(ring: nat, read: nat, bits: seq<bool>, ts: nat): (r: (nat, seq<bool>))
    requires 0 < ring == |bits|
    ensures |r.1| == ring
  {
    if ts == read + 1 then Advance(ring, bits, ts) else (read, bits[ts % ring := true])
  }

  /** release_update_timestamp between lock and unlock. */
  function UpdateSection(ring: nat, read: nat, bits: seq<bool>, ts: nat): (r: (nat, seq<bool>))
    requires 0 < ring == |bits|
    ensures |r.1| == ring
  {
    if ts == read + 1 then (ts, bits) else (read, bits[ts % ring := true])
  }

  // ------------------------------------------------------------------------------------
  // Steps and runs
  // ------------------------------------------------------------------------------------

  predicate WellShaped(c: Config, s: State) {
    0 < c.ring == |s.bits| && |s.pcs| == c.sessions
  }

  predicate Enabled(c: Config, s: State, i: nat, a: Act)
    requires WellShaped(c, s)
  {
    i < c.sessions &&
    match a
    case FetchAdd(ins) => s.pcs[i] == Idle || s.pcs[i] == Recheck(ins)
    case GiveUp => s.pcs[i].BackOff?
    case Look => s.pcs[i].Waiting? && s.pending >= 0
    case Take => s.pcs[i].Granted? || s.pcs[i].Drained?
    case ReleaseRead => s.pcs[i].Reading?
    case Publish => s.pcs[i].Inserting? || s.pcs[i].Updating?
    case Leave => s.pcs[i].Published?
    case Claim => s.pcs[i].Idle? && !s.claimed
    case Subtract => s.pcs[i].Claimed?
    case Drain => s.pcs[i].Draining? && s.pending == 0 - c.threads
    case Revert => s.pcs[i].Updating?
    case GiveBack => s.pcs[i].Leaving?
    case Unclaim => s.pcs[i].Returned?
  }

  function Exec(c: Config, s: State, i: nat, a: Act): (s': State)
    requires WellShaped(c, s) && Enabled(c, s, i, a)
    ensures WellShaped(c, s')
  {
    match a
    case FetchAdd(ins) =>
      var p := if s.pending >= 0 then Granted(ins) else BackOff(ins);
      s.(pcs := s.pcs[i := p], pending := s.pending + 1)
    case GiveUp =>
      s.(pcs := s.pcs[i := Waiting(s.pcs[i].insert)], pending := s.pending - 1)
    case Look =>
      s.(pcs := s.pcs[i := Recheck(s.pcs[i].insert)])
    case Take =>
      if s.pcs[i] == Granted(false) then s.(pcs := s.pcs[i := Reading(s.read)])
      else if s.pcs[i].Granted? then s.(pcs := s.pcs[i := Inserting(s.write)], write := s.write + 1)
      else s.(pcs := s.pcs[i := Updating(s.write)], write := s.write + 1)
    case ReleaseRead =>
      s.(pcs := s.pcs[i := Idle], pending := s.pending - 1)
    case Publish =>
      if s.pcs[i].Inserting? then
        var r := ReleaseSection(c.ring, s.read, s.bits, s.pcs[i].ts);
        s.(pcs := s.pcs[i := Published], read := r.0, bits := r.1)
      else
        var r := UpdateSection(c.ring, s.read, s.bits, s.pcs[i].ts);
        s.(pcs := s.pcs[i := Leaving], read := r.0, bits := r.1)
    case Leave =>
      s.(pcs := s.pcs[i := Idle], pending := s.pending - 1)
    case Claim =>
      s.(pcs := s.pcs[i := Claimed], claimed := true)
    case Subtract =>
      var p := if s.pending == 0 then Drained else Draining;
      s.(pcs := s.pcs[i := p], pending := s.pending - c.threads)
    case Drain =>
      s.(pcs := s.pcs[i := Drained])
    case Revert =>
      if s.write == s.pcs[i].ts + 1
      then s.(pcs := s.pcs[i := Leaving], write := s.pcs[i].ts)
      else s.(pcs := s.pcs[i := Idle])       // returns false: nothing is given back
    case GiveBack =>
      s.(pcs := s.pcs[i := Returned], pending := s.pending + c.threads)
    case Unclaim =>
      s.(pcs := s.pcs[i := Idle], claimed := false)
  }

  /** After init_ts(ts, thread_num) on a fresh manager. */
  predicate Init(c: Config, s: State) {
    && WellShaped(c, s)
    && s.write == s.read + 1 && s.pending == 0 && !s.claimed
    && (forall k | 0 <= k < c.ring :: !s.bits[k])
    && (forall i | 0 <= i < c.sessions :: s.pcs[i] == Idle)
  }

  ghost predicate Next(c: Config, s: State, s': State) {
    WellShaped(c, s) && exists i: nat, a: Act :: Enabled(c, s, i, a) && s' == Exec(c, s, i, a)
  }

  /** Consecutive states of `run` are one step apart; where it starts is left open. */
  ghost predicate IsPath(c: Config, run: seq<State>) {
    0 < |run| && forall k :: 0 <= k < |run| - 1 ==> Next(c, run[k], run[k + 1])
  }

  ghost predicate IsRun(c: Config, run: seq<State>) {
    IsPath(c, run) && Init(c, run[0])
  }

  ghost predicate Reachable(c: Config, s: State) {
    exists run :: IsRun(c, run) && run[|run| - 1] == s
  }

  lemma PathInit(c: Config, run: seq<State>)
    requires IsPath(c, run) && 1 < |run|
    ensures IsPath(c, run[..|run| - 1])
    ensures Next(c, run[|run| - 2], run[|run| - 1])
  {
    var r := run[..|run| - 1];
    forall k | 0 <= k < |r| - 1 ensures Next(c, r[k], r[k + 1]) {
      assert Next(c, run[k], run[k + 1]);
    }
    assert Next(c, run[|run| - 2], run[|run| - 2 + 1]);
  }

  lemma ReachStep(c: Config, s: State, i: nat, a: Act)
    requires WellShaped(c, s) && Reachable(c, s) && Enabled(c, s, i, a)
    ensures Reachable(c, Exec(c, s, i, a))
  {
    var run :| IsRun(c, run) && run[|run| - 1] == s;
    var r := run + [Exec(c, s, i, a)];
    forall k | 0 <= k < |r| - 1 ensures Next(c, r[k], r[k + 1]) {
      if k < |run| - 1 {
        assert Next(c, run[k], run[k + 1]);
      }
    }
    assert IsRun(c, r) && r[|r| - 1] == Exec(c, s, i, a);
  }

  // ------------------------------------------------------------------------------------
  // The counter
  // ------------------------------------------------------------------------------------

  /** What a session contributes to pending_reqs_. */
  function Weight(threads: nat, p: Pc): (w: int) {
    if p.BackOff? || IsGranted(p) then 1
    else if HoldsThreads(p) then 0 - threads
    else 0
  }

  /** From a successful fetch_add until the session hands its unit back. */
  predicate IsGranted(p: Pc) { p.Granted? || p.Reading? || p.Inserting? || p.Published? }

  /** The session has subtracted thread_num_ and not yet given it back. */
  predicate HoldsThreads(p: Pc) { p.Draining? || p.Drained? || p.Updating? || p.Leaving? }

  /** From the end of the drain until thread_num_ is given back. */
  predicate IsAlone(p: Pc) { p.Drained? || p.Updating? || p.Leaving? }

  predicate IsUpdater(p: Pc) { p.Claimed? || HoldsThreads(p) || p.Returned? }

  function Total(threads: nat, pcs: seq<Pc>): (n: int) {
    if pcs == [] then 0 else Weight(threads, pcs[0]) + Total(threads, pcs[1..])
  }

  lemma {:induction false} TotalUpdate(threads: nat, pcs: seq<Pc>, i: nat, p: Pc)
    requires i < |pcs|
    ensures Total(threads, pcs[i := p]) ==
            Total(threads, pcs) - Weight(threads, pcs[i]) + Weight(threads, p)
  {
    if i == 0 {
      assert pcs[i := p][1..] == pcs[1..];
    } else {
      assert pcs[i := p][1..] == pcs[1..][i - 1 := p];
      TotalUpdate(threads, pcs[1..], i - 1, p);
    }
  }

  /** No session holds thread_num_ here: the sum counts the units, one per session. */
  lemma {:induction false} TotalUnits(threads: nat, pcs: seq<Pc>)
    requires forall i :: 0 <= i < |pcs| ==> !HoldsThreads(pcs[i])
    ensures 0 <= Total(threads, pcs) <= |pcs|
    ensures Total(threads, pcs) == 0 ==> forall i :: 0 <= i < |pcs| ==> Weight(threads, pcs[i]) == 0
  {
    if pcs != [] {
      TotalUnits(threads, pcs[1..]);
      forall i | 0 <= i < |pcs| && Total(threads, pcs) == 0 ensures Weight(threads, pcs[i]) == 0 {
        if i > 0 { assert pcs[i] == pcs[1..][i - 1]; }
      }
    }
  }

  /**
   * The invariant behind exclusion.  The last line says that nobody else takes a write
   * timestamp while an updater holds one, so its revert cannot fail.
   */
  ghost predicate Counted(c: Config, s: State) {
    && WellShaped(c, s)
    && s.pending == Total(c.threads, s.pcs)
    && (s.claimed <==> exists u :: 0 <= u < c.sessions && IsUpdater(s.pcs[u]))
    && (forall u, v | 0 <= u < c.sessions && 0 <= v < c.sessions ::
          IsUpdater(s.pcs[u]) && IsUpdater(s.pcs[v]) ==> u == v)
    && Exclusive(c, s)
    && (forall u | 0 <= u < c.sessions :: s.pcs[u].Updating? ==> s.write == s.pcs[u].ts + 1)
  }

  /** No read or insert is under way while an updater is past its drain. */
  ghost predicate Exclusive(c: Config, s: State)
    requires WellShaped(c, s)
  {
    forall u, v | 0 <= u < c.sessions && 0 <= v < c.sessions ::
      IsAlone(s.pcs[u]) ==> !IsGranted(s.pcs[v])
  }

  /** With the updater taken out, what is left of the counter is the others' units. */
  lemma OthersUnits(c: Config, s: State, u: nat)
    requires Counted(c, s) && u < c.sessions && HoldsThreads(s.pcs[u])
    ensures 0 <= s.pending + c.threads <= c.sessions
    ensures s.pending == 0 - c.threads ==>
              forall v :: 0 <= v < c.sessions ==> !IsGranted(s.pcs[v]) && !s.pcs[v].BackOff?
    ensures forall v :: 0 <= v < c.sessions && v != u && Weight(c.threads, s.pcs[v]) == 0 ==>
              s.pending + c.threads <= c.sessions - 2
  {
    var rest := s.pcs[u := Idle];
    TotalUpdate(c.threads, s.pcs, u, Idle);
    TotalUnits(c.threads, rest);
    if s.pending == 0 - c.threads {
      forall v | 0 <= v < c.sessions ensures !IsGranted(s.pcs[v]) && !s.pcs[v].BackOff? {
        assert Weight(c.threads, rest[v]) == 0;
      }
    }
    forall v | 0 <= v < c.sessions && v != u && Weight(c.threads, s.pcs[v]) == 0
      ensures s.pending + c.threads <= c.sessions - 2
    {
      // were both of them to take a unit, the sum would still count one per session
      TotalUpdate(c.threads, rest, u, Published);
      TotalUpdate(c.threads, rest[u := Published], v, Published);
      TotalUnits(c.threads, rest[u := Published][v := Published]);
    }
  }

  lemma TotalStep(c: Config, s: State, i: nat, a: Act)
    requires Counted(c, s) && Enabled(c, s, i, a)
    ensures Exec(c, s, i, a).pending == Total(c.threads, Exec(c, s, i, a).pcs)
  {
    var s' := Exec(c, s, i, a);
    TotalUpdate(c.threads, s.pcs, i, s'.pcs[i]);
    assert s'.pcs == s.pcs[i := s'.pcs[i]];
  }

  lemma ClaimStep(c: Config, s: State, i: nat, a: Act)
    requires Counted(c, s) && Enabled(c, s, i, a)
    ensures var s' := Exec(c, s, i, a);
      && (s'.claimed <==> exists u :: 0 <= u < c.sessions && IsUpdater(s'.pcs[u]))
      && (forall u, v | 0 <= u < c.sessions && 0 <= v < c.sessions ::
            IsUpdater(s'.pcs[u]) && IsUpdater(s'.pcs[v]) ==> u == v)
  {
    var s' := Exec(c, s, i, a);
    if a.Claim? {
      assert IsUpdater(s'.pcs[i]);
    } else {
      assert IsUpdater(s.pcs[i]) <==> IsUpdater(s'.pcs[i]) || a.Unclaim?;
      if s.claimed {
        var u :| 0 <= u < c.sessions && IsUpdater(s.pcs[u]);
        assert a.Unclaim? || IsUpdater(s'.pcs[u]);
      }
    }
  }

  /** A fetch_add is granted only while no updater holds thread_num_. */
  lemma GrantMeansFree(c: Config, s: State, i: nat, ins: bool, u: nat)
    requires Counted(c, s) && Enabled(c, s, i, FetchAdd(ins)) && s.pending >= 0
    requires c.sessions <= c.threads + 1
    requires u < c.sessions
    ensures !HoldsThreads(s.pcs[u])
  {
    if HoldsThreads(s.pcs[u]) {
      OthersUnits(c, s, u);
    }
  }

  lemma ExclusiveStep(c: Config, s: State, i: nat, a: Act)
    requires Counted(c, s) && Enabled(c, s, i, a)
    requires c.sessions <= c.threads + 1
    ensures Exclusive(c, Exec(c, s, i, a))
  {
    var s' := Exec(c, s, i, a);
    forall u, v | 0 <= u < c.sessions && 0 <= v < c.sessions && IsAlone(s'.pcs[u])
      ensures !IsGranted(s'.pcs[v])
    {
      if a.Drain? && u == i {
        OthersUnits(c, s, i);
      } else if a.Subtract? && u == i {
        SubtractAlone(c, s, i, v);
      } else if a.FetchAdd? && v == i && IsGranted(s'.pcs[v]) {
        GrantMeansFree(c, s, i, a.insert, u);
      }
    }
  }

  lemma SubtractAlone(c: Config, s: State, i: nat, v: nat)
    requires Counted(c, s) && Enabled(c, s, i, Subtract) && v < c.sessions && s.pending == 0
    ensures !IsGranted(s.pcs[v])
  {
    assert forall u :: 0 <= u < c.sessions && IsUpdater(s.pcs[u]) ==> u == i;
    TotalUnits(c.threads, s.pcs);
  }

  lemma WriteStep(c: Config, s: State, i: nat, a: Act)
    requires Counted(c, s) && Enabled(c, s, i, a)
    ensures var s' := Exec(c, s, i, a);
      forall u | 0 <= u < c.sessions :: s'.pcs[u].Updating? ==> s'.write == s'.pcs[u].ts + 1
  {
    var s' := Exec(c, s, i, a);
    forall u | 0 <= u < c.sessions && s'.pcs[u].Updating?
      ensures s'.write == s'.pcs[u].ts + 1
    {
      if u != i {
        assert IsAlone(s.pcs[u]) && IsUpdater(s.pcs[u]);
        assert !IsGranted(s.pcs[i]) && !IsUpdater(s.pcs[i]);
      }
    }
  }

  /** Every step of at most thread_num_ + 1 sessions keeps the counter honest. */
  lemma CountedStep(c: Config, s: State, i: nat, a: Act)
    requires Counted(c, s) && Enabled(c, s, i, a)
    requires c.sessions <= c.threads + 1
    ensures Counted(c, Exec(c, s, i, a))
  {
    TotalStep(c, s, i, a);
    ClaimStep(c, s, i, a);
    ExclusiveStep(c, s, i, a);
    WriteStep(c, s, i, a);
  }
}
