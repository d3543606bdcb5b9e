/**
 * The four kinds of transaction objects as users of a timestamp: exactly when the timestamp
 * goes back to the version manager, whatever is done with the object before it is destroyed.
 */
module Lifecycle {
  import opened Wrappers
  import VM = VersionManager

  datatype Kind = Read | Insert | Update | Compact

  /** The calls a transaction makes on the version manager. */
  datatype Call =
    | ReleaseRead
    | ReleaseInsert(ts: nat)
    | ReleaseUpdate(ts: nat)
    | RevertUpdate(ts: nat)
    | ClearManager

  /**
   * What may be done with a transaction.  A write leaves an undo record, which works or throws
   * when it is run; a commit meets a log that takes the records, refuses, or throws (as the
   * ingestion after it may).
   */
  datatype Use = Write(undoable: bool) | Commit(log: LogOutcome) | Abort

  datatype LogOutcome = Appended | Refused | Thrown

  predicate GivesBack(c: Call) { !c.ClearManager? }

  function Count(calls: seq<Call>): (n: nat) {
    if calls == [] then 0 else Count(calls[..|calls| - 1]) + (if GivesBack(calls[|calls| - 1]) then 1 else 0)
  }

  /** The calls that give a timestamp of this kind back. */
  predicate Fits(k: Kind, ts: nat, c: Call) {
    match c
    case ReleaseRead => k == Read
    case ReleaseInsert(t) => k == Insert && t == ts
    case ReleaseUpdate(t) => (k == Update || k == Compact) && t == ts
    case RevertUpdate(t) => k == Compact && t == ts
    case ClearManager => k == Compact
  }

  lemma CountAppend(calls: seq<Call>, c: Call)
    ensures Count(calls + [c]) == Count(calls) + (if GivesBack(c) then 1 else 0)
  {
    assert (calls + [c])[..|calls|] == calls;
  }

  predicate WroteBefore(uses: seq<Use>, n: nat)
    requires n <= |uses|
  {
    exists i :: 0 <= i < n && uses[i].Write?
  }

  predicate BadBefore(uses: seq<Use>, n: nat)
    requires n <= |uses|
  {
    exists i :: 0 <= i < n && uses[i] == Write(false)
  }

  /** Aborting runs the undo records of an update first. */
  predicate AbortReleases(k: Kind, uses: seq<Use>, n: nat)
    requires n <= |uses|
  {
    k == Update ==> !BadBefore(uses, n)
  }

  /** Use n gives a timestamp back that is still held. */
  predicate Releases(k: Kind, uses: seq<Use>, n: nat)
    requires n < |uses|
  {
    match uses[n]
    case Write(_) => false
    case Abort => AbortReleases(k, uses, n)
    case Commit(log) =>
      || k == Read || (k != Compact && !WroteBefore(uses, n))
      || log == Appended || (log == Refused && AbortReleases(k, uses, n))
  }

  /** Some use gives the timestamp back. */
  predicate ReleasedBy(k: Kind, uses: seq<Use>, n: nat)
    requires n <= |uses|
  {
    exists i :: 0 <= i < n && Releases(k, uses, i)
  }

  /** Some use does, or the destructor. */
  predicate Returned(k: Kind, uses: seq<Use>) {
    ReleasedBy(k, uses, |uses|) || AbortReleases(k, uses, |uses|)
  }

  /** How each kind gives back a timestamp whose transaction did not come through. */
  function Undone(k: Kind, ts: nat): (c: Call)
    ensures Fits(k, ts, c) && GivesBack(c) && (c.RevertUpdate? <==> k == Compact)
  {
    match k
    case Read => ReleaseRead
    case Insert => ReleaseInsert(ts)
    case Update => ReleaseUpdate(ts)
    case Compact => RevertUpdate(ts)
  }

  /** The log took the compaction before anything else settled it. */
  predicate CompactedBy(uses: seq<Use>, n: nat)
    requires n <= |uses|
  {
    exists i :: 0 <= i < n && Compacts(uses, i)
  }

  predicate Compacts(uses: seq<Use>, i: nat)
    requires i < |uses|
  {
    uses[i] == Commit(Appended) && forall j | 0 <= j < i :: uses[j].Write? || uses[j] == Commit(Thrown)
  }

  lemma CompactsFirst(uses: seq<Use>, n: nat)
    requires n < |uses|
    ensures Compacts(uses, n) <==> uses[n] == Commit(Appended) && !ReleasedBy(Compact, uses, n)
  {
    if !ReleasedBy(Compact, uses, n) {
      forall j | 0 <= j < n ensures uses[j].Write? || uses[j] == Commit(Thrown) {
        assert !Releases(Compact, uses, j);
      }
    }
  }

  class Transaction {
    const kind: Kind
    const given: nat
    var held: Option<nat>          // timestamp_, None standing for INVALID_TIMESTAMP
    var writes: nat                // op_num_, or the records in arc_
    var undos: seq<bool>           // the undo stack: which records work
    var calls: seq<Call>

    constructor (kind: Kind, ts: nat)
      ensures this.kind == kind && given == ts && held == Some(ts) && Valid() && writes == 0 && undos == []
    {
      this.kind, given, held, writes, undos, calls := kind, ts, Some(ts), 0, [], [];
    }

    /** The timestamp is held exactly as long as it was not given back. */
    ghost predicate Valid()
      reads this
    {
      && (held.Some? ==> held.value == given && calls == [])
      && (held.None? ==> Count(calls) == 1)
      && (forall i | 0 <= i < |calls| :: Fits(kind, given, calls[i]))
    }

    method Tell(c: Call)
      requires held.Some? && Valid() && GivesBack(c) && Fits(kind, given, c)
      modifies this`calls, this`held
      ensures Valid() && held.None? && calls == old(calls) + [c]
    {
      CountAppend(calls, c);
      calls := calls + [c];
      held := None;
    }

    method AddRecord(undoable: bool)
      requires Valid()
      modifies this`writes, this`undos
      ensures writes == old(writes) + 1
      ensures undos == if kind == Update then old(undos) + [undoable] else old(undos)
    {
      writes := writes + 1;
      if kind == Update { undos := undos + [undoable]; }
    }

    /** revert_changes: last record first; a record that throws stays on the stack. */
    method RevertChanges() returns (threw: bool)
      modifies this`undos
      ensures threw <==> false in old(undos)
      ensures threw <==> false in undos
      ensures !threw ==> undos == []
    {
      threw := false;
      while undos != []
        invariant false in undos <==> false in old(undos)
        decreases |undos|
      {
        var n := |undos| - 1;
        if !undos[n] { return true; }
        assert undos == undos[..n] + [undos[n]];
        undos := undos[..n];
      }
    }

    /** Undo first, then the release: a throwing undo keeps the timestamp. */
    method Abort() returns (threw: bool)
      requires Valid()
      modifies this
      ensures Valid() && writes == old(writes)
      ensures threw <==> kind == Update && false in old(undos)
      ensures threw ==> held == old(held) && calls == old(calls) && false in undos
      ensures !threw ==> held.None? && (kind == Update ==> undos == [])
      ensures old(held).None? ==> calls == old(calls)
      ensures old(held).Some? && !threw ==> calls == [Undone(kind, given)]
    {
      threw := false;
      if kind == Update {
        threw := RevertChanges();
        if threw { return; }
      }
      if held.Some? {
        Tell(Undone(kind, held.value));
      }
    }

    method Clear(c: Call)
      requires kind == Compact && held.None? && calls == [c] && Valid()
      modifies this`calls
      ensures Valid() && calls == [c, ClearManager]
    {
      CountAppend(calls, ClearManager);
      calls := calls + [ClearManager];
      assert calls[0] == c && calls[1] == ClearManager;
    }

    /** What is in the log is given back as done; a compaction then clears the manager. */
    method Settle()
      requires Valid() && held.Some? && kind != Read
      modifies this
      ensures Valid() && held.None? && undos == [] && writes == old(writes)
      ensures kind == Insert ==> calls == [ReleaseInsert(given)]
      ensures kind == Update ==> calls == [ReleaseUpdate(given)]
      ensures kind == Compact ==> calls == [ReleaseUpdate(given), ClearManager]
    {
      var c := if kind == Insert then ReleaseInsert(held.value) else ReleaseUpdate(held.value);
      assert Fits(kind, given, c);
      Tell(c);
      assert calls == [c];
      undos := [];
      if kind == Compact { Clear(c); }
    }

    /** False when the log refused the records. */
    method Commit(log: LogOutcome) returns (ok: bool, threw: bool)
      requires Valid()
      modifies this
      ensures Valid() && writes == old(writes)
      ensures old(held).None? ==> held.None?
      ensures old(held).Some? ==>
        (held.None? <==> || kind == Read || (kind != Compact && old(writes) == 0) || log == Appended
                         || (log == Refused && !(kind == Update && false in old(undos))))
      ensures held.Some? ==> (false in undos <==> false in old(undos))
      ensures old(held).None? ==> calls == old(calls)
      ensures old(held).Some? && kind == Compact && log == Appended ==> calls == [ReleaseUpdate(given), ClearManager]
      ensures old(held).Some? && kind == Compact && log == Refused ==> calls == [RevertUpdate(given)]
    {
      ok, threw := true, false;
      if held.None? { return; }
      if kind == Read {
        Tell(ReleaseRead);
      } else if kind != Compact && writes == 0 {
        Tell(if kind == Insert then ReleaseInsert(held.value) else ReleaseUpdate(held.value));
        undos := [];
      } else if log == Thrown {
        ok, threw := false, true;
      } else if log == Refused {
        threw := Abort();
        ok := false;
      } else {
        Settle();
      }
    }

    /** Any use at all, then destruction. */
    method Live(uses: seq<Use>)
      requires Valid() && held.Some? && writes == 0 && undos == []
      modifies this
      ensures Valid()
      ensures held.None? <==> Returned(kind, uses)
      ensures kind == Compact ==>
        calls == if CompactedBy(uses, |uses|) then [ReleaseUpdate(given), ClearManager] else [RevertUpdate(given)]
    {
      for n := 0 to |uses|
        invariant Valid()
        invariant held.None? <==> ReleasedBy(kind, uses, n)
        invariant held.Some? ==> (writes > 0 <==> WroteBefore(uses, n))
        invariant held.Some? && kind == Update ==> (false in undos <==> BadBefore(uses, n))
        invariant held.Some? && kind == Compact ==> !CompactedBy(uses, n)
        invariant held.None? && kind == Compact ==>
          calls == if CompactedBy(uses, n) then [ReleaseUpdate(given), ClearManager] else [RevertUpdate(given)]
      {
        assert CompactedBy(uses, n + 1) <==> CompactedBy(uses, n) || Compacts(uses, n);
        CompactsFirst(uses, n);
        assert ReleasedBy(kind, uses, n + 1) <==> ReleasedBy(kind, uses, n) || Releases(kind, uses, n);
        assert WroteBefore(uses, n + 1) <==> WroteBefore(uses, n) || uses[n].Write?;
        assert BadBefore(uses, n + 1) <==> BadBefore(uses, n) || uses[n] == Write(false);
        match uses[n]
        case Write(u) => AddRecord(u);
        case Commit(log) => var _, _ := Commit(log);
        case Abort => var _ := Abort();
      }
      var _ := Abort();
    }
  }

  /** Never twice and always by the right call; once exactly if some use or the destructor gets to the release. */
  method UseTransaction(kind: Kind, ts: nat, uses: seq<Use>) returns (calls: seq<Call>)
    ensures Count(calls) <= 1 && (Count(calls) == 1 <==> Returned(kind, uses))
    ensures forall i | 0 <= i < |calls| :: Fits(kind, ts, calls[i])
    ensures kind == Compact ==>
      calls == if CompactedBy(uses, |uses|) then [ReleaseUpdate(ts), ClearManager] else [RevertUpdate(ts)]
  {
    var txn := new Transaction(kind, ts);
    txn.Live(uses);
    calls := txn.calls;
  }

  /** Only an update can keep its timestamp for good. */
  lemma OthersReturn(k: Kind, uses: seq<Use>)
    requires k != Update
    ensures Returned(k, uses)
  {
  }

  /** A commit the log took, or one of a transaction that wrote nothing yet, or an abort. */
  predicate Settles(uses: seq<Use>, n: nat)
    requires n < |uses|
  {
    uses[n] == Abort || (uses[n].Commit? && !(uses[n].log == Thrown && WroteBefore(uses, n)))
  }

  /**
   * An update keeps its timestamp for good exactly if some write leaves an undo record that
   * throws, nothing settled the transaction before it, and no later commit reaches the log.
   */
  predicate Stranded(uses: seq<Use>, b: nat)
    requires b < |uses|
  {
    && uses[b] == Write(false)
    && (forall n | 0 <= n < b :: !Settles(uses, n))
    && (forall n | b < n < |uses| :: uses[n] != Commit(Appended))
  }

  lemma UpdateStrandedExact(uses: seq<Use>)
    ensures Returned(Update, uses) <==> forall b | 0 <= b < |uses| :: !Stranded(uses, b)
  {
    if b: nat :| b < |uses| && Stranded(uses, b) {
      forall n: nat | n < |uses| ensures !Releases(Update, uses, n) {
        if n < b { assert !Settles(uses, n); }
        assert b < n ==> BadBefore(uses, n) && WroteBefore(uses, n);
      }
    } else if !Returned(Update, uses) {
      var b := FirstBad(uses, |uses|);
      forall n: nat | n < b ensures !Settles(uses, n) { assert !Releases(Update, uses, n) && !BadBefore(uses, n); }
      forall n: nat | b < n < |uses| ensures uses[n] != Commit(Appended) { assert !Releases(Update, uses, n); }
      assert Stranded(uses, b);
    }
  }

  lemma {:induction false} FirstBad(uses: seq<Use>, n: nat) returns (b: nat)
    requires n <= |uses| && BadBefore(uses, n)
    ensures b < n && uses[b] == Write(false) && !BadBefore(uses, b)
  {
    if BadBefore(uses, n - 1) {
      b := FirstBad(uses, n - 1);
    } else {
      b := n - 1;
    }
  }

  /**
   * One write whose undo throws, and nothing else: the exception leaves the destructor, which ends the
   * process, and the timestamp is never given back.
   */
  lemma ThrowingUndoStrands()
    ensures !Returned(Update, [Write(false)])
  {
    var uses := [Write(false)];
    assert uses[0] == Write(false);
    assert Stranded(uses, 0);
    UpdateStrandedExact(uses);
  }

  // ------------------------------------------------------------------------------------
  // The driver
  // ------------------------------------------------------------------------------------

  datatype Flags = Flags(read: bool, insert: bool, update: bool, schema: bool, batch: bool,
                         tempTable: bool, checkpoint: bool, procedure: bool)

  datatype Mode = ReadMode | InsertMode | UpdateMode | SchemaMode | OtherMode

  predicate IsReadOnly(f: Flags) {
    !(f.insert || f.update || f.schema || f.batch || f.tempTable || f.checkpoint || f.procedure)
  }

  predicate IsInsertOnly(f: Flags) {
    f.insert && !(f.read || f.update || f.schema || f.batch || f.tempTable || f.checkpoint || f.procedure)
  }

  function ValidateFlags(mode: Mode, f: Flags, readOnlyDb: bool): (ok: bool)
    ensures mode == ReadMode ==> (ok <==> f == Flags(f.read, false, false, false, false, false, false, false))
    ensures mode == InsertMode ==>
      (ok <==> !readOnlyDb && f == Flags(false, true, false, false, false, false, false, false))
    ensures mode != ReadMode && mode != InsertMode ==> (ok <==> !readOnlyDb && !f.batch && !f.tempTable)
  {
    if readOnlyDb && (!IsReadOnly(f) || mode != ReadMode) then false
    else if mode == ReadMode && !IsReadOnly(f) then false
    else if mode == InsertMode && !IsInsertOnly(f) then false
    else !(f.tempTable || f.batch)
  }

  datatype Pipeline = NoPlan | Fails | Runs

  function KindOf(mode: Mode): (k: Option<Kind>) {
    match mode
    case ReadMode => Some(Read)
    case InsertMode => Some(Insert)
    case UpdateMode => Some(Update)
    case SchemaMode => Some(Update)
    case OtherMode => None
  }

  /** What ExecutePipelineInTransaction does with the transaction: no plan and rejected flags leave it alone. */
  function UsesOf(mode: Mode, f: Flags, readOnlyDb: bool, p: Pipeline, writes: seq<bool>,
                  log: LogOutcome): (uses: seq<Use>) {
    if p == NoPlan || !ValidateFlags(mode, f, readOnlyDb) then []
    else seq(|writes|, i requires 0 <= i < |writes| => Write(writes[i])) + [if p == Fails then Abort else Commit(log)]
  }

  /** A query, and the end of its transaction's scope. */
  method Eval(mode: Mode, f: Flags, readOnlyDb: bool, p: Pipeline, writes: seq<bool>, log: LogOutcome, ts: nat)
    returns (calls: seq<Call>)
    ensures KindOf(mode).None? ==> calls == []
    ensures KindOf(mode).Some? ==>
      && Count(calls) <= 1
      && (Count(calls) == 1 <==> Returned(KindOf(mode).value, UsesOf(mode, f, readOnlyDb, p, writes, log)))
      && forall i | 0 <= i < |calls| :: Fits(KindOf(mode).value, ts, calls[i])
    ensures mode == OtherMode ==> calls == []
    ensures mode == ReadMode ==> calls == [ReleaseRead]
    ensures mode == InsertMode ==> calls == [ReleaseInsert(ts)]
    ensures mode == UpdateMode || mode == SchemaMode ==>
      calls == if Keeps(mode, f, readOnlyDb, p, writes, log) then [] else [ReleaseUpdate(ts)]
  {
    if KindOf(mode).None? { return []; }
    calls := UseTransaction(KindOf(mode).value, ts, UsesOf(mode, f, readOnlyDb, p, writes, log));
    QueryStrandedExact(mode, f, readOnlyDb, p, writes, log);
    CountAll(calls);
  }

  /** An undo throws and the records did not reach the log. */
  predicate Keeps(mode: Mode, f: Flags, readOnlyDb: bool, p: Pipeline, writes: seq<bool>, log: LogOutcome) {
    false in writes && p != NoPlan && ValidateFlags(mode, f, readOnlyDb) && !(p == Runs && log == Appended)
  }

  lemma {:induction false} CountAll(calls: seq<Call>)
    requires forall i | 0 <= i < |calls| :: GivesBack(calls[i])
    ensures Count(calls) == |calls|
  {
    if calls != [] { CountAll(calls[..|calls| - 1]); }
  }

  /** A query keeps its timestamp exactly if it updates, an undo throws, and its records did not reach the log. */
  lemma QueryStrandedExact(mode: Mode, f: Flags, readOnlyDb: bool, p: Pipeline, writes: seq<bool>, log: LogOutcome)
    requires KindOf(mode).Some?
    ensures !Returned(KindOf(mode).value, UsesOf(mode, f, readOnlyDb, p, writes, log)) <==>
              (mode == UpdateMode || mode == SchemaMode) && Keeps(mode, f, readOnlyDb, p, writes, log)
  {
    var k, uses := KindOf(mode).value, UsesOf(mode, f, readOnlyDb, p, writes, log);
    if k != Update {
      OthersReturn(k, uses);
    } else if uses != [] {
      var n := |writes|;
      assert uses[n] == if p == Fails then Abort else Commit(log);
      forall i: nat | i < n ensures uses[i] == Write(writes[i]) { }
      if false in writes {
        var b: nat :| b < n && writes[b] == false;
        assert BadBefore(uses, n) && WroteBefore(uses, n) && BadBefore(uses, |uses|);
        assert ReleasedBy(k, uses, |uses|) <==> Releases(k, uses, n);
      } else {
        assert !BadBefore(uses, |uses|);
      }
    }
  }

  // ------------------------------------------------------------------------------------
  // The calls as steps of the protocol
  // ------------------------------------------------------------------------------------

  /** Where a session stands while it holds a timestamp of this kind. */
  predicate Holds(k: Kind, ts: nat, p: VM.Pc) {
    match k
    case Read => p == VM.Reading(ts)
    case Insert => p == VM.Inserting(ts)
    case _ => p == VM.Updating(ts)
  }

  /** The atomic steps of one release call. */
  function StepsOf(c: Call): (acts: seq<VM.Act>) {
    match c
    case ReleaseRead => [VM.ReleaseRead]
    case ReleaseInsert(_) => [VM.Publish, VM.Leave]
    case ReleaseUpdate(_) => [VM.Publish, VM.GiveBack, VM.Unclaim]
    case RevertUpdate(_) => [VM.Revert, VM.GiveBack, VM.Unclaim]
    case ClearManager => []
  }

  /** The session's own place after its steps, whatever other sessions do in between; None if one is not its turn. */
  function Walk(p: VM.Pc, acts: seq<VM.Act>): (r: Option<VM.Pc>)
    decreases |acts|
  {
    if acts == [] then Some(p)
    else match Next(p, acts[0])
      case None => None
      case Some(q) => Walk(q, acts[1..])
  }

  function Next(p: VM.Pc, a: VM.Act): (r: Option<VM.Pc>) {
    match a
    case ReleaseRead => if p.Reading? then Some(VM.Idle) else None
    case Publish => if p.Inserting? then Some(VM.Published) else if p.Updating? then Some(VM.Leaving) else None
    case Leave => if p.Published? then Some(VM.Idle) else None
    case Revert => if p.Updating? then Some(VM.Leaving) else None
    case GiveBack => if p.Leaving? then Some(VM.Returned) else None
    case Unclaim => if p.Returned? then Some(VM.Idle) else None
    case _ => None
  }

  /** `Next` is what the protocol does to the session that takes the step. */
  lemma NextIsProtocol(c: VM.Config, s: VM.State, i: nat, a: VM.Act)
    requires VM.Counted(c, s) && i < c.sessions && Next(s.pcs[i], a).Some?
    ensures VM.Enabled(c, s, i, a) && VM.Exec(c, s, i, a).pcs[i] == Next(s.pcs[i], a).value
  {
  }

  /** One fitting call takes the session back to idle; a second one would be out of turn. */
  lemma OneCallReturnsToIdle(k: Kind, ts: nat, p: VM.Pc, c: Call, again: Call)
    requires Holds(k, ts, p) && Fits(k, ts, c) && GivesBack(c) && Fits(k, ts, again) && GivesBack(again)
    ensures Walk(p, StepsOf(c)) == Some(VM.Idle)
    ensures Walk(VM.Idle, StepsOf(again)).None?
  {
    match c
    case ReleaseRead => WalkFirst(p, VM.ReleaseRead, []);
    case ReleaseInsert(_) =>
      WalkFirst(p, VM.Publish, [VM.Leave]);
      WalkFirst(VM.Published, VM.Leave, []);
    case ReleaseUpdate(_) =>
      WalkFirst(p, VM.Publish, [VM.GiveBack, VM.Unclaim]);
      LeavesUpdate();
    case RevertUpdate(_) =>
      WalkFirst(p, VM.Revert, [VM.GiveBack, VM.Unclaim]);
      LeavesUpdate();
  }

  lemma LeavesUpdate()
    ensures Walk(VM.Leaving, [VM.GiveBack, VM.Unclaim]) == Some(VM.Idle)
  {
    WalkFirst(VM.Leaving, VM.GiveBack, [VM.Unclaim]);
    WalkFirst(VM.Returned, VM.Unclaim, []);
  }

  lemma WalkFirst(p: VM.Pc, a: VM.Act, rest: seq<VM.Act>)
    requires Next(p, a).Some?
    ensures Walk(p, [a] + rest) == Walk(Next(p, a).value, rest)
  {
    assert ([a] + rest)[1..] == rest;
  }

  // ------------------------------------------------------------------------------------
  // The session pool
  // ------------------------------------------------------------------------------------

  predicate NoRepeats(s: seq<nat>) { forall i, j | 0 <= i < j < |s| :: s[i] != s[j] }

  class SessionPool {
    const num: nat
    var available: seq<nat>
    ghost var lent: set<nat>

    /** Every session is either available, once, or lent. */
    ghost predicate Valid()
      reads this
    {
      && NoRepeats(available)
      && (forall id: nat :: id < num <==> id in available || id in lent)
      && (forall id | id in lent :: id !in available)
    }

    constructor (num: nat)
      ensures Valid() && this.num == num && lent == {}
    {
      this.num := num;
      available := seq(num, i => i);
      lent := {};
      new;
      forall id: nat ensures id < this.num <==> id in available {
        if id < this.num { assert available[id] == id; }
      }
    }

    /** First in, first out; None where the caller has to wait. */
    method Acquire() returns (id: Option<nat>)
      requires Valid()
      modifies this
      ensures Valid()
      ensures id.None? <==> old(available) == []
      ensures id.None? ==> available == old(available) && lent == old(lent)
      ensures id.Some? ==>
        old(available) == [id.value] + available && id.value !in old(lent) && lent == old(lent) + {id.value}
    {
      if available == [] { return None; }
      id := Some(available[0]);
      var rest := available[1..];
      assert available == [id.value] + rest;
      forall i: nat ensures i in available <==> i == id.value || i in rest { }
      lent := lent + {id.value};
      available := rest;
    }

    /** What the guard of a lent session does when it goes out of scope. */
    method Release(id: nat)
      requires Valid() && id in lent
      modifies this
      ensures Valid() && available == old(available) + [id] && lent == old(lent) - {id}
    {
      available := available + [id];
      lent := lent - {id};
    }
  }
}
