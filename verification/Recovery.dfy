/**
 * Reading the log back: LocalWalParser::open and NeugDB::ingestWals.
 */
module Recovery {
  import opened VersionManager
  import opened Exclusion
  import opened Frontier

  /** One logged unit: its header and an opaque body.  An update with an empty body is a compaction. */
  datatype Unit = Unit(ts: nat, update: bool, body: seq<int>)

  /** What reaches the graph, in the order it reaches it. */
  datatype Event =
    | IngestInsert(ts: nat, body: seq<int>)
    | IngestUpdate(ts: nat, body: seq<int>)
    | Compact(ts: nat)

  const INITIAL_SLOTS: nat := 4096

  // ------------------------------------------------------------------------------------
  // The parser
  // ------------------------------------------------------------------------------------

  /** A file is read up to the first header with timestamp 0. */
  function Readable(file: seq<Unit>): (us: seq<Unit>) {
    if file == [] || file[0].ts == 0 then [] else [file[0]] + Readable(file[1..])
  }

  function Flatten(files: seq<seq<Unit>>): (us: seq<Unit>) {
    if files == [] then [] else Readable(files[0]) + Flatten(files[1..])
  }

  function Updates(us: seq<Unit>): (r: seq<Unit>) {
    if us == [] then []
    else Updates(us[..|us| - 1]) + (if us[|us| - 1].update then [us[|us| - 1]] else [])
  }

  /** Later units overwrite earlier ones of the same timestamp. */
  function LastInsert(us: seq<Unit>, t: nat): (body: seq<int>) {
    if us == [] then []
    else var u := us[|us| - 1];
      if !u.update && u.ts == t then u.body else LastInsert(us[..|us| - 1], t)
  }

  function Max(a: nat, b: nat): (m: nat) { if a < b then b else a }

  /** The table of inserts grows with insert timestamps only. */
  function Slots(us: seq<Unit>): (n: nat)
    ensures INITIAL_SLOTS <= n
    ensures forall k | 0 <= k < |us| && !us[k].update :: us[k].ts < n
  {
    if us == [] then INITIAL_SLOTS
    else
      var u := us[|us| - 1];
      var n := Slots(us[..|us| - 1]);
      assert forall k | 0 <= k < |us| - 1 :: us[..|us| - 1][k] == us[k];
      if u.update then n else Max(n, u.ts + 1)
  }

  function LastTs(us: seq<Unit>): (t: nat)
    ensures forall k | 0 <= k < |us| :: us[k].ts <= t
  {
    if us == [] then 0
    else
      var t := LastTs(us[..|us| - 1]);
      assert forall k | 0 <= k < |us| - 1 :: us[..|us| - 1][k] == us[k];
      Max(t, us[|us| - 1].ts)
  }

  /** The largest timestamp of a log; 0 if there is none. */
  predicate IsLast(us: seq<Unit>, t: nat) {
    && (forall k | 0 <= k < |us| :: us[k].ts <= t)
    && (us == [] ==> t == 0)
    && (us != [] ==> exists k :: 0 <= k < |us| && us[k].ts == t)
  }

  lemma {:induction false} LastTsIs(us: seq<Unit>)
    ensures IsLast(us, LastTs(us))
  {
    if us != [] {
      var n := |us| - 1;
      LastTsIs(us[..n]);
      if LastTs(us) == us[n].ts {
        assert us[n].ts == LastTs(us);
      } else {
        var k :| 0 <= k < n && us[..n][k].ts == LastTs(us[..n]);
        assert us[k].ts == LastTs(us);
      }
    }
  }

  /** The table has its first size, or ends right behind the latest insert. */
  lemma {:induction false} SlotsIs(us: seq<Unit>)
    ensures Slots(us) == 4096 || exists k :: 0 <= k < |us| && !us[k].update && us[k].ts + 1 == Slots(us)
  {
    if us != [] {
      var n := |us| - 1;
      SlotsIs(us[..n]);
      if Slots(us[..n]) != INITIAL_SLOTS {
        var k :| 0 <= k < n && !us[..n][k].update && us[..n][k].ts + 1 == Slots(us[..n]);
        assert us[k] == us[..n][k];
      }
      assert us[n].update || us[n].ts + 1 == us[n].ts + 1;
    }
  }

  predicate InsertAt(us: seq<Unit>, k: nat, t: nat) { k < |us| && !us[k].update && us[k].ts == t }

  /** No later insert has the timestamp. */
  ghost predicate LastAt(us: seq<Unit>, k: nat, t: nat) {
    InsertAt(us, k, t) && forall j: nat | k < j :: !InsertAt(us, j, t)
  }

  /** The slot of a timestamp holds the body of the last insert with it, or nothing. */
  lemma {:induction false} LastInsertExact(us: seq<Unit>, t: nat)
    ensures (LastInsert(us, t) == [] && forall k: nat :: !InsertAt(us, k, t))
            || exists k: nat :: LastAt(us, k, t) && LastInsert(us, t) == us[k].body
  {
    if us != [] {
      var n := |us| - 1;
      if InsertAt(us, n, t) {
        assert LastAt(us, n, t);
      } else {
        LastInsertExact(us[..n], t);
        forall k: nat ensures InsertAt(us, k, t) <==> InsertAt(us[..n], k, t) { }
        if k: nat :| LastAt(us[..n], k, t) && LastInsert(us[..n], t) == us[..n][k].body { assert LastAt(us, k, t); }
      }
    }
  }

  predicate SortedByTs(us: seq<Unit>) {
    forall i, j | 0 <= i < j < |us| :: us[i].ts <= us[j].ts
  }

  predicate IsTable(table: seq<seq<int>>, us: seq<Unit>) {
    && |table| == Slots(us)
    && forall t | 0 <= t < |table| :: table[t] == LastInsert(us, t)
  }

  function Blank(n: nat): (table: seq<seq<int>>)
    ensures |table| == n && forall t | 0 <= t < n :: table[t] == []
  {
    seq(n, _ => [])
  }

  function Stored(table: seq<seq<int>>, u: Unit): (r: seq<seq<int>>) {
    var room := if u.ts >= |table| then table + Blank(u.ts + 1 - |table|) else table;
    room[u.ts := u.body]
  }

  lemma LastInsertStep(us: seq<Unit>, u: Unit, t: nat)
    ensures LastInsert(us + [u], t) == if !u.update && u.ts == t then u.body else LastInsert(us, t)
  {
    assert (us + [u])[..|us + [u]| - 1] == us;
  }

  lemma SlotsStep(us: seq<Unit>, u: Unit)
    ensures Slots(us + [u]) == if u.update then Slots(us) else Max(Slots(us), u.ts + 1)
  {
    assert (us + [u])[..|us + [u]| - 1] == us;
  }

  lemma TableSkips(table: seq<seq<int>>, us: seq<Unit>, u: Unit)
    requires IsTable(table, us) && u.update
    ensures IsTable(table, us + [u])
  {
    SlotsStep(us, u);
    forall t: nat | t < |table| ensures table[t] == LastInsert(us + [u], t) {
      LastInsertStep(us, u, t);
    }
  }

  lemma TableGrows(table: seq<seq<int>>, us: seq<Unit>, u: Unit)
    requires IsTable(table, us) && !u.update
    ensures IsTable(Stored(table, u), us + [u])
  {
    SlotsStep(us, u);
    var r := Stored(table, u);
    forall t: nat | t < |r| ensures r[t] == LastInsert(us + [u], t) {
      LastInsertStep(us, u, t);
      if |table| <= t { SlotsEmptyBeyond(us, t); }
    }
  }

  /** No insert was read for a timestamp past the table. */
  lemma {:induction false} SlotsEmptyBeyond(us: seq<Unit>, t: nat)
    requires Slots(us) <= t
    ensures LastInsert(us, t) == []
  {
    if us != [] { SlotsEmptyBeyond(us[..|us| - 1], t); }
  }

  class LocalWalParser {
    var inserts: seq<seq<int>>
    var updates: seq<Unit>
    var lastTs: nat

    constructor ()
      ensures Holds([])
    {
      inserts := Blank(INITIAL_SLOTS);
      updates, lastTs := [], 0;
    }

    method Open(files: seq<seq<Unit>>)
      requires Holds([])
      modifies this
      ensures Parsed(Flatten(files))
    {
      ghost var seen: seq<Unit> := [];
      var f := 0;
      assert files[0..] == files;
      while f < |files|
        invariant 0 <= f <= |files|
        invariant seen + Flatten(files[f..]) == Flatten(files)
        invariant Holds(seen)
      {
        ReadFile(files[f], seen);
        FlattenStep(seen, files, f);
        seen := seen + Readable(files[f]);
        f := f + 1;
      }
      assert seen + [] == seen;
      updates := SortUnits(updates);
      LastTsIs(seen);
    }

    method ReadFile(file: seq<Unit>, ghost seen: seq<Unit>)
      requires Holds(seen)
      modifies this
      ensures Holds(seen + Readable(file))
    {
      ghost var all_ := seen;
      var k := 0;
      assert file[k..] == file;
      while k < |file| && file[k].ts != 0
        invariant 0 <= k <= |file|
        invariant all_ + Readable(file[k..]) == seen + Readable(file)
        invariant Holds(all_)
      {
        ReadableStep(all_, file, k);
        Take(file[k], all_);
        all_ := all_ + [file[k]];
        k := k + 1;
      }
      assert all_ + [] == all_;
    }

    /** The finished tables: the last insert of each timestamp, the updates in order. */
    ghost predicate Parsed(us: seq<Unit>)
      reads this
    {
      && IsTable(inserts, us)
      && SortedByTs(updates) && multiset(updates) == multiset(Updates(us))
      && lastTs == LastTs(us) && IsLast(us, lastTs)
    }

    /** The tables describe the units read so far. */
    ghost predicate Holds(seen: seq<Unit>)
      reads this
    {
      && IsTable(inserts, seen)
      && updates == Updates(seen)
      && lastTs == LastTs(seen)
    }

    method Take(u: Unit, ghost seen: seq<Unit>)
      requires Holds(seen)
      modifies this
      ensures Holds(seen + [u])
    {
      assert (seen + [u])[..|seen + [u]| - 1] == seen;
      if u.update {
        TableSkips(inserts, seen, u);
        updates := updates + [u];
      } else {
        TableGrows(inserts, seen, u);
        if u.ts >= |inserts| {
          inserts := inserts + Blank(u.ts + 1 - |inserts|);
        }
        inserts := inserts[u.ts := u.body];
      }
      lastTs := Max(lastTs, u.ts);
    }
  }

  lemma ReadableStep(seen: seq<Unit>, file: seq<Unit>, k: nat)
    requires k < |file| && file[k].ts != 0
    ensures seen + Readable(file[k..]) == (seen + [file[k]]) + Readable(file[k + 1..])
  {
    assert file[k..][1..] == file[k + 1..];
  }

  lemma FlattenStep(seen: seq<Unit>, files: seq<seq<Unit>>, f: nat)
    requires f < |files|
    ensures seen + Flatten(files[f..]) == (seen + Readable(files[f])) + Flatten(files[f + 1..])
  {
    assert files[f..][1..] == files[f + 1..];
  }

  lemma SpliceSorted(r: seq<Unit>, k: nat, u: Unit)
    requires SortedByTs(r) && k <= |r|
    requires k == 0 || r[k - 1].ts <= u.ts
    requires forall j | k <= j < |r| :: u.ts < r[j].ts
    ensures SortedByTs(r[..k] + [u] + r[k..])
  {
    var q := r[..k] + [u] + r[k..];
    forall i, j | 0 <= i < j < |q| ensures q[i].ts <= q[j].ts {
      assert q[i] == if i < k then r[i] else if i == k then u else r[i - 1];
      assert q[j] == if j < k then r[j] else if j == k then u else r[j - 1];
    }
  }

  lemma SpliceElements(r: seq<Unit>, k: nat, u: Unit)
    requires k <= |r|
    ensures multiset(r[..k] + [u] + r[k..]) == multiset(r) + multiset{u}
  {
    assert r == r[..k] + r[k..];
  }

  /** Inserts one unit behind every unit that is not newer. */
  method InsertUnit(r: seq<Unit>, u: Unit) returns (q: seq<Unit>)
    requires SortedByTs(r)
    ensures SortedByTs(q) && multiset(q) == multiset(r) + multiset{u}
  {
    var k := |r|;
    while 0 < k && u.ts < r[k - 1].ts
      invariant 0 <= k <= |r|
      invariant forall j | k <= j < |r| :: u.ts < r[j].ts
    {
      k := k - 1;
    }
    q := r[..k] + [u] + r[k..];
    SpliceSorted(r, k, u);
    SpliceElements(r, k, u);
  }

  method SortUnits(us: seq<Unit>) returns (r: seq<Unit>)
    ensures SortedByTs(r) && multiset(r) == multiset(us)
  {
    r := [];
    for n := 0 to |us|
      invariant SortedByTs(r)
      invariant multiset(r) == multiset(us[..n])
    {
      assert us[..n + 1] == us[..n] + [us[n]];
      r := InsertUnit(r, us[n]);
    }
    assert us[..|us|] == us;
  }

  // ------------------------------------------------------------------------------------
  // Replaying the tables
  // ------------------------------------------------------------------------------------

  predicate HasUpdate(us: seq<Unit>, t: nat) {
    exists k | 0 <= k < |us| :: us[k].ts == t
  }

  predicate StrictTs(us: seq<Unit>) {
    forall i, j | 0 <= i < j < |us| :: us[i].ts < us[j].ts
  }

  predicate Stamped(us: seq<Unit>, last: nat) {
    forall k | 0 <= k < |us| :: 1 <= us[k].ts <= last
  }

  function UpdateEvent(u: Unit): (e: Event) {
    if |u.body| == 0 then Compact(u.ts) else IngestUpdate(u.ts, u.body)
  }

  /** The event recovery owes to timestamp t. */
  ghost predicate OwnEvent(e: Event, inserts: seq<seq<int>>, updates: seq<Unit>, t: nat) {
    if HasUpdate(updates, t)
    then exists k | 0 <= k < |updates| ::
      updates[k].ts == t && e == if |updates[k].body| == 0 then Compact(t) else IngestUpdate(t, updates[k].body)
    else t < |inserts| && e == IngestInsert(t, inserts[t])
  }

  /** Every timestamp below `to` once, in order, each with its own event. */
  ghost predicate InOrder(trace: seq<Event>, inserts: seq<seq<int>>, updates: seq<Unit>, to: nat) {
    && |trace| + 1 == to
    && forall i | 0 <= i < |trace| :: OwnEvent(trace[i], inserts, updates, i + 1)
  }

  /** Every timestamp below `to` that no update took has a slot in the table. */
  ghost predicate GapsCovered(slots: nat, updates: seq<Unit>, to: nat) {
    forall t: nat | slots <= t < to && 1 <= t :: HasUpdate(updates, t)
  }

  /** The inserts of a range of timestamps, empty bodies included. */
  function Range(inserts: seq<seq<int>>, from: nat, to: nat): (r: seq<Event>)
    requires from <= to <= |inserts|
    ensures |r| == to - from
    ensures forall i | 0 <= i < |r| :: r[i] == IngestInsert(from + i, inserts[from + i])
  {
    seq(to - from, i requires 0 <= i < to - from => IngestInsert(from + i, inserts[from + i]))
  }

  lemma ExtendRange(trace: seq<Event>, inserts: seq<seq<int>>, updates: seq<Unit>, from: nat, to: nat)
    requires InOrder(trace, inserts, updates, from) && from <= to <= |inserts|
    requires forall t | from <= t < to :: !HasUpdate(updates, t)
    ensures InOrder(trace + Range(inserts, from, to), inserts, updates, to)
  {
    var all_ := trace + Range(inserts, from, to);
    forall i | 0 <= i < |all_| ensures OwnEvent(all_[i], inserts, updates, i + 1) {
      if |trace| <= i { assert !HasUpdate(updates, i + 1); }
    }
  }

  lemma ExtendUpdate(trace: seq<Event>, inserts: seq<seq<int>>, updates: seq<Unit>, k: nat)
    requires k < |updates| && InOrder(trace, inserts, updates, updates[k].ts)
    ensures InOrder(trace + [UpdateEvent(updates[k])], inserts, updates, updates[k].ts + 1)
  {
    var all_ := trace + [UpdateEvent(updates[k])];
    assert HasUpdate(updates, updates[k].ts);
    forall i | 0 <= i < |all_| ensures OwnEvent(all_[i], inserts, updates, i + 1) { }
  }

  /** What the loop keeps: everything below `to` is covered, and in order if no timestamp repeats. */
  ghost predicate Replayed(trace: seq<Event>, inserts: seq<seq<int>>, updates: seq<Unit>, to: nat) {
    && GapsCovered(|inserts|, updates, to)
    && (StrictTs(updates) ==> InOrder(trace, inserts, updates, to))
  }

  /** The first timestamp the loop has not passed once it took the first k updates. */
  function After(updates: seq<Unit>, k: nat): (t: nat)
    requires k <= |updates|
  {
    if k == 0 then 1 else updates[k - 1].ts + 1
  }

  /** Between two neighbouring updates no timestamp belongs to an update. */
  lemma NoUpdateBetween(updates: seq<Unit>, k: nat, t: nat)
    requires SortedByTs(updates) && k <= |updates|
    requires After(updates, k) <= t && (k < |updates| ==> t < updates[k].ts)
    ensures !HasUpdate(updates, t)
  {
    forall i | 0 <= i < |updates| ensures updates[i].ts != t {
      if i < k - 1 { assert updates[i].ts <= updates[k - 1].ts; }
      if k < i { assert updates[k].ts <= updates[i].ts; }
    }
  }

  /** The timestamp the k-th range runs up to. */
  function Until(updates: seq<Unit>, k: nat, last: nat): (t: nat)
    requires k <= |updates|
  {
    if k < |updates| then updates[k].ts else last + 1
  }

  /** A range that runs off the table contains an uncovered timestamp. */
  lemma RangeCovered(slots: nat, updates: seq<Unit>, k: nat, last: nat)
    requires SortedByTs(updates) && Stamped(updates, last) && k <= |updates|
    requires GapsCovered(slots, updates, After(updates, k))
    requires After(updates, k) < Until(updates, k, last)
    ensures slots < Until(updates, k, last) ==> !GapsCovered(slots, updates, last + 1)
    ensures Until(updates, k, last) <= slots ==> GapsCovered(slots, updates, Until(updates, k, last))
  {
    if slots < Until(updates, k, last) {
      var t := Max(slots, After(updates, k));
      NoUpdateBetween(updates, k, t);
      assert !HasUpdate(updates, t);
    }
  }

  lemma PassesRange(trace: seq<Event>, inserts: seq<seq<int>>, updates: seq<Unit>, k: nat, last: nat)
    requires SortedByTs(updates) && Stamped(updates, last) && k <= |updates|
    requires Replayed(trace, inserts, updates, After(updates, k))
    requires After(updates, k) < Until(updates, k, last) <= |inserts|
    ensures Replayed(trace + Range(inserts, After(updates, k), Until(updates, k, last)), inserts, updates,
        Until(updates, k, last))
  {
    var from, to := After(updates, k), Until(updates, k, last);
    RangeCovered(|inserts|, updates, k, last);
    if StrictTs(updates) {
      forall t | from <= t < to ensures !HasUpdate(updates, t) { NoUpdateBetween(updates, k, t); }
      ExtendRange(trace, inserts, updates, from, to);
    }
  }

  lemma PassesUpdate(trace: seq<Event>, inserts: seq<seq<int>>, updates: seq<Unit>, k: nat)
    requires k < |updates|
    requires Replayed(trace, inserts, updates, updates[k].ts)
    ensures Replayed(trace + [UpdateEvent(updates[k])], inserts, updates, updates[k].ts + 1)
  {
    assert HasUpdate(updates, updates[k].ts);
    if StrictTs(updates) { ExtendUpdate(trace, inserts, updates, k); }
  }

  /** An update right at, or (its timestamp repeated) behind, the point reached. */
  lemma NoRange(trace: seq<Event>, inserts: seq<seq<int>>, updates: seq<Unit>, k: nat, last: nat)
    requires Stamped(updates, last) && k <= |updates|
    requires Replayed(trace, inserts, updates, After(updates, k))
    requires Until(updates, k, last) <= After(updates, k)
    ensures Replayed(trace, inserts, updates, Until(updates, k, last))
  {
    if StrictTs(updates) && 0 < k < |updates| { assert updates[k - 1].ts < updates[k].ts; }
  }

  /** The latest compaction among the first k updates. */
  function LatestCompaction(updates: seq<Unit>, k: nat, before: nat): (t: nat)
    requires k <= |updates|
  {
    if k == 0 then before
    else if |updates[k - 1].body| == 0 then updates[k - 1].ts
    else LatestCompaction(updates, k - 1, before)
  }

  lemma {:induction false} LatestCompactionIs(updates: seq<Unit>, k: nat, before: nat)
    requires k <= |updates|
    ensures (LatestCompaction(updates, k, before) == before && forall i | 0 <= i < k :: |updates[i].body| > 0)
            || exists i :: 0 <= i < k && |updates[i].body| == 0 && LatestCompaction(updates, k, before) == updates[i].ts
                           && forall j | i < j < k :: |updates[j].body| > 0
  {
    if k > 0 && |updates[k - 1].body| > 0 {
      LatestCompactionIs(updates, k - 1, before);
    } else if k > 0 {
      assert |updates[k - 1].body| == 0;
    }
  }

  class NeugDB {
    var graph: seq<Event>
    var lastCompactionTs: nat
    var lastTs: nat

    /** `ok` is false when the range leaves the table, where the original reads out of bounds. */
    method IngestWalRange(inserts: seq<seq<int>>, from: nat, to: nat) returns (ok: bool)
      modifies this`graph
      ensures ok <==> (from < to ==> to <= |inserts|)
      ensures ok && from < to ==> graph == old(graph) + Range(inserts, from, to)
      ensures from >= to ==> graph == old(graph)
    {
      if from >= to { return true; }
      var j := from;
      while j < to
        invariant from <= j <= to && (j <= |inserts| || j == from)
        invariant |graph| == |old(graph)| + j - from
        invariant graph[..|old(graph)|] == old(graph)
        invariant forall i | from <= i < j ::
          i < |inserts| && graph[|old(graph)| + i - from] == IngestInsert(i, inserts[i])
      {
        if j >= |inserts| { return false; }
        graph := graph + [IngestInsert(j, inserts[j])];
        j := j + 1;
      }
      ok := true;
    }

    method IngestUpdateWal(u: Unit)
      modifies this`graph, this`lastCompactionTs
      ensures graph == old(graph) + [if |u.body| == 0 then Compact(u.ts) else IngestUpdate(u.ts, u.body)]
      ensures lastCompactionTs == if |u.body| == 0 then u.ts else old(lastCompactionTs)
    {
      if |u.body| == 0 {
        graph := graph + [Compact(u.ts)];
        lastCompactionTs := u.ts;
      } else {
        graph := graph + [IngestUpdate(u.ts, u.body)];
      }
    }

    /** The inserts in front of the k-th update, or behind the last one. */
    method CatchUp(p: LocalWalParser, k: nat, from: nat, ghost trace: seq<Event>)
      returns (ok: bool, ghost more: seq<Event>)
      requires SortedByTs(p.updates) && Stamped(p.updates, p.lastTs)
      requires k <= |p.updates| && from == After(p.updates, k)
      requires Replayed(trace, p.inserts, p.updates, from)
      modifies this`graph
      ensures !ok ==> !GapsCovered(|p.inserts|, p.updates, p.lastTs + 1)
      ensures ok ==> graph == old(graph) + more
      ensures ok ==> Replayed(trace + more, p.inserts, p.updates, Until(p.updates, k, p.lastTs))
    {
      var to := Until(p.updates, k, p.lastTs);
      more := [];
      if from < to {
        RangeCovered(|p.inserts|, p.updates, k, p.lastTs);
        ok := IngestWalRange(p.inserts, from, to);
        if ok {
          PassesRange(trace, p.inserts, p.updates, k, p.lastTs);
          more := Range(p.inserts, from, to);
        }
      } else {
        NoRange(trace, p.inserts, p.updates, k, p.lastTs);
        assert trace + [] == trace;
        ok := true;
      }
    }

    /** Replays a parsed log.  The parser guarantees the order and the bounds of the updates. */
    method IngestWals(p: LocalWalParser) returns (ok: bool)
      requires SortedByTs(p.updates) && Stamped(p.updates, p.lastTs)
      modifies this
      ensures ok <==> GapsCovered(|p.inserts|, p.updates, p.lastTs + 1)
      ensures ok ==> |old(graph)| <= |graph| && graph[..|old(graph)|] == old(graph)
      ensures ok && StrictTs(p.updates)
              ==> InOrder(graph[|old(graph)|..], p.inserts, p.updates, p.lastTs + 1)
      ensures ok ==> lastTs == p.lastTs
      ensures ok ==> lastCompactionTs == LatestCompaction(p.updates, |p.updates|, old(lastCompactionTs))
    {
      ghost var trace, more: seq<Event> := [], [];
      var k, from := 0, 1;
      while k < |p.updates|
        invariant 0 <= k <= |p.updates| && from == After(p.updates, k)
        invariant graph == old(graph) + trace
        invariant Replayed(trace, p.inserts, p.updates, from)
        invariant lastCompactionTs == LatestCompaction(p.updates, k, old(lastCompactionTs))
      {
        ok, more := CatchUp(p, k, from, trace);
        if !ok { return; }
        trace := trace + more;
        PassesUpdate(trace, p.inserts, p.updates, k);
        IngestUpdateWal(p.updates[k]);
        trace := trace + [UpdateEvent(p.updates[k])];
        k, from := k + 1, p.updates[k].ts + 1;
      }
      ok, more := CatchUp(p, k, from, trace);
      if !ok { return; }
      trace := trace + more;
      assert graph == old(graph) + trace;
      lastTs := p.lastTs;
    }
  }

  // ------------------------------------------------------------------------------------
  // What a whole recovery gives back
  // ------------------------------------------------------------------------------------

  /** The order in which recovery feeds the log `us` to the graph. */
  ghost predicate RecoversAs(us: seq<Unit>, table: seq<seq<int>>, updates: seq<Unit>, trace: seq<Event>) {
    && (forall k | 0 <= k < |us| :: 1 <= us[k].ts)
    && IsTable(table, us)
    && SortedByTs(updates) && multiset(updates) == multiset(Updates(us))
    && InOrder(trace, table, updates, LastTs(us) + 1)
  }

  /** A file is read up to its first timestamp 0, or to its end. */
  lemma {:induction false} ReadableIs(file: seq<Unit>) returns (n: nat)
    ensures n <= |file| && Readable(file) == file[..n] && (forall k | 0 <= k < n :: file[k].ts != 0)
    ensures n < |file| ==> file[n].ts == 0
  {
    n := 0;
    if file != [] && file[0].ts != 0 {
      var m := ReadableIs(file[1..]);
      n := m + 1;
      assert file[..n] == [file[0]] + file[1..][..m];
      forall k | 0 <= k < n ensures file[k].ts != 0 { assert k > 0 ==> file[k] == file[1..][k - 1]; }
    }
  }

  /** Every file stands between those before it and those behind it. */
  lemma {:induction false} FlattenIs(files: seq<seq<Unit>>, f: nat)
    requires f < |files|
    ensures Flatten(files) == Flatten(files[..f]) + Readable(files[f]) + Flatten(files[f + 1..])
  {
    if f == 0 {
      assert files[..0] == [];
    } else {
      var rest, first := files[1..], Readable(files[0]);
      FlattenIs(rest, f - 1);
      assert rest[..f - 1] == files[..f][1..] && rest[f..] == files[f + 1..] && rest[f - 1] == files[f];
      FrontFirst(files[0], files[..f]);
      Regroup(first, Flatten(rest[..f - 1]), Readable(files[f]), Flatten(files[f + 1..]));
    }
  }

  lemma FrontFirst(file: seq<Unit>, files: seq<seq<Unit>>)
    requires files != [] && files[0] == file
    ensures Flatten(files) == Readable(file) + Flatten(files[1..])
  {
  }

  lemma Regroup(a: seq<Unit>, b: seq<Unit>, c: seq<Unit>, d: seq<Unit>)
    ensures a + (b + c + d) == a + b + c + d
  {
  }

  /** The updates of a log, each as often as it was logged. */
  lemma {:induction false} UpdatesCount(us: seq<Unit>, u: Unit)
    ensures multiset(Updates(us))[u] == if u.update then multiset(us)[u] else 0
  {
    if us != [] {
      UpdatesCount(us[..|us| - 1], u);
      assert us == us[..|us| - 1] + [us[|us| - 1]];
    }
  }

  lemma {:induction false} UpdatesAre(us: seq<Unit>, u: Unit)
    ensures u in Updates(us) <==> u in us && u.update
  {
    if us != [] {
      UpdatesAre(us[..|us| - 1], u);
      assert us == us[..|us| - 1] + [us[|us| - 1]];
    }
  }

  /** A timestamp's slot holds the body of the last insert with it. */
  lemma {:induction false} LastInsertIs(us: seq<Unit>, i: nat)
    requires i < |us| && !us[i].update
    ensures exists j :: i <= j < |us| && !us[j].update && us[j].ts == us[i].ts && LastInsert(us, us[i].ts) == us[j].body
  {
    var n := |us| - 1;
    if us[n].update || us[n].ts != us[i].ts {
      assert us[..n][i] == us[i];
      LastInsertIs(us[..n], i);
    }
  }

  lemma TakenByUpdate(us: seq<Unit>, updates: seq<Unit>, t: nat)
    requires multiset(updates) == multiset(Updates(us))
    ensures HasUpdate(updates, t) <==> exists k :: 0 <= k < |us| && us[k].update && us[k].ts == t
  {
    if HasUpdate(updates, t) {
      var k :| 0 <= k < |updates| && updates[k].ts == t;
      assert updates[k] in multiset(Updates(us));
      UpdatesAre(us, updates[k]);
    }
    forall k | 0 <= k < |us| && us[k].update && us[k].ts == t ensures HasUpdate(updates, t) {
      UpdatesAre(us, us[k]);
      assert us[k] in multiset(updates);
    }
  }

  /** One logged insert comes back exactly if no update has its timestamp and the slot kept its body. */
  lemma InsertSurvives(us: seq<Unit>, table: seq<seq<int>>, updates: seq<Unit>, trace: seq<Event>, i: nat)
    requires RecoversAs(us, table, updates, trace)
    requires i < |us| && !us[i].update
    ensures IngestInsert(us[i].ts, us[i].body) in trace
            <==> !HasUpdate(updates, us[i].ts) && LastInsert(us, us[i].ts) == us[i].body
  {
    InsertEventIs(table, updates, trace, LastTs(us) + 1, us[i].ts, us[i].body);
  }

  /** An insert event stands at its own timestamp only. */
  lemma InsertEventIs(table: seq<seq<int>>, updates: seq<Unit>, trace: seq<Event>, to: nat, t: nat, body: seq<int>)
    requires InOrder(trace, table, updates, to) && 1 <= t < to
    ensures IngestInsert(t, body) in trace <==> !HasUpdate(updates, t) && t < |table| && table[t] == body
  {
    assert OwnEvent(trace[t - 1], table, updates, t - 1 + 1);
    forall k | 0 <= k < |trace| && trace[k] == IngestInsert(t, body) ensures k == t - 1 { }
  }

  /** No insert shares its timestamp with an update or with a different insert. */
  ghost predicate OwnTimestamps(us: seq<Unit>) {
    && (forall i, j | 0 <= i < |us| && 0 <= j < |us| && !us[i].update && us[j].update :: us[i].ts != us[j].ts)
    && (forall i, j | 0 <= i < j < |us| && !us[i].update && !us[j].update && us[i].ts == us[j].ts ::
          us[i].body == us[j].body)
  }

  /** Recovery loses no logged insert exactly when inserts have timestamps of their own. */
  lemma NothingLostExact(us: seq<Unit>, table: seq<seq<int>>, updates: seq<Unit>, trace: seq<Event>)
    requires RecoversAs(us, table, updates, trace)
    ensures (forall i | 0 <= i < |us| && !us[i].update :: IngestInsert(us[i].ts, us[i].body) in trace)
            <==> OwnTimestamps(us)
  {
    forall i: nat | i < |us| && !us[i].update
      ensures IngestInsert(us[i].ts, us[i].body) in trace
              <==> !HasUpdate(updates, us[i].ts) && LastInsert(us, us[i].ts) == us[i].body
      ensures exists j ::
        i <= j < |us| && !us[j].update && us[j].ts == us[i].ts && LastInsert(us, us[i].ts) == us[j].body
      ensures HasUpdate(updates, us[i].ts) <==> exists k :: 0 <= k < |us| && us[k].update && us[k].ts == us[i].ts
    {
      InsertSurvives(us, table, updates, trace, i);
      LastInsertIs(us, i);
      TakenByUpdate(us, updates, us[i].ts);
    }
  }

  /**
   * Compaction restarts the clock at 1 while the old log stays: whatever was inserted at
   * timestamp 1 before it is gone once a new insert took timestamp 1.
   */
  lemma RestartLosesInsert(a: seq<int>, b: seq<int>, table: seq<seq<int>>, updates: seq<Unit>, trace: seq<Event>)
    requires a != b
    requires RecoversAs([Unit(1, false, a), Unit(2, true, []), Unit(1, false, b)], table, updates, trace)
    ensures IngestInsert(1, a) !in trace && IngestInsert(1, b) in trace
  {
    var us := [Unit(1, false, a), Unit(2, true, []), Unit(1, false, b)];
    assert us[0] == Unit(1, false, a) && us[2] == Unit(1, false, b);
    InsertSurvives(us, table, updates, trace, 0);
    InsertSurvives(us, table, updates, trace, 2);
    TakenByUpdate(us, updates, 1);
    assert LastInsert(us, 1) == b;
  }

  predicate Logged(us: seq<Unit>, t: nat) {
    exists k :: 0 <= k < |us| && us[k].ts == t
  }

  /** Past the table no insert is logged, so a logged timestamp there is an update's. */
  lemma LoggedPastTable(us: seq<Unit>, updates: seq<Unit>, t: nat)
    requires multiset(updates) == multiset(Updates(us)) && Slots(us) <= t
    ensures HasUpdate(updates, t) <==> Logged(us, t)
  {
    TakenByUpdate(us, updates, t);
  }

  /**
   * Recovery stays inside the table exactly when every timestamp from the end of the table
   * to the last one was logged: an aborted update there leaves a hole it reads through.
   */
  lemma TableCoversExact(us: seq<Unit>, updates: seq<Unit>, to: nat)
    requires multiset(updates) == multiset(Updates(us))
    ensures GapsCovered(Slots(us), updates, to) <==> forall t | Slots(us) <= t < to :: Logged(us, t)
  {
    forall t: nat | Slots(us) <= t ensures HasUpdate(updates, t) <==> Logged(us, t) {
      LoggedPastTable(us, updates, t);
    }
  }

  ghost predicate HoldsOnlyAbove(s: State, bound: nat) {
    forall i, t: nat | 0 <= i < |s.pcs| && HoldsTs(s.pcs[i], t) :: bound < t
  }

  lemma ReadNeverFalls(c: Config, s: State, s': State)
    requires Next(c, s, s')
    ensures WellShaped(c, s') && s.read <= s'.read
  {
    var i: nat, a: Act :| Enabled(c, s, i, a) && s' == Exec(c, s, i, a);
  }

  /** The clock that init_ts starts at the last replayed timestamp hands out larger ones only. */
  lemma {:induction false} NewTimestampsAreFresh(c: Config, w: nat, run: seq<State>, us: seq<Unit>)
    requires IsRunWithin(c, w, run) && w <= c.ring + 2 && c.sessions <= c.threads + 1
    requires run[0].read == LastTs(us)
    ensures WellShaped(c, run[|run| - 1]) && LastTs(us) <= run[|run| - 1].read
    ensures HoldsOnlyAbove(run[|run| - 1], LastTs(us))
  {
    var s := run[|run| - 1];
    RunFrontier(c, w, run);
    if 1 < |run| {
      PathInit(c, run);
      NewTimestampsAreFresh(c, w, run[..|run| - 1], us);
      ReadNeverFalls(c, run[|run| - 2], s);
    }
    forall i, t: nat | 0 <= i < |s.pcs| && HoldsTs(s.pcs[i], t) ensures LastTs(us) < t {
      assert Held(s, t);
      assert !Finished(s, t);
    }
  }

  lemma {:induction false} ReadableStamped(file: seq<Unit>)
    ensures forall u | u in Readable(file) :: 1 <= u.ts
  {
    if file != [] && file[0].ts != 0 { ReadableStamped(file[1..]); }
  }

  lemma {:induction false} FlattenStamped(files: seq<seq<Unit>>)
    ensures forall u | u in Flatten(files) :: 1 <= u.ts
  {
    if files != [] {
      ReadableStamped(files[0]);
      FlattenStamped(files[1..]);
    }
  }

  lemma ParsedStamped(files: seq<seq<Unit>>, updates: seq<Unit>)
    requires multiset(updates) == multiset(Updates(Flatten(files)))
    ensures Stamped(updates, LastTs(Flatten(files)))
  {
    var us := Flatten(files);
    FlattenStamped(files);
    forall k | 0 <= k < |updates| ensures 1 <= updates[k].ts <= LastTs(us) {
      assert updates[k] in multiset(Updates(us));
      UpdatesAre(us, updates[k]);
    }
  }

  /** Opening a database: parse the log directory, replay it into the empty history. */
  method Recover(db: NeugDB, files: seq<seq<Unit>>)
    returns (ok: bool, ghost table: seq<seq<int>>, ghost updates: seq<Unit>)
    requires db.graph == []
    modifies db
    ensures var us := Flatten(files);
      && IsTable(table, us) && SortedByTs(updates) && multiset(updates) == multiset(Updates(us))
      && (ok <==> forall t | Slots(us) <= t <= LastTs(us) :: Logged(us, t))
      && (ok && StrictTs(updates) ==> RecoversAs(us, table, updates, db.graph))
      && (ok ==> db.lastTs == LastTs(us) && IsLast(us, db.lastTs))
  {
    var p := new LocalWalParser();
    p.Open(files);
    table, updates := p.inserts, p.updates;
    ParsedStamped(files, p.updates);
    FlattenStamped(files);
    ok := db.IngestWals(p);
    assert ok ==> db.graph[0..] == db.graph;
    Recovered(Flatten(files), table, updates, p.lastTs, ok, db.graph);
  }

  lemma Recovered(us: seq<Unit>, table: seq<seq<int>>, updates: seq<Unit>, last: nat, ok: bool, trace: seq<Event>)
    requires IsTable(table, us) && SortedByTs(updates) && multiset(updates) == multiset(Updates(us))
    requires last == LastTs(us) && forall u | u in us :: 1 <= u.ts
    requires ok <==> GapsCovered(|table|, updates, last + 1)
    requires ok && StrictTs(updates) ==> InOrder(trace, table, updates, last + 1)
    ensures ok <==> forall t | Slots(us) <= t <= last :: Logged(us, t)
    ensures ok && StrictTs(updates) ==> RecoversAs(us, table, updates, trace)
  {
    TableCoversExact(us, updates, last + 1);
  }
}
