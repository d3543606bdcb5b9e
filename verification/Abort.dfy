/**
 * Whole update transactions: any sequence of operations on data, columns and types, the one stack
 * of undo records they leave, and what popping that stack gives back.
 */
module Abort {
  import opened Wrappers
  import opened Database
  import opened Restoring
  import U = Undo
  import R = Rebuild
  import A = Adjacency
  import C = Columns
  import DBE = DatabaseEffects

  datatype Txn = Txn(db: Db, undos: seq<Undo>)

  function Push(undos: seq<Undo>, u: Option<Undo>): (r: seq<Undo>) { if u.None? then undos else undos + [u.value] }

  /** An operation that is refused changes nothing and leaves no record. */
  function Perform(x: Txn, ts: nat, op: Op): (y: Txn) {
    match Do(x.db, ts, op)
    case None => x
    case Some(s) => Txn(s.db, Push(x.undos, s.undo))
  }

  function Play(db: Db, ts: nat, ops: seq<Op>): (x: Txn) {
    if ops == [] then Txn(db, []) else Perform(Play(db, ts, ops[..|ops| - 1]), ts, ops[|ops| - 1])
  }

  /** Popping the records, last in first out; None where one of them throws. */
  function Revert(db: Db, ts: nat, undos: seq<Undo>): (r: Option<Db>)
    decreases |undos|
  {
    if undos == [] then Some(db)
    else match Undone(db, ts, undos[|undos| - 1])
      case None => None
      case Some(h) => Revert(h, ts, undos[..|undos| - 1])
  }

  /** The tables with offsets on record after these operations. */
  function OnRecord(db: Db, ts: nat, ops: seq<Op>): (p: set<Triplet>) {
    if ops == [] then {}
    else
      var q, op := ops[..|ops| - 1], ops[|ops| - 1];
      var x := Play(db, ts, q).db;
      OnRecord(db, ts, q) + (if Do(x, ts, op).Some? then Touched(x, op) else {})
  }

  /** A state in which the conditions of the operations mean what they say. */
  ghost predicate Sound(o: Db, db: Db) { Ok(db) && Filled(o, db) && U.EdgesOk(db.g.tables) }

  /** Each operation that was carried out met its condition when it was. */
  ghost predicate AllRestorable(db: Db, ts: nat, ops: seq<Op>) {
    forall k | 0 <= k < |ops| :: RestorableAt(db, ts, ops, k)
  }

  ghost predicate RestorableAt(db: Db, ts: nat, ops: seq<Op>, k: nat)
    requires k < |ops|
  {
    var h := Play(db, ts, ops[..k]).db;
    Do(h, ts, ops[k]).Some? ==>
      Sound(db, h) && Plain(h, ops[k]) && Restorable(OnRecord(db, ts, ops[..k]), db, h, ts, ops[k])
  }

  lemma RestorablePrefix(db: Db, ts: nat, ops: seq<Op>)
    requires AllRestorable(db, ts, ops) && ops != []
    ensures AllRestorable(db, ts, ops[..|ops| - 1])
  {
    var p := ops[..|ops| - 1];
    forall k | 0 <= k < |p| ensures RestorableAt(db, ts, p, k) {
      assert RestorableAt(db, ts, ops, k);
      assert p[..k] == ops[..k];
    }
  }

  /** Slot for slot is more than what a reader sees. */
  lemma SameLess(p: set<Triplet>, q: set<Triplet>, o: Db, a: Db, b: Db)
    requires Same(p, o, a, b) && q <= p
    ensures Same(q, o, a, b)
  {
    forall t | t in a.g.tables ensures U.SameAt(q, t, a.g.tables[t], b.g.tables[t]) {
      U.SameEdgesAt(p, a.g.tables, b.g.tables, t);
      if t in p { R.SameTableShows(a.g.tables[t], b.g.tables[t]); }
    }
  }

  /** Offsets that the operation itself records do not bear on its own condition. */
  lemma RestorableMore(p: set<Triplet>, o: Db, db: Db, ts: nat, op: Op)
    requires Restorable(p, o, db, ts, op)
    ensures Restorable(p + Touched(db, op), o, db, ts, op)
  {
    if op.OnEdgeColumns? { assert p + {} == p; }
  }

  /** Undoing the last operation, from any database that shows what it left behind. */
  lemma LastBack(db: Db, ts: nat, ops: seq<Op>, h: Db) returns (h': Db)
    requires ops != [] && RestorableAt(db, ts, ops, |ops| - 1)
    requires Do(Play(db, ts, ops[..|ops| - 1]).db, ts, ops[|ops| - 1]).Some?
    requires Same(OnRecord(db, ts, ops), db, Play(db, ts, ops).db, h)
    ensures var x := Play(db, ts, ops[..|ops| - 1]);
      && TakenBack(h, ts, Do(x.db, ts, ops[|ops| - 1]).value.undo) == Some(h')
      && Same(OnRecord(db, ts, ops[..|ops| - 1]), db, x.db, h')
  {
    var n := |ops| - 1;
    var x, p := Play(db, ts, ops[..n]).db, OnRecord(db, ts, ops[..n]);
    var q := p + Touched(x, ops[n]);
    RestorableMore(p, db, x, ts, ops[n]);
    UndoneFromAnywhere(q, db, x, ts, ops[n], h);
    h' := TakenBack(h, ts, Do(x, ts, ops[n]).value.undo).value;
    SameLess(q, p, db, x, h');
  }

  /** Popping one record more. */
  lemma RevertPushed(h: Db, ts: nat, undos: seq<Undo>, u: Option<Undo>)
    ensures Revert(h, ts, Push(undos, u))
        == match TakenBack(h, ts, u) case None => None case Some(h') => Revert(h', ts, undos)
  {
    if u.Some? { assert (undos + [u.value])[..|undos|] == undos; }
  }

  /** From any database that shows what the operations left behind. */
  lemma {:induction false} RevertFromAnywhere(db: Db, ts: nat, ops: seq<Op>, h: Db)
    requires AllRestorable(db, ts, ops) && Same(OnRecord(db, ts, ops), db, Play(db, ts, ops).db, h)
    ensures Restored({}, db, db, Revert(h, ts, Play(db, ts, ops).undos))
  {
    if ops != [] {
      var n := |ops| - 1;
      var x := Play(db, ts, ops[..n]);
      RestorablePrefix(db, ts, ops);
      assert RestorableAt(db, ts, ops, n);
      if Do(x.db, ts, ops[n]).Some? {
        var h' := LastBack(db, ts, ops, h);
        RevertPushed(h, ts, x.undos, Do(x.db, ts, ops[n]).value.undo);
        RevertFromAnywhere(db, ts, ops[..n], h');
      } else {
        RevertFromAnywhere(db, ts, ops[..n], h);
      }
    }
  }

  /** Abort after any sequence of operations shows the database the transaction began on. */
  lemma AbortRestores(db: Db, ts: nat, ops: seq<Op>)
    requires AllRestorable(db, ts, ops)
    ensures Restored({}, db, db, Revert(Play(db, ts, ops).db, ts, Play(db, ts, ops).undos))
  {
    SameRefl(OnRecord(db, ts, ops), db, Play(db, ts, ops).db);
    RevertFromAnywhere(db, ts, ops, Play(db, ts, ops).db);
  }

  // ------------------------------------------------------------------------------------
  // What a reader sees
  // ------------------------------------------------------------------------------------

  /** The same types with the same columns, the same vertices with the same properties, and the same edges. */
  ghost predicate ShowsSame(a: Db, b: Db) {
    && a.g.kinds == b.g.kinds && a.cols == b.cols && a.ecols == b.ecols
    && (forall l, k: nat :: U.ValidLid(a.g, l, k) <==> U.ValidLid(b.g, l, k))
    && (forall l, k: nat | U.ValidLid(a.g, l, k) :: U.Rows(b.g, l)[k] == U.Rows(a.g, l)[k])
    && a.g.tables.Keys == b.g.tables.Keys
    && (forall t | t in a.g.tables :: R.Shows(a.g.tables[t], b.g.tables[t]))
  }

  lemma SameVerticesShow(a: U.Graph, b: U.Graph, l: nat, k: nat)
    requires U.SameVertices(a, a.rows, b.rows)
    ensures U.ValidLid(a, l, k) <==> U.ValidLid(b, l, k)
    ensures U.ValidLid(a, l, k) ==> U.Rows(b, l)[k] == U.Rows(a, l)[k]
  {
    if l in a.rows { assert U.SameRows(a, l, a.rows[l], b.rows[l]); }
  }

  lemma SameShows(a: Db, b: Db)
    requires Same({}, a, a, b)
    ensures ShowsSame(a, b)
  {
    forall l, k: nat
      ensures U.ValidLid(a.g, l, k) <==> U.ValidLid(b.g, l, k)
      ensures U.ValidLid(a.g, l, k) ==> U.Rows(b.g, l)[k] == U.Rows(a.g, l)[k]
    {
      SameVerticesShow(a.g, b.g, l, k);
    }
    forall t | t in a.g.tables ensures R.Shows(a.g.tables[t], b.g.tables[t]) {
      U.SameEdgesAt({}, a.g.tables, b.g.tables, t);
    }
  }

  // ------------------------------------------------------------------------------------
  // The transaction object
  // ------------------------------------------------------------------------------------

  /** The two sides of every edge type agree, and its columns stand where the table has them. */
  ghost predicate Listed(db: Db) { U.EdgesOk(db.g.tables) && forall t | t in db.ecols :: C.Valid(db.ecols[t]) }

  class UpdateTransaction {
    const ts: nat
    var db: Db
    var undoLogs: seq<Undo>

    constructor (db: Db, ts: nat)
      ensures this.db == db && this.ts == ts && undoLogs == []
    {
      this.db, this.ts, undoLogs := db, ts, [];
    }

    method Run(op: Op) returns (ok: bool)
      modifies this
      ensures ok <==> Do(old(db), ts, op).Some?
      ensures Txn(db, undoLogs) == Perform(Txn(old(db), old(undoLogs)), ts, op)
      ensures Listed(old(db)) ==> (ok <==> !DBE.Refused(old(db), op)) && (ok ==> DBE.Does(old(db), ts, op, db))
      ensures !ok ==> db == old(db) && undoLogs == old(undoLogs)
    {
      if Listed(db) { DBE.DatabaseDoes(db, ts, op); }
      var r := Do(db, ts, op);
      ok := r.Some?;
      if ok {
        if r.value.undo.Some? { undoLogs := undoLogs + [r.value.undo.value]; }
        db := r.value.db;
      }
    }

    method RunAll(ops: seq<Op>)
      requires undoLogs == []
      modifies this
      ensures Txn(db, undoLogs) == Play(old(db), ts, ops)
    {
      var k := 0;
      assert ops[..0] == [];
      while k < |ops|
        invariant 0 <= k <= |ops|
        invariant Txn(db, undoLogs) == Play(old(db), ts, ops[..k])
      {
        assert ops[..k + 1][..k] == ops[..k] && ops[..k + 1][k] == ops[k];
        var _ := Run(ops[k]);
        k := k + 1;
      }
      assert ops[..|ops|] == ops;
    }

    /** False where an undo record throws. */
    method RevertChanges() returns (ok: bool)
      modifies this
      ensures ok <==> Revert(old(db), ts, old(undoLogs)).Some?
      ensures ok ==> db == Revert(old(db), ts, old(undoLogs)).value && undoLogs == []
    {
      while undoLogs != []
        invariant Revert(db, ts, undoLogs) == Revert(old(db), ts, old(undoLogs))
        decreases |undoLogs|
      {
        var r := Undone(db, ts, undoLogs[|undoLogs| - 1]);
        if r.None? { return false; }
        db := r.value;
        undoLogs := undoLogs[..|undoLogs| - 1];
      }
      ok := true;
    }
  }

  /** A transaction that runs and aborts leaves the database as every reader saw it. */
  method RunAndAbort(txn: UpdateTransaction, ops: seq<Op>) returns (ok: bool)
    requires txn.undoLogs == [] && AllRestorable(txn.db, txn.ts, ops)
    modifies txn
    ensures ok && txn.undoLogs == [] && ShowsSame(old(txn.db), txn.db)
  {
    ghost var db := txn.db;
    txn.RunAll(ops);
    AbortRestores(db, txn.ts, ops);
    ok := txn.RevertChanges();
    SameShows(db, txn.db);
  }
}
