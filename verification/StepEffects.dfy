/**
 * What the steps of insert and update transactions do to the graph, the lists and the log, said of
 * the items, slots and entries themselves.
 */
module StepEffects {
  import opened Wrappers
  import opened VersionManager
  import opened Records
  import opened RecordEffects
  import opened Commits

  predicate SameItem(g: Graph, h: Graph, k: ItemKey) { (k in h <==> k in g) && (k in g ==> h[k] == g[k]) }

  /** The item a record makes. */
  predicate Made(x: Item, r: Record, ts: nat) {
    && x.birth == ts
    && match r
      case InsertVertex(_, props) => x.content == Vertex(props)
      case InsertEdge(src, dst, elabel, props) => x.content == Link(src, dst, elabel, Some(props), Some(props))
  }

  /** The list that gets the last slot of a record: the row of a vertex, the outgoing slot of an edge. */
  predicate FillsLast(m: Layout, r: Record, id: ListId) { Fills(m, r, id) && !id.In? }

  /** Writing a record: it comes last in the transaction's own log, and nothing else changes. */
  lemma WriteDoes(w: World, s: Sys, i: nat, r: Record)
    requires SysShaped(w, s) && SEnabled(w, s, i, Write(r))
    ensures var s' := SExec(w, s, i, Write(r));
      && s'.work[i].Building? && s'.work[i].log == s.work[i].log + [r]
      && (forall j | 0 <= j < |s.work| && j != i :: s'.work[j] == s.work[j])
      && s'.vm == s.vm && s'.graph == s.graph && s'.layout == s.layout && s'.wal == s.wal && s'.applied == s.applied
  {
  }

  /** Appending: the log goes to disk as it is under the transaction's timestamp, with nothing ingested yet. */
  lemma AppendDoes(w: World, s: Sys, i: nat)
    requires SysShaped(w, s) && SEnabled(w, s, i, Append)
    ensures var s', ts := SExec(w, s, i, Append), s.vm.pcs[i].ts;
      && ts in s'.wal && s'.wal[ts].Inserts? && s'.wal[ts].log == s.work[i].log
      && ts in s'.applied && s'.applied[ts] == 0
      && (forall t | t != ts :: (t in s'.wal <==> t in s.wal) && (t in s.wal ==> s'.wal[t] == s.wal[t]))
      && s'.vm == s.vm && s'.graph == s.graph && s'.layout == s.layout
  {
  }

  /** The first half of ingesting an edge: its incoming slot. */
  lemma PushInDoes(w: World, s: Sys, i: nat)
    requires SysShaped(w, s) && SEnabled(w, s, i, PushIn)
    ensures var s', ts := SExec(w, s, i, PushIn), s.vm.pcs[i].ts;
      var n := s.applied[ts];
      var r := s.wal[ts].log[n];
      && s'.vm == s.vm && s'.graph == s.graph && s'.wal == s.wal && s'.applied == s.applied
      && (forall id :: Entries(s'.layout, id) == Entries(s.layout, id)
            + if id == In(r.dst, r.src.vlabel, r.elabel) then [Slot(ts, n, E(ts, n))] else [])
  {
  }

  /** Ingesting the next record: its item, born at the timestamp, and its slot at the end of its list. */
  lemma IngestDoes(w: World, s: Sys, i: nat)
    requires SysShaped(w, s) && SEnabled(w, s, i, Ingest)
    ensures var s', ts := SExec(w, s, i, Ingest), s.vm.pcs[i].ts;
      var n := s.applied[ts];
      var r := s.wal[ts].log[n];
      var k := if r.InsertVertex? then V(r.v) else E(ts, n);
      && s'.vm == s.vm && s'.wal == s.wal && s'.applied == s.applied[ts := n + 1]
      && k in s'.graph && Made(s'.graph[k], r, ts) && (forall j | j != k :: SameItem(s.graph, s'.graph, j))
      && (forall id :: Entries(s'.layout, id) == Entries(s.layout, id)
            + if FillsLast(s.layout, r, id) then [Slot(ts, n, k)] else [])
  {
    var ts := s.vm.pcs[i].ts;
    var n := s.applied[ts];
    var r := s.wal[ts].log[n];
    if r.InsertVertex? && Lid(s.layout, r.v).Some? { LidIs(s.layout, r.v, Lid(s.layout, r.v).value); }
  }

  /** A change by an update transaction: what its record says, with the births kept. */
  lemma AlterDoes(w: World, s: Sys, i: nat, c: Change)
    requires SysShaped(w, s) && SEnabled(w, s, i, Alter(c)) && NothingAfter(s.graph, s.vm.pcs[i].ts)
    ensures var s', ts := SExec(w, s, i, Alter(c)), s.vm.pcs[i].ts;
      var n := |s.work[i].changes|;
      && Does(Visible(s.graph, ts), s.layout, ts, n, c, Visible(s'.graph, ts))
      && s'.work[i].Modifying? && s'.work[i].changes == s.work[i].changes + [c] && s'.work[i].was == s.work[i].was
      && (forall k | k in s'.graph :: s'.graph[k].birth == if k in s.graph then s.graph[k].birth else ts)
      && s'.vm == s.vm && s'.wal == s.wal && s'.applied == s.applied
  {
    var ts, n := s.vm.pcs[i].ts, |s.work[i].changes|;
    EffectDoes(Visible(s.graph, ts), s.layout, ts, n, c);
    var v := Effect(Visible(s.graph, ts), s.layout, ts, n, c).value;
    assert Visible(Restamp(s.graph, v, ts), ts) == v;
  }

  /** Committing an update: its records go to the log in order, and the graph stays. */
  lemma CommitDoes(w: World, s: Sys, i: nat)
    requires SysShaped(w, s) && SEnabled(w, s, i, SAct.Commit)
    ensures var s', ts := SExec(w, s, i, SAct.Commit), s.vm.pcs[i].ts;
      && ts in s'.wal && s'.wal[ts].Update? && s'.wal[ts].changes == s.work[i].changes
      && (forall t | t != ts :: (t in s'.wal <==> t in s.wal) && (t in s.wal ==> s'.wal[t] == s.wal[t]))
      && s'.vm == s.vm && s'.graph == s.graph && s'.layout == s.layout && s'.applied == s.applied
  {
  }
}
