/**
 * Ingesting the log of an insert transaction into lid-addressed storage: the meaning by oid,
 * whatever lids are handed out.
 */
module Ingest {
  import opened Wrappers
  import opened Records
  import opened InsertTxn

  /** A dead row of the same oid is taken over, otherwise a row is appended. */
  function PlaceRow(rows: seq<Row>, oid: int, ts: nat): (r: seq<Row>) {
    match Find(rows, oid)
    case Some(k) => rows[k := Row(oid, Some(ts))]
    case None => rows + [Row(oid, Some(ts))]
  }

  /** One record; None where the original throws or its check fails. */
  function Apply(g: Store, r: Record, ts: nat): (g': Option<Store>) {
    match r
    case InsertVertex(v, _) =>
      if v.vlabel !in g.tables || Sees(g, ts, v) then None
      else Some(g.(tables := g.tables[v.vlabel := PlaceRow(g.tables[v.vlabel], v.oid, ts)]))
    case InsertEdge(src, dst, elabel, props) =>
      if !Sees(g, ts, src) || !Sees(g, ts, dst) || TripletOf(r) !in g.etypes then None
      else Some(g.(edges := g.edges + [Edge(LidOf(g, ts, src), LidOf(g, ts, dst), elabel, props, ts)]))
  }

  function LidOf(g: Store, ts: nat, v: VKey): (r: VLid)
    requires Sees(g, ts, v)
  {
    VLid(v.vlabel, GetLid(g.tables[v.vlabel], v.oid, ts).value)
  }

  /** The vertex a lid stands for. */
  function KeyOf(g: Store, v: VLid): (k: VKey)
    requires HasRow(g, v)
  {
    VKey(v.vlabel, g.tables[v.vlabel][v.lid].oid)
  }

  function Named(g: Store, e: Edge): (x: Content)
    requires HasRow(g, e.src) && HasRow(g, e.dst)
  {
    Link(KeyOf(g, e.src), KeyOf(g, e.dst), e.elabel, Some(e.props), Some(e.props))
  }

  /** The edges by the oids of their ends. */
  function NamedEdges(g: Store): (xs: seq<Content>)
    requires forall e | e in g.edges :: HasRow(g, e.src) && HasRow(g, e.dst)
  {
    seq(|g.edges|, i requires 0 <= i < |g.edges| => assert g.edges[i] in g.edges; Named(g, g.edges[i]))
  }

  /** The edges a log asks for. */
  function Links(log: seq<Record>, n: nat): (xs: seq<Content>)
    requires n <= |log|
  {
    if n == 0 then []
    else Links(log, n - 1) + (if log[n - 1].InsertEdge? then [ContentOf(log[n - 1])] else [])
  }

  // ------------------------------------------------------------------------------------
  // One record
  // ------------------------------------------------------------------------------------

  lemma PlacedRow(rows: seq<Row>, oid: int, ts: nat, x: int, r: nat)
    requires DistinctOids(rows) && GetLid(rows, oid, ts).None?
    ensures var rows' := PlaceRow(rows, oid, ts);
      && DistinctOids(rows')
      && (GetLid(rows', x, r).Some? <==> GetLid(rows, x, r).Some? || (x == oid && ts <= r))
  {
    var rows' := PlaceRow(rows, oid, ts);
    assert DistinctOids(rows');
    if Find(rows, x).Some? {
      assert rows'[Find(rows, x).value].oid == x;
    }
    if Find(rows, oid).None? { assert rows'[|rows|].oid == oid; }
  }

  /** Rows keep their oid. */
  lemma RowsKeepOids(rows: seq<Row>, oid: int, ts: nat)
    ensures var rows' := PlaceRow(rows, oid, ts);
      |rows| <= |rows'| && forall k | 0 <= k < |rows| :: rows'[k].oid == rows[k].oid
  {
  }

  lemma VertexApplied(g: Store, v: VKey, props: seq<Prop>, ts: nat)
    requires StoreValid(g) && v.vlabel in g.tables && !Sees(g, ts, v)
    ensures var g' := Apply(g, InsertVertex(v, props), ts).value;
      && StoreValid(g') && NamedEdges(g') == NamedEdges(g)
  {
    var g' := Apply(g, InsertVertex(v, props), ts).value;
    PlacedRow(g.tables[v.vlabel], v.oid, ts, v.oid, ts);
    RowsKeepOids(g.tables[v.vlabel], v.oid, ts);
    forall e | e in g.edges
      ensures HasRow(g', e.src) && HasRow(g', e.dst) && Named(g', e) == Named(g, e)
    {
    }
  }

  lemma VertexSeen(g: Store, v: VKey, props: seq<Prop>, ts: nat, x: VKey, r: nat)
    requires StoreValid(g) && v.vlabel in g.tables && !Sees(g, ts, v)
    ensures Sees(Apply(g, InsertVertex(v, props), ts).value, r, x) <==> Sees(g, r, x) || (x == v && ts <= r)
  {
    PlacedRow(g.tables[v.vlabel], v.oid, ts, x.oid, r);
  }

  lemma EdgeKeepsSeen(g: Store, e: Record, ts: nat, x: VKey, r: nat)
    requires e.InsertEdge? && Apply(g, e, ts).Some?
    ensures Sees(Apply(g, e, ts).value, r, x) <==> Sees(g, r, x)
  {
  }

  lemma EdgeApplied(g: Store, r: Record, ts: nat)
    requires StoreValid(g) && r.InsertEdge? && Apply(g, r, ts).Some?
    ensures var g' := Apply(g, r, ts).value;
      && StoreValid(g') && NamedEdges(g') == NamedEdges(g) + [ContentOf(r)]
  {
    var g' := Apply(g, r, ts).value;
    forall e | e in g'.edges ensures HasRow(g', e.src) && HasRow(g', e.dst) {
      if e in g.edges { assert HasRow(g, e.src) && HasRow(g, e.dst); }
    }
    assert |NamedEdges(g')| == |NamedEdges(g)| + 1;
  }

  // ------------------------------------------------------------------------------------
  // The whole log
  // ------------------------------------------------------------------------------------

  /** What `n` records of `log` made of `g`. */
  ghost predicate Ingested(g: Store, ts: nat, log: seq<Record>, n: nat, h: Store)
    requires StoreValid(g) && n <= |log|
  {
    && StoreValid(h)
    && h.tables.Keys == g.tables.Keys && h.etypes == g.etypes && h.vtypes == g.vtypes
    && (forall x: VKey, r: nat :: Sees(h, r, x) <==> Sees(g, r, x) || (ts <= r && InsertsBefore(log, n, x)))
    && NamedEdges(h) == NamedEdges(g) + Links(log, n)
    && RowsBorn(g, ts, log, n, h) && EdgesBorn(g, ts, h)
  }

  /** One row against what it was. */
  predicate RowBorn(old_: seq<Row>, rows: seq<Row>, k: nat, ts: nat, made: bool)
    requires k < |rows|
  {
    || (k < |old_| && rows[k] == old_[k])
    || (rows[k].birth == Some(ts) && made && (k < |old_| ==> rows[k].oid == old_[k].oid))
  }

  /** A row is as it was, or is born at the timestamp for a vertex of the log. */
  ghost predicate RowsBorn(g: Store, ts: nat, log: seq<Record>, n: nat, h: Store)
    requires n <= |log|
  {
    && (forall l | l in h.tables :: l in g.tables && |g.tables[l]| <= |h.tables[l]|)
    && (forall l, k: nat | l in h.tables && k < |h.tables[l]| ::
          RowBorn(g.tables[l], h.tables[l], k, ts, InsertsBefore(log, n, VKey(l, h.tables[l][k].oid))))
  }

  /** The edges that were there stay, and the others are born at the timestamp. */
  ghost predicate EdgesBorn(g: Store, ts: nat, h: Store) {
    && |g.edges| <= |h.edges| && h.edges[..|g.edges|] == g.edges
    && forall k | |g.edges| <= k < |h.edges| :: h.edges[k].birth == ts
  }

  /** What a reader at snapshot r has of the edges. */
  predicate EdgeSeen(g: Store, r: nat, k: nat) { k < |g.edges| && g.edges[k].birth <= r }

  /** Below the timestamp readers have the old vertices and edges, from it on the log's as well. */
  lemma SnapshotsAfter(g: Store, ts: nat, log: seq<Record>, n: nat, h: Store, r: nat)
    requires StoreValid(g) && n <= |log| && Ingested(g, ts, log, n, h)
    ensures forall x: VKey :: Sees(h, r, x) <==> Sees(g, r, x) || (ts <= r && InsertsBefore(log, n, x))
    ensures forall k: nat :: EdgeSeen(h, r, k) <==> EdgeSeen(g, r, k) || (ts <= r && |g.edges| <= k < |h.edges|)
    ensures forall k: nat | EdgeSeen(g, r, k) :: h.edges[k] == g.edges[k]
  {
    forall k: nat | k < |g.edges| ensures h.edges[k] == g.edges[k] { assert h.edges[..|g.edges|][k] == h.edges[k]; }
  }

  lemma AppliesWhenResolved(g: Store, ts: nat, log: seq<Record>, n: nat, h: Store)
    requires StoreValid(g) && n < |log| && Ingested(g, ts, log, n, h)
    ensures Apply(h, log[n], ts).Some? <==> Resolves(g, ts, log, n)
  {
    if log[n].InsertEdge? { assert TripletOf(log[n]) in h.etypes <==> TripletOf(log[n]) in g.etypes; }
  }

  lemma InsertsBeforeStep(log: seq<Record>, n: nat, x: VKey)
    requires n < |log|
    ensures InsertsBefore(log, n + 1, x) <==> InsertsBefore(log, n, x) || (log[n].InsertVertex? && log[n].v == x)
  {
  }

  lemma RowsBornAt(g: Store, ts: nat, log: seq<Record>, n: nat, h: Store, l: nat, k: nat)
    requires n <= |log| && RowsBorn(g, ts, log, n, h) && l in h.tables && k < |h.tables[l]|
    ensures l in g.tables && |g.tables[l]| <= |h.tables[l]|
    ensures RowBorn(g.tables[l], h.tables[l], k, ts, InsertsBefore(log, n, VKey(l, h.tables[l][k].oid)))
  {
  }

  /** The row that was placed carries the oid and the timestamp, the others stay. */
  lemma PlacedBorn(old_: seq<Row>, rows: seq<Row>, oid: int, ts: nat, k: nat, made: bool, made': bool)
    requires k < |PlaceRow(rows, oid, ts)| && |old_| <= |rows| && (k < |rows| ==> RowBorn(old_, rows, k, ts, made))
    requires made ==> made'
    requires PlaceRow(rows, oid, ts)[k].oid == oid ==> made'
    ensures RowBorn(old_, PlaceRow(rows, oid, ts), k, ts, made')
  {
  }

  lemma BornStepAt(g: Store, ts: nat, log: seq<Record>, n: nat, h: Store, h': Store, l: nat, k: nat)
    requires n < |log| && RowsBorn(g, ts, log, n, h) && Some(h') == Apply(h, log[n], ts)
    requires l in h'.tables && k < |h'.tables[l]|
    ensures l in g.tables && |g.tables[l]| <= |h'.tables[l]|
    ensures RowBorn(g.tables[l], h'.tables[l], k, ts, InsertsBefore(log, n + 1, VKey(l, h'.tables[l][k].oid)))
  {
    var oid := h'.tables[l][k].oid;
    InsertsBeforeStep(log, n, VKey(l, oid));
    assert l in g.tables && |g.tables[l]| <= |h.tables[l]|;
    if k < |h.tables[l]| { RowsBornAt(g, ts, log, n, h, l, k); }
    if log[n].InsertVertex? && l == log[n].v.vlabel {
      RowsKeepOids(h.tables[l], log[n].v.oid, ts);
      PlacedBorn(g.tables[l], h.tables[l], log[n].v.oid, ts, k, InsertsBefore(log, n, VKey(l, oid)),
        InsertsBefore(log, n + 1, VKey(l, oid)));
    }
  }

  lemma BornStep(g: Store, ts: nat, log: seq<Record>, n: nat, h: Store, h': Store)
    requires n < |log| && RowsBorn(g, ts, log, n, h) && EdgesBorn(g, ts, h) && Some(h') == Apply(h, log[n], ts)
    ensures RowsBorn(g, ts, log, n + 1, h') && EdgesBorn(g, ts, h')
  {
    forall l | l in h'.tables ensures l in g.tables && |g.tables[l]| <= |h'.tables[l]| { assert l in h.tables; }
    forall l, k: nat | l in h'.tables && k < |h'.tables[l]|
      ensures RowBorn(g.tables[l], h'.tables[l], k, ts, InsertsBefore(log, n + 1, VKey(l, h'.tables[l][k].oid)))
    {
      BornStepAt(g, ts, log, n, h, h', l, k);
    }
  }

  lemma SeenStep(g: Store, ts: nat, log: seq<Record>, n: nat, h: Store, x: VKey, r: nat)
    requires StoreValid(g) && n < |log| && Ingested(g, ts, log, n, h) && Apply(h, log[n], ts).Some?
    ensures Sees(Apply(h, log[n], ts).value, r, x) <==> Sees(g, r, x) || (ts <= r && InsertsBefore(log, n + 1, x))
  {
    InsertsBeforeStep(log, n, x);
    if log[n].InsertVertex? {
      VertexSeen(h, log[n].v, log[n].props, ts, x, r);
    } else {
      EdgeKeepsSeen(h, log[n], ts, x, r);
    }
  }

  lemma IngestedStep(g: Store, ts: nat, log: seq<Record>, n: nat, h: Store)
    requires StoreValid(g) && n < |log| && Ingested(g, ts, log, n, h) && Apply(h, log[n], ts).Some?
    ensures Ingested(g, ts, log, n + 1, Apply(h, log[n], ts).value)
  {
    var h' := Apply(h, log[n], ts).value;
    if log[n].InsertVertex? { VertexApplied(h, log[n].v, log[n].props, ts); } else { EdgeApplied(h, log[n], ts); }
    forall x: VKey, r: nat
      ensures Sees(h', r, x) <==> Sees(g, r, x) || (ts <= r && InsertsBefore(log, n + 1, x))
    {
      SeenStep(g, ts, log, n, h, x, r);
    }
    BornStep(g, ts, log, n, h, h');
    assert NamedEdges(h') == NamedEdges(g) + Links(log, n + 1);
  }

  ghost predicate ResolvedTo(g: Store, ts: nat, log: seq<Record>, n: nat)
    requires n <= |log|
  {
    forall p: nat | p < n :: Resolves(g, ts, log, p)
  }

  /** The first `n` records are in, and there was nothing to refuse. */
  ghost predicate Progress(g: Store, ts: nat, log: seq<Record>, n: nat, h: Store) {
    StoreValid(g) && n <= |log| && Ingested(g, ts, log, n, h) && ResolvedTo(g, ts, log, n)
  }

  /** One record more: taken exactly if it resolves. */
  lemma IngestNext(g: Store, ts: nat, log: seq<Record>, n: nat, h: Store, r: Option<Store>)
    requires n < |log| && Progress(g, ts, log, n, h) && r == Apply(h, log[n], ts)
    ensures r.None? ==> !WellFormed(g, ts, log)
    ensures r.Some? ==> Progress(g, ts, log, n + 1, r.value)
  {
    AppliesWhenResolved(g, ts, log, n, h);
    if r.Some? { IngestedStep(g, ts, log, n, h); }
  }

  lemma IngestStarts(g: Store, ts: nat, log: seq<Record>)
    requires StoreValid(g)
    ensures Progress(g, ts, log, 0, g)
  {
    assert NamedEdges(g) + Links(log, 0) == NamedEdges(g);
    assert g.edges[..|g.edges|] == g.edges;
  }

  lemma IngestEnds(g: Store, ts: nat, log: seq<Record>, h: Store)
    requires Progress(g, ts, log, |log|, h)
    ensures WellFormed(g, ts, log) && Ingested(g, ts, log, |log|, h)
  {
  }

  /**
   * Ingestion succeeds exactly on well-formed logs; it then adds exactly the vertices of the
   * log and, in order, its edges between the vertices they name, all born at its timestamp.
   */
  method IngestWal(g: Store, ts: nat, log: seq<Record>) returns (r: Option<Store>)
    requires StoreValid(g)
    ensures r.Some? <==> WellFormed(g, ts, log)
    ensures r.Some? ==> Ingested(g, ts, log, |log|, r.value)
  {
    var h, n := g, 0;
    IngestStarts(g, ts, log);
    while n < |log|
      invariant 0 <= n <= |log|
      invariant Progress(g, ts, log, n, h)
    {
      var h' := Apply(h, log[n], ts);
      IngestNext(g, ts, log, n, h, h');
      if h'.None? { return None; }
      h, n := h'.value, n + 1;
    }
    IngestEnds(g, ts, log, h);
    r := Some(h);
  }

  /** Since it built its log on `g`, nothing the transaction could see has gone. */
  ghost predicate Grew(g: Store, h: Store, ts: nat) {
    && g.tables.Keys == h.tables.Keys && g.etypes == h.etypes
    && forall x: VKey | Sees(g, ts, x) :: Sees(h, ts, x)
  }

  /** A log built on `g` ingests later exactly if nobody made one of its new vertices visible before it. */
  lemma CommitSucceedsExact(g: Store, h: Store, ts: nat, log: seq<Record>)
    requires WellFormed(g, ts, log) && Grew(g, h, ts)
    ensures WellFormed(h, ts, log) <==> forall p | 0 <= p < |log| && log[p].InsertVertex? :: !Sees(h, ts, log[p].v)
  {
    if forall p | 0 <= p < |log| && log[p].InsertVertex? :: !Sees(h, ts, log[p].v) {
      forall p: nat | p < |log| ensures Resolves(h, ts, log, p) { assert Resolves(g, ts, log, p); }
    } else {
      var p: nat :| p < |log| && log[p].InsertVertex? && Sees(h, ts, log[p].v);
      assert !Resolves(h, ts, log, p);
    }
  }
}
