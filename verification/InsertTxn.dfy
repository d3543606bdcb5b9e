/**
 * Insert transactions: provisional vertex ids, the log they build, and its ingestion into
 * lid-addressed storage.
 */
module InsertTxn {
  import opened Wrappers
  import opened Records

  /** A row of a vertex table; a deleted vertex has no birth. */
  datatype Row = Row(oid: int, birth: Option<nat>)

  datatype Edge = Edge(src: VLid, dst: VLid, elabel: nat, props: seq<Prop>, birth: nat)

  datatype Store = Store(
    tables: map<nat, seq<Row>>,
    edges: seq<Edge>,
    vtypes: map<nat, seq<nat>>,
    etypes: map<Triplet, seq<nat>>)

  predicate Live(r: Row, ts: nat) { r.birth.Some? && r.birth.value <= ts }

  predicate DistinctOids(rows: seq<Row>) {
    forall i, j | 0 <= i < j < |rows| :: rows[i].oid != rows[j].oid
  }

  predicate Distinct(s: seq<int>) {
    forall i, j | 0 <= i < j < |s| :: s[i] != s[j]
  }

  ghost predicate StoreValid(g: Store) {
    && g.tables.Keys == g.vtypes.Keys
    && (forall l | l in g.tables :: DistinctOids(g.tables[l]))
    && (forall e | e in g.edges :: HasRow(g, e.src) && HasRow(g, e.dst))
  }

  predicate HasRow(g: Store, v: VLid) { v.vlabel in g.tables && v.lid < |g.tables[v.vlabel]| }

  // ------------------------------------------------------------------------------------
  // Looking vertices up
  // ------------------------------------------------------------------------------------

  /** The row an oid occupies, dead or alive. */
  function Find(rows: seq<Row>, oid: int): (r: Option<nat>)
    ensures r.Some? ==> r.value < |rows| && rows[r.value].oid == oid
    ensures r.None? ==> forall k | 0 <= k < |rows| :: rows[k].oid != oid
  {
    if rows == [] then None
    else if rows[|rows| - 1].oid == oid then Some(|rows| - 1)
    else Find(rows[..|rows| - 1], oid)
  }

  function FindKey(keys: seq<int>, oid: int): (r: Option<nat>)
    ensures r.Some? ==> r.value < |keys| && keys[r.value] == oid
    ensures r.None? ==> oid !in keys
  {
    if keys == [] then None
    else if keys[|keys| - 1] == oid then Some(|keys| - 1)
    else FindKey(keys[..|keys| - 1], oid)
  }

  function GetLid(rows: seq<Row>, oid: int, ts: nat): (r: Option<nat>) {
    match Find(rows, oid)
    case None => None
    case Some(k) => if Live(rows[k], ts) then Some(k) else None
  }

  /** None where the original throws. */
  function GetOid(rows: seq<Row>, lid: nat, ts: nat): (r: Option<int>) {
    if lid < |rows| && Live(rows[lid], ts) then Some(rows[lid].oid) else None
  }

  /** GetVertexIndex for one label: the graph first, then the transaction's own vertices. */
  function IndexOf(rows: seq<Row>, ts: nat, local: Option<seq<int>>, base: nat, oid: int): (r: Option<nat>) {
    match GetLid(rows, oid, ts)
    case Some(k) => Some(k)
    case None =>
      if local.None? then None
      else match FindKey(local.value, oid)
        case None => None
        case Some(k) => Some(base + k)
  }

  /** GetVertexId for one label: by position relative to the base; None where the original fails. */
  function IdOf(rows: seq<Row>, ts: nat, local: Option<seq<int>>, base: nat, lid: nat): (r: Option<int>) {
    if local.None? || lid < base then GetOid(rows, lid, ts)
    else if lid - base < |local.value| then Some(local.value[lid - base])
    else None
  }

  /** No visible vertex sits at or past the base, other than one the transaction put there itself. */
  predicate NoForeign(rows: seq<Row>, ts: nat, local: Option<seq<int>>, base: nat) {
    local.Some? ==>
      forall k | base <= k < |rows| && Live(rows[k], ts) ::
        k - base < |local.value| && local.value[k - base] == rows[k].oid
  }

  /** If the oid resolves, its id leads back to it. */
  predicate ComesBack(rows: seq<Row>, ts: nat, local: Option<seq<int>>, base: nat, oid: int) {
    var i := IndexOf(rows, ts, local, base, oid);
    i.Some? ==> IdOf(rows, ts, local, base, i.value) == Some(oid)
  }

  lemma NoForeignComesBack(rows: seq<Row>, ts: nat, local: Option<seq<int>>, base: nat, oid: int)
    requires NoForeign(rows, ts, local, base)
    ensures ComesBack(rows, ts, local, base, oid)
  {
  }

  lemma ForeignGetsLost(rows: seq<Row>, ts: nat, local: Option<seq<int>>, base: nat) returns (oid: int)
    requires DistinctOids(rows) && !NoForeign(rows, ts, local, base)
    ensures !ComesBack(rows, ts, local, base, oid)
  {
    var k :| base <= k < |rows| && Live(rows[k], ts)
      && !(k - base < |local.value| && local.value[k - base] == rows[k].oid);
    oid := rows[k].oid;
    assert Find(rows, oid) == Some(k);
  }

  /** GetVertexId undoes GetVertexIndex exactly as long as nobody else shows up past the base. */
  lemma RoundTripExact(rows: seq<Row>, ts: nat, local: Option<seq<int>>, base: nat)
    requires DistinctOids(rows)
    ensures (forall oid :: ComesBack(rows, ts, local, base, oid)) <==> NoForeign(rows, ts, local, base)
  {
    if NoForeign(rows, ts, local, base) {
      forall oid ensures ComesBack(rows, ts, local, base, oid) { NoForeignComesBack(rows, ts, local, base, oid); }
    } else {
      var oid := ForeignGetsLost(rows, ts, local, base);
    }
  }

  /** Two oids never share an id, and no extension of the table means no foreign vertex. */
  lemma DistinctIds(rows: seq<Row>, ts: nat, local: Option<seq<int>>, base: nat, a: int, b: int)
    requires DistinctOids(rows) && |rows| <= base && a != b
    requires IndexOf(rows, ts, local, base, a).Some? && IndexOf(rows, ts, local, base, b).Some?
    ensures IndexOf(rows, ts, local, base, a) != IndexOf(rows, ts, local, base, b)
  {
    NoForeignComesBack(rows, ts, local, base, a);
    NoForeignComesBack(rows, ts, local, base, b);
  }

  /**
   * A transaction that added oid 7 next to another one that got the next row: the id of the
   * other vertex names 7.
   */
  lemma ForeignVertexTakesName(rows: seq<Row>, ts: nat, birth: nat)
    requires DistinctOids(rows) && birth <= ts && (forall k | 0 <= k < |rows| :: rows[k].oid < 7)
    ensures var rows' := rows + [Row(8, Some(birth))];
      && IndexOf(rows', ts, Some([7]), |rows|, 8) == Some(|rows|)
      && IdOf(rows', ts, Some([7]), |rows|, |rows|) == Some(7)
  {
    var rows' := rows + [Row(8, Some(birth))];
    assert rows'[|rows'| - 1].oid == 8;
  }

  // ------------------------------------------------------------------------------------
  // The log
  // ------------------------------------------------------------------------------------

  predicate Sees(g: Store, ts: nat, v: VKey) {
    v.vlabel in g.tables && GetLid(g.tables[v.vlabel], v.oid, ts).Some?
  }

  predicate InsertsBefore(log: seq<Record>, n: nat, v: VKey)
    requires n <= |log|
  {
    exists q :: 0 <= q < n && log[q].InsertVertex? && log[q].v == v
  }

  function TripletOf(r: Record): (t: Triplet)
    requires r.InsertEdge?
  {
    Triplet(r.src.vlabel, r.dst.vlabel, r.elabel)
  }

  /** Ingestion of record p resolves: a new vertex, or an edge between vertices known by then. */
  predicate Resolves(g: Store, ts: nat, log: seq<Record>, p: nat)
    requires p < |log|
  {
    match log[p]
    case InsertVertex(v, _) => v.vlabel in g.tables && !Sees(g, ts, v) && !InsertsBefore(log, p, v)
    case InsertEdge(src, dst, _, _) =>
      && TripletOf(log[p]) in g.etypes
      && (Sees(g, ts, src) || InsertsBefore(log, p, src))
      && (Sees(g, ts, dst) || InsertsBefore(log, p, dst))
  }

  ghost predicate WellFormed(g: Store, ts: nat, log: seq<Record>) {
    forall p: nat | p < |log| :: Resolves(g, ts, log, p)
  }

  predicate Fits(types: seq<nat>, props: seq<Prop>) {
    |types| == |props| && forall i | 0 <= i < |types| :: props[i].tid == types[i]
  }

  /** The transaction's own vertices are exactly the ones its log inserts. */
  ghost predicate Mirrors(added: map<nat, seq<int>>, log: seq<Record>) {
    && (forall l, k | l in added && 0 <= k < |added[l]| :: InsertsBefore(log, |log|, VKey(l, added[l][k])))
    && (forall p | 0 <= p < |log| && log[p].InsertVertex? ::
          log[p].v.vlabel in added && log[p].v.oid in added[log[p].v.vlabel])
  }

  lemma NewIsUnlogged(added: map<nat, seq<int>>, log: seq<Record>, v: VKey)
    requires Mirrors(added, log) && v.vlabel in added && v.oid !in added[v.vlabel]
    ensures !InsertsBefore(log, |log|, v)
  {
  }

  lemma StillLogged(log: seq<Record>, r: Record, v: VKey)
    requires InsertsBefore(log, |log|, v)
    ensures InsertsBefore(log + [r], |log + [r]|, v)
  {
    var q :| 0 <= q < |log| && log[q].InsertVertex? && log[q].v == v;
    assert (log + [r])[q] == log[q];
  }

  lemma MirrorsEdge(added: map<nat, seq<int>>, log: seq<Record>, r: Record)
    requires Mirrors(added, log) && r.InsertEdge?
    ensures Mirrors(added, log + [r])
  {
    forall l, k | l in added && 0 <= k < |added[l]|
      ensures InsertsBefore(log + [r], |log + [r]|, VKey(l, added[l][k]))
    {
      StillLogged(log, r, VKey(l, added[l][k]));
    }
  }

  lemma MirrorsVertex(added: map<nat, seq<int>>, log: seq<Record>, v: VKey, props: seq<Prop>)
    requires Mirrors(added, log) && v.vlabel in added
    ensures Mirrors(added[v.vlabel := added[v.vlabel] + [v.oid]], log + [InsertVertex(v, props)])
  {
    var r := InsertVertex(v, props);
    var more := added[v.vlabel := added[v.vlabel] + [v.oid]];
    assert (log + [r])[|log|] == r;
    forall l, k | l in more && 0 <= k < |more[l]| ensures InsertsBefore(log + [r], |log + [r]|, VKey(l, more[l][k])) {
      if l in added && k < |added[l]| { StillLogged(log, r, VKey(l, added[l][k])); }
    }
    forall p | 0 <= p < |log| && log[p].InsertVertex? ensures log[p].v.oid in more[log[p].v.vlabel] { }
  }

  lemma NextKey(keys: seq<int>, oid: int)
    requires Distinct(keys) && oid !in keys
    ensures Distinct(keys + [oid]) && FindKey(keys + [oid], oid) == Some(|keys|)
  {
  }

  datatype Outcome = Done | Rejected | Failed

  class InsertTransaction {
    const ts: nat
    var arc: seq<Record>
    var added: map<nat, seq<int>>
    var base: map<nat, nat>
    var nums: map<nat, nat>

    constructor (ts: nat)
      ensures this.ts == ts && arc == [] && added == map[] && Valid()
    {
      this.ts := ts;
      arc, added, base, nums := [], map[], map[], map[];
    }

    /** The tables of new vertices mirror the vertex records of the log. */
    ghost predicate Valid()
      reads this
    {
      && added.Keys == base.Keys == nums.Keys
      && (forall l | l in added :: nums[l] == |added[l]| && Distinct(added[l]))
      && Mirrors(added, arc)
    }

    function Local(l: nat): (r: Option<seq<int>>)
      reads this
    {
      if l in added then Some(added[l]) else None
    }

    function Base(l: nat): (r: nat)
      reads this
    {
      if l in base then base[l] else 0
    }

    function GetVertexIndex(g: Store, v: VKey): (r: Option<nat>)
      reads this
    {
      if v.vlabel in g.tables then IndexOf(g.tables[v.vlabel], ts, Local(v.vlabel), Base(v.vlabel), v.oid) else None
    }

    function GetVertexId(g: Store, v: VLid): (r: Option<int>)
      reads this
    {
      if v.vlabel in g.tables then IdOf(g.tables[v.vlabel], ts, Local(v.vlabel), Base(v.vlabel), v.lid) else None
    }

    method CreateIdIndexer(g: Store, l: nat)
      requires Valid() && l in g.tables
      modifies this`added, this`base, this`nums
      ensures Valid() && l in added
      ensures old(l in added) ==> added == old(added) && base == old(base) && nums == old(nums)
      ensures old(l !in added) ==> added == old(added)[l := []] && base == old(base)[l := |g.tables[l]|]
    {
      if l !in added {
        added, base, nums := added[l := []], base[l := |g.tables[l]|], nums[l := 0];
      }
    }

    /** A known oid keeps its id and is not logged again; a new one gets the next id and one record. */
    method AddVertex(g: Store, v: VKey, props: seq<Prop>) returns (ok: bool, vid: nat)
      requires Valid() && StoreValid(g) && v.vlabel in g.tables
      modifies this
      ensures Valid()
      ensures var types := g.vtypes[v.vlabel];
        ok <==> |types| == |props| && forall i | 0 <= i < |types| :: props[i].tid == types[i]
      ensures !ok ==> arc == old(arc) && added == old(added)
      ensures ok ==> v.vlabel in added && GetVertexIndex(g, v) == Some(vid)
      ensures ok && old(GetVertexIndex(g, v)).Some? ==> vid == old(GetVertexIndex(g, v)).value && arc == old(arc)
      ensures ok && old(GetVertexIndex(g, v)).None? ==>
                && arc == old(arc) + [InsertVertex(v, props)]
                && vid == Base(v.vlabel) + old(Own(v.vlabel))
                && Own(v.vlabel) == old(Own(v.vlabel)) + 1
      ensures ok ==> Base(v.vlabel) == if old(v.vlabel in added) then old(Base(v.vlabel)) else |g.tables[v.vlabel]|
      ensures old(WellFormed(g, ts, arc)) ==> WellFormed(g, ts, arc)
    {
      vid := 0;
      ok := Fits(g.vtypes[v.vlabel], props);
      if !ok { return; }
      CreateIdIndexer(g, v.vlabel);
      var known := GetVertexIndex(g, v);
      if known.Some? {
        vid := known.value;
      } else {
        vid := Append(g, v, props);
      }
    }

    /** How many vertices of a label the transaction added. */
    function Own(l: nat): (n: nat)
      reads this
    {
      if l in added then |added[l]| else 0
    }

    method Append(g: Store, v: VKey, props: seq<Prop>) returns (vid: nat)
      requires Valid() && v.vlabel in g.tables && v.vlabel in added
      requires !Sees(g, ts, v) && v.oid !in added[v.vlabel]
      modifies this`added, this`nums, this`arc
      ensures Valid()
      ensures arc == old(arc) + [InsertVertex(v, props)]
      ensures added == old(added)[v.vlabel := old(added)[v.vlabel] + [v.oid]]
      ensures GetVertexIndex(g, v) == Some(vid) && vid == base[v.vlabel] + |old(added)[v.vlabel]|
      ensures old(WellFormed(g, ts, arc)) ==> WellFormed(g, ts, arc)
    {
      var l := v.vlabel;
      NewIsUnlogged(added, arc, v);
      LogsVertex(g, ts, arc, v, props);
      MirrorsVertex(added, arc, v, props);
      NextKey(added[l], v.oid);
      added := added[l := added[l] + [v.oid]];
      vid := nums[l] + base[l];
      nums := nums[l := nums[l] + 1];
      arc := arc + [InsertVertex(v, props)];
    }

    /** The record names the vertices the two ids stand for; they are visible or logged already. */
    method AddEdge(g: Store, src: VLid, dst: VLid, elabel: nat, props: seq<Prop>) returns (r: Outcome)
      requires Valid() && StoreValid(g)
      modifies this`arc
      ensures Valid()
      ensures r == Failed <==> GetVertexId(g, src).None? || GetVertexId(g, dst).None?
                               || Triplet(src.vlabel, dst.vlabel, elabel) !in g.etypes
      ensures r != Failed ==>
        var types := g.etypes[Triplet(src.vlabel, dst.vlabel, elabel)];
        r == Done <==> |types| == |props| && forall i | 0 <= i < |types| :: props[i].tid == types[i]
      ensures r != Done ==> arc == old(arc)
      ensures r == Done ==> arc == old(arc) + [InsertEdge(VKey(src.vlabel, GetVertexId(g, src).value),
                                                         VKey(dst.vlabel, GetVertexId(g, dst).value), elabel, props)]
      ensures old(WellFormed(g, ts, arc)) ==> WellFormed(g, ts, arc)
    {
      var a, b := GetVertexId(g, src), GetVertexId(g, dst);
      var t := Triplet(src.vlabel, dst.vlabel, elabel);
      if a.None? || b.None? || t !in g.etypes { return Failed; }
      if !Fits(g.etypes[t], props) { return Rejected; }
      NamedIsKnown(g, src);
      NamedIsKnown(g, dst);
      LogsEdge(g, ts, arc, VKey(src.vlabel, a.value), VKey(dst.vlabel, b.value), elabel, props);
      MirrorsEdge(added, arc, InsertEdge(VKey(src.vlabel, a.value), VKey(dst.vlabel, b.value), elabel, props));
      arc := arc + [InsertEdge(VKey(src.vlabel, a.value), VKey(dst.vlabel, b.value), elabel, props)];
      r := Done;
    }

    /** Whatever an id names is visible in the graph or inserted earlier in the log. */
    lemma NamedIsKnown(g: Store, v: VLid)
      requires Valid() && StoreValid(g) && GetVertexId(g, v).Some?
      ensures var k := VKey(v.vlabel, GetVertexId(g, v).value); Sees(g, ts, k) || InsertsBefore(arc, |arc|, k)
    {
    }
  }

  lemma PrefixRecords(log: seq<Record>, r: Record, n: nat, v: VKey)
    requires n <= |log|
    ensures InsertsBefore(log + [r], n, v) == InsertsBefore(log, n, v)
  {
    if InsertsBefore(log, n, v) {
      var q :| 0 <= q < n && log[q].InsertVertex? && log[q].v == v;
      assert (log + [r])[q] == log[q];
    }
  }

  lemma LogsRecord(g: Store, ts: nat, log: seq<Record>, r: Record)
    requires WellFormed(g, ts, log) && Resolves(g, ts, log + [r], |log|)
    ensures WellFormed(g, ts, log + [r])
  {
    forall p: nat | p < |log| ensures Resolves(g, ts, log + [r], p) {
      assert Resolves(g, ts, log, p);
      if log[p].InsertVertex? {
        PrefixRecords(log, r, p, log[p].v);
      } else {
        PrefixRecords(log, r, p, log[p].src);
        PrefixRecords(log, r, p, log[p].dst);
      }
    }
  }

  lemma LogsVertex(g: Store, ts: nat, log: seq<Record>, v: VKey, props: seq<Prop>)
    requires v.vlabel in g.tables && !Sees(g, ts, v) && !InsertsBefore(log, |log|, v)
    ensures WellFormed(g, ts, log) ==> WellFormed(g, ts, log + [InsertVertex(v, props)])
  {
    var r := InsertVertex(v, props);
    PrefixRecords(log, r, |log|, v);
    if WellFormed(g, ts, log) { LogsRecord(g, ts, log, r); }
  }

  lemma LogsEdge(g: Store, ts: nat, log: seq<Record>, a: VKey, b: VKey, elabel: nat, props: seq<Prop>)
    requires Triplet(a.vlabel, b.vlabel, elabel) in g.etypes
    requires Sees(g, ts, a) || InsertsBefore(log, |log|, a)
    requires Sees(g, ts, b) || InsertsBefore(log, |log|, b)
    ensures WellFormed(g, ts, log) ==> WellFormed(g, ts, log + [InsertEdge(a, b, elabel, props)])
  {
    var r := InsertEdge(a, b, elabel, props);
    PrefixRecords(log, r, |log|, a);
    PrefixRecords(log, r, |log|, b);
    if WellFormed(g, ts, log) { LogsRecord(g, ts, log, r); }
  }
}
