/**
  Adjacency lists of the transactional graph: kept by edge creation, trimmed by garbage collection,
  and rebuilt from a checkpoint that does not store their labels.
 */
module Adjacency {
  import opened Wrap

  datatype Entry = Entry(labelId: nat, neighbor: nat, eid: nat)

  datatype Adj = Adj(outgoing: set<Entry>, incoming: set<Entry>)

  datatype VertexRec = VertexRec(tomb: bool, data: nat, ts: nat)

  datatype EdgeRec = EdgeRec(src: nat, dst: nat, labelId: nat, tomb: bool, data: nat, ts: nat)

  /** Heads of the version chains, and the adjacency containers. */
  datatype Graph = Graph(vertices: map<nat, VertexRec>, edges: map<nat, EdgeRec>, adj: map<nat, Adj>)

  const NO_ADJ := Adj({}, {})

  function AdjOf(g: Graph, v: nat): Adj { if v in g.adj then g.adj[v] else NO_ADJ }

  // ----- edge creation -----

  function AddOut(adj: map<nat, Adj>, v: nat, x: Entry): map<nat, Adj> {
    var a := if v in adj then adj[v] else NO_ADJ;
    adj[v := a.(outgoing := a.outgoing + {x})]
  }

  function AddIn(adj: map<nat, Adj>, v: nat, x: Entry): map<nat, Adj> {
    var a := if v in adj then adj[v] else NO_ADJ;
    adj[v := a.(incoming := a.incoming + {x})]
  }

  function WithEdge(g: Graph, eid: nat, r: EdgeRec): Graph {
    g.(edges := g.edges[eid := r],
       adj := AddIn(AddOut(g.adj, r.src, Entry(r.labelId, r.dst, eid)), r.dst, Entry(r.labelId, r.src, eid)))
  }

  // ----- garbage collection -----

  function DropOut(adj: map<nat, Adj>, v: nat, x: Entry): map<nat, Adj> {
    if v in adj then adj[v := adj[v].(outgoing := adj[v].outgoing - {x})] else adj
  }

  function DropIn(adj: map<nat, Adj>, v: nat, x: Entry): map<nat, Adj> {
    if v in adj then adj[v := adj[v].(incoming := adj[v].incoming - {x})] else adj
  }

  /** The entries a vertex's neighbours hold for it. */
  function Mirror(s: set<Entry>, n: nat, v: nat): set<Entry> {
    set x | x in s && x.neighbor == n :: Entry(x.labelId, v, x.eid)
  }

  function WithoutVertex(g: Graph, v: nat): Graph {
    var a := AdjOf(g, v);
    Graph(g.vertices - {v}, g.edges,
          map n | n in g.adj && n != v ::
            Adj(g.adj[n].outgoing - Mirror(a.incoming, n, v), g.adj[n].incoming - Mirror(a.outgoing, n, v)))
  }

  function WithoutEntries(g: Graph, eid: nat, r: EdgeRec): Graph {
    g.(adj := DropIn(DropOut(g.adj, r.src, Entry(r.labelId, r.dst, eid)), r.dst, Entry(r.labelId, r.src, eid)))
  }

  predicate VertexTomb(g: Graph, v: nat) { v in g.vertices && g.vertices[v].tomb }

  predicate EdgeTomb(g: Graph, e: nat) { e in g.edges && g.edges[e].tomb }

  /** All three tombstone tests come before any removal. */
  function CleanEdge(g: Graph, eid: nat, r: EdgeRec): Graph {
    var g1 := if VertexTomb(g, r.src) then WithoutVertex(g, r.src) else g;
    var g2 := if VertexTomb(g, r.dst) then WithoutVertex(g1, r.dst) else g1;
    if EdgeTomb(g, eid) then WithoutEntries(g2.(edges := g2.edges - {eid}), eid, r) else g2
  }

  // ----- properties -----

  /** An edge is in its source's outgoing list exactly when it is in its destination's incoming list. */
  ghost predicate Symmetric(g: Graph) {
    forall l, s, d, e :: Entry(l, d, e) in AdjOf(g, s).outgoing <==> Entry(l, s, e) in AdjOf(g, d).incoming
  }

  /** Every adjacency entry names a stored edge with those ends and that label. */
  ghost predicate Named(g: Graph) {
    && (forall v: nat, x | x in AdjOf(g, v).outgoing :: x.eid in g.edges && Ends(g.edges[x.eid]) == (x.labelId, v, x.neighbor))
    && (forall v: nat, x | x in AdjOf(g, v).incoming :: x.eid in g.edges && Ends(g.edges[x.eid]) == (x.labelId, x.neighbor, v))
  }

  function Ends(r: EdgeRec): (nat, nat, nat) { (r.labelId, r.src, r.dst) }

  lemma AddedEdge(g: Graph, eid: nat, r: EdgeRec, v: nat)
    ensures var a, a' := AdjOf(g, v), AdjOf(WithEdge(g, eid, r), v);
            && a'.outgoing == a.outgoing + (if v == r.src then {Entry(r.labelId, r.dst, eid)} else {})
            && a'.incoming == a.incoming + (if v == r.dst then {Entry(r.labelId, r.src, eid)} else {})
  {
  }

  lemma DroppedEdge(g: Graph, eid: nat, r: EdgeRec, v: nat)
    ensures var a, a' := AdjOf(g, v), AdjOf(WithoutEntries(g, eid, r), v);
            && a'.outgoing == a.outgoing - (if v == r.src then {Entry(r.labelId, r.dst, eid)} else {})
            && a'.incoming == a.incoming - (if v == r.dst then {Entry(r.labelId, r.src, eid)} else {})
  {
  }

  lemma DroppedVertex(g: Graph, v: nat, n: nat)
    ensures var a, a' := AdjOf(g, n), AdjOf(WithoutVertex(g, v), n);
            if n == v then a' == NO_ADJ
            else a'.outgoing == a.outgoing - Mirror(AdjOf(g, v).incoming, n, v)
                 && a'.incoming == a.incoming - Mirror(AdjOf(g, v).outgoing, n, v)
  {
  }

  /** A creation adds the edge as given and its two entries, nothing else. */
  lemma CreateExact(g: Graph, eid: nat, r: EdgeRec)
    requires eid !in g.edges
    ensures var g' := Apply(g, Create(eid, r));
            && g'.vertices == g.vertices && g'.edges.Keys == g.edges.Keys + {eid} && g'.edges[eid] == r
            && (forall e | e in g.edges :: g'.edges[e] == g.edges[e])
            && forall v: nat, x: Entry ::
                 && (x in AdjOf(g', v).outgoing <==> (x in AdjOf(g, v).outgoing || (v == r.src && x == Entry(r.labelId, r.dst, eid))))
                 && (x in AdjOf(g', v).incoming <==> (x in AdjOf(g, v).incoming || (v == r.dst && x == Entry(r.labelId, r.src, eid))))
  {
    forall v: nat ensures AdjOf(Apply(g, Create(eid, r)), v) == AdjOf(WithEdge(g, eid, r), v) { AddedEdge(g, eid, r, v); }
    forall v: nat, x: Entry
      ensures x in AdjOf(Apply(g, Create(eid, r)), v).outgoing <==>
                (x in AdjOf(g, v).outgoing || (v == r.src && x == Entry(r.labelId, r.dst, eid)))
      ensures x in AdjOf(Apply(g, Create(eid, r)), v).incoming <==>
                (x in AdjOf(g, v).incoming || (v == r.dst && x == Entry(r.labelId, r.src, eid)))
    {
      AddedEdge(g, eid, r, v);
      hide AdjOf, WithEdge;
    }
  }

  /** Updates change the one head they name: an edge's ends and label stay. */
  lemma UpdateExact(g: Graph, id: nat, v: VertexRec, tomb: bool, data: nat, ts: nat)
    ensures var g' := Apply(g, PutVertex(id, v));
            g'.edges == g.edges && g'.adj == g.adj && id in g'.vertices && g'.vertices[id] == v
            && forall u | u != id :: (u in g'.vertices <==> u in g.vertices) && (u in g.vertices ==> g'.vertices[u] == g.vertices[u])
    ensures var g' := Apply(g, Restamp(id, tomb, data, ts));
            && g'.vertices == g.vertices && g'.adj == g.adj && g'.edges.Keys == g.edges.Keys
            && forall e | e in g.edges :: g'.edges[e] ==
                 if e == id then EdgeRec(g.edges[e].src, g.edges[e].dst, g.edges[e].labelId, tomb, data, ts) else g.edges[e]
  {
  }

  lemma CreateSymmetric(g: Graph, eid: nat, r: EdgeRec)
    requires Symmetric(g)
    ensures Symmetric(WithEdge(g, eid, r))
  {
    var g' := WithEdge(g, eid, r);
    forall l, s, d, e ensures Entry(l, d, e) in AdjOf(g', s).outgoing <==> Entry(l, s, e) in AdjOf(g', d).incoming {
      AddedEdge(g, eid, r, s);
      AddedEdge(g, eid, r, d);
      assert Entry(l, d, e) in AdjOf(g, s).outgoing <==> Entry(l, s, e) in AdjOf(g, d).incoming;
    }
  }

  lemma CreateNamed(g: Graph, eid: nat, r: EdgeRec)
    requires Named(g) && eid !in g.edges
    ensures Named(WithEdge(g, eid, r))
  {
    var g' := WithEdge(g, eid, r);
    forall v: nat, x | x in AdjOf(g', v).outgoing
      ensures x.eid in g'.edges && Ends(g'.edges[x.eid]) == (x.labelId, v, x.neighbor)
    {
      AddedEdge(g, eid, r, v);
    }
    forall v: nat, x | x in AdjOf(g', v).incoming
      ensures x.eid in g'.edges && Ends(g'.edges[x.eid]) == (x.labelId, x.neighbor, v)
    {
      AddedEdge(g, eid, r, v);
    }
  }

  /** No adjacency entry mentions the vertex. */
  ghost predicate Unmentioned(g: Graph, v: nat) {
    forall n: nat :: UnmentionedBy(AdjOf(g, n), n, v)
  }

  ghost predicate UnmentionedBy(a: Adj, n: nat, v: nat) {
    forall x | x in a.outgoing + a.incoming :: n != v && x.neighbor != v
  }

  /** Removing a vertex keeps symmetry, and leaves no entry that mentions it. */
  lemma VertexSymmetric(g: Graph, v: nat)
    requires Symmetric(g)
    ensures Symmetric(WithoutVertex(g, v)) && Unmentioned(WithoutVertex(g, v), v)
  {
  }

  lemma VertexNamed(g: Graph, v: nat)
    requires Named(g)
    ensures Named(WithoutVertex(g, v))
  {
    var g' := WithoutVertex(g, v);
    assert g'.edges == g.edges;
    forall n: nat ensures AdjOf(g', n).outgoing <= AdjOf(g, n).outgoing && AdjOf(g', n).incoming <= AdjOf(g, n).incoming {
      DroppedVertex(g, v, n);
    }
    hide AdjOf, WithoutVertex;
  }

  /** Taking an image's entries out of both lists keeps them symmetric, whatever the image says. */
  lemma EntriesSymmetric(g: Graph, eid: nat, r: EdgeRec)
    requires Symmetric(g)
    ensures Symmetric(WithoutEntries(g.(edges := g.edges - {eid}), eid, r))
  {
    var g1 := g.(edges := g.edges - {eid});
    var g' := WithoutEntries(g1, eid, r);
    forall l, s, d, e ensures Entry(l, d, e) in AdjOf(g', s).outgoing <==> Entry(l, s, e) in AdjOf(g', d).incoming {
      DroppedEdge(g1, eid, r, s);
      DroppedEdge(g1, eid, r, d);
      assert AdjOf(g1, s) == AdjOf(g, s) && AdjOf(g1, d) == AdjOf(g, d);
      assert Entry(l, d, e) in AdjOf(g, s).outgoing <==> Entry(l, s, e) in AdjOf(g, d).incoming;
    }
  }

  lemma EntriesNamed(g: Graph, eid: nat, r: EdgeRec)
    requires Named(g) && (eid in g.edges ==> Ends(g.edges[eid]) == Ends(r))
    ensures Named(WithoutEntries(g.(edges := g.edges - {eid}), eid, r))
  {
    var g1 := g.(edges := g.edges - {eid});
    var g' := WithoutEntries(g1, eid, r);
    forall v ensures AdjOf(g1, v) == AdjOf(g, v) { }
    forall v: nat, x | x in AdjOf(g', v).outgoing
      ensures x.eid in g'.edges && Ends(g'.edges[x.eid]) == (x.labelId, v, x.neighbor)
    {
      DroppedEdge(g1, eid, r, v);
      assert x in AdjOf(g, v).outgoing && x == Entry(x.labelId, x.neighbor, x.eid);
    }
    forall v: nat, x | x in AdjOf(g', v).incoming
      ensures x.eid in g'.edges && Ends(g'.edges[x.eid]) == (x.labelId, x.neighbor, v)
    {
      DroppedEdge(g1, eid, r, v);
      assert x in AdjOf(g, v).incoming && x == Entry(x.labelId, x.neighbor, x.eid);
    }
  }

  lemma CleanSymmetric(g: Graph, eid: nat, r: EdgeRec)
    requires Symmetric(g)
    ensures Symmetric(CleanEdge(g, eid, r))
  {
    var g1 := if VertexTomb(g, r.src) then WithoutVertex(g, r.src) else g;
    var g2 := if VertexTomb(g, r.dst) then WithoutVertex(g1, r.dst) else g1;
    hide Symmetric;
    if VertexTomb(g, r.src) { VertexSymmetric(g, r.src); }
    if VertexTomb(g, r.dst) { VertexSymmetric(g1, r.dst); }
    if EdgeTomb(g, eid) { EntriesSymmetric(g2, eid, r); }
  }

  lemma CleanNamed(g: Graph, eid: nat, r: EdgeRec)
    requires Named(g) && (eid in g.edges ==> Ends(g.edges[eid]) == Ends(r))
    ensures Named(CleanEdge(g, eid, r))
  {
    var g1 := if VertexTomb(g, r.src) then WithoutVertex(g, r.src) else g;
    var g2 := if VertexTomb(g, r.dst) then WithoutVertex(g1, r.dst) else g1;
    hide Named;
    if VertexTomb(g, r.src) { VertexNamed(g, r.src); }
    if VertexTomb(g, r.dst) { VertexNamed(g1, r.dst); }
    if EdgeTomb(g, eid) { EntriesNamed(g2, eid, r); }
  }

  // ----- runs -----

  /** An undo entry of a collected transaction: the edge it deleted, or the id of one it created. */
  datatype Delta = Deleted(eid: nat, r: EdgeRec) | Made(eid: nat) | Other

  /** The edges whose deletion is the last thing the collected entries say about them. */
  function Expired(ds: seq<Delta>): map<nat, EdgeRec>
    decreases |ds|
  {
    if ds == [] then map[]
    else
      var m := Expired(ds[..|ds| - 1]);
      match ds[|ds| - 1]
      case Deleted(eid, r) => m[eid := r]
      case Made(eid) => m - {eid}
      case Other => m
  }

  /** Clean the expired edges in the order the hash map yields them. */
  function CleanAll(g: Graph, m: map<nat, EdgeRec>, order: seq<nat>): Graph
    decreases |order|
  {
    if order == [] then g
    else
      var g1 := CleanAll(g, m, order[..|order| - 1]);
      var e := order[|order| - 1];
      if e in m then CleanEdge(g1, e, m[e]) else g1
  }

  datatype Event =
    | Create(eid: nat, r: EdgeRec)
    | PutVertex(vid: nat, v: VertexRec)
    | Restamp(eid: nat, tomb: bool, data: nat, ts: nat)
    | Collect(deltas: seq<Delta>, order: seq<nat>)

  function Apply(g: Graph, ev: Event): Graph {
    match ev
    case Create(eid, r) => if eid in g.edges then g else WithEdge(g, eid, r)
    case PutVertex(vid, v) => g.(vertices := g.vertices[vid := v])
    case Restamp(eid, tomb, data, ts) =>
      if eid in g.edges then g.(edges := g.edges[eid := g.edges[eid].(tomb := tomb, data := data, ts := ts)]) else g
    case Collect(deltas, order) => CleanAll(g, Expired(deltas), order)
  }

  lemma CleanEdges(g: Graph, eid: nat, r: EdgeRec)
    ensures forall e | e in CleanEdge(g, eid, r).edges :: e in g.edges && CleanEdge(g, eid, r).edges[e] == g.edges[e]
  {
  }

  lemma {:induction false} CleanAllSymmetric(g: Graph, m: map<nat, EdgeRec>, order: seq<nat>)
    requires Symmetric(g)
    ensures Symmetric(CleanAll(g, m, order))
    decreases |order|
  {
    if order != [] {
      var e := order[|order| - 1];
      CleanAllSymmetric(g, m, order[..|order| - 1]);
      if e in m { CleanSymmetric(CleanAll(g, m, order[..|order| - 1]), e, m[e]); }
    }
  }

  lemma EventSymmetric(g: Graph, ev: Event)
    requires Symmetric(g)
    ensures Symmetric(Apply(g, ev))
  {
    match ev
    case Create(eid, r) => if eid !in g.edges { CreateSymmetric(g, eid, r); }
    case Collect(deltas, order) => CleanAllSymmetric(g, Expired(deltas), order);
    case PutVertex(_, _) => assert forall v :: AdjOf(Apply(g, ev), v) == AdjOf(g, v);
    case Restamp(_, _, _, _) => assert forall v :: AdjOf(Apply(g, ev), v) == AdjOf(g, v);
  }

  function Run(g: Graph, evs: seq<Event>): Graph
    decreases |evs|
  {
    if evs == [] then g else Run(Apply(g, evs[0]), evs[1..])
  }

  /** Over every run of edge creations, vertex and edge updates and collections of whatever undo images,
      adjacency stays symmetric. */
  lemma {:induction false} RunSymmetric(g: Graph, evs: seq<Event>)
    requires Symmetric(g)
    ensures Symmetric(Run(g, evs))
    decreases |evs|
  {
    hide Symmetric, Apply;
    if evs != [] {
      EventSymmetric(g, evs[0]);
      RunSymmetric(Apply(g, evs[0]), evs[1..]);
    }
  }

  const EMPTY := Graph(map[], map[], map[])

  // ----- what a collection takes away -----

  /** An image expires exactly when it is the last thing the entries say about its edge. */
  lemma {:induction false} ExpiredIff(ds: seq<Delta>, e: nat, r: EdgeRec)
    ensures e in Expired(ds) && Expired(ds)[e] == r <==> exists i | 0 <= i < |ds| :: LastSays(ds, i, e, r)
    decreases |ds|
  {
    if ds != [] {
      var n := |ds| - 1;
      ExpiredIff(ds[..n], e, r);
      if i :| 0 <= i < n && LastSays(ds, i, e, r) { assert LastSays(ds[..n], i, e, r); }
      if i :| 0 <= i < n && LastSays(ds[..n], i, e, r) && !Says(ds[n], e) { assert LastSays(ds, i, e, r); }
      if ds[n] == Deleted(e, r) { assert LastSays(ds, n, e, r); }
    }
  }

  predicate Says(d: Delta, e: nat) { !d.Other? && d.eid == e }

  ghost predicate LastSays(ds: seq<Delta>, i: int, e: nat, r: EdgeRec)
    requires 0 <= i < |ds|
  {
    ds[i] == Deleted(e, r) && forall j | i < j < |ds| :: !Says(ds[j], e)
  }

  predicate TombEnd(g: Graph, r: EdgeRec, v: nat) { (v == r.src || v == r.dst) && VertexTomb(g, v) }

  /** A tombstoned end of one of the edges. */
  ghost predicate Gone(g: Graph, m: map<nat, EdgeRec>, es: set<nat>, v: nat) {
    exists e :: e in es && e in m && TombEnd(g, m[e], v)
  }

  /** One of the edges, tombstoned. */
  predicate GoneEdge(g: Graph, m: map<nat, EdgeRec>, es: set<nat>, e: nat) { e in es && e in m && EdgeTomb(g, e) }

  predicate GoneOut(g: Graph, m: map<nat, EdgeRec>, es: set<nat>, n: nat, x: Entry) {
    GoneEdge(g, m, es, x.eid) && n == m[x.eid].src && x == Entry(m[x.eid].labelId, m[x.eid].dst, x.eid)
  }

  predicate GoneIn(g: Graph, m: map<nat, EdgeRec>, es: set<nat>, n: nat, x: Entry) {
    GoneEdge(g, m, es, x.eid) && n == m[x.eid].dst && x == Entry(m[x.eid].labelId, m[x.eid].src, x.eid)
  }

  /** From `g` to `g'` exactly these went: the tombstoned ends of the edges `es` with their containers and
      every entry that mentions them, the tombstoned edges among `es`, and the entries their images name. */
  ghost predicate Cleaned(g: Graph, g': Graph, m: map<nat, EdgeRec>, es: set<nat>) {
    KeysCleaned(g, g', m, es) && forall n: nat, x: Entry :: EntryCleaned(g, g', m, es, n, x)
  }

  ghost predicate KeysCleaned(g: Graph, g': Graph, m: map<nat, EdgeRec>, es: set<nat>) {
    && (forall v: nat :: v in g'.vertices <==> (v in g.vertices && !Gone(g, m, es, v)))
    && (forall v | v in g'.vertices :: v in g.vertices && g'.vertices[v] == g.vertices[v])
    && (forall e :: e in g'.edges <==> e in g.edges && !GoneEdge(g, m, es, e))
    && (forall e | e in g'.edges :: e in g.edges && g'.edges[e] == g.edges[e])
    && (forall n: nat :: n in g'.adj <==> (n in g.adj && !Gone(g, m, es, n)))
  }

  ghost predicate EntryCleaned(g: Graph, g': Graph, m: map<nat, EdgeRec>, es: set<nat>, n: nat, x: Entry) {
    && (x in AdjOf(g', n).outgoing <==>
          (x in AdjOf(g, n).outgoing && !Gone(g, m, es, n) && !Gone(g, m, es, x.neighbor) && !GoneOut(g, m, es, n, x)))
    && (x in AdjOf(g', n).incoming <==>
          (x in AdjOf(g, n).incoming && !Gone(g, m, es, n) && !Gone(g, m, es, x.neighbor) && !GoneIn(g, m, es, n, x)))
  }

  /** In a symmetric graph exactly the entries that mention the vertex go with it. */
  lemma VertexTakes(g: Graph, v: nat, n: nat, x: Entry)
    requires Symmetric(g)
    ensures x in AdjOf(WithoutVertex(g, v), n).outgoing <==> x in AdjOf(g, n).outgoing && n != v && x.neighbor != v
    ensures x in AdjOf(WithoutVertex(g, v), n).incoming <==> x in AdjOf(g, n).incoming && n != v && x.neighbor != v
  {
    DroppedVertex(g, v, n);
    var a := AdjOf(g, v);
    assert Entry(x.labelId, x.neighbor, x.eid) == x;
    assert Entry(x.labelId, v, x.eid) in AdjOf(g, n).outgoing <==> Entry(x.labelId, n, x.eid) in a.incoming;
    assert Entry(x.labelId, n, x.eid) in a.outgoing <==> Entry(x.labelId, v, x.eid) in AdjOf(g, n).incoming;
    assert x in Mirror(a.incoming, n, v) <==> x.neighbor == v && Entry(x.labelId, n, x.eid) in a.incoming;
    assert x in Mirror(a.outgoing, n, v) <==> x.neighbor == v && Entry(x.labelId, n, x.eid) in a.outgoing;
  }

  /** Cleaning one edge, entry by entry. */
  lemma EdgeTakes(g: Graph, eid: nat, r: EdgeRec, n: nat, x: Entry)
    requires Symmetric(g)
    ensures var g' := CleanEdge(g, eid, r);
            && (x in AdjOf(g', n).outgoing <==>
                  (&& x in AdjOf(g, n).outgoing && !TombEnd(g, r, n) && !TombEnd(g, r, x.neighbor)
                   && !(EdgeTomb(g, eid) && n == r.src && x == Entry(r.labelId, r.dst, eid))))
            && (x in AdjOf(g', n).incoming <==>
                  (&& x in AdjOf(g, n).incoming && !TombEnd(g, r, n) && !TombEnd(g, r, x.neighbor)
                   && !(EdgeTomb(g, eid) && n == r.dst && x == Entry(r.labelId, r.src, eid))))
  {
    var g1 := if VertexTomb(g, r.src) then WithoutVertex(g, r.src) else g;
    var g2 := if VertexTomb(g, r.dst) then WithoutVertex(g1, r.dst) else g1;
    hide Symmetric;
    if VertexTomb(g, r.src) { VertexSymmetric(g, r.src); VertexTakes(g, r.src, n, x); }
    if VertexTomb(g, r.dst) { VertexTakes(g1, r.dst, n, x); }
    if EdgeTomb(g, eid) {
      var g3 := g2.(edges := g2.edges - {eid});
      assert AdjOf(g3, n) == AdjOf(g2, n);
      DroppedEdge(g3, eid, r, n);
    }
    hide WithoutVertex, WithoutEntries, AdjOf;
  }

  lemma EdgeKeys(g: Graph, eid: nat, r: EdgeRec)
    ensures var g' := CleanEdge(g, eid, r);
            && (forall v :: v in g'.vertices <==> v in g.vertices && !TombEnd(g, r, v))
            && (forall v | v in g'.vertices :: g'.vertices[v] == g.vertices[v])
            && (forall e :: e in g'.edges <==> e in g.edges && !(e == eid && EdgeTomb(g, eid)))
            && (forall e | e in g'.edges :: g'.edges[e] == g.edges[e])
            && (forall n :: n in g'.adj <==> n in g.adj && !TombEnd(g, r, n))
  {
  }

  lemma GoneMore(g: Graph, g1: Graph, m: map<nat, EdgeRec>, es: set<nat>, e: nat, v: nat)
    requires KeysCleaned(g, g1, m, es) && e in m
    ensures GoneBoth(g, g1, m, es, e, v)
  {
    assert VertexTomb(g1, v) <==> VertexTomb(g, v) && !Gone(g, m, es, v);
    assert TombEnd(g, m[e], v) ==> Gone(g, m, es + {e}, v);
    if Gone(g, m, es, v) {
      var f :| f in es && f in m && TombEnd(g, m[f], v);
      assert f in es + {e};
    }
  }

  lemma CleanMore(g: Graph, g1: Graph, m: map<nat, EdgeRec>, es: set<nat>, e: nat)
    requires Cleaned(g, g1, m, es) && e in m && Symmetric(g1)
    ensures Cleaned(g, CleanEdge(g1, e, m[e]), m, es + {e})
  {
    KeysMore(g, g1, m, es, e);
    EntriesMore(g, g1, m, es, e);
    hide KeysCleaned, EntryCleaned, CleanEdge;
  }

  lemma KeysMore(g: Graph, g1: Graph, m: map<nat, EdgeRec>, es: set<nat>, e: nat)
    requires KeysCleaned(g, g1, m, es) && e in m
    ensures KeysCleaned(g, CleanEdge(g1, e, m[e]), m, es + {e})
  {
    EdgeKeys(g1, e, m[e]);
    EdgesMore(g, g1, m, es, e);
    forall v: nat ensures GoneBoth(g, g1, m, es, e, v) { GoneMore(g, g1, m, es, e, v); }
    hide CleanEdge, Gone, AdjOf, GoneBoth, TombEnd, GoneEdge, EdgeTomb;
    var g2 := CleanEdge(g1, e, m[e]);
    GoneKeys(g, g1, g2.vertices.Keys, g.vertices.Keys, g1.vertices.Keys, m, es, e);
    GoneKeys(g, g1, g2.adj.Keys, g.adj.Keys, g1.adj.Keys, m, es, e);
  }

  lemma EdgesMore(g: Graph, g1: Graph, m: map<nat, EdgeRec>, es: set<nat>, e: nat)
    requires KeysCleaned(g, g1, m, es) && e in m
    ensures forall f :: f in CleanEdge(g1, e, m[e]).edges <==> f in g.edges && !GoneEdge(g, m, es + {e}, f)
  {
    EdgeKeys(g1, e, m[e]);
    hide CleanEdge, Gone;
  }

  lemma GoneKeys(g: Graph, g1: Graph, k2: set<nat>, k: set<nat>, k1: set<nat>, m: map<nat, EdgeRec>, es: set<nat>, e: nat)
    requires e in m && forall v: nat :: GoneBoth(g, g1, m, es, e, v)
    requires forall v: nat :: v in k1 <==> (v in k && !Gone(g, m, es, v))
    requires forall v: nat :: v in k2 <==> (v in k1 && !TombEnd(g1, m[e], v))
    ensures forall v: nat :: v in k2 <==> (v in k && !Gone(g, m, es + {e}, v))
  {
    hide Gone, TombEnd;
    forall v: nat ensures v in k2 <==> (v in k && !Gone(g, m, es + {e}, v)) { assert GoneBoth(g, g1, m, es, e, v); }
  }

  lemma EntriesMore(g: Graph, g1: Graph, m: map<nat, EdgeRec>, es: set<nat>, e: nat)
    requires Cleaned(g, g1, m, es) && e in m && Symmetric(g1)
    ensures forall n: nat, x: Entry :: EntryCleaned(g, CleanEdge(g1, e, m[e]), m, es + {e}, n, x)
  {
    assert EdgeTomb(g1, e) <==> EdgeTomb(g, e) && !GoneEdge(g, m, es, e);
    hide CleanEdge, Symmetric, Gone, EntryCleaned, KeysCleaned, GoneBoth, EdgeTomb, GoneEdge;
    forall n: nat, x: Entry ensures EntryCleaned(g, CleanEdge(g1, e, m[e]), m, es + {e}, n, x) {
      GoneMore(g, g1, m, es, e, n);
      GoneMore(g, g1, m, es, e, x.neighbor);
      EntryMore(g, g1, m, es, e, n, x);
    }
  }

  ghost predicate GoneBoth(g: Graph, g1: Graph, m: map<nat, EdgeRec>, es: set<nat>, e: nat, v: nat)
    requires e in m
  {
    Gone(g, m, es + {e}, v) <==> Gone(g, m, es, v) || TombEnd(g1, m[e], v)
  }

  lemma EntryMore(g: Graph, g1: Graph, m: map<nat, EdgeRec>, es: set<nat>, e: nat, n: nat, x: Entry)
    requires e in m && Symmetric(g1) && EntryCleaned(g, g1, m, es, n, x)
    requires GoneBoth(g, g1, m, es, e, n) && GoneBoth(g, g1, m, es, e, x.neighbor)
    requires EdgeTomb(g1, e) <==> EdgeTomb(g, e) && !GoneEdge(g, m, es, e)
    ensures EntryCleaned(g, CleanEdge(g1, e, m[e]), m, es + {e}, n, x)
  {
    EdgeTakes(g1, e, m[e], n, x);
    hide AdjOf, CleanEdge, Symmetric, Gone, TombEnd;
  }

  function Set(order: seq<nat>): set<nat> { set e | e in order }

  /** Collection takes exactly that away, in whatever order the expired edges come. */
  lemma {:induction false} CleanAllExact(g: Graph, m: map<nat, EdgeRec>, order: seq<nat>)
    requires Symmetric(g)
    ensures Cleaned(g, CleanAll(g, m, order), m, Set(order))
    decreases |order|
  {
    if order == [] {
      NothingCleaned(g, m);
    } else {
      var e, rest := order[|order| - 1], order[..|order| - 1];
      CleanAllExact(g, m, rest);
      CleanAllSymmetric(g, m, rest);
      assert order == rest + [e];
      assert Set(order) == Set(rest) + {e};
      hide Cleaned, Symmetric, CleanEdge;
      if e in m { CleanMore(g, CleanAll(g, m, rest), m, Set(rest), e); }
      else { CleanedSame(g, CleanAll(g, m, rest), m, Set(rest), e); }
    }
  }

  /** A collection of undo entries, its expired edges taken in any order. */
  lemma CollectExact(g: Graph, deltas: seq<Delta>, order: seq<nat>)
    requires Symmetric(g) && forall e :: e in order <==> e in Expired(deltas)
    ensures Cleaned(g, Apply(g, Collect(deltas, order)), Expired(deltas), Expired(deltas).Keys)
  {
    CleanAllExact(g, Expired(deltas), order);
    assert Set(order) == Expired(deltas).Keys;
  }

  lemma NothingCleaned(g: Graph, m: map<nat, EdgeRec>)
    ensures Cleaned(g, g, m, {})
  {
    forall n: nat, x: Entry ensures EntryCleaned(g, g, m, {}, n, x) { hide AdjOf; }
  }

  lemma CleanedSame(g: Graph, g1: Graph, m: map<nat, EdgeRec>, es: set<nat>, e: nat)
    requires Cleaned(g, g1, m, es) && e !in m
    ensures Cleaned(g, g1, m, es + {e})
  {
    forall v: nat ensures Gone(g, m, es + {e}, v) <==> Gone(g, m, es, v) {
      if Gone(g, m, es, v) {
        var f :| f in es && f in m && TombEnd(g, m[f], v);
        assert f in es + {e};
      }
    }
    hide Gone;
    forall n: nat, x: Entry ensures EntryCleaned(g, g1, m, es + {e}, n, x) {
      assert EntryCleaned(g, g1, m, es, n, x);
      hide AdjOf;
    }
  }

  // ----- checkpoints -----

  /** Adjacency is saved as edge id and neighbour only. */
  datatype SavedAdj = SavedAdj(outgoing: set<(nat, nat)>, incoming: set<(nat, nat)>)

  datatype Saved = Saved(vertices: map<nat, VertexRec>, edges: map<nat, EdgeRec>, adj: map<nat, SavedAdj>)

  function Pairs(s: set<Entry>): set<(nat, nat)> { set x | x in s :: (x.eid, x.neighbor) }

  function Checkpoint(g: Graph): Saved {
    Saved(g.vertices, g.edges, map v | v in g.adj :: SavedAdj(Pairs(g.adj[v].outgoing), Pairs(g.adj[v].incoming)))
  }

  predicate Known(s: set<(nat, nat)>, edges: map<nat, EdgeRec>) { forall p | p in s :: p.0 in edges }

  /** Restoring looks every edge up for its label; a missing edge is a panic. */
  predicate Restorable(c: Saved) {
    forall v | v in c.adj :: Known(c.adj[v].outgoing, c.edges) && Known(c.adj[v].incoming, c.edges)
  }

  function Relabel(s: set<(nat, nat)>, edges: map<nat, EdgeRec>): set<Entry>
    requires Known(s, edges)
  {
    set p | p in s :: Entry(edges[p.0].labelId, p.1, p.0)
  }

  function Restored(c: Saved): Graph
    requires Restorable(c)
  {
    Graph(c.vertices, c.edges, map v | v in c.adj :: Adj(Relabel(c.adj[v].outgoing, c.edges), Relabel(c.adj[v].incoming, c.edges)))
  }

  ghost predicate Labelled(s: set<Entry>, edges: map<nat, EdgeRec>) {
    forall x | x in s :: x.eid in edges && edges[x.eid].labelId == x.labelId
  }

  ghost predicate AllLabelled(g: Graph) {
    forall v | v in g.adj :: Labelled(g.adj[v].outgoing, g.edges) && Labelled(g.adj[v].incoming, g.edges)
  }

  lemma KnownIff(s: set<Entry>, edges: map<nat, EdgeRec>)
    ensures Known(Pairs(s), edges) <==> forall x | x in s :: x.eid in edges
  {
    forall x | x in s ensures (x.eid, x.neighbor) in Pairs(s) { }
  }

  lemma RelabelIff(s: set<Entry>, edges: map<nat, EdgeRec>)
    requires Known(Pairs(s), edges)
    ensures Relabel(Pairs(s), edges) == s <==> Labelled(s, edges)
  {
    KnownIff(s, edges);
    var r := Relabel(Pairs(s), edges);
    forall x | x in s ensures Entry(edges[x.eid].labelId, x.neighbor, x.eid) in r {
      assert (x.eid, x.neighbor) in Pairs(s);
    }
    if r == s {
      forall x | x in s ensures edges[x.eid].labelId == x.labelId { assert x in r; }
    }
    if Labelled(s, edges) {
      forall x | x in r ensures x in s {
        var p :| p in Pairs(s) && x == Entry(edges[p.0].labelId, p.1, p.0);
        var y :| y in s && (y.eid, y.neighbor) == p;
        assert x == y;
      }
    }
  }

  /** Restoring a checkpoint succeeds and gives back vertices, edges, stamps and adjacency if and only if
      every adjacency entry names a stored edge with that label. */
  lemma RestoreExact(g: Graph)
    ensures (Restorable(Checkpoint(g)) && Restored(Checkpoint(g)) == g) <==> AllLabelled(g)
  {
    var c := Checkpoint(g);
    forall v | v in g.adj
      ensures Known(c.adj[v].outgoing, c.edges) <==> forall x | x in g.adj[v].outgoing :: x.eid in g.edges
      ensures Known(c.adj[v].incoming, c.edges) <==> forall x | x in g.adj[v].incoming :: x.eid in g.edges
    {
      KnownIff(g.adj[v].outgoing, g.edges);
      KnownIff(g.adj[v].incoming, g.edges);
    }
    if Restorable(c) {
      var r := Restored(c);
      forall v | v in g.adj
        ensures r.adj[v] == g.adj[v] <==> Labelled(g.adj[v].outgoing, g.edges) && Labelled(g.adj[v].incoming, g.edges)
      {
        RelabelIff(g.adj[v].outgoing, g.edges);
        RelabelIff(g.adj[v].incoming, g.edges);
      }
      assert r.adj.Keys == g.adj.Keys;
      assert r == g <==> r.adj == g.adj;
    }
  }

  // ----- undo images of deletions -----

  /** A deletion's undo entry keeps the edge as it was. */
  datatype Image = Image(eid: nat, r: EdgeRec)

  /** The graph, and the images held by transactions not collected yet. */
  datatype World = World(g: Graph, images: seq<Image>)

  /** A deletion accepts a tombstone; a rollback forgets images; a collection takes some and leaves
      others. */
  datatype Step =
    | Plain(ev: Event)
    | DeleteEdge(eid: nat, ts: nat)
    | Forget(kept: seq<Image>)
    | CollectTxns(deltas: seq<Delta>, order: seq<nat>, kept: seq<Image>)

  function Do(w: World, st: Step): World {
    match st
    case Plain(ev) => w.(g := Apply(w.g, ev))
    case DeleteEdge(eid, ts) =>
      if eid in w.g.edges then
        World(Apply(w.g, Restamp(eid, true, w.g.edges[eid].data, ts)), w.images + [Image(eid, w.g.edges[eid])])
      else w
    case Forget(kept) => w.(images := kept)
    case CollectTxns(deltas, order, kept) => World(Apply(w.g, Collect(deltas, order)), kept)
  }

  /** What a collection takes and what a step leaves are images that were there. */
  ghost predicate Possible(w: World, st: Step) {
    match st
    case Plain(ev) => !ev.Collect?
    case DeleteEdge(_, _) => true
    case Forget(kept) => forall x | x in kept :: x in w.images
    case CollectTxns(deltas, _, kept) =>
      (forall d | d in deltas && d.Deleted? :: Image(d.eid, d.r) in w.images) && forall x | x in kept :: x in w.images
  }

  /** The guard: no image still held names the id with other ends. */
  ghost predicate FreeOfImages(w: World, eid: nat, r: EdgeRec) {
    forall x | x in w.images && x.eid == eid :: Ends(x.r) == Ends(r)
  }

  ghost predicate Guarded(w: World, st: Step) {
    st.Plain? && st.ev.Create? && st.ev.eid !in w.g.edges ==> FreeOfImages(w, st.ev.eid, st.ev.r)
  }

  ghost predicate GuardedRun(w: World, steps: seq<Step>)
    decreases |steps|
  {
    steps == [] || (Possible(w, steps[0]) && Guarded(w, steps[0]) && GuardedRun(Do(w, steps[0]), steps[1..]))
  }

  function RunSteps(w: World, steps: seq<Step>): World
    decreases |steps|
  {
    if steps == [] then w else RunSteps(Do(w, steps[0]), steps[1..])
  }

  /** Adjacency names stored edges, and images of stored edges agree with them. */
  ghost predicate Faithful(w: World) {
    Named(w.g) && forall x | x in w.images && x.eid in w.g.edges :: Ends(w.g.edges[x.eid]) == Ends(x.r)
  }

  lemma {:induction false} CleanAllNamed(g: Graph, m: map<nat, EdgeRec>, order: seq<nat>)
    requires Named(g) && forall e | e in m && e in g.edges :: Ends(g.edges[e]) == Ends(m[e])
    ensures Named(CleanAll(g, m, order))
    ensures forall e | e in CleanAll(g, m, order).edges :: e in g.edges && CleanAll(g, m, order).edges[e] == g.edges[e]
    decreases |order|
  {
    if order != [] {
      var e := order[|order| - 1];
      CleanAllNamed(g, m, order[..|order| - 1]);
      var g1 := CleanAll(g, m, order[..|order| - 1]);
      hide Named, CleanEdge;
      if e in m {
        CleanNamed(g1, e, m[e]);
        CleanEdges(g1, e, m[e]);
      }
    }
  }

  lemma {:induction false} ExpiredFrom(ds: seq<Delta>)
    ensures forall e | e in Expired(ds) :: Deleted(e, Expired(ds)[e]) in ds
    decreases |ds|
  {
    if ds != [] { ExpiredFrom(ds[..|ds| - 1]); }
  }

  lemma SameAdj(g: Graph, g': Graph)
    requires Named(g) && g'.adj == g.adj && g.edges.Keys <= g'.edges.Keys
    requires forall e | e in g.edges :: Ends(g'.edges[e]) == Ends(g.edges[e])
    ensures Named(g')
  {
    forall v ensures AdjOf(g', v) == AdjOf(g, v) { }
  }

  lemma StepFaithful(w: World, st: Step)
    requires Faithful(w) && Possible(w, st) && Guarded(w, st)
    ensures Faithful(Do(w, st))
  {
    var w' := Do(w, st);
    match st {
      case Plain(ev) =>
        if ev.Create? { if ev.eid !in w.g.edges { CreateNamed(w.g, ev.eid, ev.r); } }
        else { SameAdj(w.g, w'.g); }
      case DeleteEdge(eid, ts) => SameAdj(w.g, w'.g);
      case Forget(_) =>
      case CollectTxns(deltas, order, _) =>
        ExpiredFrom(deltas);
        forall e | e in Expired(deltas) && e in w.g.edges ensures Ends(w.g.edges[e]) == Ends(Expired(deltas)[e]) {
          assert Image(e, Expired(deltas)[e]) in w.images;
        }
        CleanAllNamed(w.g, Expired(deltas), order);
        hide Named, CleanAll, Expired;
    }
  }

  lemma {:induction false} RunFaithful(w: World, steps: seq<Step>)
    requires Faithful(w) && GuardedRun(w, steps)
    ensures Faithful(RunSteps(w, steps))
    decreases |steps|
  {
    hide Faithful, Possible, Guarded, Do;
    if steps != [] {
      StepFaithful(w, steps[0]);
      RunFaithful(Do(w, steps[0]), steps[1..]);
    }
  }

  lemma NamedRestores(g: Graph)
    requires Named(g)
    ensures Restorable(Checkpoint(g)) && Restored(Checkpoint(g)) == g
  {
    forall v | v in g.adj ensures Labelled(g.adj[v].outgoing, g.edges) && Labelled(g.adj[v].incoming, g.edges) {
      assert AdjOf(g, v) == g.adj[v];
    }
    RestoreExact(g);
  }

  /** A checkpoint restores to the state it was taken in, in every state reached without creating an edge
      whose id an uncollected deletion image names with other ends. */
  lemma CheckpointRoundTrip(steps: seq<Step>)
    requires GuardedRun(World(EMPTY, []), steps)
    ensures var g := RunSteps(World(EMPTY, []), steps).g;
            Restorable(Checkpoint(g)) && Restored(Checkpoint(g)) == g
  {
    RunFaithful(World(EMPTY, []), steps);
    NamedRestores(RunSteps(World(EMPTY, []), steps).g);
  }

  /** A creation under an image with other ends: delete the edge and collect the image, and the edge is
      gone while its adjacency entries stay. */
  function Undoing(x: Image): seq<Step> {
    var alive := VertexRec(false, 0, 0);
    [Plain(PutVertex(x.r.src, alive)), Plain(PutVertex(x.r.dst, alive)), DeleteEdge(x.eid, 0),
     CollectTxns([Deleted(x.eid, x.r)], [x.eid], [])]
  }

  lemma CollectOne(g: Graph, eid: nat, r: EdgeRec)
    ensures Apply(g, Collect([Deleted(eid, r)], [eid])) == CleanEdge(g, eid, r)
  {
    var ds := [Deleted(eid, r)];
    assert ds[..0] == [];
    assert Expired(ds) == map[eid := r];
    assert [eid][..0] == [];
    assert CleanAll(g, map[eid := r], [eid][..0]) == g;
  }

  lemma FourSteps(w: World, a: Step, b: Step, c: Step, d: Step)
    ensures RunSteps(w, [a, b, c, d]) == Do(Do(Do(Do(w, a), b), c), d)
    ensures Possible(w, a) && Possible(Do(w, a), b) && Possible(Do(Do(w, a), b), c) && Possible(Do(Do(Do(w, a), b), c), d) &&
            Guarded(w, a) && Guarded(Do(w, a), b) && Guarded(Do(Do(w, a), b), c) && Guarded(Do(Do(Do(w, a), b), c), d)
            ==> GuardedRun(w, [a, b, c, d])
  {
    hide Do, Possible, Guarded;
    var steps := [a, b, c, d];
    assert steps[1..] == [b, c, d] && steps[1..][1..] == [c, d] && steps[1..][1..][1..] == [d];
    assert steps[1..][1..][1..][1..] == [];
    var w1 := Do(w, a);
    var w2 := Do(w1, b);
    assert RunSteps(w2, [c, d]) == RunSteps(Do(w2, c), [d]) == RunSteps(Do(Do(w2, c), d), []) by {
      assert [c, d][1..] == [d] && [d][1..] == [];
    }
    assert [b, c, d][1..] == [c, d];
    assert GuardedRun(w2, [c, d]) <==>
             Possible(w2, c) && Guarded(w2, c) && Possible(Do(w2, c), d) && Guarded(Do(w2, c), d) by {
      assert [c, d][1..] == [d] && [d][1..] == [];
      assert GuardedRun(Do(w2, c), [d]) <==> Possible(Do(w2, c), d) && Guarded(Do(w2, c), d);
    }
  }

  lemma Undone(w: World, r: EdgeRec, x: Image)
    requires x in w.images && x.eid !in w.g.edges && Ends(x.r) != Ends(r)
    ensures var w' := Do(w, Plain(Create(x.eid, r)));
            GuardedRun(w', Undoing(x)) && !Restorable(Checkpoint(RunSteps(w', Undoing(x)).g))
  {
    var w0 := Do(w, Plain(Create(x.eid, r)));
    var a, b, c, d := Undoing(x)[0], Undoing(x)[1], Undoing(x)[2], Undoing(x)[3];
    var w1 := Do(w0, a);
    var w2 := Do(w1, b);
    var w3 := Do(w2, c);
    FourSteps(w0, a, b, c, d);
    assert w1.images == w2.images == w.images && x in w3.images;
    assert w3.g.adj == w0.g.adj && EdgeTomb(w3.g, x.eid);
    assert !VertexTomb(w3.g, x.r.src) && !VertexTomb(w3.g, x.r.dst);
    AddedEdge(w.g, x.eid, r, r.src);
    assert AdjOf(w3.g, r.src) == AdjOf(w0.g, r.src);
    CollectOne(w3.g, x.eid, x.r);
    hide CleanEdge, Checkpoint, WithEdge, AdjOf, CleanAll, Expired, Restorable;
    Dangles(w3.g, x, r);
  }

  /** Cleaning an edge by an image with other ends leaves its entry without an edge. */
  lemma Dangles(g: Graph, x: Image, r: EdgeRec)
    requires EdgeTomb(g, x.eid) && !VertexTomb(g, x.r.src) && !VertexTomb(g, x.r.dst) && Ends(x.r) != Ends(r)
    requires Entry(r.labelId, r.dst, x.eid) in AdjOf(g, r.src).outgoing
    ensures !Restorable(Checkpoint(CleanEdge(g, x.eid, x.r)))
  {
    var g1 := g.(edges := g.edges - {x.eid});
    var g' := CleanEdge(g, x.eid, x.r);
    DroppedEdge(g1, x.eid, x.r, r.src);
    assert AdjOf(g1, r.src) == AdjOf(g, r.src);
    var y := Entry(r.labelId, r.dst, x.eid);
    assert y in AdjOf(g', r.src).outgoing && x.eid !in g'.edges;
    assert r.src in g'.adj && y in g'.adj[r.src].outgoing;
    KnownIff(g'.adj[r.src].outgoing, g'.edges);
    assert Checkpoint(g').adj[r.src].outgoing == Pairs(g'.adj[r.src].outgoing);
  }

  /** Creating an edge under a fresh id keeps every later checkpoint restorable, over all guarded runs,
      if and only if no uncollected deletion image names the id with other ends. */
  lemma CreateSafeIff(w: World, eid: nat, r: EdgeRec)
    requires Faithful(w) && eid !in w.g.edges
    ensures FreeOfImages(w, eid, r) <==>
              forall steps | GuardedRun(Do(w, Plain(Create(eid, r))), steps) ::
                Restorable(Checkpoint(RunSteps(Do(w, Plain(Create(eid, r))), steps).g))
  {
    var w' := Do(w, Plain(Create(eid, r)));
    if FreeOfImages(w, eid, r) {
      StepFaithful(w, Plain(Create(eid, r)));
      forall steps | GuardedRun(w', steps) ensures Restorable(Checkpoint(RunSteps(w', steps).g)) {
        RunFaithful(w', steps);
        NamedRestores(RunSteps(w', steps).g);
      }
    } else {
      var x :| x in w.images && x.eid == eid && Ends(x.r) != Ends(r);
      Undone(w, r, x);
    }
  }

  /** An edge deleted twice, collected after the first deletion, created again with other ends and deleted:
      collecting the second deletion's image leaves a checkpoint that cannot be restored. */
  lemma ReusedIdBreaksRestore()
    ensures var r0, r1 := EdgeRec(1, 2, 3, false, 0, 0), EdgeRec(4, 5, 3, false, 0, 0);
            var w := RunSteps(World(EMPTY, []),
                       [Plain(Create(5, r0)), DeleteEdge(5, 1), DeleteEdge(5, 2),
                        CollectTxns([Deleted(5, r0)], [5], [Image(5, r0.(tomb := true, ts := 1))])]);
            var x := Image(5, r0.(tomb := true, ts := 1));
            5 !in w.g.edges && x in w.images &&
            !Restorable(Checkpoint(RunSteps(Do(w, Plain(Create(5, r1))), Undoing(x)).g))
  {
    var r0, r1 := EdgeRec(1, 2, 3, false, 0, 0), EdgeRec(4, 5, 3, false, 0, 0);
    var x := Image(5, r0.(tomb := true, ts := 1));
    var a, b, c, d := Plain(Create(5, r0)), DeleteEdge(5, 1), DeleteEdge(5, 2), CollectTxns([Deleted(5, r0)], [5], [x]);
    FourSteps(World(EMPTY, []), a, b, c, d);
    var w3 := Do(Do(Do(World(EMPTY, []), a), b), c);
    var w4 := Do(w3, d);
    CollectOne(w3.g, 5, r0);
    assert EdgeTomb(w3.g, 5) && w3.g.vertices == map[];
    assert 5 !in w4.g.edges;
    Undone(w4, r1, x);
  }

  // ----- the store -----

  /** The maps as the source keeps them, changed in place by creation, cleanup and restore. */
  class AdjacencyStore {
    var vertices: map<nat, VertexRec>
    var edges: map<nat, EdgeRec>
    var adj: map<nat, Adj>

    ghost function Value(): Graph
      reads this
    {
      Graph(vertices, edges, adj)
    }

    constructor ()
      ensures Value() == EMPTY
    {
      vertices, edges, adj := map[], map[], map[];
    }

    method CreateEdge(eid: nat, r: EdgeRec) returns (ok: bool)
      modifies this
      ensures ok == (eid !in old(edges))
      ensures Value() == Apply(old(Value()), Create(eid, r))
    {
      ok := eid !in edges;
      if !ok { return; }
      edges := edges[eid := r];
      var out := if r.src in adj then adj[r.src] else NO_ADJ;
      adj := adj[r.src := out.(outgoing := out.outgoing + {Entry(r.labelId, r.dst, eid)})];
      var inc := if r.dst in adj then adj[r.dst] else NO_ADJ;
      adj := adj[r.dst := inc.(incoming := inc.incoming + {Entry(r.labelId, r.src, eid)})];
    }

    /** Visit every neighbour of the vertex and take its entries for the vertex out. */
    method RemoveVertexAndAdjacencies(vid: nat)
      modifies this
      ensures Value() == WithoutVertex(old(Value()), vid)
    {
      ghost var g := Value();
      vertices := vertices - {vid};
      if vid in adj {
        var incoming, outgoing := adj[vid].incoming, adj[vid].outgoing;
        RemoveFromNeighbours(vid, incoming, true);
        RemoveFromNeighbours(vid, outgoing, false);
      }
      adj := adj - {vid};
      forall n | n in adj
        ensures adj[n] == Adj(g.adj[n].outgoing - Mirror(AdjOf(g, vid).incoming, n, vid),
                              g.adj[n].incoming - Mirror(AdjOf(g, vid).outgoing, n, vid))
      {
        assert Mirror({}, n, vid) == {};
      }
    }

    method RemoveFromNeighbours(vid: nat, listed: set<Entry>, fromOutgoing: bool)
      modifies this`adj
      ensures Trimmed(old(adj), adj, listed, vid, fromOutgoing)
    {
      var todo := listed;
      while todo != {}
        invariant todo <= listed && Trimmed(old(adj), adj, listed - todo, vid, fromOutgoing)
        decreases |todo|
      {
        var x :| x in todo;
        var entry := Entry(x.labelId, vid, x.eid);
        TrimOne(old(adj), adj, listed - todo, x, vid, fromOutgoing);
        adj := if fromOutgoing then DropOut(adj, x.neighbor, entry) else DropIn(adj, x.neighbor, entry);
        assert listed - (todo - {x}) == listed - todo + {x};
        todo := todo - {x};
      }
      assert listed - todo == listed;
    }

    method CleanupExpiredEdge(eid: nat, r: EdgeRec)
      modifies this
      ensures Value() == CleanEdge(old(Value()), eid, r)
    {
      var srcTomb := r.src in vertices && vertices[r.src].tomb;
      var dstTomb := r.dst in vertices && vertices[r.dst].tomb;
      var edgeTomb := eid in edges && edges[eid].tomb;
      if srcTomb { RemoveVertexAndAdjacencies(r.src); }
      if dstTomb { RemoveVertexAndAdjacencies(r.dst); }
      if edgeTomb {
        edges := edges - {eid};
        adj := DropOut(adj, r.src, Entry(r.labelId, r.dst, eid));
        adj := DropIn(adj, r.dst, Entry(r.labelId, r.src, eid));
      }
    }

    /** Collect: find the expired edges, then clean them in some order. */
    method CleanupGraphData(deltas: seq<Delta>) returns (ghost order: seq<nat>)
      modifies this
      ensures forall e :: e in order <==> e in Expired(deltas)
      ensures Value() == Apply(old(Value()), Collect(deltas, order))
    {
      var expired: map<nat, EdgeRec> := map[];
      var i := 0;
      while i < |deltas|
        invariant 0 <= i <= |deltas| && expired == Expired(deltas[..i])
      {
        assert deltas[..i + 1][..i] == deltas[..i];
        match deltas[i] {
          case Deleted(eid, r) => expired := expired[eid := r];
          case Made(eid) => expired := expired - {eid};
          case Other =>
        }
        i := i + 1;
      }
      assert deltas[..|deltas|] == deltas;
      order := [];
      var todo := expired.Keys;
      while todo != {}
        invariant todo <= expired.Keys && (forall e :: e in order <==> e in expired.Keys - todo)
        invariant Value() == CleanAll(old(Value()), expired, order)
        decreases |todo|
      {
        var e :| e in todo;
        CleanupExpiredEdge(e, expired[e]);
        assert (order + [e])[..|order|] == order;
        order, todo := order + [e], todo - {e};
      }
    }
  }

  /** Every container lost, on one side, the entries that mirror `done`. */
  ghost predicate Trimmed(before: map<nat, Adj>, after: map<nat, Adj>, done: set<Entry>, v: nat, fromOutgoing: bool) {
    && after.Keys == before.Keys
    && forall n | n in before :: after[n] == TrimmedAdj(before[n], Mirror(done, n, v), fromOutgoing)
  }

  function TrimmedAdj(a: Adj, gone: set<Entry>, fromOutgoing: bool): Adj {
    if fromOutgoing then a.(outgoing := a.outgoing - gone) else a.(incoming := a.incoming - gone)
  }

  lemma TrimOne(before: map<nat, Adj>, after: map<nat, Adj>, done: set<Entry>, x: Entry, v: nat, fromOutgoing: bool)
    requires Trimmed(before, after, done, v, fromOutgoing)
    ensures var entry := Entry(x.labelId, v, x.eid);
            Trimmed(before, if fromOutgoing then DropOut(after, x.neighbor, entry) else DropIn(after, x.neighbor, entry),
                    done + {x}, v, fromOutgoing)
  {
  }
}
