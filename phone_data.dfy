/**
 * The Data object of the known-algorithm queries: every phone gets a dense
 * index 0..size-1, and the distance map starts with 0 from each phone to
 * itself and 1 to each other phone it shares a call with. Floyd–Warshall
 * then works on that map in place, and getDistancesMap projects the phone
 * distances onto user names.
 */
module PhoneData {

  import opened Wrappers
  import opened Graph
  import opened GraphUtils
  import opened FloydWarshall

  /** The two id maps and the next free index. */
  datatype Ids = Ids(index: map<VId, nat>, phoneOf: map<nat, VId>, size: nat)

  /** The indices are exactly 0..size-1 and the two maps undo each other. */
  ghost predicate Dense(ids: Ids)
  {
    && (forall d: nat :: d in ids.phoneOf <==> d < ids.size)
    && (forall p :: p in ids.index ==> ids.index[p] in ids.phoneOf && ids.phoneOf[ids.index[p]] == p)
    && (forall d :: d in ids.phoneOf ==> ids.phoneOf[d] in ids.index && ids.index[ids.phoneOf[d]] == d)
  }

  /** `b` keeps every index `a` gave. */
  ghost predicate Extends(a: Ids, b: Ids)
  {
    && (forall p :: p in a.index ==> p in b.index && b.index[p] == a.index[p])
    && (forall d :: d in a.phoneOf ==> d in b.phoneOf && b.phoneOf[d] == a.phoneOf[d])
  }

  /**
   * putIfAbsent(graphId, id) followed, when it was absent, by
   * put(id.getAndIncrement(), graphId).
   */
  function Intern(ids: Ids, v: VId): (r: Ids)
    requires Dense(ids)
    ensures Dense(r) && Extends(ids, r) && v in r.index
    ensures r.index.Keys == ids.index.Keys + {v}
    ensures v in ids.index ==> r == ids
    ensures v !in ids.index ==> r.index[v] == ids.size && r.size == ids.size + 1
  {
    if v in ids.index then ids
    else Ids(ids.index[v := ids.size], ids.phoneOf[ids.size := v], ids.size + 1)
  }

  /** The keys of the row of `p` are its own index and those of phones it shares a call with, at 0 and 1. */
  ghost predicate RowShape(row: map<nat, int>, p: VId, es: seq<Edge>, ids: Ids)
  {
    && p in ids.index && ids.index[p] in row
    && forall d :: d in row ==> d in ids.phoneOf && (ids.phoneOf[d] == p || ids.phoneOf[d] in NeighborList(es, p))
                                && row[d] == if ids.phoneOf[d] == p then 0 else 1
  }

  /** The row of `p` has an entry for each of the phones `qs`. */
  ghost predicate Covers(row: map<nat, int>, qs: seq<VId>, ids: Ids)
  {
    forall t :: 0 <= t < |qs| ==> qs[t] in ids.index && ids.index[qs[t]] in row
  }

  /** The initial row of `p`: 0 to itself, 1 to every other phone it shares a call with, nothing else. */
  ghost predicate InitialRow(row: map<nat, int>, p: VId, es: seq<Edge>, ids: Ids)
  {
    RowShape(row, p, es, ids) && Covers(row, NeighborList(es, p), ids)
  }

  lemma RowShapeStable(row: map<nat, int>, p: VId, es: seq<Edge>, a: Ids, b: Ids)
    requires RowShape(row, p, es, a) && Extends(a, b)
    ensures RowShape(row, p, es, b)
  {
  }

  lemma CoversStable(row: map<nat, int>, qs: seq<VId>, a: Ids, b: Ids)
    requires Covers(row, qs, a) && Extends(a, b)
    ensures Covers(row, qs, b)
  {
  }

  /** The row built for `p`: exactly its own index at 0 and its neighbours' at 1. */
  lemma InitialRowEntries(row: map<nat, int>, p: VId, es: seq<Edge>, ids: Ids, q: VId)
    requires InitialRow(row, p, es, ids) && Dense(ids) && q in ids.index
    ensures ids.index[q] in row <==> q == p || q in NeighborPhones(es, p)
    ensures ids.index[q] in row ==> row[ids.index[q]] == if q == p then 0 else 1
  {
    if q in NeighborPhones(es, p) {
      var t :| 0 <= t < |NeighborList(es, p)| && NeighborList(es, p)[t] == q;
    }
  }

  /** Phones share calls only with phones when every integratedBy edge ends at a phone. */
  lemma NeighborsArePhones(vs: map<VId, Vertex>, es: seq<Edge>, p: VId)
    requires forall e :: e in es && e.rel == IntegratedBy ==> e.dst in Phones(vs)
    ensures forall q :: q in NeighborList(es, p) ==> q in Phones(vs)
  {
    forall q | q in NeighborPhones(es, p) ensures q in Phones(vs) {
      var i, j :| 0 <= i < |es| && 0 <= j < |es| && es[i].rel == IntegratedBy && es[i].dst == p
                  && es[j].rel == IntegratedBy && es[j].src == es[i].src && es[j].dst == q;
      assert es[j] in es;
    }
  }

  /**
   * The body of the constructor's stream for one phone: index it, give it a
   * row with 0 to itself, then index each phone it shares a call with and
   * put 1 for it unless it is the phone itself.
   */
  method AddPhone(ids0: Ids, dist0: Dist, es: seq<Edge>, p: VId) returns (ids: Ids, dist: Dist)
    requires Dense(ids0) && forall d :: d in dist0 ==> d in ids0.phoneOf
    requires p in ids0.index && ids0.index[p] in dist0 ==> InitialRow(dist0[ids0.index[p]], p, es, ids0)
    ensures Dense(ids) && Extends(ids0, ids)
    ensures forall v :: v in ids.index <==> v in ids0.index || v == p || v in NeighborList(es, p)
    ensures p in ids.index && ids.index[p] in dist && dist == dist0[ids.index[p] := dist[ids.index[p]]]
    ensures InitialRow(dist[ids.index[p]], p, es, ids)
  {
    var self := Intern(ids0, p);
    var id1 := self.index[p];
    var row := (if id1 in dist0 then dist0[id1] else map[])[id1 := 0];
    SelfEntry(ids0, dist0, es, p);
    ids, row := AddNeighbors(self, row, es, p);
    ExtendsTransitive(ids0, self, ids);
    assert ids.index[p] == id1;
    dist := dist0[id1 := row];
  }

  /** computeIfAbsent(dataId1, new HashMap).put(dataId1, 0) starts a row of the right shape. */
  lemma SelfEntry(ids0: Ids, dist0: Dist, es: seq<Edge>, p: VId)
    requires Dense(ids0) && forall d :: d in dist0 ==> d in ids0.phoneOf
    requires p in ids0.index && ids0.index[p] in dist0 ==> InitialRow(dist0[ids0.index[p]], p, es, ids0)
    ensures var self := Intern(ids0, p);
            var id1 := self.index[p];
            RowShape((if id1 in dist0 then dist0[id1] else map[])[id1 := 0], p, es, self)
  {
  }

  /** The inner stream of the constructor: the phones `p` shares a call with, indexed and put at 1. */
  method AddNeighbors(ids0: Ids, row0: map<nat, int>, es: seq<Edge>, p: VId) returns (ids: Ids, row: map<nat, int>)
    requires Dense(ids0) && RowShape(row0, p, es, ids0)
    ensures Dense(ids) && Extends(ids0, ids) && ids.index[p] == ids0.index[p]
    ensures forall v :: v in ids.index <==> v in ids0.index || v in NeighborList(es, p)
    ensures InitialRow(row, p, es, ids)
  {
    ids, row := ids0, row0;
    var ns := NeighborList(es, p);
    var t := 0;
    while t < |ns|
      invariant t <= |ns| && NeighborsDone(ids0, row0, es, p, t, ids, row)
    {
      NeighborStep(ids0, row0, es, p, t, ids, row);
      var q := ns[t];
      var id2 := Intern(ids, q).index[q];
      if ids.index[p] != id2 {
        row := row[id2 := 1];
      }
      ids := Intern(ids, q);
      t := t + 1;
    }
    NeighborsEnd(ids0, row0, es, p, ids, row);
  }

  /** The state after the first t neighbours of `p`. */
  ghost predicate NeighborsDone(ids0: Ids, row0: map<nat, int>, es: seq<Edge>, p: VId, t: nat, ids: Ids, row: map<nat, int>)
  {
    var ns := NeighborList(es, p);
    && t <= |ns| && Dense(ids) && Extends(ids0, ids)
    && (forall v :: v in ids.index <==> v in ids0.index || v in ns[..t])
    && RowShape(row, p, es, ids) && Covers(row, ns[..t], ids)
  }

  lemma NeighborsEnd(ids0: Ids, row0: map<nat, int>, es: seq<Edge>, p: VId, ids: Ids, row: map<nat, int>)
    requires Dense(ids0) && RowShape(row0, p, es, ids0)
    requires NeighborsDone(ids0, row0, es, p, |NeighborList(es, p)|, ids, row)
    ensures Dense(ids) && Extends(ids0, ids) && ids.index[p] == ids0.index[p]
    ensures forall v :: v in ids.index <==> v in ids0.index || v in NeighborList(es, p)
    ensures InitialRow(row, p, es, ids)
  {
    var ns := NeighborList(es, p);
    assert ns[..|ns|] == ns;
  }

  /** Indexing one more neighbour and putting 1 for it keeps the row's shape and covers that neighbour. */
  lemma NeighborStep(ids0: Ids, row0: map<nat, int>, es: seq<Edge>, p: VId, t: nat, ids: Ids, row: map<nat, int>)
    requires NeighborsDone(ids0, row0, es, p, t, ids, row) && t < |NeighborList(es, p)|
    ensures var q := NeighborList(es, p)[t];
            var next := Intern(ids, q);
            var id2 := next.index[q];
            NeighborsDone(ids0, row0, es, p, t + 1, next, if ids.index[p] != id2 then row[id2 := 1] else row)
  {
    var ns := NeighborList(es, p);
    var q := ns[t];
    var next := Intern(ids, q);
    ExtendsTransitive(ids0, ids, next);
    PrefixStep(ns, t);
    KeysStep(ids0, ids, next, ns[..t], q);
    PutNeighbor(row, p, es, ids, ns[..t], q);
  }

  lemma PrefixStep(ns: seq<VId>, t: nat)
    requires t < |ns|
    ensures ns[..t + 1] == ns[..t] + [ns[t]]
  {
  }

  /** Interning one more vertex adds it to the indexed ones. */
  lemma KeysStep(ids0: Ids, ids: Ids, next: Ids, seen: seq<VId>, q: VId)
    requires forall v :: v in ids.index <==> v in ids0.index || v in seen
    requires next.index.Keys == ids.index.Keys + {q}
    ensures forall v :: v in next.index <==> v in ids0.index || v in seen + [q]
  {
  }

  lemma ExtendsTransitive(a: Ids, b: Ids, c: Ids)
    requires Extends(a, b) && Extends(b, c)
    ensures Extends(a, c)
  {
  }

  lemma PutNeighbor(row: map<nat, int>, p: VId, es: seq<Edge>, ids: Ids, seen: seq<VId>, q: VId)
    requires Dense(ids) && RowShape(row, p, es, ids) && Covers(row, seen, ids) && q in NeighborList(es, p)
    ensures var next := Intern(ids, q);
            var id2 := next.index[q];
            var row' := if ids.index[p] != id2 then row[id2 := 1] else row;
            RowShape(row', p, es, next) && Covers(row', seen + [q], next)
  {
    var next := Intern(ids, q);
    RowShapeStable(row, p, es, ids, next);
    CoversStable(row, seen, ids, next);
  }

  /**
   * The Data constructor's id and distance maps, built from the phones in
   * the order the traversal lists them.
   */
  method Index(vs: map<VId, Vertex>, es: seq<Edge>, phones: seq<VId>) returns (ids: Ids, dist: Dist)
    requires forall v :: v in phones <==> v in Phones(vs)
    requires forall e :: e in es && e.rel == IntegratedBy ==> e.dst in Phones(vs)
    ensures Dense(ids) && ids.index.Keys == Phones(vs)
    ensures forall d: nat :: d in dist <==> d < ids.size
    ensures forall p :: p in ids.index ==> InitialRow(dist[ids.index[p]], p, es, ids)
  {
    ids, dist := Ids(map[], map[], 0), map[];
    var i := 0;
    while i < |phones|
      invariant i <= |phones| && Dense(ids) && ids.index.Keys <= Phones(vs)
      invariant forall x :: x in phones[..i] ==> x in ids.index
      invariant forall d :: d in dist <==> d in ids.phoneOf && ids.phoneOf[d] in phones[..i]
      invariant forall x :: x in phones[..i] ==> InitialRow(dist[ids.index[x]], x, es, ids)
    {
      var p := phones[i];
      NeighborsArePhones(vs, es, p);
      var ids', dist' := AddPhone(ids, dist, es, p);
      IndexStep(es, phones, i, ids, dist, ids', dist');
      ids, dist := ids', dist';
      i := i + 1;
    }
    assert phones[..i] == phones;
  }

  lemma IndexStep(es: seq<Edge>, phones: seq<VId>, i: nat, ids: Ids, dist: Dist, ids': Ids, dist': Dist)
    requires i < |phones| && Dense(ids) && Dense(ids') && Extends(ids, ids')
    requires forall d :: d in dist <==> d in ids.phoneOf && ids.phoneOf[d] in phones[..i]
    requires forall x :: x in phones[..i] ==> x in ids.index && InitialRow(dist[ids.index[x]], x, es, ids)
    requires phones[i] in ids'.index && ids'.index[phones[i]] in dist'
    requires dist' == dist[ids'.index[phones[i]] := dist'[ids'.index[phones[i]]]]
    requires InitialRow(dist'[ids'.index[phones[i]]], phones[i], es, ids')
    ensures forall d :: d in dist' <==> d in ids'.phoneOf && ids'.phoneOf[d] in phones[..i + 1]
    ensures forall x :: x in phones[..i + 1] ==> x in ids'.index && InitialRow(dist'[ids'.index[x]], x, es, ids')
  {
    PrefixStep(phones, i);
    forall x | x in phones[..i] && x != phones[i] ensures InitialRow(dist'[ids'.index[x]], x, es, ids') {
      RowStable(es, ids, ids', dist[ids.index[x]], x);
    }
  }

  lemma RowStable(es: seq<Edge>, a: Ids, b: Ids, row: map<nat, int>, x: VId)
    requires InitialRow(row, x, es, a) && Extends(a, b)
    ensures InitialRow(row, x, es, b)
  {
    RowShapeStable(row, x, es, a, b);
    CoversStable(row, NeighborList(es, x), a, b);
  }

  /** The rows Index builds make the map Floyd–Warshall starts from. */
  lemma RowsInitial(es: seq<Edge>, ids: Ids, dist: Dist)
    requires Dense(ids) && forall d: nat :: d in dist <==> d < ids.size
    requires forall p :: p in ids.index ==> InitialRow(dist[ids.index[p]], p, es, ids)
    ensures Initial(dist, ids.size) && Unit(dist) && Inside(dist, ids.size) && Bounded(dist, 2)
  {
    forall i | i in dist
      ensures i in dist[i] && dist[i][i] == 0
      ensures forall j :: j in dist[i] ==> j < ids.size && dist[i][j] == if j == i then 0 else 1
    {
      RowInitial(es, ids, dist, i);
    }
  }

  lemma RowInitial(es: seq<Edge>, ids: Ids, dist: Dist, i: nat)
    requires Dense(ids) && (forall d: nat :: d in dist <==> d < ids.size) && i < ids.size
    requires forall p :: p in ids.index ==> InitialRow(dist[ids.index[p]], p, es, ids)
    ensures i in dist && i in dist[i] && dist[i][i] == 0
    ensures forall j :: j in dist[i] ==> j < ids.size && dist[i][j] == if j == i then 0 else 1
  {
    var p := ids.phoneOf[i];
    assert InitialRow(dist[ids.index[p]], p, es, ids);
  }

  /**
   * Read through getOrDefault, the initial map holds 0 from a phone to
   * itself, 1 to each other phone it shares a call with, and
   * Integer.MAX_VALUE to every other phone.
   */
  lemma InitialGet(es: seq<Edge>, ids: Ids, dist: Dist, p: VId, q: VId)
    requires Dense(ids) && forall d: nat :: d in dist <==> d < ids.size
    requires forall x :: x in ids.index ==> InitialRow(dist[ids.index[x]], x, es, ids)
    requires p in ids.index && q in ids.index
    ensures Get(dist, ids.index[p], ids.index[q]) == if p == q then 0 else if q in NeighborPhones(es, p) then 1 else MaxInt
  {
    InitialRowEntries(dist[ids.index[p]], p, es, ids, q);
  }
}
