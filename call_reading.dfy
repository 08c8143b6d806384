/**
 * What the call queries read around one call: the values of the vertices
 * its out-edges lead to, the users of its phones (every user neighbour, or
 * the last one found, which is null when there is none), and the month of
 * its timestamp reached by following first out-edges.
 */
module CallReading {

  import opened Wrappers
  import opened Graph
  import opened GraphUtils
  import opened Aggregations
  import Operations

  /** How a call query fails. */
  datatype QueryError =
    | NoSuchElement(vertex: VId)              // Iterator.next() on a vertex without such an out-edge
    | NullUser(call: VId)                     // null.equals(..) on the user of a phone that has none
    | AggregationFailed(error: AggError)      // Operations.agg threw
    | RollUpFailed(rollUp: Operations.RollUpError)

  /** The labels of the edges from a call to its phones: integratedBy and calledBy. */
  const Parties: set<EdgeLabel> := {IntegratedBy, CalledBy}

  /** Which out-edges a loop reads: those with one of some labels, or those into a vertex of some type. */
  datatype Pick = Labels(rels: set<EdgeLabel>) | IntoKind(kind: string)

  predicate Picks(vs: map<VId, Vertex>, p: Pick, e: Edge)
  {
    match p
    case Labels(rels) => e.rel in rels
    case IntoKind(kind) => HasKind(vs, e.dst, kind)
  }

  // ---------------------------------------------------------------------
  // Values along out-edges.

  /** The values of the targets of the picked edges of `outs`. */
  function ValuesAlong(vs: map<VId, Vertex>, outs: seq<Edge>, p: Pick): set<string>
  {
    if outs == [] then {}
    else
      var last := outs[|outs| - 1];
      ValuesAlong(vs, outs[..|outs| - 1], p) + (if Picks(vs, p, last) then {Value(vs, last.dst)} else {})
  }

  /** A value is collected exactly when some picked edge leads to a vertex with it. */
  lemma {:induction false} ValuesAlongMeaning(vs: map<VId, Vertex>, outs: seq<Edge>, p: Pick, x: string)
    ensures x in ValuesAlong(vs, outs, p) <==> exists e :: e in outs && Picks(vs, p, e) && Value(vs, e.dst) == x
  {
    if outs != [] {
      var init, last := outs[..|outs| - 1], outs[|outs| - 1];
      ValuesAlongMeaning(vs, init, p, x);
      assert outs == init + [last];
      if x in ValuesAlong(vs, init, p) {
        var e :| e in init && Picks(vs, p, e) && Value(vs, e.dst) == x;
        assert e in outs;
      }
      if exists e :: e in outs && Picks(vs, p, e) && Value(vs, e.dst) == x {
        var e :| e in outs && Picks(vs, p, e) && Value(vs, e.dst) == x;
        if e != last {
          assert e in init;
        }
      }
    }
  }

  /** The loop over an edge iterator adding each target's value to a HashSet. */
  method CollectValues(vs: map<VId, Vertex>, outs: seq<Edge>, p: Pick) returns (s: set<string>)
    ensures s == ValuesAlong(vs, outs, p)
  {
    s := {};
    var i := 0;
    while i < |outs|
      invariant 0 <= i <= |outs|
      invariant s == ValuesAlong(vs, outs[..i], p)
    {
      assert outs[..i + 1][..i] == outs[..i];
      if Picks(vs, p, outs[i]) {
        s := s + {Value(vs, outs[i].dst)};
      }
      i := i + 1;
    }
    assert outs[..i] == outs;
  }

  /**
   * The users of the phones the party edges of `outs` lead to: for each such
   * phone, every out-neighbour of type user.
   */
  function UsersAlong(vs: map<VId, Vertex>, es: seq<Edge>, outs: seq<Edge>): set<string>
  {
    if outs == [] then {}
    else
      var last := outs[|outs| - 1];
      UsersAlong(vs, es, outs[..|outs| - 1])
        + (if last.rel in Parties then ValuesAlong(vs, OutEdges(es, last.dst), IntoKind("user")) else {})
  }

  /** A user is collected exactly when a party edge leads to a phone with an edge to that user. */
  lemma {:induction false} UsersAlongMeaning(vs: map<VId, Vertex>, es: seq<Edge>, outs: seq<Edge>, x: string)
    ensures x in UsersAlong(vs, es, outs) <==>
              exists e, f :: e in outs && e.rel in Parties && f in es && f.src == e.dst && HasKind(vs, f.dst, "user") && Value(vs, f.dst) == x
  {
    if outs != [] {
      var init, last := outs[..|outs| - 1], outs[|outs| - 1];
      UsersAlongMeaning(vs, es, init, x);
      ValuesAlongMeaning(vs, OutEdges(es, last.dst), IntoKind("user"), x);
      assert outs == init + [last];
      if x in UsersAlong(vs, es, init) {
        var e, f :| e in init && e.rel in Parties && f in es && f.src == e.dst && HasKind(vs, f.dst, "user") && Value(vs, f.dst) == x;
        assert e in outs;
      }
      if exists e, f :: e in outs && e.rel in Parties && f in es && f.src == e.dst && HasKind(vs, f.dst, "user") && Value(vs, f.dst) == x {
        var e, f :| e in outs && e.rel in Parties && f in es && f.src == e.dst && HasKind(vs, f.dst, "user") && Value(vs, f.dst) == x;
        if e != last {
          assert e in init;
        } else {
          assert f in OutEdges(es, last.dst);
        }
      }
    }
  }

  /** The nested loops of getUserPairs and QueriesNotOlap.query1_5 over the phones and their out-edges. */
  method CollectUsers(vs: map<VId, Vertex>, es: seq<Edge>, outs: seq<Edge>) returns (s: set<string>)
    ensures s == UsersAlong(vs, es, outs)
  {
    s := {};
    var i := 0;
    while i < |outs|
      invariant 0 <= i <= |outs|
      invariant s == UsersAlong(vs, es, outs[..i])
    {
      assert outs[..i + 1][..i] == outs[..i];
      if outs[i].rel in Parties {
        var users := CollectValues(vs, OutEdges(es, outs[i].dst), IntoKind("user"));
        s := s + users;
      }
      i := i + 1;
    }
    assert outs[..i] == outs;
  }

  // ---------------------------------------------------------------------
  // The last user of a phone.

  /** The value of the last out-neighbour of type user, or None (the Java null) when there is none. */
  function LastUser(vs: map<VId, Vertex>, outs: seq<Edge>): Option<string>
  {
    if outs == [] then None
    else
      var last := outs[|outs| - 1];
      if HasKind(vs, last.dst, "user") then Some(Value(vs, last.dst)) else LastUser(vs, outs[..|outs| - 1])
  }

  /** No user is found exactly when no edge leads to a user. */
  lemma {:induction false} LastUserNone(vs: map<VId, Vertex>, outs: seq<Edge>)
    ensures LastUser(vs, outs).None? <==> forall i :: 0 <= i < |outs| ==> !HasKind(vs, outs[i].dst, "user")
  {
    if outs != [] {
      var init := outs[..|outs| - 1];
      LastUserNone(vs, init);
      assert forall i :: 0 <= i < |init| ==> init[i] == outs[i];
    }
  }

  /** No edge after position i leads to a user. */
  predicate NoUserAfter(vs: map<VId, Vertex>, outs: seq<Edge>, i: nat)
  {
    forall j :: i < j < |outs| ==> !HasKind(vs, outs[j].dst, "user")
  }

  /** The user found is that of a user edge with no user edge after it. */
  lemma {:induction false} LastUserFound(vs: map<VId, Vertex>, outs: seq<Edge>, user: string) returns (i: nat)
    requires LastUser(vs, outs) == Some(user)
    ensures i < |outs| && HasKind(vs, outs[i].dst, "user") && Value(vs, outs[i].dst) == user && NoUserAfter(vs, outs, i)
  {
    var n := |outs| - 1;
    if HasKind(vs, outs[n].dst, "user") {
      i := n;
    } else {
      var init := outs[..n];
      i := LastUserFound(vs, init, user);
      assert outs[i] == init[i];
      assert forall j :: i < j < n ==> outs[j] == init[j];
    }
  }

  /** The inner loop of QueriesNotOlap.query1_6 and query2_1: `user` is overwritten at each user edge. */
  method FindLastUser(vs: map<VId, Vertex>, outs: seq<Edge>) returns (user: Option<string>)
    ensures user == LastUser(vs, outs)
  {
    user := None;
    var i := 0;
    while i < |outs|
      invariant 0 <= i <= |outs|
      invariant user == LastUser(vs, outs[..i])
    {
      assert outs[..i + 1][..i] == outs[..i];
      if HasKind(vs, outs[i].dst, "user") {
        user := Some(Value(vs, outs[i].dst));
      }
      i := i + 1;
    }
    assert outs[..i] == outs;
  }

  /** The last user of each phone the party edges of `outs` lead to, null included. */
  function PhoneUsersAlong(vs: map<VId, Vertex>, es: seq<Edge>, outs: seq<Edge>): set<Option<string>>
  {
    if outs == [] then {}
    else
      var last := outs[|outs| - 1];
      PhoneUsersAlong(vs, es, outs[..|outs| - 1]) + (if last.rel in Parties then {LastUser(vs, OutEdges(es, last.dst))} else {})
  }

  /** An entry is collected exactly when it is the last user of a phone some party edge leads to. */
  lemma {:induction false} PhoneUsersAlongMeaning(vs: map<VId, Vertex>, es: seq<Edge>, outs: seq<Edge>, u: Option<string>)
    ensures u in PhoneUsersAlong(vs, es, outs) <==> exists e :: e in outs && e.rel in Parties && LastUser(vs, OutEdges(es, e.dst)) == u
  {
    if outs != [] {
      var init, last := outs[..|outs| - 1], outs[|outs| - 1];
      PhoneUsersAlongMeaning(vs, es, init, u);
      assert outs == init + [last];
      if u in PhoneUsersAlong(vs, es, init) {
        var e :| e in init && e.rel in Parties && LastUser(vs, OutEdges(es, e.dst)) == u;
        assert e in outs;
      }
      if exists e :: e in outs && e.rel in Parties && LastUser(vs, OutEdges(es, e.dst)) == u {
        var e :| e in outs && e.rel in Parties && LastUser(vs, OutEdges(es, e.dst)) == u;
        if e != last {
          assert e in init;
        }
      }
    }
  }

  /** The outer loop of QueriesNotOlap.query1_6 and query2_1: users.add(user) for each phone, null included. */
  method CollectPhoneUsers(vs: map<VId, Vertex>, es: seq<Edge>, outs: seq<Edge>) returns (s: set<Option<string>>)
    ensures s == PhoneUsersAlong(vs, es, outs)
  {
    s := {};
    var i := 0;
    while i < |outs|
      invariant 0 <= i <= |outs|
      invariant s == PhoneUsersAlong(vs, es, outs[..i])
    {
      assert outs[..i + 1][..i] == outs[..i];
      if outs[i].rel in Parties {
        var user := FindLastUser(vs, OutEdges(es, outs[i].dst));
        s := s + {user};
      }
      i := i + 1;
    }
    assert outs[..i] == outs;
  }

  /** The user names of a set holding users and possibly null. */
  function Named(us: set<Option<string>>): set<string>
  {
    set u | u in us && u.Some? :: u.value
  }

  /** Without null, the names are as many as the entries. */
  lemma {:induction false} NamedCard(us: set<Option<string>>)
    requires None !in us
    ensures |Named(us)| == |us|
    decreases us
  {
    if us != {} {
      var u :| u in us;
      NamedCard(us - {u});
      assert Named(us) == Named(us - {u}) + {u.value};
      assert u.value !in Named(us - {u});
    }
  }

  // ---------------------------------------------------------------------
  // First out-edges.

  /** edges(OUT, rel).next().inVertex(): the target of the first out-edge with that label. */
  function NextTarget(es: seq<Edge>, v: VId, rel: EdgeLabel): (r: Result<VId, QueryError>)
    ensures r.Failure? <==> forall e :: e in es && e.src == v ==> e.rel != rel
    ensures r.Failure? ==> r.error == NoSuchElement(v)
    ensures r.Success? ==> Edge(v, rel, r.value) in es
  {
    var ts := Targets(es, v, rel);
    assert (exists e :: e in es && e.src == v && e.rel == rel) ==> ts != [] by {
      if exists e :: e in es && e.src == v && e.rel == rel {
        var e :| e in es && e.src == v && e.rel == rel;
        var i :| 0 <= i < |es| && es[i] == e;
        assert e.dst in ts;
      }
    }
    if ts == [] then
      Failure(NoSuchElement(v))
    else
      assert ts[0] in ts;
      Success(ts[0])
  }

  /** edges(OUT).next().inVertex(): the target of the first out-edge, whatever its label. */
  function NextOut(es: seq<Edge>, v: VId): (r: Result<VId, QueryError>)
    ensures r.Failure? <==> forall e :: e in es ==> e.src != v
    ensures r.Failure? ==> r.error == NoSuchElement(v)
    ensures r.Success? ==> exists rel :: Edge(v, rel, r.value) in es
  {
    var outs := OutEdges(es, v);
    if outs == [] then Failure(NoSuchElement(v))
    else
      assert outs[0] in outs;
      Success(outs[0].dst)
  }

  /**
   * The month of a call in QueriesNotOlap.query1_5: its first atTime target
   * (the timestamp), that vertex's first out-neighbour (the day), and its
   * first out-neighbour's value (the month).
   */
  function MonthOf(vs: map<VId, Vertex>, es: seq<Edge>, c: VId): Result<string, QueryError>
  {
    var t := NextTarget(es, c, AtTime);
    if t.Failure? then Failure(t.error)
    else
      var d := NextOut(es, t.value);
      if d.Failure? then Failure(d.error)
      else
        var mo := NextOut(es, d.value);
        if mo.Failure? then Failure(mo.error)
        else Success(Value(vs, mo.value))
  }

  /**
   * On a graph where a call's timestamp and the timestamp's day each have a
   * single out-edge, as ingestion builds them, the month read is the value
   * of the vertex two extendsFrom steps above the timestamp.
   */
  lemma MonthOfChain(vs: map<VId, Vertex>, es: seq<Edge>, c: VId, t: VId, d: VId, mo: VId)
    requires Edge(c, AtTime, t) in es && forall e :: e in es && e.src == c && e.rel == AtTime ==> e.dst == t
    requires Edge(t, ExtendsFrom, d) in es && forall e :: e in es && e.src == t ==> e == Edge(t, ExtendsFrom, d)
    requires Edge(d, ExtendsFrom, mo) in es && forall e :: e in es && e.src == d ==> e == Edge(d, ExtendsFrom, mo)
    ensures MonthOf(vs, es, c) == Success(Value(vs, mo))
  {
    var r1 := NextTarget(es, c, AtTime);
    assert r1.Success? && r1.value == t;
    var r2 := NextOut(es, t);
    assert r2.Success?;
    var rel2 :| Edge(t, rel2, r2.value) in es;
    var r3 := NextOut(es, d);
    assert r3.Success?;
    var rel3 :| Edge(d, rel3, r3.value) in es;
  }
}
