/**
 * getDistancesMap: the phone distance map of a Data object projected onto
 * user names. Each row whose phone belongs to the selected user (or every
 * row, with no user) gets a table row for that user's name, and each of its
 * entries whose two phones pass the filter reports the entry's distance
 * between the names of the two phones' users. The rows and entries of the
 * hash maps are visited in any order.
 */
module Projection {

  import opened Wrappers
  import opened Graph
  import opened GraphUtils
  import opened QueryFilters
  import opened DistanceTables
  import opened FloydWarshall
  import opened PhoneData

  /** Every row and every column of the map is a dense id with a phone. */
  ghost predicate Closed(ids: Ids, dist: Dist)
  {
    && (forall i :: i in dist ==> i in ids.phoneOf)
    && (forall i, j :: i in dist && j in dist[i] ==> j in ids.phoneOf)
  }

  /** getUserName(getUser(phone)) for the phone of a dense id. */
  function UserNameOf(vs: map<VId, Vertex>, es: seq<Edge>, ids: Ids, d: nat): (r: Result<string, LookupError>)
    requires d in ids.phoneOf
    ensures r.Success? <==> User(vs, es, ids.phoneOf[d]).Success?
    ensures r.Failure? ==> r.error == NoParent(ids.phoneOf[d], "user")
  {
    match User(vs, es, ids.phoneOf[d])
    case Failure(e) => Failure(e)
    case Success(u) => Success(vs[u].value)
  }

  /** The row of a user is projected when no user is given or when it is that user. */
  predicate Selected(user: Option<string>, name: string)
  {
    user.None? || user.value == name
  }

  /**
   * The inner loop on one entry (d2, distance) of the row of d1, whose user
   * is called name1: the filter on the two phones first, then the name of
   * the second phone's user; none when the filter rejects the pair.
   */
  function EntrySample(vs: map<VId, Vertex>, es: seq<Edge>, ids: Ids, f: Option<PhoneFilter>,
                       d1: nat, name1: string, d2: nat, distance: int): (r: Result<Option<Sample>, LookupError>)
    requires d1 in ids.phoneOf && d2 in ids.phoneOf
    ensures r.Success? && r.value.Some? <==>
              ApplyFilter(vs, es, f, ids.phoneOf[d1], ids.phoneOf[d2]) == Success(true) && UserNameOf(vs, es, ids, d2).Success?
    ensures r.Success? && r.value.Some? ==> r.value.value == Sample(name1, UserNameOf(vs, es, ids, d2).value, distance)
    ensures r.Success? && r.value.None? <==> ApplyFilter(vs, es, f, ids.phoneOf[d1], ids.phoneOf[d2]) == Success(false)
  {
    match ApplyFilter(vs, es, f, ids.phoneOf[d1], ids.phoneOf[d2])
    case Failure(e) => Failure(e)
    case Success(pass) =>
      if !pass then Success(None)
      else
        match UserNameOf(vs, es, ids, d2)
        case Failure(e) => Failure(e)
        case Success(name2) => Success(Some(Sample(name1, name2, distance)))
  }

  /** No entry among `keys` of the row makes a lookup throw. */
  ghost predicate EntriesOk(vs: map<VId, Vertex>, es: seq<Edge>, ids: Ids, f: Option<PhoneFilter>,
                            d1: nat, name1: string, row: map<nat, int>, keys: set<nat>)
    requires d1 in ids.phoneOf && forall d2 :: d2 in row ==> d2 in ids.phoneOf
  {
    forall d2 :: d2 in keys && d2 in row ==> EntrySample(vs, es, ids, f, d1, name1, d2, row[d2]).Success?
  }

  /** The samples the entries among `keys` of the row report. */
  ghost function EntrySamples(vs: map<VId, Vertex>, es: seq<Edge>, ids: Ids, f: Option<PhoneFilter>,
                              d1: nat, name1: string, row: map<nat, int>, keys: set<nat>): set<Sample>
    requires d1 in ids.phoneOf && forall d2 :: d2 in row ==> d2 in ids.phoneOf
  {
    set d2 | d2 in keys && d2 in row && EntrySample(vs, es, ids, f, d1, name1, d2, row[d2]).Success?
                         && EntrySample(vs, es, ids, f, d1, name1, d2, row[d2]).value.Some?
      :: EntrySample(vs, es, ids, f, d1, name1, d2, row[d2]).value.value
  }

  /** One more entry visited adds its sample, if any. */
  lemma EntrySamplesGrow(vs: map<VId, Vertex>, es: seq<Edge>, ids: Ids, f: Option<PhoneFilter>,
                         d1: nat, name1: string, row: map<nat, int>, keys: set<nat>, d2: nat)
    requires d1 in ids.phoneOf && (forall d :: d in row ==> d in ids.phoneOf) && d2 in row
    requires EntrySample(vs, es, ids, f, d1, name1, d2, row[d2]).Success?
    ensures var e := EntrySample(vs, es, ids, f, d1, name1, d2, row[d2]).value;
            EntrySamples(vs, es, ids, f, d1, name1, row, keys + {d2})
            == EntrySamples(vs, es, ids, f, d1, name1, row, keys) + (if e.Some? then {e.value} else {})
  {
  }

  /**
   * The inner loop over the entries of the row of d1, in any order: each
   * sample is reported into the row of name1, until a lookup throws.
   */
  method ProjectEntries(t0: Table, ghost rows: set<string>, ghost samples0: set<Sample>,
                        vs: map<VId, Vertex>, es: seq<Edge>, ids: Ids, f: Option<PhoneFilter>,
                        d1: nat, name1: string, row: map<nat, int>) returns (r: Result<Table, LookupError>)
    requires d1 in ids.phoneOf && forall d2 :: d2 in row ==> d2 in ids.phoneOf
    requires MinTable(t0, rows, samples0)
    ensures r.Success? <==> EntriesOk(vs, es, ids, f, d1, name1, row, row.Keys)
    ensures r.Success? ==> MinTable(r.value, rows, samples0 + EntrySamples(vs, es, ids, f, d1, name1, row, row.Keys))
  {
    var t := t0;
    ghost var done: set<nat> := {};
    var left := row.Keys;
    while left != {}
      invariant done + left == row.Keys && done !! left
      invariant EntriesOk(vs, es, ids, f, d1, name1, row, done)
      invariant MinTable(t, rows, samples0 + EntrySamples(vs, es, ids, f, d1, name1, row, done))
      decreases left
    {
      var d2 :| d2 in left;
      var e := EntrySample(vs, es, ids, f, d1, name1, d2, row[d2]);
      if e.Failure? {
        return Failure(e.error);
      }
      EntrySamplesGrow(vs, es, ids, f, d1, name1, row, done, d2);
      if e.value.Some? {
        RelaxKeepsMin(t, rows, samples0 + EntrySamples(vs, es, ids, f, d1, name1, row, done), e.value.value);
        t := Relax(t, e.value.value);
      }
      done, left := done + {d2}, left - {d2};
    }
    assert done == row.Keys;
    return Success(t);
  }

  /** The row of d1 makes no lookup throw: its user is found, and, when the row is projected, every entry passes. */
  ghost predicate RowOk(vs: map<VId, Vertex>, es: seq<Edge>, ids: Ids, f: Option<PhoneFilter>, user: Option<string>,
                        dist: Dist, d1: nat)
    requires Closed(ids, dist) && d1 in dist
  {
    var name := UserNameOf(vs, es, ids, d1);
    name.Success? && (Selected(user, name.value) ==> EntriesOk(vs, es, ids, f, d1, name.value, dist[d1], dist[d1].Keys))
  }

  /** The table row the row of d1 adds: its user's name when it is projected. */
  ghost function RowName(vs: map<VId, Vertex>, es: seq<Edge>, ids: Ids, user: Option<string>, d1: nat): set<string>
    requires d1 in ids.phoneOf
  {
    var name := UserNameOf(vs, es, ids, d1);
    if name.Success? && Selected(user, name.value) then {name.value} else {}
  }

  /** The samples the row of d1 reports when it is projected. */
  ghost function RowSamples(vs: map<VId, Vertex>, es: seq<Edge>, ids: Ids, f: Option<PhoneFilter>, user: Option<string>,
                            dist: Dist, d1: nat): set<Sample>
    requires Closed(ids, dist) && d1 in dist
  {
    var name := UserNameOf(vs, es, ids, d1);
    if name.Success? && Selected(user, name.value) then EntrySamples(vs, es, ids, f, d1, name.value, dist[d1], dist[d1].Keys)
    else {}
  }

  /** No row among `ds` makes a lookup throw. */
  ghost predicate RowsOk(vs: map<VId, Vertex>, es: seq<Edge>, ids: Ids, f: Option<PhoneFilter>, user: Option<string>,
                         dist: Dist, ds: set<nat>)
    requires Closed(ids, dist)
  {
    forall d1 :: d1 in ds && d1 in dist ==> RowOk(vs, es, ids, f, user, dist, d1)
  }

  /** The table rows the rows among `ds` add. */
  ghost function Names(vs: map<VId, Vertex>, es: seq<Edge>, ids: Ids, user: Option<string>, dist: Dist, ds: set<nat>): set<string>
    requires Closed(ids, dist)
  {
    set d1, x | d1 in ds && d1 in dist && x in RowName(vs, es, ids, user, d1) :: x
  }

  /** The samples the rows among `ds` report. */
  ghost function Samples(vs: map<VId, Vertex>, es: seq<Edge>, ids: Ids, f: Option<PhoneFilter>, user: Option<string>,
                         dist: Dist, ds: set<nat>): set<Sample>
    requires Closed(ids, dist)
  {
    set d1, x | d1 in ds && d1 in dist && x in RowSamples(vs, es, ids, f, user, dist, d1) :: x
  }

  /** One more row visited adds its name and its samples. */
  lemma RowsGrow(vs: map<VId, Vertex>, es: seq<Edge>, ids: Ids, f: Option<PhoneFilter>, user: Option<string>,
                 dist: Dist, ds: set<nat>, d1: nat)
    requires Closed(ids, dist) && d1 in dist
    ensures Names(vs, es, ids, user, dist, ds + {d1}) == Names(vs, es, ids, user, dist, ds) + RowName(vs, es, ids, user, d1)
    ensures Samples(vs, es, ids, f, user, dist, ds + {d1})
            == Samples(vs, es, ids, f, user, dist, ds) + RowSamples(vs, es, ids, f, user, dist, d1)
  {
    NamesGrow(vs, es, ids, user, dist, ds, d1);
    SamplesGrow(vs, es, ids, f, user, dist, ds, d1);
  }

  lemma NamesGrow(vs: map<VId, Vertex>, es: seq<Edge>, ids: Ids, user: Option<string>, dist: Dist, ds: set<nat>, d1: nat)
    requires Closed(ids, dist) && d1 in dist
    ensures Names(vs, es, ids, user, dist, ds + {d1}) == Names(vs, es, ids, user, dist, ds) + RowName(vs, es, ids, user, d1)
  {
    var a, b := Names(vs, es, ids, user, dist, ds + {d1}), Names(vs, es, ids, user, dist, ds);
    forall x | x in a ensures x in b + RowName(vs, es, ids, user, d1) {
      var d :| d in ds + {d1} && d in dist && x in RowName(vs, es, ids, user, d);
      if d != d1 {
        assert x in b;
      }
    }
    forall x | x in b ensures x in a {
      var d :| d in ds && d in dist && x in RowName(vs, es, ids, user, d);
    }
  }

  lemma SamplesGrow(vs: map<VId, Vertex>, es: seq<Edge>, ids: Ids, f: Option<PhoneFilter>, user: Option<string>,
                    dist: Dist, ds: set<nat>, d1: nat)
    requires Closed(ids, dist) && d1 in dist
    ensures Samples(vs, es, ids, f, user, dist, ds + {d1})
            == Samples(vs, es, ids, f, user, dist, ds) + RowSamples(vs, es, ids, f, user, dist, d1)
  {
    var c, e := Samples(vs, es, ids, f, user, dist, ds + {d1}), Samples(vs, es, ids, f, user, dist, ds);
    forall x | x in c ensures x in e + RowSamples(vs, es, ids, f, user, dist, d1) {
      var d :| d in ds + {d1} && d in dist && x in RowSamples(vs, es, ids, f, user, dist, d);
      if d != d1 {
        assert x in e;
      }
    }
    forall x | x in e ensures x in c {
      var d :| d in ds && d in dist && x in RowSamples(vs, es, ids, f, user, dist, d);
    }
  }

  /**
   * One row of the outer loop: look up its user, skip it when another user
   * is selected, otherwise putIfAbsent the user's table row and report its
   * entries.
   */
  method ProjectRow(t0: Table, ghost rows: set<string>, ghost samples0: set<Sample>,
                    vs: map<VId, Vertex>, es: seq<Edge>, ids: Ids, f: Option<PhoneFilter>, user: Option<string>,
                    dist: Dist, d1: nat) returns (r: Result<Table, LookupError>)
    requires Closed(ids, dist) && d1 in dist
    requires MinTable(t0, rows, samples0)
    ensures r.Success? <==> RowOk(vs, es, ids, f, user, dist, d1)
    ensures r.Success? ==> MinTable(r.value, rows + RowName(vs, es, ids, user, d1),
                                    samples0 + RowSamples(vs, es, ids, f, user, dist, d1))
  {
    var name := UserNameOf(vs, es, ids, d1);
    if name.Failure? {
      return Failure(name.error);
    }
    if !Selected(user, name.value) {
      assert rows + RowName(vs, es, ids, user, d1) == rows;
      assert samples0 + RowSamples(vs, es, ids, f, user, dist, d1) == samples0;
      return Success(t0);
    }
    AddRowKeepsMin(t0, rows, samples0, name.value);
    var t := t0[name.value := Row(t0, name.value)];
    r := ProjectEntries(t, rows + {name.value}, samples0, vs, es, ids, f, d1, name.value, dist[d1]);
  }

  /** The outer loop of getDistancesMap over the rows, in any order, until a lookup throws. */
  method ProjectRows(vs: map<VId, Vertex>, es: seq<Edge>, ids: Ids, f: Option<PhoneFilter>, user: Option<string>,
                     dist: Dist) returns (r: Result<Table, LookupError>)
    requires Closed(ids, dist)
    ensures r.Success? <==> RowsOk(vs, es, ids, f, user, dist, dist.Keys)
    ensures r.Success? ==> MinTable(r.value, Names(vs, es, ids, user, dist, dist.Keys), Samples(vs, es, ids, f, user, dist, dist.Keys))
  {
    var t: Table := map[];
    ghost var done: set<nat> := {};
    var left := dist.Keys;
    while left != {}
      invariant done + left == dist.Keys && done !! left
      invariant RowsOk(vs, es, ids, f, user, dist, done)
      invariant MinTable(t, Names(vs, es, ids, user, dist, done), Samples(vs, es, ids, f, user, dist, done))
      decreases left
    {
      var d1 :| d1 in left;
      var step := ProjectRow(t, Names(vs, es, ids, user, dist, done), Samples(vs, es, ids, f, user, dist, done),
                             vs, es, ids, f, user, dist, d1);
      if step.Failure? {
        return Failure(step.error);
      }
      RowsGrow(vs, es, ids, f, user, dist, done, d1);
      t := step.value;
      done, left := done + {d1}, left - {d1};
    }
    assert done == dist.Keys;
    return Success(t);
  }

  /** Each reported sample is an entry of a projected row, between the users of its two phones. */
  lemma SampleOrigin(vs: map<VId, Vertex>, es: seq<Edge>, ids: Ids, f: Option<PhoneFilter>, user: Option<string>,
                     dist: Dist, ds: set<nat>, x: Sample) returns (d1: nat, d2: nat)
    requires Closed(ids, dist) && x in Samples(vs, es, ids, f, user, dist, ds)
    ensures d1 in ds && d1 in dist && d2 in dist[d1] && x.distance == dist[d1][d2]
    ensures UserNameOf(vs, es, ids, d1) == Success(x.from) && Selected(user, x.from)
    ensures UserNameOf(vs, es, ids, d2) == Success(x.to)
    ensures ApplyFilter(vs, es, f, ids.phoneOf[d1], ids.phoneOf[d2]) == Success(true)
  {
    d1 :| d1 in ds && d1 in dist && x in RowSamples(vs, es, ids, f, user, dist, d1);
    var name := UserNameOf(vs, es, ids, d1).value;
    d2 :| d2 in dist[d1] && EntrySample(vs, es, ids, f, d1, name, d2, dist[d1][d2]).Success?
          && EntrySample(vs, es, ids, f, d1, name, d2, dist[d1][d2]).value == Some(x);
  }

  /** Conversely, every entry of a projected row whose pair passes the filter is reported. */
  lemma EntryReported(vs: map<VId, Vertex>, es: seq<Edge>, ids: Ids, f: Option<PhoneFilter>, user: Option<string>,
                      dist: Dist, ds: set<nat>, d1: nat, d2: nat, name1: string, name2: string)
    requires Closed(ids, dist) && d1 in ds && d1 in dist && d2 in dist[d1]
    requires UserNameOf(vs, es, ids, d1) == Success(name1) && Selected(user, name1)
    requires UserNameOf(vs, es, ids, d2) == Success(name2)
    requires ApplyFilter(vs, es, f, ids.phoneOf[d1], ids.phoneOf[d2]) == Success(true)
    ensures Sample(name1, name2, dist[d1][d2]) in Samples(vs, es, ids, f, user, dist, ds)
  {
    var x := Sample(name1, name2, dist[d1][d2]);
    assert EntrySample(vs, es, ids, f, d1, name1, d2, dist[d1][d2]) == Success(Some(x));
    assert x in EntrySamples(vs, es, ids, f, d1, name1, dist[d1], dist[d1].Keys);
    assert x in RowSamples(vs, es, ids, f, user, dist, d1);
  }

  /** A map without negative entries reports no negative distance. */
  lemma SamplesNonNegative(vs: map<VId, Vertex>, es: seq<Edge>, ids: Ids, f: Option<PhoneFilter>, user: Option<string>,
                           dist: Dist, ds: set<nat>)
    requires Closed(ids, dist) && NoNegative(dist)
    ensures forall x :: x in Samples(vs, es, ids, f, user, dist, ds) ==> x.distance >= 0
  {
    forall x | x in Samples(vs, es, ids, f, user, dist, ds) ensures x.distance >= 0 {
      var d1, d2 := SampleOrigin(vs, es, ids, f, user, dist, ds, x);
    }
  }
}
