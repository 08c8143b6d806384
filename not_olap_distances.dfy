/**
 * The traversal-based social distance query: from each start phone a
 * breadth-first traversal over shared calls emits paths phone, call, phone,
 * ...; the paths whose end phones pass the filter are deduplicated by end
 * phone and turned into user distances by toDistancesMap. The traversal
 * itself is a library engine: its output for each start phone is an input
 * here, and Emitted states what its stop condition allows.
 */
module NotOlapDistances {

  import opened Wrappers
  import opened Graph
  import opened GraphUtils
  import opened QueryFilters
  import opened DistanceTables

  /** Integer.MAX_VALUE, which a negative threshold stands for. */
  const MaxInt: int := 0x7fff_ffff

  function Bound(threshold: int): int
  {
    if threshold < 0 then MaxInt else threshold
  }

  /**
   * A path the traversal can emit: the stop condition is tested before each
   * round of two steps (call, phone), so a path of k rounds has 2k + 1
   * elements and is emitted after a round that started below the bound, or
   * as the start phone alone when the bound stops the traversal at once.
   */
  ghost predicate Emitted(path: seq<VId>, threshold: int)
  {
    |path| % 2 == 1 && (var k := |path| / 2; (k == 0 && Bound(threshold) <= 1) || (1 <= k < Bound(threshold)))
  }

  /** filter(getPathVertex(trv, 0), getPathVertex(trv, -1)) on one emitted path. */
  function Keep(vs: map<VId, Vertex>, es: seq<Edge>, f: Option<PhoneFilter>, p: seq<VId>): Result<bool, LookupError>
  {
    match PathVertex(p, 0)
    case Failure(e) => Failure(e)
    case Success(first) =>
      match PathVertex(p, -1)
      case Failure(e) => Failure(e)
      case Success(last) => ApplyFilter(vs, es, f, first, last)
  }

  /**
   * The filter step over every emitted path, in order: it fails when the
   * filter throws on some path, and otherwise keeps exactly the paths the
   * filter accepts.
   */
  function Filtered(vs: map<VId, Vertex>, es: seq<Edge>, f: Option<PhoneFilter>, paths: seq<seq<VId>>): (r: Result<seq<seq<VId>>, LookupError>)
    ensures r.Failure? <==> exists p :: p in paths && Keep(vs, es, f, p).Failure?
    ensures r.Success? ==> forall p :: p in r.value <==> p in paths && Keep(vs, es, f, p) == Success(true)
  {
    if paths == [] then Success([])
    else
      var p := paths[0];
      assert forall q :: q in paths <==> q == p || q in paths[1..];
      match Keep(vs, es, f, p)
      case Failure(e) => Failure(e)
      case Success(keep) =>
        match Filtered(vs, es, f, paths[1..])
        case Failure(e) => Failure(e)
        case Success(rest) => Success(if keep then [p] + rest else rest)
  }

  /** The last element of a path, or none for the empty path. */
  function End(p: seq<VId>): Option<VId>
  {
    if p == [] then None else Some(p[|p| - 1])
  }

  /** `q` is the first of `paths` to reach its end phone. */
  ghost predicate FirstToEnd(paths: seq<seq<VId>>, q: seq<VId>)
  {
    exists k :: 0 <= k < |paths| && paths[k] == q && forall k' :: 0 <= k' < k ==> End(paths[k']) != End(q)
  }

  /** The end phones of some paths. */
  function Ends(r: seq<seq<VId>>): set<Option<VId>>
  {
    set q | q in r :: End(q)
  }

  /**
   * dedup(): one path per end phone, in order. Every end phone of the paths
   * keeps exactly one path; DedupFirst shows it is the first to reach it.
   */
  function Dedup(paths: seq<seq<VId>>): (r: seq<seq<VId>>)
    ensures forall p :: p in r ==> p in paths
    ensures forall i, j :: 0 <= i < j < |r| ==> End(r[i]) != End(r[j])
    ensures forall p :: p in paths ==> End(p) in Ends(r)
  {
    if paths == [] then []
    else
      var init, last := paths[..|paths| - 1], paths[|paths| - 1];
      var r := Dedup(init);
      assert forall p :: p in paths <==> p in init || p == last;
      if End(last) in Ends(r) then r
      else
        assert forall i :: 0 <= i < |r| ==> End(r[i]) != End(last) by {
          forall i | 0 <= i < |r| ensures End(r[i]) != End(last) { assert End(r[i]) in Ends(r); }
        }
        assert Ends(r + [last]) == Ends(r) + {End(last)};
        r + [last]
  }

  /** The path dedup keeps for an end phone is the first of the paths to reach it. */
  lemma {:induction false} DedupFirst(paths: seq<seq<VId>>)
    ensures forall i :: 0 <= i < |Dedup(paths)| ==> FirstToEnd(paths, Dedup(paths)[i])
  {
    if paths != [] {
      var init, last := paths[..|paths| - 1], paths[|paths| - 1];
      DedupFirst(init);
      var r := Dedup(init);
      forall i | 0 <= i < |r| ensures FirstToEnd(paths, r[i]) {
        assert FirstToEnd(init, r[i]);
        var k :| 0 <= k < |init| && init[k] == r[i] && forall k' :: 0 <= k' < k ==> End(init[k']) != End(r[i]);
        assert paths[k] == r[i];
        assert forall k' :: 0 <= k' < k ==> paths[k'] == init[k'];
      }
      if End(last) !in Ends(r) {
        forall k' | 0 <= k' < |paths| - 1 ensures End(paths[k']) != End(last) {
          assert paths[k'] == init[k'];
          assert init[k'] in init;
        }
        assert FirstToEnd(paths, paths[|paths| - 1]);
        assert Dedup(paths) == r + [last];
      } else {
        assert Dedup(paths) == r;
      }
    }
  }

  /** The distance of a path: two elements (a call and a phone) per hop. */
  function PathDistance(p: seq<VId>): int
  {
    (|p| - 1) / 2
  }

  /** The sample of one path: the names of the users of its end phones and its distance. */
  function PathSample(vs: map<VId, Vertex>, es: seq<Edge>, p: seq<VId>): (r: Result<Sample, LookupError>)
    ensures r.Success? ==> p != [] && r.value.distance == PathDistance(p) && r.value.distance >= 0
  {
    if p == [] then Failure(OutOfPath(0, 0))
    else
      match User(vs, es, p[0])
      case Failure(e) => Failure(e)
      case Success(u1) =>
        match User(vs, es, p[|p| - 1])
        case Failure(e) => Failure(e)
        case Success(u2) => Success(Sample(vs[u1].value, vs[u2].value, PathDistance(p)))
  }

  /** The samples of the kept paths, in order. */
  function PathSamples(vs: map<VId, Vertex>, es: seq<Edge>, paths: seq<seq<VId>>): (r: Result<seq<Sample>, LookupError>)
    ensures r.Success? ==> |r.value| == |paths|
    ensures r.Success? ==> forall i :: 0 <= i < |paths| ==> PathSample(vs, es, paths[i]) == Success(r.value[i])
    ensures r.Failure? <==> exists i :: 0 <= i < |paths| && PathSample(vs, es, paths[i]).Failure?
  {
    if paths == [] then Success([])
    else
      match PathSample(vs, es, paths[0])
      case Failure(e) => Failure(e)
      case Success(s) =>
        match PathSamples(vs, es, paths[1..])
        case Failure(e) =>
          var i :| 0 <= i < |paths[1..]| && PathSample(vs, es, paths[1..][i]).Failure?;
          assert paths[1..][i] == paths[i + 1];
          Failure(e)
        case Success(rest) =>
          assert forall i :: 1 <= i < |paths| ==> paths[i] == paths[1..][i - 1];
          Success([s] + rest)
  }

  /** What the traversal of one start phone contributes: its filtered, deduplicated paths as samples. */
  function StartSamples(vs: map<VId, Vertex>, es: seq<Edge>, f: Option<PhoneFilter>, paths: seq<seq<VId>>): Result<seq<Sample>, LookupError>
  {
    match Filtered(vs, es, f, paths)
    case Failure(e) => Failure(e)
    case Success(kept) => PathSamples(vs, es, Dedup(kept))
  }

  /** Every sample reported from the given start phones. */
  ghost function AllSamples(vs: map<VId, Vertex>, es: seq<Edge>, f: Option<PhoneFilter>, starts: set<VId>,
                            emitted: map<VId, seq<seq<VId>>>): set<Sample>
  {
    set s, x | s in starts && s in emitted && x in StartSet(vs, es, f, emitted[s]) :: x
  }

  /** The samples of one start phone's traversal, none when a lookup throws. */
  function StartSet(vs: map<VId, Vertex>, es: seq<Edge>, f: Option<PhoneFilter>, paths: seq<seq<VId>>): set<Sample>
  {
    match StartSamples(vs, es, f, paths)
    case Failure(_) => {}
    case Success(ss) => SampleSet(ss)
  }

  /** The phones the traversals start from: every phone, or the phones of the source user. */
  function StartPhones(vs: map<VId, Vertex>, es: seq<Edge>, user: Option<string>): set<VId>
  {
    if user.None? then Phones(vs) else PhonesOf(vs, es, user.value)
  }

  /** One start phone's contribution, reported into the table. */
  method AddStart(t0: Table, ghost samples0: set<Sample>, vs: map<VId, Vertex>, es: seq<Edge>, f: Option<PhoneFilter>,
                  paths: seq<seq<VId>>) returns (r: Result<Table, LookupError>)
    requires MinTable(t0, {}, samples0)
    ensures r.Failure? <==> StartSamples(vs, es, f, paths).Failure?
    ensures r.Success? ==> MinTable(r.value, {}, samples0 + SampleSet(StartSamples(vs, es, f, paths).value))
  {
    var kept := Filtered(vs, es, f, paths);
    if kept.Failure? {
      return Failure(kept.error);
    }
    var ss := PathSamples(vs, es, Dedup(kept.value));
    if ss.Failure? {
      return Failure(ss.error);
    }
    var t := RelaxAll(t0, {}, samples0, ss.value);
    return Success(t);
  }

  /** No start phone's traversal makes a lookup throw. */
  ghost predicate StartsOk(vs: map<VId, Vertex>, es: seq<Edge>, f: Option<PhoneFilter>, starts: set<VId>,
                           emitted: map<VId, seq<seq<VId>>>)
    requires starts <= emitted.Keys
  {
    forall s :: s in starts ==> StartSamples(vs, es, f, emitted[s]).Success?
  }

  /** toDistancesMap's loop over the traversals, one start phone at a time in any order. */
  method AddStarts(vs: map<VId, Vertex>, es: seq<Edge>, f: Option<PhoneFilter>, starts: set<VId>,
                   emitted: map<VId, seq<seq<VId>>>) returns (r: Result<Table, LookupError>)
    requires starts <= emitted.Keys
    ensures r.Success? <==> StartsOk(vs, es, f, starts, emitted)
    ensures r.Success? ==> MinTable(r.value, {}, AllSamples(vs, es, f, starts, emitted))
  {
    var t: Table := map[];
    ghost var done: set<VId> := {};
    var left := starts;
    while left != {}
      invariant done + left == starts && done !! left
      invariant MinTable(t, {}, AllSamples(vs, es, f, done, emitted))
      invariant StartsOk(vs, es, f, done, emitted)
      decreases left
    {
      var s :| s in left;
      var step := AddStart(t, AllSamples(vs, es, f, done, emitted), vs, es, f, emitted[s]);
      if step.Failure? {
        return Failure(step.error);
      }
      AllSamplesGrow(vs, es, f, done, s, emitted);
      assert StartSet(vs, es, f, emitted[s]) == SampleSet(StartSamples(vs, es, f, emitted[s]).value);
      t := step.value;
      done, left := done + {s}, left - {s};
    }
    assert done == starts;
    return Success(t);
  }

  /**
   * shortestDistanceBetweenUsers followed by toDistancesMap. `emitted` is
   * what the traversal yields from each start phone. With a source user and
   * threshold 0 the result is empty and nothing is looked up; otherwise the
   * table is the least distance over every reported sample, plus a zero
   * self distance for every user (or the source user), unless some lookup
   * throws.
   */
  method ShortestDistanceBetweenUsers(g: PropertyGraph, cache: PhoneIdCache, f: Option<PhoneFilter>, user: Option<string>,
                                      threshold: int, emitted: map<VId, seq<seq<VId>>>)
    returns (r: Result<Table, LookupError>)
    requires cache.Consistent(g.vertices, g.edges)
    requires StartPhones(g.vertices, g.edges, user) <= emitted.Keys
    modifies cache
    ensures cache.Consistent(g.vertices, g.edges)
    ensures user.Some? && threshold == 0 ==> r == Success(map[])
    ensures !(user.Some? && threshold == 0) ==>
              (r.Success? <==> StartsOk(g.vertices, g.edges, f, StartPhones(g.vertices, g.edges, user), emitted))
    ensures !(user.Some? && threshold == 0) && r.Success? ==>
              MinTable(r.value, {}, AllSamples(g.vertices, g.edges, f, StartPhones(g.vertices, g.edges, user), emitted)
                                    + Zeros(SelfUsers(g.vertices, user)))
  {
    var starts: set<VId>;
    if user.Some? {
      if threshold == 0 {
        return Success(map[]);
      }
      starts := cache.PhoneIdsOf(g, user.value);
    } else {
      starts := Phones(g.vertices);
    }
    r := AddStarts(g.vertices, g.edges, f, starts, emitted);
    if r.Success? {
      AllSamplesNonNegative(g.vertices, g.edges, f, starts, emitted);
      var t := SetSelves(r.value, {}, AllSamples(g.vertices, g.edges, f, starts, emitted), SelfUsers(g.vertices, user));
      r := Success(t);
    }
  }

  lemma AllSamplesGrow(vs: map<VId, Vertex>, es: seq<Edge>, f: Option<PhoneFilter>, done: set<VId>, s: VId,
                       emitted: map<VId, seq<seq<VId>>>)
    requires s in emitted
    ensures AllSamples(vs, es, f, done + {s}, emitted)
            == AllSamples(vs, es, f, done, emitted) + StartSet(vs, es, f, emitted[s])
  {
    var a, b := AllSamples(vs, es, f, done + {s}, emitted), AllSamples(vs, es, f, done, emitted);
    forall x | x in a ensures x in b + StartSet(vs, es, f, emitted[s]) {
      var s' :| s' in done + {s} && s' in emitted && x in StartSet(vs, es, f, emitted[s']);
      if s' != s {
        assert x in b;
      }
    }
    forall x | x in b ensures x in a {
      var s' :| s' in done && s' in emitted && x in StartSet(vs, es, f, emitted[s']);
    }
  }

  /** Each reported sample comes from one emitted path of one start phone. */
  lemma SampleOrigin(vs: map<VId, Vertex>, es: seq<Edge>, f: Option<PhoneFilter>, starts: set<VId>,
                     emitted: map<VId, seq<seq<VId>>>, x: Sample) returns (s: VId, p: seq<VId>)
    requires x in AllSamples(vs, es, f, starts, emitted)
    ensures s in starts && s in emitted && p in emitted[s] && PathSample(vs, es, p) == Success(x)
  {
    s :| s in starts && s in emitted && x in StartSet(vs, es, f, emitted[s]);
    var kept := Filtered(vs, es, f, emitted[s]).value;
    var ss := StartSamples(vs, es, f, emitted[s]).value;
    var i :| 0 <= i < |ss| && ss[i] == x;
    p := Dedup(kept)[i];
    assert p in Dedup(kept) && p in kept;
  }

  /**
   * Conversely, every emitted path the filter keeps is reported: the first
   * kept path to the same end phone has its sample among the reported ones.
   */
  lemma SampleReported(vs: map<VId, Vertex>, es: seq<Edge>, f: Option<PhoneFilter>, starts: set<VId>,
                       emitted: map<VId, seq<seq<VId>>>, s: VId, p: seq<VId>) returns (q: seq<VId>)
    requires s in starts && s in emitted && StartSamples(vs, es, f, emitted[s]).Success?
    requires p in emitted[s] && Keep(vs, es, f, p) == Success(true)
    ensures q in emitted[s] && Keep(vs, es, f, q) == Success(true) && End(q) == End(p)
    ensures FirstToEnd(Filtered(vs, es, f, emitted[s]).value, q)
    ensures PathSample(vs, es, q).Success? && PathSample(vs, es, q).value in AllSamples(vs, es, f, starts, emitted)
  {
    var kept := Filtered(vs, es, f, emitted[s]).value;
    var d := Dedup(kept);
    assert End(p) in Ends(d);
    q :| q in d && End(q) == End(p);
    var i :| 0 <= i < |d| && d[i] == q;
    DedupFirst(kept);
    var ss := StartSamples(vs, es, f, emitted[s]).value;
    assert PathSample(vs, es, q) == Success(ss[i]);
    assert ss[i] in StartSet(vs, es, f, emitted[s]);
  }

  /** No reported distance is negative. */
  lemma AllSamplesNonNegative(vs: map<VId, Vertex>, es: seq<Edge>, f: Option<PhoneFilter>, starts: set<VId>,
                              emitted: map<VId, seq<seq<VId>>>)
    ensures forall x :: x in AllSamples(vs, es, f, starts, emitted) ==> x.distance >= 0
  {
    forall x | x in AllSamples(vs, es, f, starts, emitted) ensures x.distance >= 0 {
      var s, p := SampleOrigin(vs, es, f, starts, emitted, x);
    }
  }

  /**
   * Every distance a path within the stop condition reports is below the
   * threshold (or 0 when the threshold stops the traversal at once), and a
   * negative threshold bounds nothing below Integer.MAX_VALUE.
   */
  lemma SamplesBelowThreshold(vs: map<VId, Vertex>, es: seq<Edge>, f: Option<PhoneFilter>, starts: set<VId>,
                              emitted: map<VId, seq<seq<VId>>>, threshold: int)
    requires forall s, p :: s in starts && s in emitted && p in emitted[s] ==> Emitted(p, threshold)
    ensures forall x :: x in AllSamples(vs, es, f, starts, emitted) ==>
              x.distance < Bound(threshold) || (x.distance == 0 && Bound(threshold) <= 1)
  {
    forall x | x in AllSamples(vs, es, f, starts, emitted)
      ensures x.distance < Bound(threshold) || (x.distance == 0 && Bound(threshold) <= 1)
    {
      var s, p := SampleOrigin(vs, es, f, starts, emitted, x);
      assert Emitted(p, threshold);
    }
  }

  /**
   * The threshold-1 case needs no special branch: when each start phone of
   * the source user emits only itself, the table is exactly a zero distance
   * from the user to itself, as the other implementation returns directly.
   */
  lemma ThresholdOneSelfOnly(vs: map<VId, Vertex>, es: seq<Edge>, f: Option<PhoneFilter>, user: string,
                             emitted: map<VId, seq<seq<VId>>>, t: Table)
    requires forall s :: s in PhonesOf(vs, es, user) && s in emitted ==>
               emitted[s] == [[s]] && User(vs, es, s).Success? && vs[User(vs, es, s).value].value == user
    requires MinTable(t, {}, AllSamples(vs, es, f, PhonesOf(vs, es, user), emitted) + Zeros({user}))
    ensures t == map[user := map[user := 0]]
  {
    SelfSamplesOnly(vs, es, f, user, emitted);
    SelfOnlyTable(t, user, AllSamples(vs, es, f, PhonesOf(vs, es, user), emitted));
  }

  lemma SelfSamplesOnly(vs: map<VId, Vertex>, es: seq<Edge>, f: Option<PhoneFilter>, user: string,
                        emitted: map<VId, seq<seq<VId>>>)
    requires forall s :: s in PhonesOf(vs, es, user) && s in emitted ==>
               emitted[s] == [[s]] && User(vs, es, s).Success? && vs[User(vs, es, s).value].value == user
    ensures AllSamples(vs, es, f, PhonesOf(vs, es, user), emitted) <= {Sample(user, user, 0)}
  {
    var starts := PhonesOf(vs, es, user);
    forall x | x in AllSamples(vs, es, f, starts, emitted) ensures x == Sample(user, user, 0) {
      var s, p := SampleOrigin(vs, es, f, starts, emitted, x);
      assert p == [s];
    }
  }
}
