/**
 * DataReader: ingestion of the three record files into the property graph.
 * Each level keeps a map from value to vertex so that a value becomes a
 * vertex, with its extendsFrom edge to its parent, only on its first
 * occurrence; the id maps tie the record ids of phones, date-times and
 * calls to their vertices. The graph it builds conforms to the cube's
 * schema, which is what the roll-ups expect of it.
 */
module DataReader {

  import opened Wrappers
  import opened Graph
  import Climb
  import Minimize
  import Operations

  // ---------------------------------------------------------------------
  // The records, as the lines split into fields.

  /** A line of the users file: phone id, phone, operator, user, city, country. */
  datatype UserLine = UserLine(id: int, phone: string, operator: string, user: string, city: string, country: string)

  /** A line of the date-times file: id, the time of day, day, month and year. */
  datatype TimeLine = TimeLine(id: int, time: string, day: string, month: string, year: string)

  /** A line of the calls file: call id, date-time id, caller phone id, member phone id, duration. */
  datatype CallLine = CallLine(id: int, dateTimeId: int, callerId: int, memberId: int, duration: int)

  /** The exception addEdge throws when the vertex an id map returned is null. */
  datatype ReadError = NullVertex(callId: int)

  // ---------------------------------------------------------------------
  // The date strings.

  /** Two fields joined by a separator, as the date strings are built. */
  function Joined(a: string, sep: char, b: string): (r: string)
    ensures |r| == |a| + 1 + |b| && r[..|a|] == a && r[|a|] == sep && r[|a| + 1..] == b
  {
    a + [sep] + b
  }

  /** month + "-" + year. */
  function MonthYear(month: string, year: string): string
  {
    Joined(month, '-', year)
  }

  /** day + "-" + monthYear. */
  function DateOf(day: string, monthYear: string): string
  {
    Joined(day, '-', monthYear)
  }

  /** time + " " + date. */
  function TimestampOf(time: string, date: string): string
  {
    Joined(time, ' ', date)
  }

  /**
   * With no separator inside the first field, the joined text determines
   * both fields: the month-year its month and year, the date its day and
   * month-year, the timestamp its time and date.
   */
  lemma JoinedInjective(a: string, sep: char, b: string, a': string, b': string)
    requires sep !in a && sep !in a'
    requires Joined(a, sep, b) == Joined(a', sep, b')
    ensures a == a' && b == b'
  {
  }

  // ---------------------------------------------------------------------
  // The schema of the cube.

  /** The extendsFrom steps of the three hierarchies: locations, operators and times. */
  predicate ParentOf(child: string, parent: string)
  {
    (child == "country" && parent == "allLocations") || (child == "city" && parent == "country") ||
    (child == "user" && parent == "city") || (child == "operator" && parent == "allOperators") ||
    (child == "phone" && (parent == "operator" || parent == "user")) ||
    (child == "year" && parent == "allTimes") || (child == "month" && parent == "year") ||
    (child == "day" && parent == "month") || (child == "timestamp" && parent == "day")
  }

  /** An edge between live vertices fits the schema: a hierarchy step, a call to a phone, or a call to its timestamp. */
  predicate EdgeFits(vs: map<VId, Vertex>, e: Edge)
    requires e.src in vs && e.dst in vs
  {
    match e.rel
    case ExtendsFrom => ParentOf(vs[e.src].kind, vs[e.dst].kind)
    case CalledBy => vs[e.src].kind == "call" && vs[e.dst].kind == "phone"
    case IntegratedBy => vs[e.src].kind == "call" && vs[e.dst].kind == "phone"
    case AtTime => vs[e.src].kind == "call" && vs[e.dst].kind == "timestamp"
  }

  /** Every edge fits the schema and no call is marked visited. */
  ghost predicate Conforms(vs: map<VId, Vertex>, es: seq<Edge>)
  {
    Wellformed(vs, es) && (forall i :: 0 <= i < |es| ==> EdgeFits(vs, es[i])) &&
    forall v :: v in vs && vs[v].kind == "call" ==> vs[v].visited != Some(true)
  }

  /** The height of a level in its hierarchy. */
  function KindRank(kind: string): nat
  {
    match kind
    case "allLocations" => 4
    case "country" => 3
    case "city" => 2
    case "user" => 1
    case "allOperators" => 2
    case "operator" => 1
    case "allTimes" => 4
    case "year" => 3
    case "month" => 2
    case "day" => 1
    case _ => 0
  }

  /** Each extendsFrom step of the schema climbs to a higher level. */
  lemma ParentRanksHigher(child: string, parent: string)
    requires ParentOf(child, parent)
    ensures KindRank(child) < KindRank(parent)
  {
  }

  /** Each vertex ranked by the height of its level. */
  function RankOf(vs: map<VId, Vertex>): (rank: map<VId, nat>)
    ensures rank.Keys == vs.Keys && forall v :: v in vs ==> rank[v] == KindRank(vs[v].kind)
  {
    map v | v in vs :: KindRank(vs[v].kind)
  }

  /** A graph that fits the schema is what a roll-up expects: calls are sources, none visited, and the hierarchy ranked. */
  lemma ConformsReady(vs: map<VId, Vertex>, es: seq<Edge>)
    requires Conforms(vs, es)
    ensures Operations.CallsReady(vs, es) && Climb.Ranked(vs, es, RankOf(vs))
  {
    forall i | 0 <= i < |es| ensures !Minimize.IsCall(vs, es[i].dst) {
      assert EdgeFits(vs, es[i]);
    }
    forall i | 0 <= i < |es| && es[i].rel == ExtendsFrom
      ensures RankOf(vs)[es[i].src] < RankOf(vs)[es[i].dst]
    {
      assert EdgeFits(vs, es[i]);
      ParentRanksHigher(vs[es[i].src].kind, vs[es[i].dst].kind);
    }
  }

  /** A new vertex that is not a visited call keeps the graph conforming. */
  lemma ConformsAddVertex(vs: map<VId, Vertex>, es: seq<Edge>, v: VId, x: Vertex)
    requires Conforms(vs, es) && v !in vs && x.visited == None
    ensures Conforms(vs[v := x], es)
  {
    forall i | 0 <= i < |es| ensures es[i].src in vs[v := x] && es[i].dst in vs[v := x] && EdgeFits(vs[v := x], es[i]) {
      assert EdgeFits(vs, es[i]);
    }
  }

  /** An edge that fits keeps the graph conforming. */
  lemma ConformsAddEdge(vs: map<VId, Vertex>, es: seq<Edge>, e: Edge)
    requires Conforms(vs, es) && e.src in vs && e.dst in vs && EdgeFits(vs, e)
    ensures Conforms(vs, es + [e])
  {
    forall i | 0 <= i < |es + [e]| ensures (es + [e])[i].src in vs && (es + [e])[i].dst in vs && EdgeFits(vs, (es + [e])[i]) {
      if i < |es| {
        assert (es + [e])[i] == es[i];
      }
    }
  }

  // ---------------------------------------------------------------------
  // What the maps hold.

  /** Each value of a level map names a live `kind` vertex carrying that value and nothing else. */
  ghost predicate Indexes(level: map<string, VId>, vs: map<VId, Vertex>, kind: string)
  {
    forall s :: s in level ==> level[s] in vs && vs[level[s]] == Vertex(kind, s, [], None)
  }

  /** Each dimension of allsMap names its "all" vertex. */
  ghost predicate IndexesAlls(alls: map<string, VId>, vs: map<VId, Vertex>)
  {
    forall s :: s in alls ==> alls[s] in vs && vs[alls[s]] == Vertex("all" + s, "all" + s, [], None)
  }

  /** Each id of an id map names a live `kind` vertex. */
  ghost predicate IdsOf(ids: map<int, VId>, vs: map<VId, Vertex>, kind: string)
  {
    forall n :: n in ids ==> HasKind(vs, ids[n], kind)
  }

  /** `vs` keeps every vertex of `vs0` as it was. */
  ghost predicate Kept(vs0: map<VId, Vertex>, vs: map<VId, Vertex>)
  {
    forall v {:trigger vs0[v]} :: v in vs0 ==> v in vs && vs[v] == vs0[v]
  }

  lemma IndexesKept(level: map<string, VId>, vs0: map<VId, Vertex>, vs: map<VId, Vertex>, kind: string)
    requires Indexes(level, vs0, kind) && Kept(vs0, vs)
    ensures Indexes(level, vs, kind)
  {
  }

  /** Keeping is transitive along three steps of growth. */
  lemma KeptTrans(vs0: map<VId, Vertex>, vs1: map<VId, Vertex>, vs2: map<VId, Vertex>, vs3: map<VId, Vertex>)
    requires Kept(vs0, vs1) && Kept(vs1, vs2) && Kept(vs2, vs3)
    ensures Kept(vs0, vs3) && Kept(vs1, vs3) && Kept(vs0, vs2)
  {
  }

  lemma IdsKept(ids: map<int, VId>, vs0: map<VId, Vertex>, vs: map<VId, Vertex>, kind: string)
    requires IdsOf(ids, vs0, kind) && Kept(vs0, vs)
    ensures IdsOf(ids, vs, kind)
  {
  }

  /** A map that gained exactly `key`, keeping what it held. */
  ghost predicate Gained(m0: map<string, VId>, m: map<string, VId>, key: string)
  {
    key in m && m == m0[key := m[key]] && (key in m0 ==> m[key] == m0[key])
  }

  /** A level lookup that misses is the null addEdge would throw on. */
  function Lookup(ids: map<int, VId>, n: int): (r: Option<VId>)
    ensures r.Some? <==> n in ids
    ensures r.Some? ==> r.value == ids[n]
  {
    if n in ids then Some(ids[n]) else None
  }

  /** A call line naming a phone or date-time id that no earlier line defined. */
  predicate MissesIds(line: CallLine, phoneIds: map<int, VId>, dateTimeIds: map<int, VId>)
  {
    line.memberId !in phoneIds || line.callerId !in phoneIds || line.dateTimeId !in dateTimeIds
  }

  /** The location levels name their vertices. */
  ghost predicate LocationsOk(users: map<string, VId>, cities: map<string, VId>, countries: map<string, VId>, vs: map<VId, Vertex>)
  {
    Indexes(users, vs, "user") && Indexes(cities, vs, "city") && Indexes(countries, vs, "country")
  }

  /** The operator and phone levels, and the phone ids, name their vertices. */
  ghost predicate PhonesOk(operators: map<string, VId>, phones: map<string, VId>, phoneIds: map<int, VId>, vs: map<VId, Vertex>)
  {
    Indexes(operators, vs, "operator") && Indexes(phones, vs, "phone") && IdsOf(phoneIds, vs, "phone")
  }

  /** The time levels, and the date-time ids, name their vertices. */
  ghost predicate TimesOk(years: map<string, VId>, months: map<string, VId>, dates: map<string, VId>,
                          timestamps: map<string, VId>, dateTimeIds: map<int, VId>, vs: map<VId, Vertex>)
  {
    Indexes(years, vs, "year") && Indexes(months, vs, "month") && Indexes(dates, vs, "day") &&
    Indexes(timestamps, vs, "timestamp") && IdsOf(dateTimeIds, vs, "timestamp")
  }

  /** The "all" vertices and the call ids name their vertices. */
  ghost predicate RootsOk(alls: map<string, VId>, callIds: map<int, VId>, vs: map<VId, Vertex>)
  {
    IndexesAlls(alls, vs) && IdsOf(callIds, vs, "call")
  }

  lemma LocationsKept(users: map<string, VId>, cities: map<string, VId>, countries: map<string, VId>, vs0: map<VId, Vertex>, vs: map<VId, Vertex>)
    requires LocationsOk(users, cities, countries, vs0) && Kept(vs0, vs)
    ensures LocationsOk(users, cities, countries, vs)
  {
    IndexesKept(users, vs0, vs, "user");
    IndexesKept(cities, vs0, vs, "city");
    IndexesKept(countries, vs0, vs, "country");
  }

  lemma PhonesKept(operators: map<string, VId>, phones: map<string, VId>, phoneIds: map<int, VId>, vs0: map<VId, Vertex>, vs: map<VId, Vertex>)
    requires PhonesOk(operators, phones, phoneIds, vs0) && Kept(vs0, vs)
    ensures PhonesOk(operators, phones, phoneIds, vs)
  {
    IndexesKept(operators, vs0, vs, "operator");
    IndexesKept(phones, vs0, vs, "phone");
    IdsKept(phoneIds, vs0, vs, "phone");
  }

  lemma TimesKept(years: map<string, VId>, months: map<string, VId>, dates: map<string, VId>,
                  timestamps: map<string, VId>, dateTimeIds: map<int, VId>, vs0: map<VId, Vertex>, vs: map<VId, Vertex>)
    requires TimesOk(years, months, dates, timestamps, dateTimeIds, vs0) && Kept(vs0, vs)
    ensures TimesOk(years, months, dates, timestamps, dateTimeIds, vs)
  {
    IndexesKept(years, vs0, vs, "year");
    IndexesKept(months, vs0, vs, "month");
    IndexesKept(dates, vs0, vs, "day");
    IndexesKept(timestamps, vs0, vs, "timestamp");
    IdsKept(dateTimeIds, vs0, vs, "timestamp");
  }

  lemma RootsKept(alls: map<string, VId>, callIds: map<int, VId>, vs0: map<VId, Vertex>, vs: map<VId, Vertex>)
    requires RootsOk(alls, callIds, vs0) && Kept(vs0, vs)
    ensures RootsOk(alls, callIds, vs)
  {
    IdsKept(callIds, vs0, vs, "call");
  }

  class Reader {
    const graph: PropertyGraph
    var usersMap: map<string, VId>
    var operatorsMap: map<string, VId>
    var citiesMap: map<string, VId>
    var countriesMap: map<string, VId>
    var yearsMap: map<string, VId>
    var monthYearsMap: map<string, VId>
    var datesMap: map<string, VId>
    var timestampMap: map<string, VId>
    var allsMap: map<string, VId>
    var phonesMap: map<string, VId>
    var phoneIdsMap: map<int, VId>
    var dateTimesIdsMap: map<int, VId>
    var callIdsMap: map<int, VId>

    /** The graph is well formed and fits the schema. */
    ghost predicate GraphOk()
      reads graph
    {
      graph.Valid() && Conforms(graph.vertices, graph.edges)
    }

    /** The graph conforms and every map entry names the vertex it stands for. */
    ghost predicate Valid()
      reads this, graph
    {
      GraphOk() && LocationsOk(usersMap, citiesMap, countriesMap, graph.vertices) &&
      PhonesOk(operatorsMap, phonesMap, phoneIdsMap, graph.vertices) &&
      TimesOk(yearsMap, monthYearsMap, datesMap, timestampMap, dateTimesIdsMap, graph.vertices) &&
      RootsOk(allsMap, callIdsMap, graph.vertices)
    }

    /** Every map that named its vertices before the graph grew still does. */
    lemma ValidKept(vs0: map<VId, Vertex>)
      requires GraphOk() && Kept(vs0, graph.vertices)
      requires LocationsOk(usersMap, citiesMap, countriesMap, vs0) && PhonesOk(operatorsMap, phonesMap, phoneIdsMap, vs0)
      requires TimesOk(yearsMap, monthYearsMap, datesMap, timestampMap, dateTimesIdsMap, vs0) && RootsOk(allsMap, callIdsMap, vs0)
      ensures Valid()
    {
      LocationsKept(usersMap, citiesMap, countriesMap, vs0, graph.vertices);
      PhonesKept(operatorsMap, phonesMap, phoneIdsMap, vs0, graph.vertices);
      TimesKept(yearsMap, monthYearsMap, datesMap, timestampMap, dateTimesIdsMap, vs0, graph.vertices);
      RootsKept(allsMap, callIdsMap, vs0, graph.vertices);
    }

    /** Valid from its parts, once the maps have been stored. */
    lemma ValidFrom()
      requires GraphOk()
      requires LocationsOk(usersMap, citiesMap, countriesMap, graph.vertices)
      requires PhonesOk(operatorsMap, phonesMap, phoneIdsMap, graph.vertices)
      requires TimesOk(yearsMap, monthYearsMap, datesMap, timestampMap, dateTimesIdsMap, graph.vertices)
      requires RootsOk(allsMap, callIdsMap, graph.vertices)
      ensures Valid()
    {
    }

    /** new DataReader(graph, path) over a graph that already fits the schema; every map starts empty. */
    constructor (g: PropertyGraph)
      requires g.Valid() && Conforms(g.vertices, g.edges)
      ensures Valid() && graph == g
      ensures usersMap == operatorsMap == citiesMap == countriesMap == map[]
      ensures yearsMap == monthYearsMap == datesMap == timestampMap == allsMap == phonesMap == map[]
      ensures phoneIdsMap == dateTimesIdsMap == callIdsMap == map[]
    {
      graph := g;
      usersMap, operatorsMap, citiesMap, countriesMap := map[], map[], map[], map[];
      yearsMap, monthYearsMap, datesMap, timestampMap := map[], map[], map[], map[];
      allsMap, phonesMap := map[], map[];
      phoneIdsMap, dateTimesIdsMap, callIdsMap := map[], map[], map[];
    }

    /** newAll(dimension): the "all" vertex of a dimension, created once. */
    method NewAll(dimension: string)
      requires Valid()
      modifies this`allsMap, graph
      ensures Valid() && Kept(old(graph.vertices), graph.vertices) && graph.edges == old(graph.edges)
      ensures dimension in old(allsMap) ==> allsMap == old(allsMap) && graph.vertices == old(graph.vertices)
      ensures dimension !in old(allsMap) ==>
                dimension in allsMap && allsMap == old(allsMap)[dimension := allsMap[dimension]] && allsMap[dimension] !in old(graph.vertices) &&
                graph.vertices == old(graph.vertices)[allsMap[dimension] := Vertex("all" + dimension, "all" + dimension, [], None)]
    {
      if dimension in allsMap {
        return;
      }
      ghost var vs0 := graph.vertices;
      var v := graph.AddVertex("all" + dimension, "all" + dimension, []);
      ConformsAddVertex(vs0, graph.edges, v, Vertex("all" + dimension, "all" + dimension, [], None));
      var alls := allsMap[dimension := v];
      LocationsKept(usersMap, citiesMap, countriesMap, vs0, graph.vertices);
      PhonesKept(operatorsMap, phonesMap, phoneIdsMap, vs0, graph.vertices);
      TimesKept(yearsMap, monthYearsMap, datesMap, timestampMap, dateTimesIdsMap, vs0, graph.vertices);
      IdsKept(callIdsMap, vs0, graph.vertices, "call");
      assert IndexesAlls(alls, graph.vertices);
      allsMap := alls;
    }

    /**
     * addVertexAndEdge(parent, levelMap, label, value): a value already in
     * the level is left alone; otherwise a new `kind` vertex with that value
     * and one extendsFrom edge to the parent. The level map is returned.
     */
    method AddVertexAndEdge(parent: VId, level: map<string, VId>, kind: string, value: string)
      returns (level': map<string, VId>)
      requires GraphOk() && Indexes(level, graph.vertices, kind)
      requires parent in graph.vertices && ParentOf(kind, graph.vertices[parent].kind)
      modifies graph
      ensures GraphOk() && Indexes(level', graph.vertices, kind)
      ensures Kept(old(graph.vertices), graph.vertices) && Gained(level, level', value)
      ensures value in level ==> level' == level && graph.State() == old(graph.State())
      ensures value !in level ==>
                level'[value] !in old(graph.vertices) &&
                graph.vertices == old(graph.vertices)[level'[value] := Vertex(kind, value, [], None)] &&
                graph.edges == old(graph.edges) + [Edge(level'[value], ExtendsFrom, parent)]
    {
      if value in level {
        return level;
      }
      ghost var vs0 := graph.vertices;
      var v := graph.AddVertex(kind, value, []);
      ConformsAddVertex(vs0, graph.edges, v, Vertex(kind, value, [], None));
      ConformsAddEdge(graph.vertices, graph.edges, Edge(v, ExtendsFrom, parent));
      graph.AddEdge(v, ExtendsFrom, parent);
      level' := level[value := v];
    }

    /**
     * addPhoneVertexAndEdge(operator, user, levelMap, label, value): a new
     * phone gets two extendsFrom edges, to its operator and to its user; a
     * known one is left alone.
     */
    method AddPhoneVertexAndEdge(parentOperator: VId, parentUser: VId, level: map<string, VId>, kind: string, value: string)
      returns (level': map<string, VId>)
      requires GraphOk() && Indexes(level, graph.vertices, kind)
      requires parentOperator in graph.vertices && ParentOf(kind, graph.vertices[parentOperator].kind)
      requires parentUser in graph.vertices && ParentOf(kind, graph.vertices[parentUser].kind)
      modifies graph
      ensures GraphOk() && Indexes(level', graph.vertices, kind)
      ensures Kept(old(graph.vertices), graph.vertices) && Gained(level, level', value)
      ensures value in level ==> level' == level && graph.State() == old(graph.State())
      ensures value !in level ==>
                level'[value] !in old(graph.vertices) &&
                graph.vertices == old(graph.vertices)[level'[value] := Vertex(kind, value, [], None)] &&
                graph.edges == old(graph.edges) + [Edge(level'[value], ExtendsFrom, parentOperator), Edge(level'[value], ExtendsFrom, parentUser)]
    {
      if value in level {
        return level;
      }
      ghost var vs0, es0 := graph.vertices, graph.edges;
      var v := graph.AddVertex(kind, value, []);
      ConformsAddVertex(vs0, graph.edges, v, Vertex(kind, value, [], None));
      ConformsAddEdge(graph.vertices, graph.edges, Edge(v, ExtendsFrom, parentOperator));
      graph.AddEdge(v, ExtendsFrom, parentOperator);
      ConformsAddEdge(graph.vertices, graph.edges, Edge(v, ExtendsFrom, parentUser));
      graph.AddEdge(v, ExtendsFrom, parentUser);
      assert graph.edges == es0 + [Edge(v, ExtendsFrom, parentOperator), Edge(v, ExtendsFrom, parentUser)];
      level' := level[value := v];
    }

    /** Stores the location levels once they name vertices of the grown graph. */
    method SetLocations(ghost vs0: map<VId, Vertex>, users: map<string, VId>, cities: map<string, VId>, countries: map<string, VId>)
      requires GraphOk() && Kept(vs0, graph.vertices)
      requires PhonesOk(operatorsMap, phonesMap, phoneIdsMap, vs0)
      requires TimesOk(yearsMap, monthYearsMap, datesMap, timestampMap, dateTimesIdsMap, vs0)
      requires RootsOk(allsMap, callIdsMap, vs0)
      requires LocationsOk(users, cities, countries, graph.vertices)
      modifies this`usersMap, this`citiesMap, this`countriesMap
      ensures Valid() && usersMap == users && citiesMap == cities && countriesMap == countries
    {
      PhonesKept(operatorsMap, phonesMap, phoneIdsMap, vs0, graph.vertices);
      TimesKept(yearsMap, monthYearsMap, datesMap, timestampMap, dateTimesIdsMap, vs0, graph.vertices);
      RootsKept(allsMap, callIdsMap, vs0, graph.vertices);
      usersMap, citiesMap, countriesMap := users, cities, countries;
      ValidFrom();
    }

    /** Stores the operator and phone levels and the phone ids once they name vertices of the grown graph. */
    method SetPhones(ghost vs0: map<VId, Vertex>, operators: map<string, VId>, phones: map<string, VId>, phoneIds: map<int, VId>)
      requires GraphOk() && Kept(vs0, graph.vertices)
      requires LocationsOk(usersMap, citiesMap, countriesMap, vs0)
      requires TimesOk(yearsMap, monthYearsMap, datesMap, timestampMap, dateTimesIdsMap, vs0)
      requires RootsOk(allsMap, callIdsMap, vs0)
      requires PhonesOk(operators, phones, phoneIds, graph.vertices)
      modifies this`operatorsMap, this`phonesMap, this`phoneIdsMap
      ensures Valid() && operatorsMap == operators && phonesMap == phones && phoneIdsMap == phoneIds
    {
      LocationsKept(usersMap, citiesMap, countriesMap, vs0, graph.vertices);
      TimesKept(yearsMap, monthYearsMap, datesMap, timestampMap, dateTimesIdsMap, vs0, graph.vertices);
      RootsKept(allsMap, callIdsMap, vs0, graph.vertices);
      operatorsMap, phonesMap, phoneIdsMap := operators, phones, phoneIds;
      ValidFrom();
    }

    /** Stores the time levels and the date-time ids once they name vertices of the grown graph. */
    method SetTimes(ghost vs0: map<VId, Vertex>, years: map<string, VId>, months: map<string, VId>, dates: map<string, VId>,
                    timestamps: map<string, VId>, dateTimeIds: map<int, VId>)
      requires GraphOk() && Kept(vs0, graph.vertices)
      requires LocationsOk(usersMap, citiesMap, countriesMap, vs0)
      requires PhonesOk(operatorsMap, phonesMap, phoneIdsMap, vs0)
      requires RootsOk(allsMap, callIdsMap, vs0)
      requires TimesOk(years, months, dates, timestamps, dateTimeIds, graph.vertices)
      modifies this`yearsMap, this`monthYearsMap, this`datesMap, this`timestampMap, this`dateTimesIdsMap
      ensures Valid() && yearsMap == years && monthYearsMap == months && datesMap == dates
      ensures timestampMap == timestamps && dateTimesIdsMap == dateTimeIds
    {
      LocationsKept(usersMap, citiesMap, countriesMap, vs0, graph.vertices);
      PhonesKept(operatorsMap, phonesMap, phoneIdsMap, vs0, graph.vertices);
      RootsKept(allsMap, callIdsMap, vs0, graph.vertices);
      yearsMap, monthYearsMap, datesMap, timestampMap, dateTimesIdsMap := years, months, dates, timestamps, dateTimeIds;
      ValidFrom();
    }

    /**
     * The location part of a parseUsers line: country under allLocations,
     * city under its country, user under its city.
     */
    method ReadLocation(country: string, city: string, user: string)
      requires Valid() && "Locations" in allsMap
      modifies this`countriesMap, this`citiesMap, this`usersMap, graph
      ensures Valid() && Kept(old(graph.vertices), graph.vertices)
      ensures Gained(old(countriesMap), countriesMap, country) && Gained(old(citiesMap), citiesMap, city)
      ensures Gained(old(usersMap), usersMap, user)
      ensures user !in old(usersMap) ==> Edge(usersMap[user], ExtendsFrom, citiesMap[city]) in graph.edges
    {
      ghost var vs0 := graph.vertices;
      var countries := AddVertexAndEdge(allsMap["Locations"], countriesMap, "country", country);
      ghost var vs1 := graph.vertices;
      IndexesKept(citiesMap, vs0, vs1, "city");
      var cities := AddVertexAndEdge(countries[country], citiesMap, "city", city);
      ghost var vs2, es2 := graph.vertices, graph.edges;
      IndexesKept(usersMap, vs0, vs2, "user");
      var users := AddVertexAndEdge(cities[city], usersMap, "user", user);
      if user !in usersMap {
        assert graph.edges[|es2|] == Edge(users[user], ExtendsFrom, cities[city]);
      }
      KeptTrans(vs0, vs1, vs2, graph.vertices);
      IndexesKept(countries, vs1, graph.vertices, "country");
      IndexesKept(cities, vs2, graph.vertices, "city");
      SetLocations(vs0, users, cities, countries);
    }
    /**
     * The phone part of a parseUsers line: the operator under allOperators,
     * then the phone under its operator and its user, and the phone id.
     */
    method ReadPhone(id: int, phone: string, operator: string, user: string)
      requires Valid() && "Operators" in allsMap && user in usersMap
      modifies this`operatorsMap, this`phonesMap, this`phoneIdsMap, graph
      ensures Valid() && Kept(old(graph.vertices), graph.vertices)
      ensures Gained(old(operatorsMap), operatorsMap, operator) && Gained(old(phonesMap), phonesMap, phone)
      ensures phoneIdsMap == old(phoneIdsMap)[id := phonesMap[phone]] && old(graph.edges) <= graph.edges
      ensures phone !in old(phonesMap) ==>
                Edge(phonesMap[phone], ExtendsFrom, operatorsMap[operator]) in graph.edges &&
                Edge(phonesMap[phone], ExtendsFrom, usersMap[user]) in graph.edges
    {
      ghost var vs0 := graph.vertices;
      var operators := AddVertexAndEdge(allsMap["Operators"], operatorsMap, "operator", operator);
      ghost var vs1, es1 := graph.vertices, graph.edges;
      IndexesKept(phonesMap, vs0, vs1, "phone");
      IndexesKept(usersMap, vs0, vs1, "user");
      var phones := AddPhoneVertexAndEdge(operators[operator], usersMap[user], phonesMap, "phone", phone);
      if phone !in phonesMap {
        assert graph.edges[|es1|] == Edge(phones[phone], ExtendsFrom, operators[operator]);
        assert graph.edges[|es1| + 1] == Edge(phones[phone], ExtendsFrom, usersMap[user]);
      }
      IndexesKept(operators, vs1, graph.vertices, "operator");
      IdsKept(phoneIdsMap, vs0, graph.vertices, "phone");
      var phoneIds := phoneIdsMap[id := phones[phone]];
      SetPhones(vs0, operators, phones, phoneIds);
    }

    /**
     * One line of parseUsers: its location chain, then its operator and
     * phone; the edges each part adds are stated by ReadLocation and
     * ReadPhone.
     */
    method ReadUser(line: UserLine)
      requires Valid() && "Locations" in allsMap && "Operators" in allsMap
      modifies this`countriesMap, this`citiesMap, this`usersMap, this`operatorsMap, this`phonesMap, this`phoneIdsMap, graph
      ensures Valid() && Kept(old(graph.vertices), graph.vertices)
      ensures line.phone in phonesMap && forall p :: p in old(phonesMap) ==> p in phonesMap
      ensures line.id in phoneIdsMap && forall k :: k in old(phoneIdsMap) ==> k in phoneIdsMap
      ensures phoneIdsMap[line.id] == phonesMap[line.phone]
    {
      ReadLocation(line.country, line.city, line.user);
      ReadPhone(line.id, line.phone, line.operator, line.user);
    }

    /** The day part of a parseDateTimes line: the year, the month under it and the day under that. */
    method ReadDay(year: string, monthYear: string, date: string)
      requires Valid() && "Times" in allsMap
      modifies this`yearsMap, this`monthYearsMap, this`datesMap, this`timestampMap, this`dateTimesIdsMap, graph
      ensures Valid() && Kept(old(graph.vertices), graph.vertices)
      ensures Gained(old(yearsMap), yearsMap, year) && Gained(old(monthYearsMap), monthYearsMap, monthYear)
      ensures Gained(old(datesMap), datesMap, date)
      ensures timestampMap == old(timestampMap) && dateTimesIdsMap == old(dateTimesIdsMap)
    {
      ghost var vs0 := graph.vertices;
      var years := AddVertexAndEdge(allsMap["Times"], yearsMap, "year", year);
      ghost var vs1 := graph.vertices;
      IndexesKept(monthYearsMap, vs0, vs1, "month");
      var months := AddVertexAndEdge(years[year], monthYearsMap, "month", monthYear);
      ghost var vs2 := graph.vertices;
      IndexesKept(datesMap, vs0, vs2, "day");
      var dates := AddVertexAndEdge(months[monthYear], datesMap, "day", date);
      KeptTrans(vs0, vs1, vs2, graph.vertices);
      IndexesKept(years, vs1, graph.vertices, "year");
      IndexesKept(months, vs2, graph.vertices, "month");
      IndexesKept(timestampMap, vs0, graph.vertices, "timestamp");
      IdsKept(dateTimesIdsMap, vs0, graph.vertices, "timestamp");
      SetTimes(vs0, years, months, dates, timestampMap, dateTimesIdsMap);
    }

    /** The timestamp part of a parseDateTimes line: the timestamp under its day, and the date-time id. */
    method ReadTimestamp(id: int, date: string, timestamp: string)
      requires Valid() && date in datesMap
      modifies this`yearsMap, this`monthYearsMap, this`datesMap, this`timestampMap, this`dateTimesIdsMap, graph
      ensures Valid() && Kept(old(graph.vertices), graph.vertices)
      ensures yearsMap == old(yearsMap) && monthYearsMap == old(monthYearsMap) && datesMap == old(datesMap)
      ensures Gained(old(timestampMap), timestampMap, timestamp)
      ensures dateTimesIdsMap == old(dateTimesIdsMap)[id := timestampMap[timestamp]]
      ensures timestamp !in old(timestampMap) ==> Edge(timestampMap[timestamp], ExtendsFrom, datesMap[date]) in graph.edges
    {
      ghost var vs0, es0 := graph.vertices, graph.edges;
      var timestamps := AddVertexAndEdge(datesMap[date], timestampMap, "timestamp", timestamp);
      if timestamp !in timestampMap {
        assert graph.edges[|es0|] == Edge(timestamps[timestamp], ExtendsFrom, datesMap[date]);
      }
      IdsKept(dateTimesIdsMap, vs0, graph.vertices, "timestamp");
      var dateTimeIds := dateTimesIdsMap[id := timestamps[timestamp]];
      IndexesKept(yearsMap, vs0, graph.vertices, "year");
      IndexesKept(monthYearsMap, vs0, graph.vertices, "month");
      IndexesKept(datesMap, vs0, graph.vertices, "day");
      SetTimes(vs0, yearsMap, monthYearsMap, datesMap, timestamps, dateTimeIds);
    }

    /**
     * One line of parseDateTimes: the time chain year, month, day,
     * timestamp with the composed texts, and the date-time id. What each
     * level gains is stated by ReadDay and ReadTimestamp.
     */
    method ReadDateTime(line: TimeLine)
      requires Valid() && "Times" in allsMap
      modifies this`yearsMap, this`monthYearsMap, this`datesMap, this`timestampMap, this`dateTimesIdsMap, graph
      ensures Valid() && Kept(old(graph.vertices), graph.vertices)
      ensures line.id in dateTimesIdsMap && forall k :: k in old(dateTimesIdsMap) ==> k in dateTimesIdsMap
    {
      var monthYear := MonthYear(line.month, line.year);
      var date := DateOf(line.day, monthYear);
      var timestamp := TimestampOf(line.time, date);
      ghost var vs0 := graph.vertices;
      ReadDay(line.year, monthYear, date);
      ghost var vs1 := graph.vertices;
      ReadTimestamp(line.id, date, timestamp);
      KeptTrans(vs0, vs1, vs1, graph.vertices);
    }

    /**
     * newCall(callId, caller, member, time, duration): the first line of a
     * call creates it with its duration and its calledBy and atTime edges;
     * every line adds one integratedBy edge. A null vertex makes addEdge
     * throw, leaving what was already added.
     */
    method NewCall(callId: int, caller: Option<VId>, member: Option<VId>, time: Option<VId>, duration: int)
      returns (r: Outcome<ReadError>)
      requires Valid()
      requires caller.Some? ==> HasKind(graph.vertices, caller.value, "phone")
      requires member.Some? ==> HasKind(graph.vertices, member.value, "phone")
      requires time.Some? ==> HasKind(graph.vertices, time.value, "timestamp")
      modifies this`callIdsMap, graph
      ensures Valid() && Kept(old(graph.vertices), graph.vertices)
      ensures callId in old(callIdsMap) ==>
                callIdsMap == old(callIdsMap) && graph.vertices == old(graph.vertices) &&
                (member.None? ==> r == Fail(NullVertex(callId)) && graph.edges == old(graph.edges)) &&
                (member.Some? ==> r == Pass && graph.edges == old(graph.edges) + [Edge(callIdsMap[callId], IntegratedBy, member.value)])
      ensures callId !in old(callIdsMap) ==>
                exists v :: v !in old(graph.vertices) &&
                  graph.vertices == old(graph.vertices)[v := Vertex("call", "", [duration as real], None)] &&
                  (caller.None? ==> r == Fail(NullVertex(callId)) && callIdsMap == old(callIdsMap) && graph.edges == old(graph.edges)) &&
                  (caller.Some? && time.None? ==>
                     r == Fail(NullVertex(callId)) && callIdsMap == old(callIdsMap) &&
                     graph.edges == old(graph.edges) + [Edge(v, CalledBy, caller.value)]) &&
                  (caller.Some? && time.Some? && member.None? ==>
                     r == Fail(NullVertex(callId)) && callIdsMap == old(callIdsMap)[callId := v] &&
                     graph.edges == old(graph.edges) + [Edge(v, CalledBy, caller.value), Edge(v, AtTime, time.value)]) &&
                  (caller.Some? && time.Some? && member.Some? ==>
                     r == Pass && callIdsMap == old(callIdsMap)[callId := v] &&
                     graph.edges == old(graph.edges) + [Edge(v, CalledBy, caller.value), Edge(v, AtTime, time.value),
                                                        Edge(v, IntegratedBy, member.value)])
    {
      ghost var vs0, es0 := graph.vertices, graph.edges;
      if callId !in callIdsMap {
        var v := graph.AddVertex("call", "", [duration as real]);
        ConformsAddVertex(vs0, es0, v, Vertex("call", "", [duration as real], None));
        ValidKept(vs0);
        if caller.None? {
          return Fail(NullVertex(callId));
        }
        ConformsAddEdge(graph.vertices, graph.edges, Edge(v, CalledBy, caller.value));
        graph.AddEdge(v, CalledBy, caller.value);
        if time.None? {
          return Fail(NullVertex(callId));
        }
        ConformsAddEdge(graph.vertices, graph.edges, Edge(v, AtTime, time.value));
        graph.AddEdge(v, AtTime, time.value);
        assert graph.edges == es0 + [Edge(v, CalledBy, caller.value), Edge(v, AtTime, time.value)];
        callIdsMap := callIdsMap[callId := v];
      }
      if member.None? {
        return Fail(NullVertex(callId));
      }
      ghost var es1 := graph.edges;
      var c := callIdsMap[callId];
      ConformsAddEdge(graph.vertices, graph.edges, Edge(c, IntegratedBy, member.value));
      graph.AddEdge(c, IntegratedBy, member.value);
      assert graph.edges == es1 + [Edge(c, IntegratedBy, member.value)];
      return Pass;
    }

    /** One line of parseCalls: the ids looked up in the id maps, then newCall. */
    method ReadCall(line: CallLine) returns (r: Outcome<ReadError>)
      requires Valid()
      modifies this`callIdsMap, graph
      ensures Valid() && Kept(old(graph.vertices), graph.vertices)
      ensures r.Fail? <==>
                line.memberId !in phoneIdsMap ||
                (line.id !in old(callIdsMap) && (line.callerId !in phoneIdsMap || line.dateTimeId !in dateTimesIdsMap))
      ensures r.Pass? ==> line.id in callIdsMap && Edge(callIdsMap[line.id], IntegratedBy, phoneIdsMap[line.memberId]) in graph.edges
      ensures forall n :: n in old(callIdsMap) ==> n in callIdsMap && callIdsMap[n] == old(callIdsMap)[n]
      ensures forall n :: n in callIdsMap ==> n in old(callIdsMap) || n == line.id
    {
      var caller, member := Lookup(phoneIdsMap, line.callerId), Lookup(phoneIdsMap, line.memberId);
      var time := Lookup(dateTimesIdsMap, line.dateTimeId);
      r := NewCall(line.id, caller, member, time, line.duration);
    }

    /** parseUsers: every line of the users file, in order. */
    method ParseUsers(users: seq<UserLine>)
      requires Valid() && "Locations" in allsMap && "Operators" in allsMap
      modifies this`countriesMap, this`citiesMap, this`usersMap, this`operatorsMap, this`phonesMap, this`phoneIdsMap, graph
      ensures Valid() && Kept(old(graph.vertices), graph.vertices)
      ensures forall i :: 0 <= i < |users| ==> users[i].phone in phonesMap && users[i].id in phoneIdsMap
    {
      for i := 0 to |users|
        invariant Valid() && Kept(old(graph.vertices), graph.vertices)
        invariant forall j :: 0 <= j < i ==> users[j].phone in phonesMap && users[j].id in phoneIdsMap
      {
        ReadUser(users[i]);
      }
    }

    /** parseDateTimes: every line of the date-times file, in order. */
    method ParseDateTimes(times: seq<TimeLine>)
      requires Valid() && "Times" in allsMap
      modifies this`yearsMap, this`monthYearsMap, this`datesMap, this`timestampMap, this`dateTimesIdsMap, graph
      ensures Valid() && Kept(old(graph.vertices), graph.vertices)
      ensures forall i :: 0 <= i < |times| ==> times[i].id in dateTimesIdsMap
    {
      for i := 0 to |times|
        invariant Valid() && Kept(old(graph.vertices), graph.vertices)
        invariant forall j :: 0 <= j < i ==> times[j].id in dateTimesIdsMap
      {
        ReadDateTime(times[i]);
      }
    }

    /** parseCalls: every line of the calls file, in order, up to the first that throws. */
    method ParseCalls(calls: seq<CallLine>) returns (r: Outcome<ReadError>)
      requires Valid()
      modifies this`callIdsMap, graph
      ensures Valid() && Kept(old(graph.vertices), graph.vertices)
      ensures r.Pass? ==> forall i :: 0 <= i < |calls| ==> calls[i].id in callIdsMap
      ensures r.Fail? ==> exists i :: 0 <= i < |calls| && MissesIds(calls[i], phoneIdsMap, dateTimesIdsMap)
    {
      r := Pass;
      for i := 0 to |calls|
        invariant Valid() && Kept(old(graph.vertices), graph.vertices)
        invariant r.Pass? && forall j :: 0 <= j < i ==> calls[j].id in callIdsMap
      {
        r := ReadCall(calls[i]);
        if r.Fail? {
          assert MissesIds(calls[i], phoneIdsMap, dateTimesIdsMap);
          return;
        }
      }
    }

    /** The three newAll calls that open buildGraph. */
    method NewAlls()
      requires Valid()
      modifies this`allsMap, graph
      ensures Valid() && Kept(old(graph.vertices), graph.vertices) && graph.edges == old(graph.edges)
      ensures "Locations" in allsMap && "Operators" in allsMap && "Times" in allsMap
    {
      ghost var vs0 := graph.vertices;
      NewAll("Locations");
      ghost var vs1 := graph.vertices;
      NewAll("Operators");
      ghost var vs2 := graph.vertices;
      NewAll("Times");
      KeptTrans(vs0, vs1, vs2, graph.vertices);
    }

    /**
     * buildGraph over the split lines: the three "all" vertices, then the
     * users, the date-times and the calls in file order. The first call
     * whose ids are missing from the id maps ends the build.
     */
    method BuildGraph(users: seq<UserLine>, times: seq<TimeLine>, calls: seq<CallLine>) returns (r: Outcome<ReadError>)
      requires Valid()
      modifies this, graph
      ensures Valid() && Kept(old(graph.vertices), graph.vertices)
      ensures Operations.CallsReady(graph.vertices, graph.edges) && Climb.Ranked(graph.vertices, graph.edges, RankOf(graph.vertices))
      ensures "Locations" in allsMap && "Operators" in allsMap && "Times" in allsMap
      ensures forall i :: 0 <= i < |users| ==> users[i].phone in phonesMap && users[i].id in phoneIdsMap
      ensures forall i :: 0 <= i < |times| ==> times[i].id in dateTimesIdsMap
      ensures r.Pass? ==> forall i :: 0 <= i < |calls| ==> calls[i].id in callIdsMap
      ensures r.Fail? ==>
                exists i :: 0 <= i < |calls| && MissesIds(calls[i], phoneIdsMap, dateTimesIdsMap)
    {
      NewAlls();
      ghost var vs0 := graph.vertices;
      ParseUsers(users);
      ghost var vs1 := graph.vertices;
      ParseDateTimes(times);
      ghost var vs2 := graph.vertices;
      r := ParseCalls(calls);
      KeptTrans(vs0, vs1, vs2, graph.vertices);
      KeptTrans(old(graph.vertices), vs0, vs1, graph.vertices);
      ConformsReady(graph.vertices, graph.edges);
    }
  }
}
