/** The people routes: their query schemas, the status codes, and the
    mapping of query rows to response bodies and to the `{nodes, edges}` view. */
module PeopleRoutes {
  import opened Common
  import opened Store
  import opened GraphCypher
  import opened PeopleCypher
  import opened GraphDto
  import opened QueryParams

  // ------------------------------------------------ /people/:id/graph

  datatype GraphQuery = GraphQuery(includePending: Option<string>, minScore: QueryNum, startYear: QueryNum,
                                   endYear: QueryNum, limitEvents: QueryNum)

  datatype GraphParams = GraphParams(filters: Filters, limitEvents: nat)

  /** GraphQuery: `limitEvents` an integer in [1, 200], 50 by default; the
      years integers; an absent filter passed as `null`. */
  function ParseGraphQuery(q: GraphQuery): (r: Reply<GraphParams>)
    ensures r.Ok? || r.BadRequest?
    ensures r.Ok? <==> Limit(q.limitEvents, 1, 200, 50).Ok? && OptNumber(q.minScore).Ok? &&
                       OptInt(q.startYear).Ok? && OptInt(q.endYear).Ok?
    ensures r.Ok? ==> 1 <= r.body.limitEvents <= 200 &&
                      r.body.filters.includePending == CoerceBoolean(q.includePending) &&
                      (q.minScore.Absent? <==> r.body.filters.minScore.None?) &&
                      (q.startYear.Absent? <==> r.body.filters.startYear.None?) &&
                      (q.endYear.Absent? <==> r.body.filters.endYear.None?)
    ensures r.Ok? ==> r.body.limitEvents == Limit(q.limitEvents, 1, 200, 50).body &&
                      r.body.filters.minScore == OptNumber(q.minScore).body &&
                      r.body.filters.startYear == OptInt(q.startYear).body &&
                      r.body.filters.endYear == OptInt(q.endYear).body
  {
    var limit := Limit(q.limitEvents, 1, 200, 50);
    var minScore := OptNumber(q.minScore);
    var startYear := OptInt(q.startYear);
    var endYear := OptInt(q.endYear);
    if limit.Ok? && minScore.Ok? && startYear.Ok? && endYear.Ok? then
      Ok(GraphParams(Filters(CoerceBoolean(q.includePending), minScore.body, startYear.body, endYear.body), limit.body))
    else BadRequest
  }

  /** GET /people/:id/graph: 400 on a bad id or query, 404 when the query
      returns no row, the row otherwise. */
  function GraphRoute(g: Store.Graph, order: seq<Id>, id: string, q: GraphQuery): Reply<NeighborhoodRow> {
    var params := ParseGraphQuery(q);
    if id == "" || !params.Ok? then BadRequest
    else
      match PersonNeighborhood(g, order, id, params.body.filters, params.body.limitEvents)
      case None => NotFound
      case Some(row) => Ok(row)
  }

  /** The route answers 404 exactly when the person is missing or none of
      their claims passes the filters, and absent filters filter nothing. */
  lemma GraphRouteNotFound(g: Store.Graph, order: seq<Id>, id: string, q: GraphQuery)
    requires id != "" && ParseGraphQuery(q).Ok?
    ensures var f := ParseGraphQuery(q).body.filters;
      (GraphRoute(g, order, id, q) == NotFound <==>
        id !in g.persons || !exists m :: m in Paths(g, order) && m.claim.personId == id && Admits(f, m)) &&
      (q.minScore.Absent? && q.startYear.Absent? && q.endYear.Absent? ==>
        forall m: Path :: Admits(f, m) <==> Qualifies(m.claim, f.includePending))
  {
    var p := ParseGraphQuery(q).body;
    NeighborhoodRowExists(g, order, id, p.filters, p.limitEvents);
  }

  // ------------------------------------------ /people/:id/connections

  datatype ConnectionsQuery = ConnectionsQuery(includePending: Option<string>, limitPeople: QueryNum)

  /** One result: the other person's id, name and properties with the two
      aggregates. */
  datatype ConnectionItem = ConnectionItem(id: Id, name: string, person: Person, sharedEventCount: nat, sharedStrength: int)

  function ItemOf(c: Connection): (it: ConnectionItem)
    ensures it.id == c.other.id && it.name == c.other.name && it.person == c.other
    ensures it.sharedEventCount == c.sharedEventCount && it.sharedStrength == c.sharedStrength
  {
    ConnectionItem(c.other.id, c.other.name, c.other, c.sharedEventCount, c.sharedStrength)
  }

  /** GET /people/:id/connections: `limitPeople` an integer in [1, 200], 50
      by default. */
  function ConnectionsRoute(g: Store.Graph, order: seq<Id>, id: string, q: ConnectionsQuery): Reply<seq<ConnectionItem>> {
    var limit := Limit(q.limitPeople, 1, 200, 50);
    if id == "" || !limit.Ok? then BadRequest
    else Ok(MapSeq(PersonConnections(g, order, id, CoerceBoolean(q.includePending), limit.body), ItemOf))
  }

  /** Items keep the connections' order, distinct ids and counts. */
  lemma ItemsOf(cs: seq<Connection>, id: Id)
    requires forall i, j :: 0 <= i < j < |cs| ==> cs[i].other != cs[j].other
    requires forall c :: c in cs ==> c.other.id != id && c.sharedEventCount >= 1
    requires forall c1, c2 :: c1 in cs && c2 in cs && c1.other.id == c2.other.id ==> c1.other == c2.other
    ensures var items := MapSeq(cs, ItemOf);
      (forall i, j :: 0 <= i < j < |items| ==> items[i].id != items[j].id) &&
      (forall it :: it in items ==> it.id != id && it.sharedEventCount >= 1)
  {
    var items := MapSeq(cs, ItemOf);
    forall i, j | 0 <= i < j < |items|
      ensures items[i].id != items[j].id
    {
      assert cs[i] in cs && cs[j] in cs;
    }
    forall it | it in items
      ensures it.id != id && it.sharedEventCount >= 1
    {
      MapSeqIn(cs, ItemOf, it);
    }
  }

  /** The results: at most 200 and at most the limit, one per other
      person, never the person themself, each sharing at least one event. */
  lemma ConnectionsRouteSpec(g: Store.Graph, order: seq<Id>, id: string, q: ConnectionsQuery)
    requires Keyed(g)
    ensures var r := ConnectionsRoute(g, order, id, q);
      r.Ok? ==>
        |r.body| <= Limit(q.limitPeople, 1, 200, 50).body <= 200 &&
        (forall i, j :: 0 <= i < j < |r.body| ==> r.body[i].id != r.body[j].id) &&
        (forall it :: it in r.body ==> it.id != id && it.sharedEventCount >= 1)
  {
    var r := ConnectionsRoute(g, order, id, q);
    if r.Ok? {
      var limit := Limit(q.limitPeople, 1, 200, 50).body;
      var cs := PersonConnections(g, order, id, CoerceBoolean(q.includePending), limit);
      assert r.body == MapSeq(cs, ItemOf);
      assert |cs| <= limit && (forall i, j :: 0 <= i < j < |cs| ==> cs[i].other != cs[j].other) &&
             (forall c :: c in cs ==> c.other.id != id && c.sharedEventCount >= 1 &&
                                      c.other.id in g.persons && c.other == g.persons[c.other.id]) by {
        ConnectionsSound(g, order, id, CoerceBoolean(q.includePending), limit);
      }
      ItemsOf(cs, id);
    }
  }

  // ------------------------------------------------- /people/:aId/why/:bId

  datatype WhyQuery = WhyQuery(includePending: Option<string>, limitEvents: QueryNum)

  /** GET /people/:aId/why/:bId: `limitEvents` an integer in [1, 200], 20 by
      default. */
  function WhyRoute(g: Store.Graph, order: seq<Id>, aId: string, bId: string, q: WhyQuery): (r: Reply<seq<WhyRow>>)
    ensures r.Ok? || r.BadRequest?
    ensures r.BadRequest? <==> aId == "" || bId == "" || !Limit(q.limitEvents, 1, 200, 20).Ok?
    ensures r.Ok? ==> |r.body| <= Limit(q.limitEvents, 1, 200, 20).body <= 200
    ensures r.Ok? && (aId !in g.persons || bId !in g.persons) ==> r.body == []
  {
    var limit := Limit(q.limitEvents, 1, 200, 20);
    if aId == "" || bId == "" || !limit.Ok? then BadRequest
    else Ok(WhyConnected(g, order, aId, bId, CoerceBoolean(q.includePending), limit.body))
  }

  // ------------------------------------------ /people/:aId/shared-events/:bId

  datatype SharedEventsQuery = SharedEventsQuery(includePending: Option<string>, limit: QueryNum)

  /** The shared-events route's parameters: `limit` an integer in [1, 100],
      10 by default. */
  function ParseSharedEvents(aId: string, bId: string, q: SharedEventsQuery): (r: Reply<(bool, nat)>)
    ensures r.Ok? || r.BadRequest?
    ensures r.Ok? <==> aId != "" && bId != "" && Limit(q.limit, 1, 100, 10).Ok?
    ensures r.Ok? ==> 1 <= r.body.1 <= 100 && r.body.0 == CoerceBoolean(q.includePending)
    ensures r.Ok? ==> r.body.1 == Limit(q.limit, 1, 100, 10).body
  {
    var limit := Limit(q.limit, 1, 100, 10);
    if aId == "" || bId == "" || !limit.Ok? then BadRequest
    else Ok((CoerceBoolean(q.includePending), limit.body))
  }

  // ------------------------------------------ /people/:id/neighborhood

  datatype NeighborhoodQuery = NeighborhoodQuery(includePending: Option<string>, limitEvents: QueryNum, limitPeople: QueryNum)

  /** The row as `{nodes, edges}`: the center, then the events, then the
      people; one edge per claim record. */
  function PersonGraphView(row: PersonGraphRow): (v: GraphView)
    ensures |v.nodes| == 1 + |row.events| + |row.people|
    ensures v.nodes[0] == PersonNode(row.center)
    ensures forall i :: 0 <= i < |row.events| ==> v.nodes[1 + i] == EventNode(row.events[i])
    ensures forall j :: 0 <= j < |row.people| ==> v.nodes[1 + |row.events| + j] == PersonNode(row.people[j])
    ensures v.edges == EdgeViews(row.claimEdges)
  {
    GraphView([PersonNode(row.center)] + MapSeq(row.events, EventNode) + MapSeq(row.people, PersonNode),
              EdgeViews(row.claimEdges))
  }

  /** GET /people/:id/neighborhood: `limitEvents` in [1, 100] (25 by
      default), `limitPeople` in [1, 200] (50 by default); with no row the
      route answers 200 with no body (`rows[0]`), never 404. */
  function NeighborhoodRoute(g: Store.Graph, order: seq<Id>, id: string, q: NeighborhoodQuery): (r: Reply<Option<GraphView>>)
    ensures r.Ok? || r.BadRequest?
    ensures r.BadRequest? <==> id == "" || !Limit(q.limitEvents, 1, 100, 25).Ok? || !Limit(q.limitPeople, 1, 200, 50).Ok?
    ensures r.Ok? && id !in g.persons ==> r.body.None?
  {
    var le := Limit(q.limitEvents, 1, 100, 25);
    var lp := Limit(q.limitPeople, 1, 200, 50);
    if id == "" || !le.Ok? || !lp.Ok? then BadRequest
    else
      match PersonNeighborhoodGraph(g, order, id, CoerceBoolean(q.includePending), le.body, lp.body)
      case None => Ok(None)
      case Some(row) => Ok(Some(PersonGraphView(row)))
  }

  /** Every record joins an event of the row to the center or to one of the people. */
  predicate RecordsJoin(row: PersonGraphRow) {
    forall ce :: ce in row.claimEdges ==>
      (exists e :: e in row.events && e.id == ce.target) &&
      (ce.source == row.center.id || exists p :: p in row.people && p.id == ce.source)
  }

  /** The view of a row whose records join its nodes has edges that join its nodes. */
  lemma PersonViewEdges(row: PersonGraphRow)
    requires RecordsJoin(row)
    ensures EdgesJoinNodes(PersonGraphView(row))
  {
    var v := PersonGraphView(row);
    assert PersonNode(row.center) in v.nodes by { assert v.nodes[0] == PersonNode(row.center); }
    forall e | e in row.events
      ensures EventNode(e) in v.nodes
    {
      var i :| 0 <= i < |row.events| && row.events[i] == e;
      assert v.nodes[1 + i] == EventNode(e);
    }
    forall p | p in row.people
      ensures PersonNode(p) in v.nodes
    {
      var j :| 0 <= j < |row.people| && row.people[j] == p;
      assert v.nodes[1 + |row.events| + j] == PersonNode(p);
    }
    forall ed | ed in v.edges
      ensures exists n :: n in v.nodes && n.id == ed.source && n.kind == PersonKind
      ensures exists n :: n in v.nodes && n.id == ed.target && n.kind == EventKind
    {
      var k :| 0 <= k < |v.edges| && v.edges[k] == ed;
      var ce := row.claimEdges[k];
      assert ce in row.claimEdges;
      var e :| e in row.events && e.id == ce.target;
      assert EventNode(e) in v.nodes;
      if ce.source == row.center.id {
        assert PersonNode(row.center) in v.nodes;
      } else {
        var p :| p in row.people && p.id == ce.source;
        assert PersonNode(p) in v.nodes;
      }
    }
  }

  /** The edges of a row's view show stored claims, enumerated in `order`,
      whose person and event exist; each is the center's or passes the
      status filter. */
  lemma {:induction false} RowViewClaims(g: Store.Graph, order: seq<Id>, id: string, ip: bool, le: nat, lp: nat)
    requires Keyed(g) && PersonNeighborhoodGraph(g, order, id, ip, le, lp).Some?
    ensures var eds := EdgeViews(PersonNeighborhoodGraph(g, order, id, ip, le, lp).value.claimEdges);
      forall ed :: ed in eds ==>
        exists k :: k in order && k in g.claims && ShowsClaim(ed, g.claims[k]) &&
                    g.claims[k].personId in g.persons && g.claims[k].eventId in g.events &&
                    (g.claims[k].personId == id || Qualifies(g.claims[k], ip))
  {
    var row := PersonNeighborhoodGraph(g, order, id, ip, le, lp).value;
    var third := CenterEdgePaths(Paths(g, order), id, ip, row.events, row.people);
    assert row.claimEdges == MapSeq(third, EdgeOf);
    var eds := EdgeViews(row.claimEdges);
    EdgeViewsShowClaims(g, order, third);
    forall ed | ed in eds
      ensures exists k :: k in order && k in g.claims && ShowsClaim(ed, g.claims[k]) &&
                          g.claims[k].personId in g.persons && g.claims[k].eventId in g.events &&
                          (g.claims[k].personId == id || Qualifies(g.claims[k], ip))
    {
      var i :| 0 <= i < |eds| && eds[i] == ed;
      var m := third[i];
      assert m in third;
      var k :| k in order && k in g.claims && g.claims[k] == m.claim &&
               m.claim.personId in g.persons && m.claim.eventId in g.events;
      assert ShowsClaim(ed, g.claims[k]);
    }
  }

  /** The view holds at most the center, `limitEvents` events and
      `limitPeople` people: 25 and 50 when the limits are absent. */
  lemma NeighborhoodViewSize(g: Store.Graph, order: seq<Id>, id: string, q: NeighborhoodQuery)
    requires Keyed(g)
    ensures var r := NeighborhoodRoute(g, order, id, q);
      r.Ok? && r.body.Some? ==>
        |r.body.value.nodes| <= 1 + Limit(q.limitEvents, 1, 100, 25).body + Limit(q.limitPeople, 1, 200, 50).body
  {
    var r := NeighborhoodRoute(g, order, id, q);
    if r.Ok? && r.body.Some? {
      var le := Limit(q.limitEvents, 1, 100, 25).body;
      var lp := Limit(q.limitPeople, 1, 200, 50).body;
      var ip := CoerceBoolean(q.includePending);
      var row := PersonNeighborhoodGraph(g, order, id, ip, le, lp).value;
      assert r.body.value == PersonGraphView(row);
      PersonGraphNodes(g, order, id, ip, le, lp);
      CenterEventsSpec(Paths(g, order), id, ip, le);
      CoPeopleSpec(Paths(g, order), id, ip, row.events, lp);
    }
  }

  /** End to end: every edge the route sends shows a stored claim, enumerated
      in `order`, whose person and event exist; the claim is the center's or
      passes the status filter as the route reads `includePending`. */
  lemma NeighborhoodViewClaims(g: Store.Graph, order: seq<Id>, id: string, q: NeighborhoodQuery)
    requires Keyed(g)
    ensures var r := NeighborhoodRoute(g, order, id, q);
      r.Ok? && r.body.Some? ==>
        forall ed :: ed in r.body.value.edges ==>
          exists k :: k in order && k in g.claims && ShowsClaim(ed, g.claims[k]) &&
                      g.claims[k].personId in g.persons && g.claims[k].eventId in g.events &&
                      (g.claims[k].personId == id || Qualifies(g.claims[k], CoerceBoolean(q.includePending)))
  {
    var r := NeighborhoodRoute(g, order, id, q);
    if r.Ok? && r.body.Some? {
      var le := Limit(q.limitEvents, 1, 100, 25).body;
      var lp := Limit(q.limitPeople, 1, 200, 50).body;
      var ip := CoerceBoolean(q.includePending);
      var row := PersonNeighborhoodGraph(g, order, id, ip, le, lp).value;
      assert r.body.value == PersonGraphView(row);
      RowViewClaims(g, order, id, ip, le, lp);
    }
  }

  /** A view comes only for an existing person, starts with that person's
      node, and every edge joins a person node (the center or one of the
      people) to an event node. */
  lemma NeighborhoodViewEdges(g: Store.Graph, order: seq<Id>, id: string, q: NeighborhoodQuery)
    requires Keyed(g)
    ensures var r := NeighborhoodRoute(g, order, id, q);
      r.Ok? && r.body.Some? ==>
        id in g.persons && |r.body.value.nodes| >= 1 && r.body.value.nodes[0] == PersonNode(g.persons[id]) &&
        EdgesJoinNodes(r.body.value)
  {
    var r := NeighborhoodRoute(g, order, id, q);
    if r.Ok? && r.body.Some? {
      var le := Limit(q.limitEvents, 1, 100, 25).body;
      var lp := Limit(q.limitPeople, 1, 200, 50).body;
      var ip := CoerceBoolean(q.includePending);
      var row := PersonNeighborhoodGraph(g, order, id, ip, le, lp).value;
      assert r.body.value == PersonGraphView(row);
      assert id in g.persons && row.center == g.persons[id] && row.center.id == id by {
        PersonGraphNodes(g, order, id, ip, le, lp);
      }
      assert RecordsJoin(row) by {
        PersonGraphEdges(g, order, id, ip, le, lp);
      }
      PersonViewEdges(row);
    }
  }
}
