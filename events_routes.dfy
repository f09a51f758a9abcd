/** The event route: its query schema and the mapping of the event
    neighbourhood row to the `{nodes, edges}` view. */
module EventsRoutes {
  import opened Common
  import opened Store
  import opened GraphCypher
  import opened GraphDto
  import opened QueryParams

  datatype EventNeighborhoodQuery = EventNeighborhoodQuery(includePending: Option<string>, limitPeople: QueryNum, limitEvents: QueryNum)

  /** The row as `{nodes, edges}`: the center event, then the events, then
      the people; one edge per claim record. */
  function EventGraphView(row: EventGraphRow): (v: GraphView)
    ensures |v.nodes| == 1 + |row.events| + |row.people|
    ensures v.nodes[0] == EventNode(row.center)
    ensures forall i :: 0 <= i < |row.events| ==> v.nodes[1 + i] == EventNode(row.events[i])
    ensures forall j :: 0 <= j < |row.people| ==> v.nodes[1 + |row.events| + j] == PersonNode(row.people[j])
    ensures v.edges == EdgeViews(row.claimEdges)
  {
    GraphView([EventNode(row.center)] + MapSeq(row.events, EventNode) + MapSeq(row.people, PersonNode),
              EdgeViews(row.claimEdges))
  }

  /** GET /events/:id/neighborhood: 400 on an empty id or a bad query,
      `limitPeople` in [1, 200] (60 by default), `limitEvents` in [1, 100]
      (25 by default); with no row the route answers 200 with no body. */
  function EventNeighborhoodRoute(g: Store.Graph, order: seq<Id>, id: string, q: EventNeighborhoodQuery): (r: Reply<Option<GraphView>>)
    ensures r.Ok? || r.BadRequest?
    ensures r.BadRequest? <==> id == "" || !Limit(q.limitPeople, 1, 200, 60).Ok? || !Limit(q.limitEvents, 1, 100, 25).Ok?
    ensures r.Ok? && id !in g.events ==> r.body.None?
  {
    var lp := Limit(q.limitPeople, 1, 200, 60);
    var le := Limit(q.limitEvents, 1, 100, 25);
    if id == "" || !lp.Ok? || !le.Ok? then BadRequest
    else
      match EventNeighborhoodGraph(g, order, id, CoerceBoolean(q.includePending), lp.body, le.body)
      case None => Ok(None)
      case Some(row) => Ok(Some(EventGraphView(row)))
  }

  /** Every record runs from one of the people to the center or to one of the events. */
  predicate RecordsJoin(row: EventGraphRow) {
    forall ce :: ce in row.claimEdges ==>
      (exists p :: p in row.people && p.id == ce.source) &&
      (ce.target == row.center.id || exists e :: e in row.events && e.id == ce.target)
  }

  /** The view of a row whose records join its nodes has edges that join its nodes. */
  lemma EventViewEdges(row: EventGraphRow)
    requires RecordsJoin(row)
    ensures EdgesJoinNodes(EventGraphView(row))
  {
    var v := EventGraphView(row);
    assert EventNode(row.center) in v.nodes by { assert v.nodes[0] == EventNode(row.center); }
    forall e | e in row.events
      ensures EventNode(e) in v.nodes
    {
      var i :| 0 <= i < |row.events| && row.events[i] == e;
      assert v.nodes[1 + i] == EventNode(e);
    }
    forall p | p in row.people
      ensures PersonNode(p) in v.nodes
    {
      var j :| 0 <= j < |row.people| && row.people[j] == p;
      assert v.nodes[1 + |row.events| + j] == PersonNode(p);
    }
    forall ed | ed in v.edges
      ensures exists n :: n in v.nodes && n.id == ed.source && n.kind == PersonKind
      ensures exists n :: n in v.nodes && n.id == ed.target && n.kind == EventKind
    {
      var k :| 0 <= k < |v.edges| && v.edges[k] == ed;
      var ce := row.claimEdges[k];
      assert ce in row.claimEdges;
      var p :| p in row.people && p.id == ce.source;
      assert PersonNode(p) in v.nodes;
      if ce.target == row.center.id {
        assert EventNode(row.center) in v.nodes;
      } else {
        var e :| e in row.events && e.id == ce.target;
        assert EventNode(e) in v.nodes;
      }
    }
  }

  /** The edges of a row's view show stored claims, enumerated in `order`,
      whose person and event exist and which pass the status filter. */
  lemma {:induction false} RowViewClaims(g: Store.Graph, order: seq<Id>, id: string, ip: bool, lp: nat, le: nat)
    requires Keyed(g) && EventNeighborhoodGraph(g, order, id, ip, lp, le).Some?
    ensures var eds := EdgeViews(EventNeighborhoodGraph(g, order, id, ip, lp, le).value.claimEdges);
      forall ed :: ed in eds ==>
        exists k :: k in order && k in g.claims && ShowsClaim(ed, g.claims[k]) &&
                    g.claims[k].personId in g.persons && g.claims[k].eventId in g.events &&
                    Qualifies(g.claims[k], ip)
  {
    var row := EventNeighborhoodGraph(g, order, id, ip, lp, le).value;
    var third := EventEdgePaths(Paths(g, order), ip, row.events + [row.center], row.people);
    assert row.claimEdges == MapSeq(third, EdgeOf);
    var eds := EdgeViews(row.claimEdges);
    EdgeViewsShowClaims(g, order, third);
    forall ed | ed in eds
      ensures exists k :: k in order && k in g.claims && ShowsClaim(ed, g.claims[k]) &&
                          g.claims[k].personId in g.persons && g.claims[k].eventId in g.events &&
                          Qualifies(g.claims[k], ip)
    {
      var i :| 0 <= i < |eds| && eds[i] == ed;
      var m := third[i];
      assert m in third;
      var k :| k in order && k in g.claims && g.claims[k] == m.claim &&
               m.claim.personId in g.persons && m.claim.eventId in g.events;
      assert ShowsClaim(ed, g.claims[k]);
    }
  }

  /** The view holds at most the center, `limitEvents` events and
      `limitPeople` people: 25 and 60 when the limits are absent. */
  lemma EventNeighborhoodViewSize(g: Store.Graph, order: seq<Id>, id: string, q: EventNeighborhoodQuery)
    requires Keyed(g)
    ensures var r := EventNeighborhoodRoute(g, order, id, q);
      r.Ok? && r.body.Some? ==>
        |r.body.value.nodes| <= 1 + Limit(q.limitEvents, 1, 100, 25).body + Limit(q.limitPeople, 1, 200, 60).body
  {
    var r := EventNeighborhoodRoute(g, order, id, q);
    if r.Ok? && r.body.Some? {
      var lp := Limit(q.limitPeople, 1, 200, 60).body;
      var le := Limit(q.limitEvents, 1, 100, 25).body;
      var ip := CoerceBoolean(q.includePending);
      var row := EventNeighborhoodGraph(g, order, id, ip, lp, le).value;
      assert r.body.value == EventGraphView(row);
      EventGraphNodes(g, order, id, ip, lp, le);
      ParticipantsSpec(Paths(g, order), id, ip, lp);
      OtherEventsSpec(Paths(g, order), id, ip, row.people, le);
    }
  }

  /** End to end: every edge the route sends shows a stored claim, enumerated
      in `order`, whose person and event exist and which passes the status
      filter as the route reads `includePending`. */
  lemma EventNeighborhoodViewClaims(g: Store.Graph, order: seq<Id>, id: string, q: EventNeighborhoodQuery)
    requires Keyed(g)
    ensures var r := EventNeighborhoodRoute(g, order, id, q);
      r.Ok? && r.body.Some? ==>
        forall ed :: ed in r.body.value.edges ==>
          exists k :: k in order && k in g.claims && ShowsClaim(ed, g.claims[k]) &&
                      g.claims[k].personId in g.persons && g.claims[k].eventId in g.events &&
                      Qualifies(g.claims[k], CoerceBoolean(q.includePending))
  {
    var r := EventNeighborhoodRoute(g, order, id, q);
    if r.Ok? && r.body.Some? {
      var lp := Limit(q.limitPeople, 1, 200, 60).body;
      var le := Limit(q.limitEvents, 1, 100, 25).body;
      var ip := CoerceBoolean(q.includePending);
      var row := EventNeighborhoodGraph(g, order, id, ip, lp, le).value;
      assert r.body.value == EventGraphView(row);
      RowViewClaims(g, order, id, ip, lp, le);
    }
  }

  /** A view comes only for an existing event, starts with that event's
      node, and every edge joins a person node to an event node (the center
      or one of the events). */
  lemma EventNeighborhoodViewEdges(g: Store.Graph, order: seq<Id>, id: string, q: EventNeighborhoodQuery)
    requires Keyed(g)
    ensures var r := EventNeighborhoodRoute(g, order, id, q);
      r.Ok? && r.body.Some? ==>
        id in g.events && |r.body.value.nodes| >= 1 && r.body.value.nodes[0] == EventNode(g.events[id]) &&
        EdgesJoinNodes(r.body.value)
  {
    var r := EventNeighborhoodRoute(g, order, id, q);
    if r.Ok? && r.body.Some? {
      var lp := Limit(q.limitPeople, 1, 200, 60).body;
      var le := Limit(q.limitEvents, 1, 100, 25).body;
      var ip := CoerceBoolean(q.includePending);
      var row := EventNeighborhoodGraph(g, order, id, ip, lp, le).value;
      assert r.body.value == EventGraphView(row);
      assert id in g.events && row.center == g.events[id] && row.center.id == id by {
        EventGraphNodes(g, order, id, ip, lp, le);
      }
      assert RecordsJoin(row) by {
        EventGraphEdges(g, order, id, ip, lp, le);
      }
      EventViewEdges(row);
    }
  }
}
