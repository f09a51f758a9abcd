/** The `{nodes, edges}` shape the neighbourhood routes send and the client
    analyses, with the node and edge records the routes build from query
    rows. */
module GraphDto {
  import opened Common
  import opened Store
  import opened GraphCypher

  datatype Kind = PersonKind | EventKind

  /** The node's `meta`: the properties of the Person or Event node. */
  datatype NodeMeta = PersonMeta(person: Person) | EventMeta(event: Event)

  /** A node; `caption` is the DTO's `label` (a reserved word in Dafny). */
  datatype Node = Node(id: Id, kind: Kind, caption: string, meta: NodeMeta)

  datatype EdgeMeta = EdgeMeta(relationshipType: string, status: Status, score: int)

  /** An edge; `weight` is absent when the value is not a number. */
  datatype Edge = Edge(id: Id, source: Id, target: Id, kind: string, weight: Option<int>, meta: EdgeMeta)

  datatype GraphView = GraphView(nodes: seq<Node>, edges: seq<Edge>)

  /** A person node, labelled with the person's name. */
  function PersonNode(p: Person): (n: Node)
    ensures n.id == p.id && n.kind == PersonKind && n.caption == p.name && n.meta == PersonMeta(p)
  {
    Node(p.id, PersonKind, p.name, PersonMeta(p))
  }

  /** An event node, labelled with the event's name. */
  function EventNode(e: Event): (n: Node)
    ensures n.id == e.id && n.kind == EventKind && n.caption == e.name && n.meta == EventMeta(e)
  {
    Node(e.id, EventKind, e.name, EventMeta(e))
  }

  /** The view of one `claimEdges` record: same id and endpoints, kind
      "claim", the score as weight and in the meta. */
  function EdgeView(ce: ClaimEdge): (ed: Edge)
    ensures ed.id == ce.id && ed.source == ce.source && ed.target == ce.target && ed.kind == "claim"
    ensures ed.weight == Some(ce.score)
    ensures ed.meta == EdgeMeta(ce.relationshipType, ce.status, ce.score)
  {
    Edge(ce.id, ce.source, ce.target, "claim", Some(ce.score), EdgeMeta(ce.relationshipType, ce.status, ce.score))
  }

  /** The views of all records, one per record, in order. */
  function EdgeViews(ces: seq<ClaimEdge>): (eds: seq<Edge>)
    ensures |eds| == |ces| && forall i :: 0 <= i < |ces| ==> eds[i] == EdgeView(ces[i])
  {
    MapSeq(ces, EdgeView)
  }

  /** The edge shows the stored claim `c`: the claim's id, from its person
      to its event, kind "claim", with its relationship type and status, and
      its score (0 when the claim has none) as weight and in the meta. */
  predicate ShowsClaim(ed: Edge, c: Claim) {
    ed.id == c.id && ed.source == c.personId && ed.target == c.eventId && ed.kind == "claim" &&
    ed.weight == Some(c.score.GetOr(0)) && ed.meta == EdgeMeta(c.relationshipType, c.status, c.score.GetOr(0))
  }

  /** The view of a path's edge record shows the stored claim the path
      goes through. */
  lemma PathEdgeShowsClaim(g: Graph, order: seq<Id>, m: Path)
    requires Keyed(g) && m in Paths(g, order)
    ensures exists k :: k in order && k in g.claims && g.claims[k] == m.claim &&
                        m.claim.personId in g.persons && m.claim.eventId in g.events &&
                        ShowsClaim(EdgeView(EdgeOf(m)), g.claims[k])
  {
    var k :| k in order && PathAt(g, k) == Some(m);
    PathKeys(g, order, m);
  }

  /** The views of the edge records of paths of the store: the i-th shows
      the claim of the i-th path, a stored claim enumerated in `order`. */
  lemma EdgeViewsShowClaims(g: Graph, order: seq<Id>, third: seq<Path>)
    requires Keyed(g) && forall m :: m in third ==> m in Paths(g, order)
    ensures var eds := EdgeViews(MapSeq(third, EdgeOf));
      forall i :: 0 <= i < |eds| ==>
        ShowsClaim(eds[i], third[i].claim) &&
        exists k :: k in order && k in g.claims && g.claims[k] == third[i].claim &&
                    third[i].claim.personId in g.persons && third[i].claim.eventId in g.events
  {
    var eds := EdgeViews(MapSeq(third, EdgeOf));
    forall i | 0 <= i < |eds|
      ensures ShowsClaim(eds[i], third[i].claim)
      ensures exists k :: k in order && k in g.claims && g.claims[k] == third[i].claim &&
                          third[i].claim.personId in g.persons && third[i].claim.eventId in g.events
    {
      assert third[i] in third && eds[i] == EdgeView(EdgeOf(third[i]));
      PathEdgeShowsClaim(g, order, third[i]);
    }
  }

  /** Every edge of a view joins a person node to an event node of the view. */
  predicate EdgesJoinNodes(v: GraphView) {
    forall ed :: ed in v.edges ==>
      (exists n :: n in v.nodes && n.id == ed.source && n.kind == PersonKind) &&
      (exists n :: n in v.nodes && n.id == ed.target && n.kind == EventKind)
  }
}
