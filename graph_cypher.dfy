/** The two neighbourhood-graph queries: starting from a Person (or an
    Event), collect the distinct events (people) one claim away, then the
    distinct people (events) one claim further, each list cut to a limit, and
    finally every claim between the center and the collected nodes as an
    edge record.

    A query reads a `Graph` snapshot together with `order`, the ids of the
    stored claims in the order the database enumerates them; every
    `MATCH (p:Person)-[:CLAIM_SUBJECT]->(c:Claim)-[:CLAIM_OBJECT]->(e:Event)`
    becomes a scan of `Paths(g, order)`. A node is identified by the key its
    claim links to. */
module GraphCypher {
  import opened Common
  import opened Store

  /** One match of (person)-[:CLAIM_SUBJECT]->(claim)-[:CLAIM_OBJECT]->(event). */
  datatype Path = Path(person: Person, claim: Claim, event: Event)

  /** The path through the stored claim `k`, when its person and event exist. */
  function PathAt(g: Graph, k: Id): Option<Path> {
    if k in g.claims && g.claims[k].personId in g.persons && g.claims[k].eventId in g.events then
      var c := g.claims[k];
      Some(Path(g.persons[c.personId], c, g.events[c.eventId]))
    else None
  }

  /** All paths, in claim enumeration order. */
  function Paths(g: Graph, order: seq<Id>): (r: seq<Path>)
    ensures forall m :: m in r <==> exists k :: k in order && PathAt(g, k) == Some(m)
  {
    if order == [] then []
    else
      var rest := Paths(g, order[1..]);
      assert forall k :: k in order <==> k == order[0] || k in order[1..];
      match PathAt(g, order[0])
      case Some(m) => [m] + rest
      case None => rest
  }

  /** The status filter `($includePending = true OR c.status = 'APPROVED')`. */
  predicate Qualifies(c: Claim, includePending: bool) {
    includePending || c.status == Approved
  }

  /** `UNWIND keys AS k MATCH …`: for each key in turn, the paths whose
      `key` is `k` and that `keep` admits. */
  function Unwind<K(==,!new)>(keys: seq<K>, ps: seq<Path>, key: Path -> K, keep: Path -> bool): (r: seq<Path>)
    ensures forall m :: m in r <==> m in ps && key(m) in keys && keep(m)
  {
    if keys == [] then []
    else
      var rest := Unwind(keys[1..], ps, key, keep);
      assert forall k :: k in keys <==> k == keys[0] || k in keys[1..];
      Filter(ps, (m: Path) => key(m) == keys[0] && keep(m)) + rest
  }

  /** An `UNWIND … MATCH` yields some row exactly when some path qualifies. */
  lemma NonEmptyUnwind<K(!new)>(keys: seq<K>, ps: seq<Path>, key: Path -> K, keep: Path -> bool)
    ensures Unwind(keys, ps, key, keep) != [] <==> exists m :: m in ps && key(m) in keys && keep(m)
  {
    var r := Unwind(keys, ps, key, keep);
    if r != [] {
      assert r[0] in r;
    }
  }

  /** An `UNWIND` over distinct keys of distinct paths yields distinct paths:
      each key contributes its own paths, and no path has two keys. */
  lemma {:induction false} UnwindNoDups<K(!new)>(keys: seq<K>, ps: seq<Path>, key: Path -> K, keep: Path -> bool)
    requires NoDups(keys) && NoDups(ps)
    ensures NoDups(Unwind(keys, ps, key, keep))
  {
    if keys != [] {
      assert NoDups(keys[1..]) by {
        forall i, j | 0 <= i < j < |keys[1..]|
          ensures keys[1..][i] != keys[1..][j]
        {
          assert keys[1..][i] == keys[i + 1] && keys[1..][j] == keys[j + 1];
        }
      }
      assert keys[0] !in keys[1..] by {
        forall j | 0 <= j < |keys[1..]|
          ensures keys[1..][j] != keys[0]
        {
          assert keys[1..][j] == keys[j + 1];
        }
      }
      var here := Filter(ps, (m: Path) => key(m) == keys[0] && keep(m));
      var rest := Unwind(keys[1..], ps, key, keep);
      UnwindNoDups(keys[1..], ps, key, keep);
      FilterNoDups(ps, (m: Path) => key(m) == keys[0] && keep(m));
      NoDupsConcat(here, rest);
    }
  }

  /** In a store that keeps its claims under their ids, a path is determined
      by its claim's id. */
  lemma PathByClaimId(g: Graph, order: seq<Id>, m1: Path, m2: Path)
    requires ClaimsKeyed(g) && m1 in Paths(g, order) && m2 in Paths(g, order)
    ensures m1.claim.id == m2.claim.id ==> m1 == m2
  {
    var k1 :| k1 in order && PathAt(g, k1) == Some(m1);
    var k2 :| k2 in order && PathAt(g, k2) == Some(m2);
  }

  /** With each claim enumerated once, the paths are distinct. */
  lemma {:induction false} PathsNoDups(g: Graph, order: seq<Id>)
    requires ClaimsKeyed(g) && NoDups(order)
    ensures NoDups(Paths(g, order))
  {
    if order != [] {
      assert NoDups(order[1..]) by {
        forall i, j | 0 <= i < j < |order[1..]|
          ensures order[1..][i] != order[1..][j]
        {
          assert order[1..][i] == order[i + 1] && order[1..][j] == order[j + 1];
        }
      }
      PathsNoDups(g, order[1..]);
      var rest := Paths(g, order[1..]);
      match PathAt(g, order[0])
      case Some(m) =>
        forall m2 | m2 in rest
          ensures m2 != m
        {
          var k :| k in order[1..] && PathAt(g, k) == Some(m2);
          var j :| 0 <= j < |order[1..]| && order[1..][j] == k;
          assert order[j + 1] == k;
        }
        NoDupsConcat([m], rest);
      case None =>
    }
  }

  /** One entry of `claimEdges`. */
  datatype ClaimEdge = ClaimEdge(source: Id, target: Id, id: Id, relationshipType: string, status: Status, score: int)

  /** The edge record of a path; a claim without a score counts 0
      (`coalesce(c.score, 0)`). */
  function EdgeOf(m: Path): (e: ClaimEdge)
    ensures e.source == m.person.id && e.target == m.event.id && e.id == m.claim.id
    ensures e.status == m.claim.status && e.relationshipType == m.claim.relationshipType
    ensures m.claim.score.Some? ==> e.score == m.claim.score.value
    ensures m.claim.score.None? ==> e.score == 0
  {
    ClaimEdge(m.person.id, m.event.id, m.claim.id, m.claim.relationshipType, m.claim.status, m.claim.score.GetOr(0))
  }

  /** The edge records of distinct paths of a store that keeps its claims
      under their ids carry distinct claim ids. */
  lemma EdgeIdsDistinct(g: Graph, order: seq<Id>, third: seq<Path>)
    requires ClaimsKeyed(g) && NoDups(third)
    requires forall m :: m in third ==> m in Paths(g, order)
    ensures var edges := MapSeq(third, EdgeOf);
      forall i, j :: 0 <= i < j < |edges| ==> edges[i].id != edges[j].id
  {
    var edges := MapSeq(third, EdgeOf);
    forall i, j | 0 <= i < j < |edges|
      ensures edges[i].id != edges[j].id
    {
      assert third[i] in third && third[j] in third && third[i] != third[j];
      PathByClaimId(g, order, third[i], third[j]);
    }
  }

  // ------------------------------------------------ person neighbourhood

  datatype PersonGraphRow = PersonGraphRow(center: Person, events: seq<Event>, people: seq<Person>, claimEdges: seq<ClaimEdge>)

  /** The events of the center's qualifying claims, distinct, cut to `limitEvents`. */
  function CenterEvents(ps: seq<Path>, personId: Id, includePending: bool, limitEvents: nat): seq<Event> {
    var first := Filter(ps, (m: Path) => m.claim.personId == personId && Qualifies(m.claim, includePending));
    Take(Distinct(MapSeq(first, (m: Path) => m.event)), limitEvents)
  }

  /** The qualifying claims of other people on `events`. */
  function CoParticipation(ps: seq<Path>, personId: Id, includePending: bool, events: seq<Event>): seq<Path> {
    Unwind(events, ps, (m: Path) => m.event, (m: Path) => m.claim.personId != personId && Qualifies(m.claim, includePending))
  }

  /** The distinct people of `second`, cut to `limitPeople`. */
  function CoPeople(second: seq<Path>, limitPeople: nat): seq<Person> {
    Take(Distinct(MapSeq(second, (m: Path) => m.person)), limitPeople)
  }

  /** The claims drawn as edges: on one of `events`, by the center whatever
      its status, or by one of `people` and qualifying
      (`s = center OR s IN people AND (…)`: AND binds tighter than OR). */
  function CenterEdgePaths(ps: seq<Path>, personId: Id, includePending: bool, events: seq<Event>, people: seq<Person>): seq<Path> {
    Unwind(events, ps, (m: Path) => m.event,
           (m: Path) => m.claim.personId == personId || (m.person in people && Qualifies(m.claim, includePending)))
  }

  /** CYPHER_PERSON_NEIGHBORHOOD_GRAPH. No row when the center does not
      exist, or when no other person has a qualifying claim on the collected
      events (the `WITH … collect` after an empty match yields no row). */
  function PersonNeighborhoodGraph(g: Graph, order: seq<Id>, personId: Id, includePending: bool,
                                   limitEvents: nat, limitPeople: nat): Option<PersonGraphRow>
  {
    if personId !in g.persons then None
    else
      var ps := Paths(g, order);
      var events := CenterEvents(ps, personId, includePending, limitEvents);
      var second := CoParticipation(ps, personId, includePending, events);
      if second == [] then None
      else
        var people := CoPeople(second, limitPeople);
        var edges := MapSeq(CenterEdgePaths(ps, personId, includePending, events, people), EdgeOf);
        Some(PersonGraphRow(g.persons[personId], events, people, edges))
  }

  /** `collect(DISTINCT e)[0..limitEvents]` over the center's qualifying
      claims: distinct, at most `limitEvents`, each reached by a qualifying
      claim of the center, and every such event present unless the limit was
      reached. */
  lemma {:induction false} CenterEventsSpec(ps: seq<Path>, personId: Id, includePending: bool, limitEvents: nat)
    ensures var events := CenterEvents(ps, personId, includePending, limitEvents);
      NoDups(events) && |events| <= limitEvents &&
      (forall e :: e in events ==>
         exists m :: m in ps && m.claim.personId == personId && Qualifies(m.claim, includePending) && m.event == e) &&
      (forall m :: m in ps && m.claim.personId == personId && Qualifies(m.claim, includePending) ==>
         m.event in events || |events| == limitEvents)
  {
    var first := Filter(ps, (m: Path) => m.claim.personId == personId && Qualifies(m.claim, includePending));
    var events := CenterEvents(ps, personId, includePending, limitEvents);
    CollectDistinct(first, (m: Path) => m.event, limitEvents);
    forall e | e in events
      ensures exists m :: m in ps && m.claim.personId == personId && Qualifies(m.claim, includePending) && m.event == e
    {
      var m :| m in first && m.event == e;
    }
  }

  /** `collect(DISTINCT p)[0..limitPeople]` over the other people's
      qualifying claims on `events`: distinct, at most `limitPeople`, each
      with such a claim, and every such person present unless the limit was
      reached. */
  lemma {:induction false} CoPeopleSpec(ps: seq<Path>, personId: Id, includePending: bool, events: seq<Event>, limitPeople: nat)
    ensures var people := CoPeople(CoParticipation(ps, personId, includePending, events), limitPeople);
      NoDups(people) && |people| <= limitPeople &&
      (forall p :: p in people ==>
         exists m :: m in ps && m.person == p && m.claim.personId != personId &&
                     Qualifies(m.claim, includePending) && m.event in events) &&
      (forall m :: m in ps && m.event in events && m.claim.personId != personId && Qualifies(m.claim, includePending) ==>
         m.person in people || |people| == limitPeople)
  {
    var second := CoParticipation(ps, personId, includePending, events);
    var people := CoPeople(second, limitPeople);
    CollectDistinct(second, (m: Path) => m.person, limitPeople);
    forall p | p in people
      ensures exists m :: m in ps && m.person == p && m.claim.personId != personId &&
                          Qualifies(m.claim, includePending) && m.event in events
    {
      var m :| m in second && m.person == p;
    }
  }

  /** A path of the store is stored under its person's key and its event's key. */
  lemma PathKeys(g: Graph, order: seq<Id>, m: Path)
    requires Keyed(g) && m in Paths(g, order)
    ensures m.person.id == m.claim.personId && m.event.id == m.claim.eventId
    ensures m.claim.personId in g.persons && m.person == g.persons[m.claim.personId]
    ensures m.claim.eventId in g.events && m.event == g.events[m.claim.eventId]
  {
    var k :| k in order && PathAt(g, k) == Some(m);
  }

  /** The row's center, events and people: the events as `CenterEventsSpec`
      and the people as `CoPeopleSpec` describe them, and the people never
      include the center. */
  lemma {:induction false} PersonGraphNodes(g: Graph, order: seq<Id>, personId: Id, includePending: bool,
                                            limitEvents: nat, limitPeople: nat)
    requires Keyed(g)
    ensures var r := PersonNeighborhoodGraph(g, order, personId, includePending, limitEvents, limitPeople);
      var ps := Paths(g, order);
      r.Some? ==>
        r.value.center == g.persons[personId] &&
        r.value.events == CenterEvents(ps, personId, includePending, limitEvents) &&
        r.value.people == CoPeople(CoParticipation(ps, personId, includePending, r.value.events), limitPeople) &&
        forall p :: p in r.value.people ==> p.id != personId
  {
    var r := PersonNeighborhoodGraph(g, order, personId, includePending, limitEvents, limitPeople);
    if r.Some? {
      var ps := Paths(g, order);
      CoPeopleSpec(ps, personId, includePending, r.value.events, limitPeople);
      forall p | p in r.value.people
        ensures p.id != personId
      {
        var m :| m in ps && m.person == p && m.claim.personId != personId &&
                 Qualifies(m.claim, includePending) && m.event in r.value.events;
        PathKeys(g, order, m);
      }
    }
  }

  /** Every edge joins one of the events to the center or to one of the
      people, and only the center's own claims escape the status filter. */
  lemma {:induction false} PersonGraphEdges(g: Graph, order: seq<Id>, personId: Id, includePending: bool,
                                            limitEvents: nat, limitPeople: nat)
    requires Keyed(g)
    ensures var r := PersonNeighborhoodGraph(g, order, personId, includePending, limitEvents, limitPeople);
      r.Some? ==>
        forall ed :: ed in r.value.claimEdges ==>
          (exists e :: e in r.value.events && e.id == ed.target) &&
          (ed.source == personId || exists p :: p in r.value.people && p.id == ed.source) &&
          (ed.source != personId ==> includePending || ed.status == Approved)
  {
    var r := PersonNeighborhoodGraph(g, order, personId, includePending, limitEvents, limitPeople);
    if r.Some? {
      var ps := Paths(g, order);
      var third := CenterEdgePaths(ps, personId, includePending, r.value.events, r.value.people);
      assert r.value.claimEdges == MapSeq(third, EdgeOf);
      forall ed | ed in r.value.claimEdges
        ensures exists e :: e in r.value.events && e.id == ed.target
        ensures ed.source == personId || exists p :: p in r.value.people && p.id == ed.source
        ensures ed.source != personId ==> includePending || ed.status == Approved
      {
        MapSeqIn(third, EdgeOf, ed);
        var m :| m in third && EdgeOf(m) == ed;
        PathKeys(g, order, m);
      }
    }
  }

  /** Every claim of the center on one of the events becomes an edge, whatever
      its status: with `includePending` false a PENDING claim of the center
      still shows, although it could not have selected the event. */
  lemma {:induction false} CenterEdgesUnfiltered(g: Graph, order: seq<Id>, personId: Id, includePending: bool,
                                                 limitEvents: nat, limitPeople: nat)
    ensures var r := PersonNeighborhoodGraph(g, order, personId, includePending, limitEvents, limitPeople);
      r.Some? ==>
        forall m :: m in Paths(g, order) && m.claim.personId == personId && m.event in r.value.events ==>
          EdgeOf(m) in r.value.claimEdges
  {
    var r := PersonNeighborhoodGraph(g, order, personId, includePending, limitEvents, limitPeople);
    if r.Some? {
      var ps := Paths(g, order);
      var third := CenterEdgePaths(ps, personId, includePending, r.value.events, r.value.people);
      assert r.value.claimEdges == MapSeq(third, EdgeOf);
      forall m | m in ps && m.claim.personId == personId && m.event in r.value.events
        ensures EdgeOf(m) in r.value.claimEdges
      {
        MapSeqIn(third, EdgeOf, EdgeOf(m));
      }
    }
  }

  /** Every qualifying claim of one of the people on one of the events is an
      edge. */
  lemma {:induction false} PersonGraphEdgesComplete(g: Graph, order: seq<Id>, personId: Id, includePending: bool,
                                                    limitEvents: nat, limitPeople: nat)
    ensures var r := PersonNeighborhoodGraph(g, order, personId, includePending, limitEvents, limitPeople);
      r.Some? ==>
        forall m :: m in Paths(g, order) && m.person in r.value.people && Qualifies(m.claim, includePending) &&
                    m.event in r.value.events ==>
          EdgeOf(m) in r.value.claimEdges
  {
    var r := PersonNeighborhoodGraph(g, order, personId, includePending, limitEvents, limitPeople);
    if r.Some? {
      var ps := Paths(g, order);
      var third := CenterEdgePaths(ps, personId, includePending, r.value.events, r.value.people);
      assert r.value.claimEdges == MapSeq(third, EdgeOf);
      forall m | m in ps && m.person in r.value.people && Qualifies(m.claim, includePending) && m.event in r.value.events
        ensures EdgeOf(m) in r.value.claimEdges
      {
        MapSeqIn(third, EdgeOf, EdgeOf(m));
      }
    }
  }

  /** One edge per matched claim: when each claim is enumerated once, no two
      edges carry the same claim id. */
  lemma {:induction false} PersonGraphOneEdgePerClaim(g: Graph, order: seq<Id>, personId: Id, includePending: bool,
                                                      limitEvents: nat, limitPeople: nat)
    requires ClaimsKeyed(g) && NoDups(order)
    ensures var r := PersonNeighborhoodGraph(g, order, personId, includePending, limitEvents, limitPeople);
      r.Some? ==>
        forall i, j :: 0 <= i < j < |r.value.claimEdges| ==> r.value.claimEdges[i].id != r.value.claimEdges[j].id
  {
    var r := PersonNeighborhoodGraph(g, order, personId, includePending, limitEvents, limitPeople);
    if r.Some? {
      var ps := Paths(g, order);
      var third := CenterEdgePaths(ps, personId, includePending, r.value.events, r.value.people);
      assert r.value.claimEdges == MapSeq(third, EdgeOf);
      CenterEventsSpec(ps, personId, includePending, limitEvents);
      PathsNoDups(g, order);
      UnwindNoDups(r.value.events, ps, (m: Path) => m.event,
                   (m: Path) => m.claim.personId == personId || (m.person in r.value.people && Qualifies(m.claim, includePending)));
      EdgeIdsDistinct(g, order, third);
    }
  }

  /** The query returns a row exactly when the center exists and some other
      person has a qualifying claim on one of the center's collected events. */
  lemma {:induction false} PersonGraphRowExists(g: Graph, order: seq<Id>, personId: Id, includePending: bool,
                                                limitEvents: nat, limitPeople: nat)
    ensures var ps := Paths(g, order);
      var events := CenterEvents(ps, personId, includePending, limitEvents);
      PersonNeighborhoodGraph(g, order, personId, includePending, limitEvents, limitPeople).Some? <==>
        personId in g.persons &&
        exists m :: m in ps && m.event in events && m.claim.personId != personId && Qualifies(m.claim, includePending)
  {
    var ps := Paths(g, order);
    var events := CenterEvents(ps, personId, includePending, limitEvents);
    var second := CoParticipation(ps, personId, includePending, events);
    assert PersonNeighborhoodGraph(g, order, personId, includePending, limitEvents, limitPeople).Some? <==>
      personId in g.persons && second != [];
    NonEmptyUnwind(events, ps, (m: Path) => m.event,
                   (m: Path) => m.claim.personId != personId && Qualifies(m.claim, includePending));
  }

  /** No row when the center has no qualifying claim. */
  lemma {:induction false} PersonGraphNoClaimNoRow(g: Graph, order: seq<Id>, personId: Id, includePending: bool,
                                                   limitEvents: nat, limitPeople: nat)
    requires forall m :: m in Paths(g, order) && m.claim.personId == personId ==> !Qualifies(m.claim, includePending)
    ensures PersonNeighborhoodGraph(g, order, personId, includePending, limitEvents, limitPeople).None?
  {
    var ps := Paths(g, order);
    var first := Filter(ps, (m: Path) => m.claim.personId == personId && Qualifies(m.claim, includePending));
    assert first == [];
    var events := CenterEvents(ps, personId, includePending, limitEvents);
    assert |Distinct(MapSeq(first, (m: Path) => m.event))| == 0;
    assert events == [];
    assert CoParticipation(ps, personId, includePending, events) == [];
  }

  // ------------------------------------------------- event neighbourhood

  datatype EventGraphRow = EventGraphRow(center: Event, events: seq<Event>, people: seq<Person>, claimEdges: seq<ClaimEdge>)

  /** The people of the center event's qualifying claims, distinct, cut to `limitPeople`. */
  function Participants(ps: seq<Path>, eventId: Id, includePending: bool, limitPeople: nat): seq<Person> {
    var first := Filter(ps, (m: Path) => m.claim.eventId == eventId && Qualifies(m.claim, includePending));
    Take(Distinct(MapSeq(first, (m: Path) => m.person)), limitPeople)
  }

  /** The qualifying claims of `people` on events other than the center. */
  function OtherParticipation(ps: seq<Path>, eventId: Id, includePending: bool, people: seq<Person>): seq<Path> {
    Unwind(people, ps, (m: Path) => m.person, (m: Path) => m.claim.eventId != eventId && Qualifies(m.claim, includePending))
  }

  /** The distinct events of `second`, cut to `limitEvents`. */
  function OtherEvents(second: seq<Path>, limitEvents: nat): seq<Event> {
    Take(Distinct(MapSeq(second, (m: Path) => m.event)), limitEvents)
  }

  /** The claims drawn as edges: by one of `people`, qualifying, on one of
      `allEvents` (the collected events followed by the center). */
  function EventEdgePaths(ps: seq<Path>, includePending: bool, allEvents: seq<Event>, people: seq<Person>): seq<Path> {
    Unwind(allEvents, ps, (m: Path) => m.event, (m: Path) => m.person in people && Qualifies(m.claim, includePending))
  }

  /** CYPHER_EVENT_NEIGHBORHOOD_GRAPH. No row when the center does not
      exist, or when none of its collected people has a qualifying claim on
      another event. */
  function EventNeighborhoodGraph(g: Graph, order: seq<Id>, eventId: Id, includePending: bool,
                                  limitPeople: nat, limitEvents: nat): Option<EventGraphRow>
  {
    if eventId !in g.events then None
    else
      var ps := Paths(g, order);
      var center := g.events[eventId];
      var people := Participants(ps, eventId, includePending, limitPeople);
      var second := OtherParticipation(ps, eventId, includePending, people);
      if second == [] then None
      else
        var events := OtherEvents(second, limitEvents);
        var edges := MapSeq(EventEdgePaths(ps, includePending, events + [center], people), EdgeOf);
        Some(EventGraphRow(center, events, people, edges))
  }

  /** `collect(DISTINCT p)[0..limitPeople]` over the center event's
      qualifying claims: distinct, at most `limitPeople`, each with a
      qualifying claim on the center, and every such person present unless
      the limit was reached. */
  lemma {:induction false} ParticipantsSpec(ps: seq<Path>, eventId: Id, includePending: bool, limitPeople: nat)
    ensures var people := Participants(ps, eventId, includePending, limitPeople);
      NoDups(people) && |people| <= limitPeople &&
      (forall p :: p in people ==>
         exists m :: m in ps && m.claim.eventId == eventId && Qualifies(m.claim, includePending) && m.person == p) &&
      (forall m :: m in ps && m.claim.eventId == eventId && Qualifies(m.claim, includePending) ==>
         m.person in people || |people| == limitPeople)
  {
    var first := Filter(ps, (m: Path) => m.claim.eventId == eventId && Qualifies(m.claim, includePending));
    var people := Participants(ps, eventId, includePending, limitPeople);
    CollectDistinct(first, (m: Path) => m.person, limitPeople);
    forall p | p in people
      ensures exists m :: m in ps && m.claim.eventId == eventId && Qualifies(m.claim, includePending) && m.person == p
    {
      var m :| m in first && m.person == p;
    }
  }

  /** `collect(DISTINCT e2)[0..limitEvents]` over the people's qualifying
      claims on other events: distinct, at most `limitEvents`, each reached by
      such a claim, and every such event present unless the limit was
      reached. */
  lemma {:induction false} OtherEventsSpec(ps: seq<Path>, eventId: Id, includePending: bool, people: seq<Person>, limitEvents: nat)
    ensures var events := OtherEvents(OtherParticipation(ps, eventId, includePending, people), limitEvents);
      NoDups(events) && |events| <= limitEvents &&
      (forall e :: e in events ==>
         exists m :: m in ps && m.person in people && m.claim.eventId != eventId &&
                     Qualifies(m.claim, includePending) && m.event == e) &&
      (forall m :: m in ps && m.person in people && m.claim.eventId != eventId && Qualifies(m.claim, includePending) ==>
         m.event in events || |events| == limitEvents)
  {
    var second := OtherParticipation(ps, eventId, includePending, people);
    var events := OtherEvents(second, limitEvents);
    CollectDistinct(second, (m: Path) => m.event, limitEvents);
    forall e | e in events
      ensures exists m :: m in ps && m.person in people && m.claim.eventId != eventId &&
                          Qualifies(m.claim, includePending) && m.event == e
    {
      var m :| m in second && m.event == e;
    }
  }

  /** The row's center, people and events: the people as `ParticipantsSpec`
      and the events as `OtherEventsSpec` describe them, and the events never
      include the center. */
  lemma {:induction false} EventGraphNodes(g: Graph, order: seq<Id>, eventId: Id, includePending: bool,
                                           limitPeople: nat, limitEvents: nat)
    requires Keyed(g)
    ensures var r := EventNeighborhoodGraph(g, order, eventId, includePending, limitPeople, limitEvents);
      var ps := Paths(g, order);
      r.Some? ==>
        r.value.center == g.events[eventId] &&
        r.value.people == Participants(ps, eventId, includePending, limitPeople) &&
        r.value.events == OtherEvents(OtherParticipation(ps, eventId, includePending, r.value.people), limitEvents) &&
        forall e :: e in r.value.events ==> e.id != eventId
  {
    var r := EventNeighborhoodGraph(g, order, eventId, includePending, limitPeople, limitEvents);
    if r.Some? {
      var ps := Paths(g, order);
      OtherEventsSpec(ps, eventId, includePending, r.value.people, limitEvents);
      forall e | e in r.value.events
        ensures e.id != eventId
      {
        var m :| m in ps && m.person in r.value.people && m.claim.eventId != eventId &&
                 Qualifies(m.claim, includePending) && m.event == e;
        PathKeys(g, order, m);
      }
    }
  }

  /** Every edge runs from one of the people to the center or to one of the
      events, and passes the status filter. */
  lemma {:induction false} EventGraphEdges(g: Graph, order: seq<Id>, eventId: Id, includePending: bool,
                                           limitPeople: nat, limitEvents: nat)
    requires Keyed(g)
    ensures var r := EventNeighborhoodGraph(g, order, eventId, includePending, limitPeople, limitEvents);
      r.Some? ==>
        forall ed :: ed in r.value.claimEdges ==>
          (exists p :: p in r.value.people && p.id == ed.source) &&
          (ed.target == eventId || exists e :: e in r.value.events && e.id == ed.target) &&
          (includePending || ed.status == Approved)
  {
    var r := EventNeighborhoodGraph(g, order, eventId, includePending, limitPeople, limitEvents);
    if r.Some? {
      var ps := Paths(g, order);
      var all := r.value.events + [r.value.center];
      var third := EventEdgePaths(ps, includePending, all, r.value.people);
      assert r.value.claimEdges == MapSeq(third, EdgeOf);
      forall ed | ed in r.value.claimEdges
        ensures exists p :: p in r.value.people && p.id == ed.source
        ensures ed.target == eventId || exists e :: e in r.value.events && e.id == ed.target
        ensures includePending || ed.status == Approved
      {
        MapSeqIn(third, EdgeOf, ed);
        var m :| m in third && EdgeOf(m) == ed;
        PathKeys(g, order, m);
        assert m.event in all;
      }
    }
  }

  /** Every qualifying claim of one of the people on the center or on one of
      the events is an edge. */
  lemma {:induction false} EventGraphEdgesComplete(g: Graph, order: seq<Id>, eventId: Id, includePending: bool,
                                                   limitPeople: nat, limitEvents: nat)
    requires Keyed(g)
    ensures var r := EventNeighborhoodGraph(g, order, eventId, includePending, limitPeople, limitEvents);
      r.Some? ==>
        forall m :: m in Paths(g, order) && m.person in r.value.people && Qualifies(m.claim, includePending) &&
                    (m.event in r.value.events || m.claim.eventId == eventId) ==>
          EdgeOf(m) in r.value.claimEdges
  {
    var r := EventNeighborhoodGraph(g, order, eventId, includePending, limitPeople, limitEvents);
    if r.Some? {
      var ps := Paths(g, order);
      var all := r.value.events + [r.value.center];
      var third := EventEdgePaths(ps, includePending, all, r.value.people);
      assert r.value.claimEdges == MapSeq(third, EdgeOf);
      forall m | m in ps && m.person in r.value.people && Qualifies(m.claim, includePending) &&
                 (m.event in r.value.events || m.claim.eventId == eventId)
        ensures EdgeOf(m) in r.value.claimEdges
      {
        PathKeys(g, order, m);
        assert m.event in all;
        MapSeqIn(third, EdgeOf, EdgeOf(m));
      }
    }
  }

  /** One edge per matched claim: when each claim is enumerated once, no two
      edges carry the same claim id. */
  lemma {:induction false} EventGraphOneEdgePerClaim(g: Graph, order: seq<Id>, eventId: Id, includePending: bool,
                                                     limitPeople: nat, limitEvents: nat)
    requires Keyed(g) && ClaimsKeyed(g) && NoDups(order)
    ensures var r := EventNeighborhoodGraph(g, order, eventId, includePending, limitPeople, limitEvents);
      r.Some? ==>
        forall i, j :: 0 <= i < j < |r.value.claimEdges| ==> r.value.claimEdges[i].id != r.value.claimEdges[j].id
  {
    var r := EventNeighborhoodGraph(g, order, eventId, includePending, limitPeople, limitEvents);
    if r.Some? {
      var ps := Paths(g, order);
      var all := r.value.events + [r.value.center];
      var third := EventEdgePaths(ps, includePending, all, r.value.people);
      assert r.value.claimEdges == MapSeq(third, EdgeOf);
      EventGraphNodes(g, order, eventId, includePending, limitPeople, limitEvents);
      OtherEventsSpec(ps, eventId, includePending, r.value.people, limitEvents);
      assert r.value.center.id == eventId;
      NoDupsConcat(r.value.events, [r.value.center]);
      PathsNoDups(g, order);
      UnwindNoDups(all, ps, (m: Path) => m.event, (m: Path) => m.person in r.value.people && Qualifies(m.claim, includePending));
      EdgeIdsDistinct(g, order, third);
    }
  }

  /** The query returns a row exactly when the center exists and one of its
      collected people has a qualifying claim on another event; so an event
      whose participants took part in nothing else has no row. */
  lemma {:induction false} EventGraphRowExists(g: Graph, order: seq<Id>, eventId: Id, includePending: bool,
                                               limitPeople: nat, limitEvents: nat)
    ensures var ps := Paths(g, order);
      var people := Participants(ps, eventId, includePending, limitPeople);
      EventNeighborhoodGraph(g, order, eventId, includePending, limitPeople, limitEvents).Some? <==>
        eventId in g.events &&
        exists m :: m in ps && m.person in people && m.claim.eventId != eventId && Qualifies(m.claim, includePending)
  {
    var ps := Paths(g, order);
    var people := Participants(ps, eventId, includePending, limitPeople);
    var second := OtherParticipation(ps, eventId, includePending, people);
    assert EventNeighborhoodGraph(g, order, eventId, includePending, limitPeople, limitEvents).Some? <==>
      eventId in g.events && second != [];
    NonEmptyUnwind(people, ps, (m: Path) => m.person,
                   (m: Path) => m.claim.eventId != eventId && Qualifies(m.claim, includePending));
  }
}
