/** The three person queries of the people routes: a person's filtered
    neighbourhood (events by date, with the co-participants of those events),
    the people a person shares events with (ranked by the number of shared
    events and the summed claim scores), and the claims that explain why two
    people are connected (with a preview of each claim's evidence).

    Queries read a `Graph` snapshot and `order`, the stored claims' ids in
    the order the database enumerates them, as in `GraphCypher`. */
module PeopleCypher {
  import opened Common
  import opened Store
  import opened GraphCypher

  // ------------------------------------------------ filtered neighbourhood

  /** The optional filters of the neighbourhood query; an absent filter is
      passed as `null` and admits every claim. */
  datatype Filters = Filters(includePending: bool, minScore: Option<real>, startYear: Option<int>, endYear: Option<int>)

  /** The query's WHERE clause. A claim without a score fails a given
      `minScore` (`null >= x` is not true). */
  predicate Admits(f: Filters, m: Path) {
    Qualifies(m.claim, f.includePending) &&
    (f.minScore.None? || (m.claim.score.Some? && m.claim.score.value as real >= f.minScore.value)) &&
    (f.startYear.None? || m.event.startDate >= JanFirst(f.startYear.value)) &&
    (f.endYear.None? || m.event.startDate < JanFirst(f.endYear.value + 1))
  }

  /** The date bounds select whole calendar years: `startYear` keeps events
      of that year or later, `endYear` events of that year or earlier. */
  lemma AdmitsByYear(f: Filters, m: Path)
    ensures Admits(f, m) <==>
      Qualifies(m.claim, f.includePending) &&
      (f.minScore.None? || (m.claim.score.Some? && m.claim.score.value as real >= f.minScore.value)) &&
      (f.startYear.None? || YearOf(m.event.startDate) >= f.startYear.value) &&
      (f.endYear.None? || YearOf(m.event.startDate) <= f.endYear.value)
  {
    if f.startYear.Some? {
      YearWindow(m.event.startDate, f.startYear.value);
    }
    if f.endYear.Some? {
      YearWindow(m.event.startDate, f.endYear.value);
    }
  }

  /** `ORDER BY e.startDate DESC`. */
  function ByDate(m: Path): Rank {
    Rank(m.event.startDate, 0)
  }

  /** The center's admitted claims, latest event first, cut to `limitEvents`. */
  function NeighborhoodRows(ps: seq<Path>, personId: Id, f: Filters, limitEvents: nat): seq<Path> {
    Take(SortDesc(Filter(ps, (m: Path) => m.claim.personId == personId && Admits(f, m)), ByDate), limitEvents)
  }

  /** The OPTIONAL MATCH: for each row in turn, the PERSON_EVENT claims of
      other people on its event, whatever their status. */
  function CoParticipants(ps: seq<Path>, personId: Id, rows: seq<Path>): seq<Path> {
    Unwind(MapSeq(rows, (m: Path) => m.event), ps, (m: Path) => m.event,
           (m: Path) => m.claim.claimType == "PERSON_EVENT" && m.claim.personId != personId)
  }

  datatype NeighborhoodRow = NeighborhoodRow(person: Person, events: seq<Event>, people: seq<Person>)

  /** CYPHER_PERSON_NEIGHBORHOOD. No row when the person does not exist or
      no claim of theirs is admitted (the aggregation then sees no row). */
  function PersonNeighborhood(g: Graph, order: seq<Id>, personId: Id, f: Filters, limitEvents: nat): Option<NeighborhoodRow> {
    if personId !in g.persons then None
    else
      var ps := Paths(g, order);
      var rows := NeighborhoodRows(ps, personId, f, limitEvents);
      if rows == [] then None
      else
        var events := Distinct(MapSeq(rows, (m: Path) => m.event));
        var people := Distinct(MapSeq(CoParticipants(ps, personId, rows), (m: Path) => m.person));
        Some(NeighborhoodRow(g.persons[personId], events, people))
  }

  /** The selected rows: at most `limitEvents`, each an admitted claim of
      the center, latest first, and an admitted claim left out is on an
      event no later than any selected one. */
  lemma {:induction false} NeighborhoodRowsSpec(ps: seq<Path>, personId: Id, f: Filters, limitEvents: nat)
    ensures var rows := NeighborhoodRows(ps, personId, f, limitEvents);
      |rows| <= limitEvents &&
      SortedDesc(rows, ByDate) &&
      (forall m :: m in rows ==> m in ps && m.claim.personId == personId && Admits(f, m)) &&
      (forall m :: m in ps && m.claim.personId == personId && Admits(f, m) && m !in rows ==>
         |rows| == limitEvents && forall y :: y in rows ==> m.event.startDate <= y.event.startDate)
  {
    var first := Filter(ps, (m: Path) => m.claim.personId == personId && Admits(f, m));
    var sorted := SortDesc(first, ByDate);
    var rows := NeighborhoodRows(ps, personId, f, limitEvents);
    assert rows == Take(sorted, limitEvents);
    forall m | m in rows
      ensures m in ps && m.claim.personId == personId && Admits(f, m)
    {
      assert m in multiset(sorted);
    }
    forall m | m in ps && m.claim.personId == personId && Admits(f, m) && m !in rows
      ensures |rows| == limitEvents && forall y :: y in rows ==> m.event.startDate <= y.event.startDate
    {
      assert m in multiset(sorted);
      TakeIn(sorted, limitEvents, m);
      SortTakeTop(first, ByDate, limitEvents, m);
    }
  }

  /** Distinct keeps a descending order. */
  lemma {:induction false} DistinctSorted<T>(s: seq<T>, key: T -> Rank)
    requires SortedDesc(s, key)
    ensures SortedDesc(Distinct(s), key)
  {
    if s != [] {
      var init := s[..|s| - 1];
      var last := s[|s| - 1];
      DistinctSorted(init, key);
      var d := Distinct(init);
      forall i | 0 <= i < |d|
        ensures !Above(key(last), key(d[i]))
      {
        var k :| 0 <= k < |init| && init[k] == d[i];
      }
    }
  }

  /** The neighbourhood's events: distinct, latest first, at most
      `limitEvents`, each on an admitted claim of the person; an admitted
      claim's event is listed unless it is no later than every listed one. */
  lemma {:induction false} NeighborhoodEvents(g: Graph, order: seq<Id>, personId: Id, f: Filters, limitEvents: nat)
    ensures var r := PersonNeighborhood(g, order, personId, f, limitEvents);
      var ps := Paths(g, order);
      r.Some? ==>
        var events := r.value.events;
        NoDups(events) && |events| <= limitEvents &&
        SortedDesc(events, (e: Event) => Rank(e.startDate, 0)) &&
        (forall e :: e in events ==> exists m :: m in ps && m.claim.personId == personId && Admits(f, m) && m.event == e) &&
        (forall m :: m in ps && m.claim.personId == personId && Admits(f, m) ==>
           m.event in events || forall e :: e in events ==> m.event.startDate <= e.startDate)
  {
    var r := PersonNeighborhood(g, order, personId, f, limitEvents);
    if r.Some? {
      var ps := Paths(g, order);
      var rows := NeighborhoodRows(ps, personId, f, limitEvents);
      var dates := MapSeq(rows, (m: Path) => m.event);
      var events := r.value.events;
      assert events == Distinct(dates);
      NeighborhoodRowsSpec(ps, personId, f, limitEvents);
      DistinctSorted(dates, (e: Event) => Rank(e.startDate, 0));
      forall e | e in events
        ensures exists m :: m in ps && m.claim.personId == personId && Admits(f, m) && m.event == e
      {
        MapSeqIn(rows, (m: Path) => m.event, e);
      }
      forall m | m in ps && m.claim.personId == personId && Admits(f, m)
        ensures m.event in events || forall e :: e in events ==> m.event.startDate <= e.startDate
      {
        if m in rows {
          MapSeqIn(rows, (m: Path) => m.event, m.event);
        } else {
          forall e | e in events
            ensures m.event.startDate <= e.startDate
          {
            MapSeqIn(rows, (m: Path) => m.event, e);
          }
        }
      }
    }
  }

  /** `collect(DISTINCT op)` over the co-participant rows: distinct, and
      exactly the other people with a PERSON_EVENT claim on a row's event. */
  lemma {:induction false} CoParticipantsSpec(ps: seq<Path>, personId: Id, rows: seq<Path>, p: Person)
    ensures var people := Distinct(MapSeq(CoParticipants(ps, personId, rows), (m: Path) => m.person));
      NoDups(people) &&
      (p in people <==>
         exists m :: m in ps && m.person == p && m.event in MapSeq(rows, (m: Path) => m.event) &&
                     m.claim.claimType == "PERSON_EVENT" && m.claim.personId != personId)
  {
    var co := CoParticipants(ps, personId, rows);
    MapSeqIn(co, (m: Path) => m.person, p);
  }

  /** The neighbourhood's people are exactly the other people with a
      PERSON_EVENT claim, of any status, on one of the listed events. */
  lemma {:induction false} NeighborhoodPeople(g: Graph, order: seq<Id>, personId: Id, f: Filters, limitEvents: nat)
    ensures var r := PersonNeighborhood(g, order, personId, f, limitEvents);
      var ps := Paths(g, order);
      r.Some? ==>
        NoDups(r.value.people) &&
        forall p :: p in r.value.people <==>
          exists m :: m in ps && m.person == p && m.event in r.value.events &&
                      m.claim.claimType == "PERSON_EVENT" && m.claim.personId != personId
  {
    var r := PersonNeighborhood(g, order, personId, f, limitEvents);
    if r.Some? {
      var ps := Paths(g, order);
      var rows := NeighborhoodRows(ps, personId, f, limitEvents);
      var keys := MapSeq(rows, (m: Path) => m.event);
      assert r.value.events == Distinct(keys);
      assert r.value.people == Distinct(MapSeq(CoParticipants(ps, personId, rows), (m: Path) => m.person));
      assert forall e :: e in r.value.events <==> e in keys;
      forall p
        ensures NoDups(r.value.people)
        ensures p in r.value.people <==>
          exists m :: m in ps && m.person == p && m.event in r.value.events &&
                      m.claim.claimType == "PERSON_EVENT" && m.claim.personId != personId
      {
        CoParticipantsSpec(ps, personId, rows, p);
      }
    }
  }

  /** A row comes back exactly when the person exists, some claim of theirs
      is admitted, and at least one event may be listed. */
  lemma {:induction false} NeighborhoodRowExists(g: Graph, order: seq<Id>, personId: Id, f: Filters, limitEvents: nat)
    ensures PersonNeighborhood(g, order, personId, f, limitEvents).Some? <==>
      personId in g.persons && limitEvents > 0 &&
      exists m :: m in Paths(g, order) && m.claim.personId == personId && Admits(f, m)
  {
    var ps := Paths(g, order);
    var first := Filter(ps, (m: Path) => m.claim.personId == personId && Admits(f, m));
    var rows := NeighborhoodRows(ps, personId, f, limitEvents);
    assert rows == Take(SortDesc(first, ByDate), limitEvents);
    if first != [] {
      assert first[0] in first;
    }
  }

  // ---------------------------------------------------------- connections

  /** One row of a two-hop match: a claim of the first person and a claim
      of someone else on the same event. */
  datatype Pair = Pair(mine: Path, theirs: Path)

  /** The join of the connection query: another person's qualifying claim
      on the event of `m1`. */
  predicate Joins(m1: Path, m2: Path, personId: Id, includePending: bool) {
    m2.event == m1.event && m2.claim.personId != personId && Qualifies(m2.claim, includePending)
  }

  /** For each claim of `firsts` in turn, each path of `ps` it `join`s. */
  function PairsOf(firsts: seq<Path>, ps: seq<Path>, join: (Path, Path) -> bool): (r: seq<Pair>)
    ensures forall pr :: pr in r <==> pr.mine in firsts && pr.theirs in ps && join(pr.mine, pr.theirs)
  {
    if firsts == [] then []
    else
      var m1 := firsts[0];
      var here := Filter(ps, (m2: Path) => join(m1, m2));
      var rest := PairsOf(firsts[1..], ps, join);
      assert forall m :: m in firsts <==> m == m1 || m in firsts[1..];
      forall pr: Pair
        ensures pr in MapSeq(here, (m2: Path) => Pair(m1, m2)) <==> pr.mine == m1 && pr.theirs in here
      {
        MapSeqIn(here, (m2: Path) => Pair(m1, m2), pr);
      }
      MapSeq(here, (m2: Path) => Pair(m1, m2)) + rest
  }

  /** The matched rows of CYPHER_PERSON_CONNECTIONS: each qualifying claim
      of the person joined with each qualifying claim of another person on
      the same event. */
  function ConnectionPairs(ps: seq<Path>, personId: Id, includePending: bool): seq<Pair> {
    var firsts := Filter(ps, (m: Path) => m.claim.personId == personId && Qualifies(m.claim, includePending));
    PairsOf(firsts, ps, (m1: Path, m2: Path) => Joins(m1, m2, personId, includePending))
  }

  datatype Connection = Connection(other: Person, sharedEventCount: nat, sharedStrength: int)

  /** The pair's contribution to `sharedStrength`: both scores, a missing
      score counting 0. */
  function PairStrength(pr: Pair): int {
    pr.mine.claim.score.GetOr(0) + pr.theirs.claim.score.GetOr(0)
  }

  /** The other person of a row, its grouping key. */
  function TheirPerson(pr: Pair): Person {
    pr.theirs.person
  }

  /** The shared event of a row. */
  function TheirEvent(pr: Pair): Event {
    pr.theirs.event
  }

  /** The rows grouped under `o`. */
  function GroupOf(pairs: seq<Pair>, o: Person): seq<Pair> {
    Filter(pairs, (pr: Pair) => TheirPerson(pr) == o)
  }

  /** The aggregate for `o`: `count(DISTINCT e)` and the summed strength of
      its rows. */
  function ConnectionOf(pairs: seq<Pair>, o: Person): (c: Connection)
    ensures c.other == o
  {
    var group := GroupOf(pairs, o);
    Connection(o, |Distinct(MapSeq(group, TheirEvent))|, Sum(MapSeq(group, PairStrength)))
  }

  /** `ORDER BY sharedEventCount DESC, sharedStrength DESC`. */
  function ByShared(c: Connection): Rank {
    Rank(c.sharedEventCount, c.sharedStrength)
  }

  /** The grouping keys, in order of first appearance. */
  function Others(pairs: seq<Pair>): seq<Person> {
    Distinct(MapSeq(pairs, TheirPerson))
  }

  /** One aggregate per grouping key, ranked. */
  function RankedConnections(pairs: seq<Pair>): seq<Connection> {
    SortDesc(MapSeq(Others(pairs), (o: Person) => ConnectionOf(pairs, o)), ByShared)
  }

  /** CYPHER_PERSON_CONNECTIONS: no rows when the person does not exist. */
  function PersonConnections(g: Graph, order: seq<Id>, personId: Id, includePending: bool, limitPeople: nat): seq<Connection> {
    if personId !in g.persons then []
    else Take(RankedConnections(ConnectionPairs(Paths(g, order), personId, includePending)), limitPeople)
  }

  /** The events `o` shares with the person through qualifying claims of both. */
  ghost function SharedEvents(pairs: seq<Pair>, o: Person): set<Event> {
    set pr | pr in pairs && pr.theirs.person == o :: pr.theirs.event
  }

  /** Each ranked aggregate is the aggregate of its own key, the keys are
      exactly the people that occur in some row, and each occurs once. */
  lemma RankedConnectionsSpec(pairs: seq<Pair>)
    ensures var r := RankedConnections(pairs);
      (forall c :: c in r ==> c == ConnectionOf(pairs, c.other) && c.other in Others(pairs)) &&
      (forall o :: o in Others(pairs) ==> ConnectionOf(pairs, o) in r) &&
      (forall i, j :: 0 <= i < j < |r| ==> r[i].other != r[j].other)
  {
    SortedImage(Others(pairs), (o: Person) => ConnectionOf(pairs, o), (c: Connection) => c.other, ByShared);
  }

  /** An aggregate counts the distinct shared events, at least one, and no
      more than its rows. */
  lemma ConnectionCount(pairs: seq<Pair>, o: Person)
    requires o in Others(pairs)
    ensures var c := ConnectionOf(pairs, o);
      c.sharedEventCount == |SharedEvents(pairs, o)| &&
      1 <= c.sharedEventCount <= |GroupOf(pairs, o)|
  {
    var group := GroupOf(pairs, o);
    var count := |Distinct(MapSeq(group, TheirEvent))|;
    assert ConnectionOf(pairs, o).sharedEventCount == count;
    var shared := SharedEvents(pairs, o);
    forall e
      ensures e in shared <==> exists pr :: pr in group && TheirEvent(pr) == e
    {
      if e in shared {
        var pr :| pr in pairs && pr.theirs.person == o && pr.theirs.event == e;
        assert pr in group;
      }
    }
    DistinctImageCard(group, TheirEvent, shared);
    MapSeqIn(pairs, TheirPerson, o);
    var pr :| pr in pairs && TheirPerson(pr) == o;
    assert pr in group;
    assert MapSeq(group, TheirEvent)[0] in Distinct(MapSeq(group, TheirEvent));
  }

  /** The first `n` ranked aggregates: sorted, at most `n`, one per
      person, each the aggregate of a grouping key. */
  lemma {:induction false} TopConnections(pairs: seq<Pair>, n: nat)
    ensures var r := Take(RankedConnections(pairs), n);
      SortedDesc(r, ByShared) && |r| <= n &&
      (forall i, j :: 0 <= i < j < |r| ==> r[i].other != r[j].other) &&
      (forall c :: c in r ==> c.other in Others(pairs) && c == ConnectionOf(pairs, c.other))
  {
    var ranked := RankedConnections(pairs);
    TopN(MapSeq(Others(pairs), (o: Person) => ConnectionOf(pairs, o)), ByShared, n);
    RankedConnectionsSpec(pairs);
    assert Take(ranked, n) == ranked[..|Take(ranked, n)|];
  }

  /** The connections: ranked, at most `limitPeople`, one per person, never
      the person themself, each the aggregate of its person's rows and
      counting the distinct events they share through qualifying claims (at
      least one). */
  lemma {:induction false} ConnectionsSound(g: Graph, order: seq<Id>, personId: Id, includePending: bool, limitPeople: nat)
    requires Keyed(g)
    ensures var r := PersonConnections(g, order, personId, includePending, limitPeople);
      var pairs := ConnectionPairs(Paths(g, order), personId, includePending);
      SortedDesc(r, ByShared) && |r| <= limitPeople &&
      (forall i, j :: 0 <= i < j < |r| ==> r[i].other != r[j].other) &&
      (forall c :: c in r ==>
         c.other.id != personId && c.other.id in g.persons && c.other == g.persons[c.other.id] &&
         c == ConnectionOf(pairs, c.other) &&
         c.sharedEventCount == |SharedEvents(pairs, c.other)| && c.sharedEventCount >= 1)
  {
    var pairs := ConnectionPairs(Paths(g, order), personId, includePending);
    var r := PersonConnections(g, order, personId, includePending, limitPeople);
    if personId in g.persons {
      assert r == Take(RankedConnections(pairs), limitPeople);
      TopConnections(pairs, limitPeople);
      forall c | c in r
        ensures c.other.id != personId && c.other.id in g.persons && c.other == g.persons[c.other.id]
        ensures c.sharedEventCount == |SharedEvents(pairs, c.other)| && c.sharedEventCount >= 1
      {
        ConnectionCount(pairs, c.other);
        MapSeqIn(pairs, TheirPerson, c.other);
        var pr :| pr in pairs && TheirPerson(pr) == c.other;
        PathKeys(g, order, pr.theirs);
      }
    }
  }

  /** Everyone who shares an event with the person through qualifying claims
      is listed, unless the list is full and they rank no higher than anyone
      listed. */
  lemma {:induction false} ConnectionsComplete(g: Graph, order: seq<Id>, personId: Id, includePending: bool, limitPeople: nat)
    requires personId in g.persons
    ensures var r := PersonConnections(g, order, personId, includePending, limitPeople);
      var pairs := ConnectionPairs(Paths(g, order), personId, includePending);
      forall pr :: pr in pairs ==>
        var c := ConnectionOf(pairs, pr.theirs.person);
        c in r || (|r| == limitPeople && forall y :: y in r ==> !Above(ByShared(c), ByShared(y)))
  {
    var pairs := ConnectionPairs(Paths(g, order), personId, includePending);
    var cs := MapSeq(Others(pairs), (o: Person) => ConnectionOf(pairs, o));
    TopN(cs, ByShared, limitPeople);
    RankedConnectionsSpec(pairs);
    forall pr | pr in pairs
      ensures ConnectionOf(pairs, pr.theirs.person) in cs
    {
      MapSeqIn(pairs, TheirPerson, pr.theirs.person);
      MapSeqIn(Others(pairs), (o: Person) => ConnectionOf(pairs, o), ConnectionOf(pairs, pr.theirs.person));
    }
  }

  // ------------------------------------------------------ why connected

  /** The claim fields a why-connected row projects. */
  datatype ClaimSummary = ClaimSummary(id: Id, relationshipType: string, status: Status, score: Option<int>,
                                       uniqueVoters: nat, evidenceCount: nat)

  function Summary(c: Claim): ClaimSummary {
    ClaimSummary(c.id, c.relationshipType, c.status, c.score, c.uniqueVoters, c.evidenceCount)
  }

  /** The stored sources the links point at, in link order. */
  function LinkedSources(g: Graph, links: seq<EvidenceLink>): (r: seq<Source>)
    ensures forall s :: s in r <==> exists l :: l in links && l.source in g.sources && g.sources[l.source] == s
  {
    if links == [] then []
    else
      assert forall l :: l in links <==> l == links[0] || l in links[1..];
      (if links[0].source in g.sources then [g.sources[links[0].source]] else []) + LinkedSources(g, links[1..])
  }

  /** `collect(DISTINCT s)[0..3]` over the claim's evidence. */
  function Preview(g: Graph, c: Claim): seq<Source> {
    Take(Distinct(LinkedSources(g, LinksOf(g, c.id))), 3)
  }

  /** The join of the why-connected query: a claim of `b` on the same event,
      a different claim (a relationship is matched once per path), both
      approved unless pending claims are included. */
  predicate Explains(ma: Path, mb: Path, bId: Id, includePending: bool) {
    mb.claim.personId == bId && mb.event == ma.event && mb.claim != ma.claim &&
    (includePending || (ma.claim.status == Approved && mb.claim.status == Approved))
  }

  function WhyPairs(ps: seq<Path>, aId: Id, bId: Id, includePending: bool): seq<Pair> {
    PairsOf(Filter(ps, (m: Path) => m.claim.personId == aId), ps,
            (ma: Path, mb: Path) => Explains(ma, mb, bId, includePending))
  }

  /** The matched rows are exactly the explaining pairs of a claim of `a`. */
  lemma WhyPairsSpec(ps: seq<Path>, aId: Id, bId: Id, includePending: bool, ma: Path, mb: Path)
    ensures Pair(ma, mb) in WhyPairs(ps, aId, bId, includePending) <==>
      ma in ps && ma.claim.personId == aId && mb in ps && Explains(ma, mb, bId, includePending)
  {
    var firsts := Filter(ps, (m: Path) => m.claim.personId == aId);
    assert ma in firsts <==> ma in ps && ma.claim.personId == aId;
  }

  datatype WhyRow = WhyRow(event: Event, claimA: ClaimSummary, claimB: ClaimSummary,
                           aEvidencePreview: seq<Source>, bEvidencePreview: seq<Source>)

  function WhyRowOf(g: Graph, pr: Pair): WhyRow {
    WhyRow(pr.mine.event, Summary(pr.mine.claim), Summary(pr.theirs.claim),
           Preview(g, pr.mine.claim), Preview(g, pr.theirs.claim))
  }

  /** `ORDER BY e.startDate DESC`. */
  function RowDate(w: WhyRow): Rank {
    Rank(w.event.startDate, 0)
  }

  /** CYPHER_WHY_CONNECTED: no rows unless both people exist. */
  function WhyConnected(g: Graph, order: seq<Id>, aId: Id, bId: Id, includePending: bool, limitEvents: nat): seq<WhyRow> {
    if aId !in g.persons || bId !in g.persons then []
    else Take(SortDesc(MapSeq(WhyPairs(Paths(g, order), aId, bId, includePending), (pr: Pair) => WhyRowOf(g, pr)), RowDate), limitEvents)
  }

  /** An evidence preview: distinct, at most three, each a stored source
      linked to the claim, and every such source shown unless three are. */
  lemma PreviewSpec(g: Graph, c: Claim)
    ensures var p := Preview(g, c);
      NoDups(p) && |p| <= 3 &&
      (forall s :: s in p ==> exists l :: l in LinksOf(g, c.id) && l.source in g.sources && g.sources[l.source] == s) &&
      (forall l :: l in LinksOf(g, c.id) && l.source in g.sources ==> g.sources[l.source] in p || |p| == 3)
  {
    var d := Distinct(LinkedSources(g, LinksOf(g, c.id)));
    TakeNoDups(d, 3);
    forall l | l in LinksOf(g, c.id) && l.source in g.sources
      ensures g.sources[l.source] in Preview(g, c) || |Preview(g, c)| == 3
    {
      var s := g.sources[l.source];
      var ls := LinkedSources(g, LinksOf(g, c.id));
      assert s in ls;
      var i :| 0 <= i < |ls| && ls[i] == s;
      TakeIn(d, 3, s);
    }
  }

  /** Each row explains the connection: a claim of `a` and a different
      claim of `b` on the row's event, approved unless pending claims are
      included, with the rows latest first and at most `limitEvents`. */
  lemma {:induction false} WhySound(g: Graph, order: seq<Id>, aId: Id, bId: Id, includePending: bool, limitEvents: nat)
    ensures var r := WhyConnected(g, order, aId, bId, includePending, limitEvents);
      var ps := Paths(g, order);
      SortedDesc(r, RowDate) && |r| <= limitEvents &&
      forall w :: w in r ==>
        exists ma, mb :: ma in ps && mb in ps && ma.claim.personId == aId && Explains(ma, mb, bId, includePending) &&
                         w == WhyRowOf(g, Pair(ma, mb))
  {
    var ps := Paths(g, order);
    var r := WhyConnected(g, order, aId, bId, includePending, limitEvents);
    if aId in g.persons && bId in g.persons {
      var pairs := WhyPairs(ps, aId, bId, includePending);
      var rows := MapSeq(pairs, (pr: Pair) => WhyRowOf(g, pr));
      assert r == Take(SortDesc(rows, RowDate), limitEvents);
      TopN(rows, RowDate, limitEvents);
      forall w | w in r
        ensures exists ma, mb :: ma in ps && mb in ps && ma.claim.personId == aId && Explains(ma, mb, bId, includePending) &&
                                 w == WhyRowOf(g, Pair(ma, mb))
      {
        MapSeqIn(pairs, (pr: Pair) => WhyRowOf(g, pr), w);
        var pr :| pr in pairs && WhyRowOf(g, pr) == w;
        assert pr == Pair(pr.mine, pr.theirs);
      }
    }
  }

  /** Every explaining pair of claims is shown, unless `limitEvents` rows are
      and its event is no later than any shown. */
  lemma {:induction false} WhyComplete(g: Graph, order: seq<Id>, aId: Id, bId: Id, includePending: bool, limitEvents: nat)
    requires aId in g.persons && bId in g.persons
    ensures var r := WhyConnected(g, order, aId, bId, includePending, limitEvents);
      var ps := Paths(g, order);
      forall ma, mb :: ma in ps && mb in ps && ma.claim.personId == aId && Explains(ma, mb, bId, includePending) ==>
        WhyRowOf(g, Pair(ma, mb)) in r ||
        (|r| == limitEvents && forall w :: w in r ==> ma.event.startDate <= w.event.startDate)
  {
    var ps := Paths(g, order);
    var pairs := WhyPairs(ps, aId, bId, includePending);
    var rows := MapSeq(pairs, (pr: Pair) => WhyRowOf(g, pr));
    TopN(rows, RowDate, limitEvents);
    forall ma, mb | ma in ps && mb in ps && ma.claim.personId == aId && Explains(ma, mb, bId, includePending)
      ensures WhyRowOf(g, Pair(ma, mb)) in rows
    {
      WhyPairsSpec(ps, aId, bId, includePending, ma, mb);
      MapSeqIn(pairs, (pr: Pair) => WhyRowOf(g, pr), WhyRowOf(g, Pair(ma, mb)));
    }
  }
}
