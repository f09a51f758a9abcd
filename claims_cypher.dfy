/** The claim ledger: the store and the three write statements that create a
    claim, attach evidence to it, and record a vote on it. Each statement is
    specified by a function from the store before to the store after, and
    carried out by one atomic method of `Ledger`. */
module ClaimsCypher {
  import opened Common
  import opened Store

  /** A claim as CREATE leaves it: PENDING, every aggregate zero. */
  function NewClaim(claimId: Id, personId: Id, eventId: Id, relationshipType: string, createdByUserId: Id): Claim {
    Claim(claimId, "PERSON_EVENT", relationshipType, personId, eventId,
          Pending, Some(0), 0, 0, 0, 0, createdByUserId)
  }

  /** The claim as the vote statement leaves it: aggregates recomputed from
      the live votes `vs`, then the status rule applied. */
  function Recomputed(c: Claim, vs: seq<VoteRecord>): Claim {
    c.(upWeight := UpW(vs), downWeight := DownW(vs), uniqueVoters := Voters(vs),
       score := Some(UpW(vs) - DownW(vs)),
       status := NextStatus(c.status, UpW(vs) - DownW(vs), Voters(vs), c.evidenceCount))
  }

  // ------------------------------------------------- the three statements

  /** CYPHER_CREATE_PERSON_EVENT_CLAIM: both MATCHes must succeed; then the
      claim and its two links are created. */
  function CreateClaimOn(g: Graph, claimId: Id, personId: Id, eventId: Id, relationshipType: string, createdByUserId: Id): Graph {
    if personId in g.persons && eventId in g.events then
      g.(claims := g.claims[claimId := NewClaim(claimId, personId, eventId, relationshipType, createdByUserId)],
         evidence := g.evidence[claimId := []],
         votes := g.votes[claimId := []])
    else g
  }

  /** CYPHER_ADD_EVIDENCE: MERGE the source (properties only on creation),
      MERGE the link, then set the evidence count to the distinct count. */
  function AddEvidenceOn(g: Graph, claimId: Id, sourceId: Id, sourceProps: map<string, string>, addedByUserId: Id): Graph {
    if claimId !in g.claims then g
    else
      var links := LinkEvidence(LinksOf(g, claimId), sourceId, addedByUserId);
      g.(sources := if sourceId in g.sources then g.sources else g.sources[sourceId := Source(sourceId, sourceProps)],
         evidence := g.evidence[claimId := links],
         claims := g.claims[claimId := g.claims[claimId].(evidenceCount := EvidenceCount(links))])
  }

  /** CYPHER_VOTE_ON_CLAIM: MERGE the vote and overwrite its value and
      weight, recompute the aggregates from all votes, apply the status rule. */
  function CastVoteOn(g: Graph, userId: Id, claimId: Id, value: int, weight: int): Graph {
    if userId !in g.users || claimId !in g.claims then g
    else
      var vs := Upsert(VotesOf(g, claimId), VoteRecord(userId, value, weight));
      g.(votes := g.votes[claimId := vs],
         claims := g.claims[claimId := Recomputed(g.claims[claimId], vs)])
  }

  /** The row a statement returns: the claim after it ran, if it matched. */
  function Row(g: Graph, claimId: Id, matched: bool): Option<Claim> {
    if matched && claimId in g.claims then Some(g.claims[claimId]) else None
  }

  // ------------------------------------------------------------ properties

  /** Creating a claim keeps the store valid. */
  lemma CreateClaimValid(g: Graph, claimId: Id, personId: Id, eventId: Id, relationshipType: string, createdByUserId: Id)
    requires GraphValid(g) && claimId !in g.claims
    ensures GraphValid(CreateClaimOn(g, claimId, personId, eventId, relationshipType, createdByUserId))
  {
    if personId in g.persons && eventId in g.events {
      assert Distinct(SourceIds([])) == [];
      SetClaimValid(g, claimId, NewClaim(claimId, personId, eventId, relationshipType, createdByUserId), [], []);
    }
  }

  /** A claim is created exactly when both its person and its event exist.
      The new claim is PENDING with zero score, weights, voters and evidence,
      links the given person and event, and has no votes and no evidence;
      no other claim, and no other claim's evidence or votes, changes, and
      no person, event, source or user changes. */
  lemma CreateClaimEffect(g: Graph, claimId: Id, personId: Id, eventId: Id, relationshipType: string, createdByUserId: Id)
    requires claimId !in g.claims
    ensures var h := CreateClaimOn(g, claimId, personId, eventId, relationshipType, createdByUserId);
      (claimId in h.claims <==> personId in g.persons && eventId in g.events) &&
      (claimId !in h.claims ==> h == g) &&
      (claimId in h.claims ==>
        h.claims.Keys == g.claims.Keys + {claimId} &&
        var c := h.claims[claimId];
        c.status == Pending && c.score == Some(0) && c.upWeight == 0 && c.downWeight == 0 &&
        c.uniqueVoters == 0 && c.evidenceCount == 0 &&
        c.personId == personId && c.eventId == eventId &&
        LinksOf(h, claimId) == [] && VotesOf(h, claimId) == [] &&
        Consistent(c, LinksOf(h, claimId), VotesOf(h, claimId)) &&
        (forall k :: k in g.claims ==> h.claims[k] == g.claims[k]) &&
        h.evidence.Keys == g.evidence.Keys + {claimId} && h.votes.Keys == g.votes.Keys + {claimId} &&
        (forall k :: k != claimId ==> LinksOf(h, k) == LinksOf(g, k) && VotesOf(h, k) == VotesOf(g, k))) &&
      h.persons == g.persons && h.events == g.events && h.sources == g.sources && h.users == g.users
  {
    assert Distinct(SourceIds([])) == [];
  }

  /** Merging a Source by id keeps the store valid, and the source exists
      afterwards. */
  lemma MergeSourceValid(g: Graph, sourceId: Id, sourceProps: map<string, string>)
    requires GraphValid(g)
    ensures var g1 := g.(sources := if sourceId in g.sources then g.sources
                                    else g.sources[sourceId := Source(sourceId, sourceProps)]);
      GraphValid(g1) && sourceId in g1.sources && g.sources.Keys <= g1.sources.Keys
  {
    var g1 := g.(sources := if sourceId in g.sources then g.sources
                            else g.sources[sourceId := Source(sourceId, sourceProps)]);
    GraphValidNodes(g, g1);
  }

  /** Adding evidence keeps the store valid. */
  lemma AddEvidenceValid(g: Graph, claimId: Id, sourceId: Id, sourceProps: map<string, string>, addedByUserId: Id)
    requires GraphValid(g)
    ensures GraphValid(AddEvidenceOn(g, claimId, sourceId, sourceProps, addedByUserId))
  {
    if claimId in g.claims {
      var links := LinksOf(g, claimId);
      var vs := VotesOf(g, claimId);
      var g1 := g.(sources := if sourceId in g.sources then g.sources
                              else g.sources[sourceId := Source(sourceId, sourceProps)]);
      MergeSourceValid(g, sourceId, sourceProps);
      var after := LinkEvidence(links, sourceId, addedByUserId);
      var c := g.claims[claimId].(evidenceCount := EvidenceCount(after));
      assert c.id == claimId && c.personId in g1.persons && c.eventId in g1.events &&
             (forall u :: u in VoterIds(vs) ==> u in g1.users) &&
             (forall s :: s in SourceIds(after) ==> s in g1.sources) &&
             Consistent(c, after, vs) by {
        assert ClaimOk(g, claimId);
        LinkEvidenceConsistent(g.claims[claimId], links, vs, sourceId, addedByUserId);
        LinkEvidenceSources(links, sourceId, addedByUserId);
      }
      assert claimId in g.votes && vs == g.votes[claimId];
      UpdateSame(g1.votes, claimId);
      SetClaimValid(g1, claimId, c, after, vs);
    }
  }

  /** The whole store after adding evidence to an existing claim: only the
      claim's evidence count, its evidence links and (for a new source) the
      sources change; persons, events, users, votes and every other claim
      stay as they were. */
  lemma AddEvidenceOnParts(g: Graph, claimId: Id, sourceId: Id, sourceProps: map<string, string>, addedByUserId: Id)
    requires claimId in g.claims
    ensures var links := LinkEvidence(LinksOf(g, claimId), sourceId, addedByUserId);
      AddEvidenceOn(g, claimId, sourceId, sourceProps, addedByUserId) ==
      Graph(g.persons, g.events,
            g.claims[claimId := g.claims[claimId].(evidenceCount := EvidenceCount(links))],
            if sourceId in g.sources then g.sources else g.sources[sourceId := Source(sourceId, sourceProps)],
            g.users, g.evidence[claimId := links], g.votes)
  {
  }

  /** What adding evidence leaves alone: other claims, their evidence, the
      votes, persons, events and users; a new Source gets the given properties. */
  lemma AddEvidenceFrame(g: Graph, claimId: Id, sourceId: Id, sourceProps: map<string, string>, addedByUserId: Id)
    requires claimId in g.claims
    ensures var h := AddEvidenceOn(g, claimId, sourceId, sourceProps, addedByUserId);
      (sourceId !in g.sources ==> h.sources == g.sources[sourceId := Source(sourceId, sourceProps)]) &&
      h.claims.Keys == g.claims.Keys &&
      (forall k :: k in g.claims && k != claimId ==> h.claims[k] == g.claims[k]) &&
      h.evidence.Keys == g.evidence.Keys + {claimId} &&
      (forall k :: k != claimId ==> LinksOf(h, k) == LinksOf(g, k)) &&
      h.votes == g.votes && h.persons == g.persons && h.events == g.events && h.users == g.users
  {
    AddEvidenceOnParts(g, claimId, sourceId, sourceProps, addedByUserId);
  }

  /** After adding evidence the source exists (an existing Source keeps its
      properties), it is linked to the claim, and the evidence count is the
      number of distinct linked sources: one more exactly when the source was
      not linked yet; a new Source carries exactly the given properties.
      Nothing else of the claim changes, its status included; no other claim,
      no other claim's evidence, no vote, person, event or user changes.
      Only the claim's evidence bookkeeping is assumed to agree with its
      links; its vote aggregates may be anything, as in a seeded store. */
  lemma AddEvidenceEffect(g: Graph, claimId: Id, sourceId: Id, sourceProps: map<string, string>, addedByUserId: Id)
    requires claimId in g.claims
    requires NoDups(SourceIds(LinksOf(g, claimId)))
    requires g.claims[claimId].evidenceCount == EvidenceCount(LinksOf(g, claimId))
    ensures var h := AddEvidenceOn(g, claimId, sourceId, sourceProps, addedByUserId);
      var before := g.claims[claimId];
      var after := h.claims[claimId];
      sourceId in h.sources &&
      (sourceId in g.sources ==> h.sources == g.sources) &&
      sourceId in SourceIds(LinksOf(h, claimId)) &&
      after.evidenceCount == |LinksOf(h, claimId)| &&
      after.evidenceCount ==
        (if sourceId in SourceIds(LinksOf(g, claimId)) then before.evidenceCount else before.evidenceCount + 1) &&
      after == before.(evidenceCount := after.evidenceCount) &&
      (sourceId !in g.sources ==> h.sources == g.sources[sourceId := Source(sourceId, sourceProps)]) &&
      h.claims.Keys == g.claims.Keys &&
      (forall k :: k in g.claims && k != claimId ==> h.claims[k] == g.claims[k]) &&
      h.evidence.Keys == g.evidence.Keys + {claimId} &&
      (forall k :: k != claimId ==> LinksOf(h, k) == LinksOf(g, k)) &&
      h.votes == g.votes && h.persons == g.persons && h.events == g.events && h.users == g.users
  {
    var h := AddEvidenceOn(g, claimId, sourceId, sourceProps, addedByUserId);
    var links := LinksOf(g, claimId);
    LinkEvidenceCount(links, sourceId, addedByUserId);
    LinkEvidenceSources(links, sourceId, addedByUserId);
    assert LinksOf(h, claimId) == LinkEvidence(links, sourceId, addedByUserId);
    EvidenceCountIsLinkCount(LinksOf(h, claimId));
    AddEvidenceFrame(g, claimId, sourceId, sourceProps, addedByUserId);
  }

  /** Adding the same evidence twice is the same as adding it once. */
  lemma AddEvidenceIdempotent(g: Graph, claimId: Id, sourceId: Id, sourceProps: map<string, string>, addedByUserId: Id)
    ensures var h := AddEvidenceOn(g, claimId, sourceId, sourceProps, addedByUserId);
      AddEvidenceOn(h, claimId, sourceId, sourceProps, addedByUserId) == h
  {
    if claimId in g.claims {
      var h := AddEvidenceOn(g, claimId, sourceId, sourceProps, addedByUserId);
      var links := LinksOf(g, claimId);
      LinkEvidenceIdempotent(links, sourceId, addedByUserId, addedByUserId);
      assert LinksOf(h, claimId) == LinkEvidence(links, sourceId, addedByUserId);
      assert h.evidence[claimId := LinkEvidence(LinksOf(h, claimId), sourceId, addedByUserId)] == h.evidence;
      assert h.claims[claimId := h.claims[claimId].(evidenceCount := EvidenceCount(LinksOf(h, claimId)))] == h.claims;
    }
  }

  /** Voting keeps the store valid. */
  lemma CastVoteValid(g: Graph, userId: Id, claimId: Id, value: int, weight: int)
    requires GraphValid(g)
    ensures GraphValid(CastVoteOn(g, userId, claimId, value, weight))
  {
    if userId in g.users && claimId in g.claims {
      var v := VoteRecord(userId, value, weight);
      var vs := Upsert(VotesOf(g, claimId), v);
      assert ClaimOk(g, claimId);
      UpsertVoters(VotesOf(g, claimId), v);
      assert g.evidence[claimId := LinksOf(g, claimId)] == g.evidence;
      SetClaimValid(g, claimId, Recomputed(g.claims[claimId], vs), LinksOf(g, claimId), vs);
    }
  }

  /** What a vote leaves alone: other claims, the votes on them, the
      evidence, sources, persons, events and users. */
  lemma CastVoteFrame(g: Graph, userId: Id, claimId: Id, value: int, weight: int)
    requires userId in g.users && claimId in g.claims
    ensures var h := CastVoteOn(g, userId, claimId, value, weight);
      h.claims.Keys == g.claims.Keys &&
      (forall k :: k in g.claims && k != claimId ==> h.claims[k] == g.claims[k]) &&
      (forall k :: k != claimId ==> VotesOf(h, k) == VotesOf(g, k)) &&
      h.evidence == g.evidence && h.sources == g.sources &&
      h.persons == g.persons && h.events == g.events && h.users == g.users
  {
  }

  /** After a vote the user has exactly one vote on the claim, the one just
      cast, and no other user's vote changed; the weights are those of the
      other voters plus the new vote's, the voter count is the number of
      distinct voters, the score is up minus down, and the status follows the
      rule on those fresh values. The evidence count is untouched. */
  lemma CastVoteEffect(g: Graph, userId: Id, claimId: Id, value: int, weight: int)
    requires userId in g.users && claimId in g.claims
    requires OneVotePerUser(VotesOf(g, claimId))
    ensures var h := CastVoteOn(g, userId, claimId, value, weight);
      var vs := VotesOf(h, claimId);
      var before := g.claims[claimId];
      var c := h.claims[claimId];
      OneVotePerUser(vs) && VoteRecord(userId, value, weight) in vs &&
      (forall i :: 0 <= i < |vs| && vs[i].voter == userId ==> vs[i] == VoteRecord(userId, value, weight)) &&
      Without(vs, userId) == Without(VotesOf(g, claimId), userId) &&
      c.upWeight == UpW(Without(VotesOf(g, claimId), userId)) + (if value == 1 then weight else 0) &&
      c.downWeight == DownW(Without(VotesOf(g, claimId), userId)) + (if value == -1 then weight else 0) &&
      c.uniqueVoters == |Distinct(VoterIds(vs))| &&
      c.score == Some(c.upWeight - c.downWeight) &&
      c.status == NextStatus(before.status, c.upWeight - c.downWeight, c.uniqueVoters, before.evidenceCount) &&
      c.evidenceCount == before.evidenceCount &&
      h.claims.Keys == g.claims.Keys &&
      (forall k :: k in g.claims && k != claimId ==> h.claims[k] == g.claims[k]) &&
      (forall k :: k != claimId ==> VotesOf(h, k) == VotesOf(g, k)) &&
      h.evidence == g.evidence && h.sources == g.sources &&
      h.persons == g.persons && h.events == g.events && h.users == g.users
  {
    var h := CastVoteOn(g, userId, claimId, value, weight);
    var v := VoteRecord(userId, value, weight);
    var vs0 := VotesOf(g, claimId);
    var vs := Upsert(vs0, v);
    assert VotesOf(h, claimId) == vs;
    assert h.claims[claimId] == Recomputed(g.claims[claimId], vs);
    UpsertVoters(vs0, v);
    UpsertRecordsVote(vs0, v);
    UpsertWeights(vs0, v);
    VotersAreDistinctUsers(vs);
    CastVoteFrame(g, userId, claimId, value, weight);
  }

  /** Re-casting the same vote changes nothing (the retry-safety of the
      upsert). */
  lemma CastVoteIdempotent(g: Graph, userId: Id, claimId: Id, value: int, weight: int)
    ensures var h := CastVoteOn(g, userId, claimId, value, weight);
      CastVoteOn(h, userId, claimId, value, weight) == h
  {
    if userId in g.users && claimId in g.claims {
      UpsertIdempotent(VotesOf(g, claimId), VoteRecord(userId, value, weight));
    }
  }

  /** A second vote by the same user supersedes the first: the votes are as
      if only the second had been cast. */
  lemma RevoteSupersedesOn(g: Graph, userId: Id, claimId: Id, v1: int, w1: int, v2: int, w2: int)
    ensures VotesOf(CastVoteOn(CastVoteOn(g, userId, claimId, v1, w1), userId, claimId, v2, w2), claimId) ==
            VotesOf(CastVoteOn(g, userId, claimId, v2, w2), claimId)
  {
    if userId in g.users && claimId in g.claims {
      RevoteSupersedes(VotesOf(g, claimId), VoteRecord(userId, v1, w1), VoteRecord(userId, v2, w2));
    }
  }

  /** Example of the general rule `ApprovedRejectedWhen`: status is not
      sticky, and an APPROVED claim at score -6 with 4 voters and one source
      becomes REJECTED. */
  lemma ApprovedCanBecomeRejected()
    ensures NextStatus(Approved, -6, 4, 1) == Rejected
  {
  }

  /** A vote turns an APPROVED claim REJECTED exactly when, once the vote is
      recorded, down weights exceed up weights by at least 6 with at least 4
      voters; otherwise it stays APPROVED, whatever the evidence. */
  lemma ApprovedRejectedWhen(g: Graph, userId: Id, claimId: Id, value: int, weight: int)
    requires userId in g.users && claimId in g.claims && g.claims[claimId].status == Approved
    ensures var c := CastVoteOn(g, userId, claimId, value, weight).claims[claimId];
      (c.status == Rejected <==> c.upWeight - c.downWeight <= -6 && c.uniqueVoters >= 4) &&
      (c.status != Rejected ==> c.status == Approved)
  {
    var vs := Upsert(VotesOf(g, claimId), VoteRecord(userId, value, weight));
    assert CastVoteOn(g, userId, claimId, value, weight).claims[claimId] == Recomputed(g.claims[claimId], vs);
  }

  /** Adding evidence never re-evaluates the status, even when the claim
      would now qualify for approval. */
  lemma EvidenceDoesNotApprove(g: Graph, claimId: Id, sourceId: Id, sourceProps: map<string, string>, addedByUserId: Id)
    requires claimId in g.claims
    ensures AddEvidenceOn(g, claimId, sourceId, sourceProps, addedByUserId).claims[claimId].status == g.claims[claimId].status
  {
  }

  class Ledger {
    var persons: map<Id, Person>
    var events: map<Id, Event>
    var claims: map<Id, Claim>
    var sources: map<Id, Source>
    var users: map<Id, User>
    var evidence: map<Id, seq<EvidenceLink>>
    var votes: map<Id, seq<VoteRecord>>

    /** The store's current contents as a value, for the read queries. */
    function View(): Graph
      reads this
    {
      Graph(persons, events, claims, sources, users, evidence, votes)
    }

    ghost predicate Valid()
      reads this
    {
      GraphValid(View())
    }

    constructor ()
      ensures Valid()
      ensures View() == Graph(map[], map[], map[], map[], map[], map[], map[])
    {
      persons, events, claims, sources, users, evidence, votes :=
        map[], map[], map[], map[], map[], map[], map[];
    }

    /** MERGE of a User by id: the properties are set only when the user is
        created; an existing user is returned as it is. */
    method MergeUser(id: Id, displayName: string, role: Role, reputation: int) returns (u: User)
      modifies this
      ensures old(Valid()) ==> Valid()
      ensures id in old(users) ==> u == old(users[id]) && View() == old(View())
      ensures id !in old(users) ==>
                u == User(id, displayName, role, reputation) &&
                View() == old(View()).(users := old(users)[id := u])
    {
      if id in users {
        u := users[id];
      } else {
        u := User(id, displayName, role, reputation);
        users := users[id := u];
        if old(Valid()) {
          GraphValidNodes(old(View()), View());
        }
      }
    }

    /** Creates a PERSON_EVENT claim when both the person and the event
        exist; otherwise nothing is created and no row is returned.
        `claimId` is freshly drawn by the caller. */
    method CreateClaim(claimId: Id, personId: Id, eventId: Id, relationshipType: string, createdByUserId: Id)
      returns (r: Option<Claim>)
      requires claimId !in claims
      modifies this
      ensures old(Valid()) ==> Valid()
      ensures View() == CreateClaimOn(old(View()), claimId, personId, eventId, relationshipType, createdByUserId)
      ensures r == Row(View(), claimId, personId in old(persons) && eventId in old(events))
    {
      if personId !in persons || eventId !in events {
        return None;
      }
      if Valid() {
        CreateClaimValid(View(), claimId, personId, eventId, relationshipType, createdByUserId);
      }
      var c := NewClaim(claimId, personId, eventId, relationshipType, createdByUserId);
      claims := claims[claimId := c];
      evidence := evidence[claimId := []];
      votes := votes[claimId := []];
      r := Some(c);
    }

    /** Attaches a source to a claim as evidence; see `AddEvidenceOn`. */
    method AddEvidence(claimId: Id, sourceId: Id, sourceProps: map<string, string>, addedByUserId: Id)
      returns (r: Option<Claim>)
      modifies this
      ensures old(Valid()) ==> Valid()
      ensures View() == AddEvidenceOn(old(View()), claimId, sourceId, sourceProps, addedByUserId)
      ensures r == Row(View(), claimId, claimId in old(claims))
    {
      if claimId !in claims {
        return None;
      }
      // MERGE (s:Source {id}) ON CREATE SET s += props
      var srcs := sources;
      if sourceId !in srcs {
        srcs := srcs[sourceId := Source(sourceId, sourceProps)];
      }
      // MERGE (c)-[:HAS_EVIDENCE]->(s)
      var links := LinkEvidence(if claimId in evidence then evidence[claimId] else [], sourceId, addedByUserId);
      // SET c.evidenceCount = count(DISTINCT sx)
      var c := claims[claimId].(evidenceCount := EvidenceCount(links));
      sources, evidence, claims := srcs, evidence[claimId := links], claims[claimId := c];
      AddEvidenceOnParts(old(View()), claimId, sourceId, sourceProps, addedByUserId);
      assert links == LinkEvidence(LinksOf(old(View()), claimId), sourceId, addedByUserId);
      assert sources == if sourceId in old(sources) then old(sources)
                        else old(sources)[sourceId := Source(sourceId, sourceProps)];
      assert View() == AddEvidenceOn(old(View()), claimId, sourceId, sourceProps, addedByUserId);
      if old(Valid()) {
        AddEvidenceValid(old(View()), claimId, sourceId, sourceProps, addedByUserId);
      }
      r := Some(c);
    }

    /** Records `userId`'s vote on a claim; see `CastVoteOn`. */
    method CastVote(userId: Id, claimId: Id, value: int, weight: int) returns (r: Option<Claim>)
      modifies this
      ensures old(Valid()) ==> Valid()
      ensures View() == CastVoteOn(old(View()), userId, claimId, value, weight)
      ensures r == Row(View(), claimId, userId in old(users) && claimId in old(claims))
    {
      if userId !in users || claimId !in claims {
        return None;
      }
      if Valid() {
        CastVoteValid(View(), userId, claimId, value, weight);
      }
      // MERGE (u)-[v:VOTED_ON]->(c) SET v.value, v.weight
      var vs := Upsert(if claimId in votes then votes[claimId] else [], VoteRecord(userId, value, weight));
      votes := votes[claimId := vs];
      // recompute the aggregates from the whole vote set
      var upW, downW, voters := UpW(vs), DownW(vs), Voters(vs);
      var c := claims[claimId].(upWeight := upW, downWeight := downW, uniqueVoters := voters,
                                score := Some(upW - downW));
      // the two FOREACH … SET status clauses, in order
      if upW - downW >= 6 && voters >= 4 && c.evidenceCount >= 1 {
        c := c.(status := Approved);
      }
      if upW - downW <= -6 && voters >= 4 {
        c := c.(status := Rejected);
      }
      assert c == Recomputed(old(claims[claimId]), vs);
      claims := claims[claimId := c];
      assert View() == CastVoteOn(old(View()), userId, claimId, value, weight);
      r := Some(c);
    }
  }
}
