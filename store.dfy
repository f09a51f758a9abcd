/** The knowledge graph's data model: Person and Event entities, Claims
    between them, evidence Sources, Users and their Votes, and the pure rules
    the claim ledger applies when it recomputes a claim from its votes. */
module Store {
  import opened Common

  type Id = string

  /** A date as an ordinal that preserves calendar order:
      year * 372 + (month - 1) * 31 + (day - 1). */
  type Date = int

  /** The first day of `year` in the `Date` encoding. */
  function JanFirst(year: int): Date {
    year * 372
  }

  /** The calendar year a `Date` falls in. */
  function YearOf(d: Date): int {
    d / 372
  }

  /** The `Date` of a calendar day. */
  function DateOf(year: int, month: int, day: int): (d: Date)
    requires 1 <= month <= 12 && 1 <= day <= 31
    ensures YearOf(d) == year && JanFirst(year) <= d < JanFirst(year + 1)
  {
    year * 372 + (month - 1) * 31 + (day - 1)
  }

  /** `date({year: y, month: 1, day: 1})` bounds select by calendar year: on
      or after January 1 of `y` is year `y` or later, and before January 1 of
      `y + 1` is year `y` or earlier. */
  lemma YearWindow(d: Date, y: int)
    ensures d >= JanFirst(y) <==> YearOf(d) >= y
    ensures d < JanFirst(y + 1) <==> YearOf(d) <= y
  {
    assert d == 372 * YearOf(d) + d % 372;
  }

  datatype Status = Pending | Approved | Rejected

  datatype Role = UserRole | Trusted | Mod

  datatype Person = Person(id: Id, name: string)

  datatype Event = Event(id: Id, name: string, eventType: string, startDate: Date)

  /** A claim node. `personId` and `eventId` stand for its single
      CLAIM_SUBJECT link (from a Person) and its single CLAIM_OBJECT link (to
      an Event).
      `score` is optional because claims loaded by other means than the
      ledger need not carry one; the queries read it through `coalesce`. */
  datatype Claim = Claim(
    id: Id,
    claimType: string,
    relationshipType: string,
    personId: Id,
    eventId: Id,
    status: Status,
    score: Option<int>,
    upWeight: int,
    downWeight: int,
    uniqueVoters: nat,
    evidenceCount: nat,
    createdByUserId: Id)

  /** A Source node: its key and the properties it was created with. */
  datatype Source = Source(id: Id, props: map<string, string>)

  datatype User = User(id: Id, displayName: string, role: Role, reputation: int)

  /** A VOTED_ON relationship from `voter` to a claim. */
  datatype VoteRecord = VoteRecord(voter: Id, value: int, weight: int)

  /** A HAS_EVIDENCE relationship from a claim to `source`. */
  datatype EvidenceLink = EvidenceLink(source: Id, addedBy: Id)

  /** A snapshot of the whole store. A claim's evidence links and votes are
      kept in the order they were created; a claim with none has no entry or
      an empty one. */
  datatype Graph = Graph(
    persons: map<Id, Person>,
    events: map<Id, Event>,
    claims: map<Id, Claim>,
    sources: map<Id, Source>,
    users: map<Id, User>,
    evidence: map<Id, seq<EvidenceLink>>,
    votes: map<Id, seq<VoteRecord>>)

  /** The evidence links of claim `k`. */
  function LinksOf(g: Graph, k: Id): seq<EvidenceLink> {
    if k in g.evidence then g.evidence[k] else []
  }

  /** The votes on claim `k`. */
  function VotesOf(g: Graph, k: Id): seq<VoteRecord> {
    if k in g.votes then g.votes[k] else []
  }

  // ---------------------------------------------------------------- votes

  /** Sum of the weights of the votes whose value is 1. */
  function UpW(vs: seq<VoteRecord>): int {
    if vs == [] then 0 else (if vs[0].value == 1 then vs[0].weight else 0) + UpW(vs[1..])
  }

  /** Sum of the weights of the votes whose value is -1. */
  function DownW(vs: seq<VoteRecord>): int {
    if vs == [] then 0 else (if vs[0].value == -1 then vs[0].weight else 0) + DownW(vs[1..])
  }

  function VoterIds(vs: seq<VoteRecord>): (r: seq<Id>)
    ensures |r| == |vs| && forall i :: 0 <= i < |vs| ==> r[i] == vs[i].voter
  {
    if vs == [] then [] else [vs[0].voter] + VoterIds(vs[1..])
  }

  /** Each user has at most one vote on the claim. */
  predicate OneVotePerUser(vs: seq<VoteRecord>) {
    NoDups(VoterIds(vs))
  }

  /** The vote count `count(DISTINCT vx)`: one per vote relationship. */
  function Voters(vs: seq<VoteRecord>): nat {
    |vs|
  }

  /** With one vote per user, the vote count is the number of distinct
      voters. */
  lemma VotersAreDistinctUsers(vs: seq<VoteRecord>)
    requires OneVotePerUser(vs)
    ensures Voters(vs) == |Distinct(VoterIds(vs))|
  {
    DistinctOfNoDups(VoterIds(vs));
  }

  /** The votes of everybody but `u`. */
  function Without(vs: seq<VoteRecord>, u: Id): (r: seq<VoteRecord>)
    ensures forall i :: 0 <= i < |r| ==> r[i].voter != u && r[i] in vs
  {
    if vs == [] then []
    else if vs[0].voter == u then Without(vs[1..], u)
    else [vs[0]] + Without(vs[1..], u)
  }

  /** MERGE of a (user, claim) vote: the user's existing vote is overwritten in
      place; a user with no vote gets a new one after all the others. */
  function Upsert(vs: seq<VoteRecord>, v: VoteRecord): seq<VoteRecord> {
    if vs == [] then [v]
    else if vs[0].voter == v.voter then [v] + vs[1..]
    else [vs[0]] + Upsert(vs[1..], v)
  }

  /** The status rule applied after each vote: APPROVED when score >= 6, at
      least 4 voters and at least one evidence source; REJECTED when
      score <= -6 and at least 4 voters; otherwise the status is kept. */
  function NextStatus(current: Status, score: int, voters: int, evidence: int): (r: Status)
    ensures r == Approved <==>
              (score >= 6 && voters >= 4 && evidence >= 1) ||
              (current == Approved && !(score <= -6 && voters >= 4))
    ensures r == Rejected <==>
              (score <= -6 && voters >= 4) ||
              (current == Rejected && !(score >= 6 && voters >= 4 && evidence >= 1))
    ensures r == Pending <==>
              current == Pending && !(score >= 6 && voters >= 4 && evidence >= 1) && !(score <= -6 && voters >= 4)
  {
    if score >= 6 && voters >= 4 && evidence >= 1 then Approved
    else if score <= -6 && voters >= 4 then Rejected
    else current
  }

  // -------------------------------------------------------------- evidence

  function SourceIds(links: seq<EvidenceLink>): (r: seq<Id>)
    ensures |r| == |links| && forall i :: 0 <= i < |links| ==> r[i] == links[i].source
  {
    if links == [] then [] else SourceIds(links[..|links| - 1]) + [links[|links| - 1].source]
  }

  /** MERGE of a (claim, source) evidence link: a link to a source that is
      already linked is left as it is. */
  function LinkEvidence(links: seq<EvidenceLink>, source: Id, addedBy: Id): seq<EvidenceLink> {
    if source in SourceIds(links) then links else links + [EvidenceLink(source, addedBy)]
  }

  /** The evidence count `count(DISTINCT sx)`. */
  function EvidenceCount(links: seq<EvidenceLink>): (n: nat)
    ensures n <= |links|
  {
    |Distinct(SourceIds(links))|
  }

  // ------------------------------------------------------- vote lemmas

  lemma {:induction false} WithoutAbsent(vs: seq<VoteRecord>, u: Id)
    requires u !in VoterIds(vs)
    ensures Without(vs, u) == vs
  {
    if vs != [] {
      assert VoterIds(vs) == [vs[0].voter] + VoterIds(vs[1..]);
      WithoutAbsent(vs[1..], u);
    }
  }

  lemma NoDupsAppend<T>(s: seq<T>, x: T)
    requires NoDups(s) && x !in s
    ensures NoDups(s + [x])
  {
  }

  /** An upsert keeps the voter list when the user already voted and
      appends the user otherwise. */
  lemma {:induction false} UpsertVoterIds(vs: seq<VoteRecord>, v: VoteRecord)
    ensures VoterIds(Upsert(vs, v)) == if v.voter in VoterIds(vs) then VoterIds(vs) else VoterIds(vs) + [v.voter]
  {
    if vs != [] {
      assert VoterIds(vs) == [vs[0].voter] + VoterIds(vs[1..]);
      if vs[0].voter == v.voter {
        assert VoterIds(Upsert(vs, v)) == [v.voter] + VoterIds(vs[1..]);
      } else {
        UpsertVoterIds(vs[1..], v);
        assert VoterIds(Upsert(vs, v)) == [vs[0].voter] + VoterIds(Upsert(vs[1..], v));
      }
    }
  }

  /** After an upsert the voters are the old voters plus `v.voter`, still one
      vote each, and the vote count grows only for a first-time voter. */
  lemma UpsertVoters(vs: seq<VoteRecord>, v: VoteRecord)
    requires OneVotePerUser(vs)
    ensures OneVotePerUser(Upsert(vs, v))
    ensures forall u :: u in VoterIds(Upsert(vs, v)) <==> u in VoterIds(vs) || u == v.voter
    ensures |Upsert(vs, v)| == if v.voter in VoterIds(vs) then |vs| else |vs| + 1
  {
    UpsertVoterIds(vs, v);
    if v.voter !in VoterIds(vs) {
      NoDupsAppend(VoterIds(vs), v.voter);
    }
  }

  /** The user's vote after an upsert is exactly `v`, and nobody else's
      vote changes. */
  lemma {:induction false} UpsertRecordsVote(vs: seq<VoteRecord>, v: VoteRecord)
    requires OneVotePerUser(vs)
    ensures v in Upsert(vs, v)
    ensures forall i :: 0 <= i < |Upsert(vs, v)| && Upsert(vs, v)[i].voter == v.voter ==> Upsert(vs, v)[i] == v
    ensures Without(Upsert(vs, v), v.voter) == Without(vs, v.voter)
  {
    if vs != [] {
      assert VoterIds(vs) == [vs[0].voter] + VoterIds(vs[1..]);
      assert OneVotePerUser(vs[1..]);
      if vs[0].voter != v.voter {
        UpsertRecordsVote(vs[1..], v);
        assert Upsert(vs, v) == [vs[0]] + Upsert(vs[1..], v);
      } else {
        assert forall i :: 1 <= i < |vs| ==> vs[i].voter != v.voter by {
          assert forall i :: 1 <= i < |vs| ==> VoterIds(vs)[i] == vs[i].voter;
        }
        assert Without([v] + vs[1..], v.voter) == Without(vs[1..], v.voter);
      }
    }
  }

  /** A re-vote supersedes the earlier vote of the same user: the live vote
      set is the one the second vote alone would give. */
  lemma {:induction false} RevoteSupersedes(vs: seq<VoteRecord>, v1: VoteRecord, v2: VoteRecord)
    requires v1.voter == v2.voter
    ensures Upsert(Upsert(vs, v1), v2) == Upsert(vs, v2)
  {
    if vs != [] && vs[0].voter != v1.voter {
      RevoteSupersedes(vs[1..], v1, v2);
    }
  }

  /** The upserted vote is always among the votes, whatever was there. */
  lemma {:induction false} UpsertHasVote(vs: seq<VoteRecord>, v: VoteRecord)
    ensures v in Upsert(vs, v)
  {
    if vs != [] && vs[0].voter != v.voter {
      UpsertHasVote(vs[1..], v);
    }
  }

  /** Casting the same vote twice changes nothing the second time. */
  lemma UpsertIdempotent(vs: seq<VoteRecord>, v: VoteRecord)
    ensures Upsert(Upsert(vs, v), v) == Upsert(vs, v)
  {
    RevoteSupersedes(vs, v, v);
  }

  /** Recomputing from scratch after an upsert gives the weights of all the
      other voters plus the new vote's own contribution. */
  lemma {:induction false} UpsertWeights(vs: seq<VoteRecord>, v: VoteRecord)
    requires OneVotePerUser(vs)
    ensures UpW(Upsert(vs, v)) == UpW(Without(vs, v.voter)) + (if v.value == 1 then v.weight else 0)
    ensures DownW(Upsert(vs, v)) == DownW(Without(vs, v.voter)) + (if v.value == -1 then v.weight else 0)
  {
    if vs != [] {
      assert VoterIds(vs) == [vs[0].voter] + VoterIds(vs[1..]);
      assert OneVotePerUser(vs[1..]);
      if vs[0].voter == v.voter {
        WithoutAbsent(vs[1..], v.voter);
        assert Upsert(vs, v)[1..] == vs[1..];
      } else {
        UpsertWeights(vs[1..], v);
        assert Upsert(vs, v)[1..] == Upsert(vs[1..], v);
        assert Without(vs, v.voter)[1..] == Without(vs[1..], v.voter);
      }
    }
  }

  // --------------------------------------------------- evidence lemmas

  /** Linking evidence appends `source` to the linked sources unless it is
      already among them. */
  lemma LinkEvidenceSources(links: seq<EvidenceLink>, source: Id, addedBy: Id)
    ensures SourceIds(LinkEvidence(links, source, addedBy)) ==
              if source in SourceIds(links) then SourceIds(links) else SourceIds(links) + [source]
  {
    if source !in SourceIds(links) {
      assert (links + [EvidenceLink(source, addedBy)])[..|links|] == links;
    }
  }

  /** With distinct linked sources, the distinct count is the link count. */
  lemma EvidenceCountIsLinkCount(links: seq<EvidenceLink>)
    requires NoDups(SourceIds(links))
    ensures EvidenceCount(links) == |links|
  {
    DistinctOfNoDups(SourceIds(links));
  }

  /** Linking evidence keeps the sources distinct, and the distinct count
      grows only when `source` was not linked yet. */
  lemma LinkEvidenceCount(links: seq<EvidenceLink>, source: Id, addedBy: Id)
    requires NoDups(SourceIds(links))
    ensures NoDups(SourceIds(LinkEvidence(links, source, addedBy)))
    ensures EvidenceCount(LinkEvidence(links, source, addedBy)) ==
              if source in SourceIds(links) then EvidenceCount(links) else EvidenceCount(links) + 1
  {
    var after := LinkEvidence(links, source, addedBy);
    LinkEvidenceSources(links, source, addedBy);
    if source !in SourceIds(links) {
      NoDupsAppend(SourceIds(links), source);
    }
    EvidenceCountIsLinkCount(links);
    EvidenceCountIsLinkCount(after);
  }

  /** Linking evidence and storing the new distinct count keeps a claim's
      aggregates consistent. */
  lemma LinkEvidenceConsistent(c: Claim, links: seq<EvidenceLink>, vs: seq<VoteRecord>, source: Id, addedBy: Id)
    requires Consistent(c, links, vs)
    ensures var after := LinkEvidence(links, source, addedBy);
      Consistent(c.(evidenceCount := EvidenceCount(after)), after, vs)
  {
    LinkEvidenceCount(links, source, addedBy);
  }

  /** Attaching the same source again changes nothing, whoever attaches it. */
  lemma LinkEvidenceIdempotent(links: seq<EvidenceLink>, source: Id, u1: Id, u2: Id)
    ensures LinkEvidence(LinkEvidence(links, source, u1), source, u2) == LinkEvidence(links, source, u1)
  {
    if source !in SourceIds(links) {
      assert SourceIds(links + [EvidenceLink(source, u1)]) == SourceIds(links) + [source];
    }
  }

  // ------------------------------------------------------------ invariants

  /** A claim's stored aggregates agree with its live votes and evidence. */
  predicate Consistent(c: Claim, links: seq<EvidenceLink>, vs: seq<VoteRecord>) {
    NoDups(SourceIds(links)) && OneVotePerUser(vs) &&
    c.evidenceCount == EvidenceCount(links) &&
    c.upWeight == UpW(vs) && c.downWeight == DownW(vs) &&
    c.uniqueVoters == Voters(vs) &&
    c.score == Some(UpW(vs) - DownW(vs)) &&
    (c.status == Approved ==> c.evidenceCount >= 1)
  }

  /** Every node is stored under its own id. */
  ghost predicate Keyed(g: Graph) {
    (forall k :: k in g.persons ==> g.persons[k].id == k) &&
    (forall k :: k in g.events ==> g.events[k].id == k) &&
    (forall k :: k in g.sources ==> g.sources[k].id == k) &&
    (forall k :: k in g.users ==> g.users[k].id == k)
  }

  /** Every claim is stored under its own id. */
  ghost predicate ClaimsKeyed(g: Graph) {
    forall k :: k in g.claims ==> g.claims[k].id == k
  }

  /** Claim `k` has an evidence list and a vote list, is stored under its
      id, its links lead to existing nodes, and its aggregates are consistent
      with its votes and evidence. */
  ghost predicate ClaimOk(g: Graph, k: Id) {
    k in g.claims && k in g.evidence && k in g.votes &&
    var c := g.claims[k];
    c.id == k && c.personId in g.persons && c.eventId in g.events &&
    (forall s :: s in SourceIds(g.evidence[k]) ==> s in g.sources) &&
    (forall u :: u in VoterIds(g.votes[k]) ==> u in g.users) &&
    Consistent(c, g.evidence[k], g.votes[k])
  }

  /** The invariant of a store written only through the claim ledger: every
      claim has an evidence list and a vote list, and is in order. */
  ghost predicate GraphValid(g: Graph) {
    Keyed(g) &&
    forall k {:trigger ClaimOk(g, k)} :: k in g.claims ==> ClaimOk(g, k)
  }

  /** A valid store keeps its claims under their ids. */
  lemma ValidClaimsKeyed(g: Graph)
    requires GraphValid(g)
    ensures ClaimsKeyed(g)
  {
    forall k | k in g.claims
      ensures g.claims[k].id == k
    {
      assert ClaimOk(g, k);
    }
  }

  /** Storing one claim `c` under `k`, with its evidence links and votes, keeps
      a valid store valid when the claim itself is in order. */
  lemma SetClaimValid(g: Graph, k: Id, c: Claim, links: seq<EvidenceLink>, vs: seq<VoteRecord>)
    requires GraphValid(g)
    requires c.id == k && c.personId in g.persons && c.eventId in g.events
    requires forall s :: s in SourceIds(links) ==> s in g.sources
    requires forall u :: u in VoterIds(vs) ==> u in g.users
    requires Consistent(c, links, vs)
    ensures GraphValid(g.(claims := g.claims[k := c], evidence := g.evidence[k := links], votes := g.votes[k := vs]))
  {
    var h := g.(claims := g.claims[k := c], evidence := g.evidence[k := links], votes := g.votes[k := vs]);
    assert Keyed(h);
    forall j | j in h.claims
      ensures ClaimOk(h, j)
    {
      if j != k {
        assert ClaimOk(g, j);
      }
    }
  }

  /** A store that only gained or replaced nodes, with its claims, evidence
      and votes unchanged, is still valid. */
  lemma GraphValidNodes(g: Graph, h: Graph)
    requires GraphValid(g) && Keyed(h)
    requires g.persons.Keys <= h.persons.Keys && g.events.Keys <= h.events.Keys
    requires g.sources.Keys <= h.sources.Keys && g.users.Keys <= h.users.Keys
    requires h.claims == g.claims && h.evidence == g.evidence && h.votes == g.votes
    ensures GraphValid(h)
  {
    forall j | j in h.claims
      ensures ClaimOk(h, j)
    {
      assert ClaimOk(g, j);
    }
  }
}
