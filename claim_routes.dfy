/** The claim routes: request validation, the vote weight of a role, the
    evidence source's id and properties, and the three handlers, each run
    after the request hook that makes sure the development user exists. */
module ClaimRoutes {
  import opened Common
  import opened Store
  import opened ClaimsCypher

  /** Every write is attributed to this user until authentication exists. */
  const DevUserId: Id := "user:dev"

  /** The user the request hook creates when it is missing. */
  const DevUser: User := User(DevUserId, "Dev User", Mod, 10)

  /** The vote weight of the route's voter (the development user is a MOD). */
  const RouteVoteWeight: int := 3

  // ------------------------------------------------------------- weights

  /** The privilege order of roles. */
  function RoleRank(role: Role): nat {
    match role
    case UserRole => 0
    case Trusted => 1
    case Mod => 2
  }

  /** A MOD's vote weighs 3, a TRUSTED user's 2, anyone else's 1. */
  function VoteWeightForRole(role: Role): (w: int)
    ensures 1 <= w <= 3
  {
    if role == Mod then 3
    else if role == Trusted then 2
    else 1
  }

  /** Weight grows strictly with privilege: each role has its own weight. */
  lemma WeightFollowsRank(r1: Role, r2: Role)
    ensures RoleRank(r1) < RoleRank(r2) <==> VoteWeightForRole(r1) < VoteWeightForRole(r2)
    ensures VoteWeightForRole(r1) == VoteWeightForRole(r2) ==> r1 == r2
  {
  }

  /** The development user votes with a MOD's weight. */
  lemma RouteWeightIsMod()
    ensures RouteVoteWeight == VoteWeightForRole(DevUser.role)
  {
  }

  // ---------------------------------------------------------- validation

  /** A string field that is present and not empty (`z.string().min(1)`). */
  predicate NonEmpty(f: Option<string>) {
    f.Some? && f.value != ""
  }

  datatype CreateClaimBody = CreateClaimBody(personId: Option<string>, eventId: Option<string>, relationshipType: Option<string>)

  datatype ClaimRequest = ClaimRequest(personId: Id, eventId: Id, relationshipType: string)

  /** CreateClaimBody: all three fields present and non-empty. */
  function ParseCreateClaim(b: CreateClaimBody): (r: Reply<ClaimRequest>)
    ensures r.Ok? || r.BadRequest?
    ensures r.Ok? <==> NonEmpty(b.personId) && NonEmpty(b.eventId) && NonEmpty(b.relationshipType)
    ensures r.Ok? ==> r.body.personId == b.personId.value && r.body.eventId == b.eventId.value &&
                      r.body.relationshipType == b.relationshipType.value && r.body.personId != ""
  {
    if NonEmpty(b.personId) && NonEmpty(b.eventId) && NonEmpty(b.relationshipType) then
      Ok(ClaimRequest(b.personId.value, b.eventId.value, b.relationshipType.value))
    else BadRequest
  }

  /** VoteBody: the JSON number must be exactly 1 or -1. */
  function ParseVote(value: Option<real>): (r: Reply<int>)
    ensures r.Ok? || r.BadRequest?
    ensures r.Ok? <==> value == Some(1.0) || value == Some(-1.0)
    ensures r.Ok? ==> (r.body == 1 || r.body == -1) && r.body as real == value.value
  {
    if value == Some(1.0) then Ok(1)
    else if value == Some(-1.0) then Ok(-1)
    else BadRequest
  }

  /** The accepted values of `sourceType`. */
  const SourceTypes: set<string> := {"NEWS", "BOOK", "PAPER", "WIKIDATA", "ARCHIVE", "OTHER"}

  datatype EvidenceBody = EvidenceBody(sourceType: Option<string>, title: Option<string>, url: Option<string>,
                                       publisher: Option<string>, author: Option<string>, publishedAt: Option<string>)

  /** AddEvidenceBody. Whether a string is a URL or an ISO date-time is
      decided by `isUrl` and `isDateTime`. */
  function ParseEvidence(b: EvidenceBody, isUrl: string -> bool, isDateTime: string -> bool): (r: Reply<EvidenceBody>)
    ensures r.Ok? || r.BadRequest?
    ensures r.Ok? <==>
      b.sourceType.Some? && b.sourceType.value in SourceTypes && NonEmpty(b.title) &&
      (b.url.None? || isUrl(b.url.value)) && (b.publishedAt.None? || isDateTime(b.publishedAt.value))
    ensures r.Ok? ==> r.body == b
  {
    if b.sourceType.Some? && b.sourceType.value in SourceTypes && NonEmpty(b.title) &&
       (b.url.None? || isUrl(b.url.value)) && (b.publishedAt.None? || isDateTime(b.publishedAt.value))
    then Ok(b)
    else BadRequest
  }

  // -------------------------------------------------------------- sources

  /** The source key: derived from the URL when one is given (a non-empty
      string), otherwise from `drawn`, an id drawn at random. */
  function SourceIdFor(url: Option<string>, drawn: string): (id: Id)
    ensures NonEmpty(url) ==> id == "src:url:" + url.value
    ensures !NonEmpty(url) ==> id == "src:" + drawn
  {
    if NonEmpty(url) then "src:url:" + url.value else "src:" + drawn
  }

  /** The same URL always names the same source, different URLs different
      sources, and a URL-derived key never equals a fresh one unless the
      fresh id itself starts with `url:`. */
  lemma SourceIdsByUrl(u1: string, u2: string, f1: string, f2: string)
    requires u1 != "" && u2 != ""
    ensures SourceIdFor(Some(u1), f1) == SourceIdFor(Some(u2), f2) <==> u1 == u2
    ensures |f2| < 4 || f2[..4] != "url:" ==> SourceIdFor(Some(u1), f1) != SourceIdFor(None, f2)
  {
    var a := "src:url:" + u1;
    var b := "src:url:" + u2;
    if a == b {
      assert u1 == a[8..] && u2 == b[8..];
    }
    var c := "src:" + f2;
    if a == c {
      assert |f2| >= 4 && f2[..4] == c[4..8] == a[4..8];
    }
  }

  /** An optional field is stored when it is present and not empty (a
      JavaScript truthiness test). */
  predicate OptionalProp(props: map<string, string>, key: string, f: Option<string>) {
    (key in props <==> NonEmpty(f)) && (NonEmpty(f) ==> props[key] == f.value)
  }

  /** The source node's properties: `sourceType` and `title` always, each
      optional field only when supplied with a non-empty value, and nothing
      else. */
  ghost predicate SourcePropsOf(b: EvidenceBody, props: map<string, string>)
    requires b.sourceType.Some? && b.title.Some?
  {
    props.Keys <= {"sourceType", "title", "url", "publisher", "author", "publishedAt"} &&
    "sourceType" in props && props["sourceType"] == b.sourceType.value &&
    "title" in props && props["title"] == b.title.value &&
    OptionalProp(props, "url", b.url) && OptionalProp(props, "publisher", b.publisher) &&
    OptionalProp(props, "author", b.author) && OptionalProp(props, "publishedAt", b.publishedAt)
  }

  /** The body determines the properties completely. */
  lemma SourcePropsUnique(b: EvidenceBody, p1: map<string, string>, p2: map<string, string>)
    requires b.sourceType.Some? && b.title.Some?
    requires SourcePropsOf(b, p1) && SourcePropsOf(b, p2)
    ensures p1 == p2
  {
    assert p1.Keys == p2.Keys;
    forall k | k in p1
      ensures p1[k] == p2[k]
    {
    }
  }

  /** Builds the properties field by field, as the route does. */
  method BuildSourceProps(b: EvidenceBody) returns (props: map<string, string>)
    requires b.sourceType.Some? && b.title.Some?
    ensures SourcePropsOf(b, props)
  {
    props := map["sourceType" := b.sourceType.value, "title" := b.title.value];
    if NonEmpty(b.url) {
      props := props["url" := b.url.value];
    }
    if NonEmpty(b.publisher) {
      props := props["publisher" := b.publisher.value];
    }
    if NonEmpty(b.author) {
      props := props["author" := b.author.value];
    }
    if NonEmpty(b.publishedAt) {
      props := props["publishedAt" := b.publishedAt.value];
    }
  }

  // ------------------------------------------------------------- handlers

  /** The store after the request hook: the development user is added when
      missing, as "Dev User", a MOD of reputation 10, and an existing user is
      left as it is; nothing else of the store changes. */
  function WithDevUser(g: Graph): (h: Graph)
    ensures DevUserId in h.users
    ensures DevUserId in g.users ==> h == g
    ensures DevUserId !in g.users ==>
      h.users[DevUserId] == User(DevUserId, "Dev User", Mod, 10) && h.users.Keys == g.users.Keys + {DevUserId}
    ensures forall u :: u in g.users ==> h.users[u] == g.users[u]
    ensures h.claims == g.claims && h.persons == g.persons && h.events == g.events &&
            h.sources == g.sources && h.evidence == g.evidence && h.votes == g.votes
  {
    if DevUserId in g.users then g else g.(users := g.users[DevUserId := DevUser])
  }

  /** The request hook: MERGE the development user. */
  method OnRequest(ledger: Ledger)
    modifies ledger
    ensures old(ledger.Valid()) ==> ledger.Valid()
    ensures ledger.View() == WithDevUser(old(ledger.View()))
  {
    var _ := ledger.MergeUser(DevUserId, DevUser.displayName, DevUser.role, DevUser.reputation);
  }

  /** POST /claims/person-event. `claimId` is the freshly drawn id. */
  method PostClaim(ledger: Ledger, body: CreateClaimBody, claimId: Id) returns (reply: Reply<Option<Claim>>)
    requires claimId !in ledger.claims
    modifies ledger
    ensures old(ledger.Valid()) ==> ledger.Valid()
    ensures ParseCreateClaim(body).BadRequest? ==>
      reply == BadRequest && ledger.View() == WithDevUser(old(ledger.View()))
    ensures ParseCreateClaim(body).Ok? ==>
      var q := ParseCreateClaim(body).body;
      var before := WithDevUser(old(ledger.View()));
      ledger.View() == CreateClaimOn(before, claimId, q.personId, q.eventId, q.relationshipType, DevUserId) &&
      reply == Ok(Row(ledger.View(), claimId, q.personId in before.persons && q.eventId in before.events))
  {
    OnRequest(ledger);
    var parsed := ParseCreateClaim(body);
    if !parsed.Ok? {
      return BadRequest;
    }
    var q := parsed.body;
    var row := ledger.CreateClaim(claimId, q.personId, q.eventId, q.relationshipType, DevUserId);
    reply := Ok(row);
  }

  /** POST /claims/:claimId/evidence. `drawn` is the freshly drawn id used
      when no URL is given. */
  method PostEvidence(ledger: Ledger, claimId: string, body: EvidenceBody, drawn: string,
                      isUrl: string -> bool, isDateTime: string -> bool)
    returns (reply: Reply<Option<Claim>>)
    modifies ledger
    ensures old(ledger.Valid()) ==> ledger.Valid()
    ensures claimId == "" || ParseEvidence(body, isUrl, isDateTime).BadRequest? ==>
      reply == BadRequest && ledger.View() == WithDevUser(old(ledger.View()))
    ensures claimId != "" && ParseEvidence(body, isUrl, isDateTime).Ok? ==>
      exists props :: SourcePropsOf(body, props) &&
        ledger.View() == AddEvidenceOn(WithDevUser(old(ledger.View())), claimId, SourceIdFor(body.url, drawn), props, DevUserId) &&
        reply == Ok(Row(ledger.View(), claimId, claimId in old(ledger.claims)))
  {
    OnRequest(ledger);
    if claimId == "" || !ParseEvidence(body, isUrl, isDateTime).Ok? {
      return BadRequest;
    }
    var sourceId := SourceIdFor(body.url, drawn);
    var props := BuildSourceProps(body);
    var row := ledger.AddEvidence(claimId, sourceId, props, DevUserId);
    reply := Ok(row);
  }

  /** POST /claims/:claimId/vote: the development user's vote, with a
      MOD's weight. */
  method PostVote(ledger: Ledger, claimId: string, value: Option<real>) returns (reply: Reply<Option<Claim>>)
    modifies ledger
    ensures old(ledger.Valid()) ==> ledger.Valid()
    ensures claimId == "" || ParseVote(value).BadRequest? ==>
      reply == BadRequest && ledger.View() == WithDevUser(old(ledger.View()))
    ensures claimId != "" && ParseVote(value).Ok? ==>
      ledger.View() == CastVoteOn(WithDevUser(old(ledger.View())), DevUserId, claimId, ParseVote(value).body, RouteVoteWeight) &&
      reply == Ok(Row(ledger.View(), claimId, claimId in old(ledger.claims)))
  {
    OnRequest(ledger);
    var parsed := ParseVote(value);
    if claimId == "" || !parsed.Ok? {
      return BadRequest;
    }
    var row := ledger.CastVote(DevUserId, claimId, parsed.body, VoteWeightForRole(Mod));
    reply := Ok(row);
  }

  /** A valid vote on an existing claim is always recorded: the hook has
      made sure its voter exists, so the claim comes back carrying the
      development user's vote of weight 3 and nothing is refused. */
  lemma VoteRouteRecords(g: Graph, claimId: Id, value: int)
    requires claimId in g.claims
    ensures var h := CastVoteOn(WithDevUser(g), DevUserId, claimId, value, RouteVoteWeight);
      VoteRecord(DevUserId, value, RouteVoteWeight) in VotesOf(h, claimId) &&
      Row(h, claimId, true) == Some(h.claims[claimId]) &&
      h.claims[claimId].uniqueVoters >= 1
  {
    var g1 := WithDevUser(g);
    var v := VoteRecord(DevUserId, value, RouteVoteWeight);
    UpsertHasVote(VotesOf(g1, claimId), v);
  }
}
