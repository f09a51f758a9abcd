# World graph: claim ledger, neighbourhood queries and graph analysis

This project is a Dafny model of the core of *world-graph*, a knowledge graph of
people and historical events. People and events are linked by **claims**
(`Person -CLAIM_SUBJECT-> Claim -CLAIM_OBJECT-> Event`). Claims collect
evidence **sources** and weighted **votes**. A claim starts PENDING. Its
aggregates (`upWeight`, `downWeight`, `uniqueVoters`, `score`) are recomputed
from scratch after every vote, and threshold rules move it to APPROVED or
REJECTED. Read queries expand a person's or an event's two-hop neighbourhood
through qualifying claims. The HTTP routes validate query parameters and
reshape the rows into `{nodes, edges}`. The web client ranks events and
co-participants of a focus person.

Modules, one per source file:

- `Common`: sequences as the queries use them. It covers `DISTINCT`
  collection, prefix truncation, a stable descending sort standing for
  `ORDER BY … DESC`, filters and maps.
- `Store`: the graph's entities, and the pure vote and evidence bookkeeping
  the Cypher statements perform. That is the upsert of one vote per user, the
  weight sums, the status rule and the distinct evidence count. Dates are
  integers: year × 372 + (month − 1) × 31 + (day − 1).
- `ClaimsCypher` (`claims.cypher.ts`): the store is the class `Ledger`, whose
  map fields the three write statements update in place. Each method is proved
  against a pure function over the value `View()`. Lemmas state what the
  statements promise: creation, evidence upsert and count, vote upsert and
  recomputation, the status rule, idempotence, and that the store's validity
  invariant is kept.
- `ClaimRoutes` (`claims.ts`): body validation, the role-to-weight map, the
  source-id rule, the conditional building of `sourceProps`, the dev-user hook
  and the three POST handlers.
- `GraphCypher` (`graph.cypher.ts`): the person and event neighbourhood graph
  queries. The store's natural enumeration order of claims is an input
  sequence `order`.
- `PeopleCypher` (`people.cypher.ts`): the filtered person neighbourhood, the
  ranked connections and the "why connected" rows with evidence previews.
- `GraphDto`, `QueryParams`, `PeopleRoutes`, `EventsRoutes` (`people.ts`,
  `events.ts`): the `{nodes, edges}` view, the zod query schemas as
  `Reply` values (400 / 404 / 200), and the routes.
- `GraphAnalysis` (`graphAnalysis.ts`): `analyzeGraph`. The loops become
  methods proved against reference functions. A JavaScript `Map` with
  insertion order becomes `Scores(keys, total)`. Lemmas give event scores,
  shared-event person scores, the top-5 and top-8 rankings and the summary
  sentence.

Notes on faithfulness:

- In the person neighbourhood graph's edge pass, `s = center OR s IN people
  AND (…pending filter…)` parses as `s = center OR (s IN people AND …)`. The
  model keeps this: the center's own claims on the chosen events become edges
  even when PENDING (`GraphCypher.CenterEdgesUnfiltered`).
- In the "why connected" query, one might expect the best claim on each side
  of each shared event. The code does no such selection: it returns one row
  per matching (event, claimA, claimB), and the model follows the code. Cypher's relationship uniqueness gives `ca ≠ cb`, which
  matters only when both ids name the same person.
- The status is not sticky. The two status updates run after every vote, so
  an APPROVED claim can become REJECTED
  (`ClaimsCypher.ApprovedCanBecomeRejected`, `ClaimsCypher.ApprovedRejectedWhen`).
- The routes read `includePending` with `z.coerce.boolean()`, JavaScript's
  `Boolean(…)` of the query string (`QueryParams.CoerceBoolean`). So
  `?includePending=false` switches pending claims on. The model keeps this in
  every route; the intended reading is `QueryParams.ParseFlag` (see Findings).
- The write methods do not require a valid store. A store seeded with claims
  whose stored aggregates disagree with their votes is accepted as it is; the
  methods promise only that a valid store stays valid.

## Model

| member | source | states |
|---|---|---|
| ClaimsCypher.Ledger.CreateClaim | apps/api/src/cypher/claims.cypher.ts:1-20 | the store after the call is the claim-creation function applied to the old store; a row comes back exactly when both person and event exist; a valid store stays valid |
| ClaimsCypher.CreateClaimEffect | apps/api/src/cypher/claims.cypher.ts:2-18 | the claim exists iff the person and the event exist, otherwise nothing changes; a new claim is PENDING, with score 0, zero aggregates, no evidence or votes, the given subject and object; every other claim and its evidence and votes are untouched, and persons, events, sources and users are unchanged |
| ClaimsCypher.CreateClaimValid | apps/api/src/cypher/claims.cypher.ts:1-20 | creating a claim keeps the store's validity invariant |
| Store.ValidClaimsKeyed | apps/api/src/cypher/claims.cypher.ts:4-5 | a valid store keeps each claim under its own id |
| ClaimsCypher.Ledger.AddEvidence | apps/api/src/cypher/claims.cypher.ts:22-33 | the store after the call is the evidence function applied to the old store; a row comes back exactly when the claim exists; a valid store stays valid |
| ClaimsCypher.MergeSourceValid | apps/api/src/cypher/claims.cypher.ts:24-25 | merging the source keeps validity, makes the source exist, and loses no source |
| ClaimsCypher.AddEvidenceEffect | apps/api/src/cypher/claims.cypher.ts:23-31 | for any claim whose evidence count agrees with its distinct links, whatever its vote aggregates: the source exists afterwards: an existing one keeps its properties, a new one carries exactly the given props; the claim links the source; evidenceCount is the number of linked sources and grows by one only for a new source; no other claim field changes; other claims and their links, the votes, persons, events and users are unchanged |
| ClaimsCypher.AddEvidenceOnParts | apps/api/src/cypher/claims.cypher.ts:22-33 | the whole store after adding evidence to an existing claim: only that claim's evidenceCount, its links and (for a new source) the sources change |
| ClaimsCypher.AddEvidenceFrame | apps/api/src/cypher/claims.cypher.ts:22-33 | adding evidence leaves other claims, their links, the votes, persons, events and users alone, and a new source carries exactly the given props |
| ClaimsCypher.AddEvidenceIdempotent | apps/api/src/cypher/claims.cypher.ts:24-31 | adding the same evidence twice leaves the store as after once |
| ClaimsCypher.AddEvidenceValid | apps/api/src/cypher/claims.cypher.ts:22-33 | adding evidence keeps the validity invariant |
| ClaimsCypher.EvidenceDoesNotApprove | apps/api/src/cypher/claims.cypher.ts:22-33 | adding evidence never changes the claim's status |
| ClaimsCypher.Ledger.CastVote | apps/api/src/cypher/claims.cypher.ts:35-64 | the store after the call is the vote function applied to the old store; a row comes back exactly when user and claim exist; a valid store stays valid |
| ClaimsCypher.CastVoteEffect | apps/api/src/cypher/claims.cypher.ts:39-62 | one vote per user, which now holds the new value and weight, with other votes kept; upWeight and downWeight are the sums over the live votes with value 1 and −1; uniqueVoters is the number of distinct voters; score = up − down; status follows the threshold rule; other claims and their votes, evidence, sources, persons, events and users unchanged |
| ClaimsCypher.CastVoteFrame | apps/api/src/cypher/claims.cypher.ts:35-64 | a vote leaves other claims, the votes on them, evidence, sources, persons, events and users alone |
| ClaimsCypher.CastVoteIdempotent | apps/api/src/cypher/claims.cypher.ts:39-62 | casting the same vote twice leaves the store as after once |
| ClaimsCypher.RevoteSupersedesOn | apps/api/src/cypher/claims.cypher.ts:39-43 | a user's re-vote overwrites their earlier vote: the vote set is as if only the second vote had been cast |
| ClaimsCypher.CastVoteValid | apps/api/src/cypher/claims.cypher.ts:35-64 | voting keeps the validity invariant (one vote per user, aggregates consistent) |
| ClaimsCypher.ApprovedCanBecomeRejected | apps/api/src/cypher/claims.cypher.ts:56-62 | example of ApprovedRejectedWhen: an APPROVED claim reaching score −6 with 4 voters becomes REJECTED (status is not sticky) |
| ClaimsCypher.ApprovedRejectedWhen | apps/api/src/cypher/claims.cypher.ts:56-62 | a vote turns an APPROVED claim REJECTED iff, with the vote recorded, up − down ≤ −6 and there are at least 4 voters; otherwise it stays APPROVED |
| ClaimsCypher.Ledger.MergeUser | apps/api/src/routes/claims.ts:42-51 | MERGE on user id: an existing user is returned unchanged with the store untouched, otherwise the user is created with the given fields; a valid store stays valid |
| Store.NextStatus | apps/api/src/cypher/claims.cypher.ts:56-62 | APPROVED iff score ≥ 6, voters ≥ 4 and evidence ≥ 1, or already APPROVED and the reject rule does not fire; REJECTED iff score ≤ −6 and voters ≥ 4, or already REJECTED and the approve rule does not fire; PENDING otherwise |
| Store.UpsertVoterIds | apps/api/src/cypher/claims.cypher.ts:39-43 | a vote by a user who already voted keeps the voter list; a new voter is appended |
| Store.UpsertVoters | apps/api/src/cypher/claims.cypher.ts:39-43 | the upsert keeps one vote per user; the voters are the old voters plus the new one; the count grows only for a new voter |
| Store.UpsertRecordsVote | apps/api/src/cypher/claims.cypher.ts:39-43 | after the upsert the user's only vote is the new one, and everyone else's votes are unchanged |
| Store.RevoteSupersedes | apps/api/src/cypher/claims.cypher.ts:39-43 | two upserts by the same user equal the second alone |
| Store.UpsertIdempotent | apps/api/src/cypher/claims.cypher.ts:39-43 | upserting the same vote twice equals upserting it once |
| Store.UpsertHasVote | apps/api/src/cypher/claims.cypher.ts:39-43 | the upserted vote is among the votes afterwards, whatever votes were there |
| Store.UpsertWeights | apps/api/src/cypher/claims.cypher.ts:46-49 | the up and down weight sums after the upsert are the others' sums plus the new vote's weight on its side |
| Store.VotersAreDistinctUsers | apps/api/src/cypher/claims.cypher.ts:50 | with one vote per user, the vote count equals the number of distinct voters |
| Store.LinkEvidenceSources | apps/api/src/cypher/claims.cypher.ts:26-27 | the MERGE of the evidence link appends the source only when not yet linked |
| Store.LinkEvidenceIdempotent | apps/api/src/cypher/claims.cypher.ts:26-27 | linking the same source twice keeps the first link (its addedBy is set only on creation) |
| Store.EvidenceCountIsLinkCount | apps/api/src/cypher/claims.cypher.ts:29-31 | with distinct linked sources, the distinct count is the number of links |
| Store.LinkEvidenceCount | apps/api/src/cypher/claims.cypher.ts:26-31 | linked sources stay distinct, and the distinct count grows by one exactly for a new source |
| Store.LinkEvidenceConsistent | apps/api/src/cypher/claims.cypher.ts:26-31 | setting evidenceCount to the new distinct count keeps the claim's aggregates consistent with its links and votes |
| Store.DateOf | apps/api/src/cypher/people.cypher.ts:7-8 | a date lies within its own year's window, from Jan 1 of the year up to Jan 1 of the next |
| Store.YearWindow | apps/api/src/cypher/people.cypher.ts:7-8 | comparing with Jan 1 of a year is comparing years: on or after Jan 1 of y iff the year ≥ y; before Jan 1 of y + 1 iff the year ≤ y |
| ClaimRoutes.VoteWeightForRole | apps/api/src/routes/claims.ts:34-38 | a vote weight always lies in [1, 3] |
| ClaimRoutes.WeightFollowsRank | apps/api/src/routes/claims.ts:34-38 | weight is strictly monotone in role rank (USER < TRUSTED < MOD) and distinct roles weigh differently |
| ClaimRoutes.RouteWeightIsMod | apps/api/src/routes/claims.ts:112-113 | the vote route's weight is the MOD weight, the dev user's role |
| ClaimRoutes.ParseCreateClaim | apps/api/src/routes/claims.ts:11-15 | 400 unless personId, eventId and relationshipType are all present and non-empty; on success they are passed through |
| ClaimRoutes.ParseVote | apps/api/src/routes/claims.ts:26-28 | accepted iff the value is exactly 1 or −1, and the accepted value is that number |
| ClaimRoutes.ParseEvidence | apps/api/src/routes/claims.ts:17-24 | accepted iff sourceType is one of the six kinds, title is non-empty, url (if given) is a URL and publishedAt (if given) a datetime; the body passes unchanged |
| ClaimRoutes.SourceIdFor | apps/api/src/routes/claims.ts:80-81 | with a non-empty url the id is `src:url:` + url, otherwise `src:` + a drawn id |
| ClaimRoutes.SourceIdsByUrl | apps/api/src/routes/claims.ts:80-81 | two url ids are equal iff the urls are, and a url id never equals a drawn id that does not itself start with `url:` |
| ClaimRoutes.BuildSourceProps | apps/api/src/routes/claims.ts:83-90 | the props always hold sourceType and title, and each optional field only when it was supplied non-empty |
| ClaimRoutes.SourcePropsUnique | apps/api/src/routes/claims.ts:83-90 | the props of a body are determined by the body |
| ClaimRoutes.WithDevUser | apps/api/src/routes/claims.ts:42-51 | the dev user exists afterwards; if it already existed nothing changes, otherwise it is created as "Dev User", role MOD, reputation 10; other users, claims, persons, events, sources, evidence and votes are untouched |
| ClaimRoutes.OnRequest | apps/api/src/routes/claims.ts:42-51 | the hook updates the store to the dev-user merge of the old store; a valid store stays valid |
| ClaimRoutes.PostClaim | apps/api/src/routes/claims.ts:53-72 | a bad body gives 400 with only the hook's effect; otherwise the claim is created by the dev user and the row is returned |
| ClaimRoutes.PostEvidence | apps/api/src/routes/claims.ts:74-104 | an empty claim id or a bad body gives 400 with only the hook's effect; otherwise evidence is added under the derived source id with the built props by the dev user, and the row is returned |
| ClaimRoutes.PostVote | apps/api/src/routes/claims.ts:106-127 | an empty claim id or a bad value gives 400 with only the hook's effect; otherwise the dev user votes with MOD weight and the row is returned |
| ClaimRoutes.VoteRouteRecords | apps/api/src/routes/claims.ts:106-127 | on any existing claim, valid or not, the route records the dev user's vote with weight 3, returns the claim, and leaves at least one voter |
| GraphCypher.Paths | apps/api/src/cypher/graph.cypher.ts:5 | the matched paths are exactly the claims whose person and event both exist |
| GraphCypher.Unwind | apps/api/src/cypher/graph.cypher.ts:11-13 | unwinding keeps exactly the paths whose key is among the unwound values and that pass the filter |
| GraphCypher.UnwindNoDups | apps/api/src/cypher/graph.cypher.ts:19-22 | unwinding distinct keys over distinct paths yields distinct paths |
| GraphCypher.PathByClaimId | apps/api/src/cypher/graph.cypher.ts:20 | with claims stored under their ids, a matched path is determined by its claim id |
| GraphCypher.PathsNoDups | apps/api/src/cypher/graph.cypher.ts:20 | with each claim enumerated once, the matched paths are distinct |
| GraphCypher.EdgeIdsDistinct | apps/api/src/cypher/graph.cypher.ts:28-35 | the edge records of distinct matched paths carry distinct claim ids |
| GraphCypher.NonEmptyUnwind | apps/api/src/cypher/graph.cypher.ts:11-15 | the unwind yields rows iff some path matches, so the aggregation yields a row only then |
| GraphCypher.CenterEventsSpec | apps/api/src/cypher/graph.cypher.ts:5-8 | the center's events are distinct, at most limitEvents, each reached by a qualifying claim of the center, and every such event is kept unless the limit is reached |
| GraphCypher.CoPeopleSpec | apps/api/src/cypher/graph.cypher.ts:11-15 | the people are distinct, at most limitPeople, never the center, each with a qualifying claim on one of the events, and every such person is kept unless the limit is reached |
| GraphCypher.PersonGraphNodes | apps/api/src/cypher/graph.cypher.ts:1-15 | a row's center is the stored person, its events and people are the two collections above, and no person is the center |
| GraphCypher.PersonGraphEdges | apps/api/src/cypher/graph.cypher.ts:18-22 | every edge targets one of the events and starts at the center or one of the people; an edge from another person obeys the pending filter |
| GraphCypher.CenterEdgesUnfiltered | apps/api/src/cypher/graph.cypher.ts:19-22 | every claim of the center on a chosen event is an edge, whatever its status (AND binds tighter than OR) |
| GraphCypher.PersonGraphEdgesComplete | apps/api/src/cypher/graph.cypher.ts:19-22 | every qualifying claim of one of the people on one of the events is an edge |
| GraphCypher.PersonGraphOneEdgePerClaim | apps/api/src/cypher/graph.cypher.ts:18-35 | with each claim enumerated once, no two edges carry the same claim id: one edge per matched claim |
| GraphCypher.PersonGraphRowExists | apps/api/src/cypher/graph.cypher.ts:1-36 | a row comes back iff the person exists and some other person has a qualifying claim on one of the center's events |
| GraphCypher.PersonGraphNoClaimNoRow | apps/api/src/cypher/graph.cypher.ts:5-8 | a center without qualifying claims yields no row |
| GraphCypher.ParticipantsSpec | apps/api/src/cypher/graph.cypher.ts:42-44 | the people are distinct, at most limitPeople, each with a qualifying claim on the center, and each such person is kept unless the limit is reached |
| GraphCypher.OtherEventsSpec | apps/api/src/cypher/graph.cypher.ts:47-50 | the events are distinct, at most limitEvents, never the center, each reached by a qualifying claim of one of the people, and each is kept unless the limit is reached |
| GraphCypher.EventGraphNodes | apps/api/src/cypher/graph.cypher.ts:39-50 | a row's center is the stored event, its people and events are the two collections above, and no event is the center |
| GraphCypher.EventGraphEdges | apps/api/src/cypher/graph.cypher.ts:55-61 | every edge starts at one of the people, targets the center or one of the events, and obeys the pending filter |
| GraphCypher.EventGraphEdgesComplete | apps/api/src/cypher/graph.cypher.ts:55-61 | every qualifying claim of one of the people on the center or one of the events is an edge |
| GraphCypher.EventGraphOneEdgePerClaim | apps/api/src/cypher/graph.cypher.ts:55-74 | with each claim enumerated once, no two edges carry the same claim id (the center is not among the events, so no claim is matched twice) |
| GraphCypher.EventGraphRowExists | apps/api/src/cypher/graph.cypher.ts:38-75 | a row comes back iff the event exists and one of its people has a qualifying claim on another event |
| PeopleCypher.AdmitsByYear | apps/api/src/cypher/people.cypher.ts:4-8 | a claim row passes the filters iff it passes the pending filter, score ≥ minScore, start year ≥ startYear and start year ≤ endYear, where a missing filter admits everything |
| PeopleCypher.NeighborhoodRowsSpec | apps/api/src/cypher/people.cypher.ts:2-11 | the rows are the person's admitted claim rows, sorted by event start date descending, at most limitEvents; a row left out implies the limit was reached and is dated no later than every kept row |
| PeopleCypher.NeighborhoodEvents | apps/api/src/cypher/people.cypher.ts:9-14 | the events are distinct, at most limitEvents, newest first, each from an admitted claim of the person; any admitted event left out is no newer than all kept ones |
| PeopleCypher.CoParticipantsSpec | apps/api/src/cypher/people.cypher.ts:12-14 | the co-participants are distinct, and a person is among them iff they have a PERSON_EVENT claim on a kept event and are not the focal person (no pending filter) |
| PeopleCypher.NeighborhoodPeople | apps/api/src/cypher/people.cypher.ts:12-14 | in the returned row, the people are exactly the other persons with a PERSON_EVENT claim on one of the row's events |
| PeopleCypher.NeighborhoodRowExists | apps/api/src/cypher/people.cypher.ts:1-16 | a row comes back iff the person exists, limitEvents > 0 and some claim of theirs passes the filters |
| PeopleCypher.PairsOf | apps/api/src/cypher/people.cypher.ts:20-24 | the matched pairs are exactly the pairs of a first-hop row and a second-hop row that join |
| PeopleCypher.RankedConnectionsSpec | apps/api/src/cypher/people.cypher.ts:25-28 | each ranked aggregate is its own person's aggregate, every connected person appears, and none appears twice |
| PeopleCypher.ConnectionCount | apps/api/src/cypher/people.cypher.ts:25-26 | sharedEventCount is the number of distinct shared events, at least 1 and at most the person's row count |
| PeopleCypher.TopConnections | apps/api/src/cypher/people.cypher.ts:28-29 | the result is ordered by sharedEventCount then sharedStrength descending, holds at most the limit, and has no repeats |
| PeopleCypher.ConnectionsSound | apps/api/src/cypher/people.cypher.ts:18-31 | each result is a stored person other than p, with its own aggregate over the qualifying pairs, and at least one shared event; ordered, bounded, no repeats |
| PeopleCypher.ConnectionsComplete | apps/api/src/cypher/people.cypher.ts:18-31 | every person reached by a qualifying pair is in the result, unless the limit is full of connections ranked no lower |
| PeopleCypher.LinkedSources | apps/api/src/cypher/people.cypher.ts:39-40 | the optional match yields exactly the stored sources linked to the claim |
| PeopleCypher.WhyPairsSpec | apps/api/src/cypher/people.cypher.ts:34-38 | a (claimA, claimB) pair is matched iff claimA is a's, claimB is b's on the same event, the claims differ and both pass the pending filter |
| PeopleCypher.PreviewSpec | apps/api/src/cypher/people.cypher.ts:41-43 | a preview holds distinct linked sources, at most 3, and every linked source unless 3 are shown |
| PeopleCypher.WhySound | apps/api/src/cypher/people.cypher.ts:33-51 | the rows are ordered by event start date descending, at most limitEvents, and each comes from a matching pair with its previews |
| PeopleCypher.WhyComplete | apps/api/src/cypher/people.cypher.ts:33-51 | every matching pair gives a row, unless the limit is full of rows no older |
| GraphDto.PathEdgeShowsClaim | apps/api/src/cypher/graph.cypher.ts:28-35 | the view of a matched path's edge record shows its stored claim: claim id, from its person to its event, kind "claim", relationshipType, status, and the score (0 when missing) as weight and in the meta |
| GraphDto.EdgeViewsShowClaims | apps/api/src/routes/people.ts:172-183 | the i-th view edge shows the claim of the i-th matched path, a stored claim whose person and event exist |
| QueryParams.Limit | apps/api/src/routes/people.ts:17 | an absent limit gives the default; a number is accepted iff it is an integer within the bounds, and is then passed through; a non-number gives 400 |
| QueryParams.OptNumber | apps/api/src/routes/people.ts:14 | an optional number: absent gives none, a number passes through, a non-number gives 400 |
| QueryParams.OptInt | apps/api/src/routes/people.ts:15-16 | an optional integer: accepted iff absent or an integral number, which then passes through |
| QueryParams.CoerceBoolean | apps/api/src/routes/people.ts:13 | the flag as the routes read it: true iff the value is present and non-empty, so "false" and "0" are true |
| QueryParams.FalseFlagIncludesPending | apps/api/src/routes/people.ts:13 | as written, coercion turns `includePending=false` and `=0` into true |
| QueryParams.ParseFlagIntended | apps/api/src/routes/people.ts:13 | the corrected flag (`ParseFlag`, not used by the routes) reads "true" as true and "false" and "0" as false, and differs from the coercion exactly on "false" and "0" |
| PeopleRoutes.ParseGraphQuery | apps/api/src/routes/people.ts:12-18 | the query is accepted iff limitEvents, minScore, startYear and endYear each parse; then limitEvents is the parsed limit in [1, 200] (50 when absent), minScore, startYear and endYear keep their parsed values, each absent filter becomes null, and includePending is the coerced flag |
| PeopleRoutes.GraphRouteNotFound | apps/api/src/routes/people.ts:31-62 | the route answers 404 iff the person is missing or none of their claims passes the filters; with minScore, startYear and endYear absent only the pending filter applies |
| PeopleRoutes.ItemsOf | apps/api/src/routes/people.ts:73-81 | mapping keeps the ids distinct, never the asking person's, with at least one shared event each |
| PeopleRoutes.ConnectionsRouteSpec | apps/api/src/routes/people.ts:64-86 | the results number at most limitPeople ≤ 200, have distinct ids, never the asking person's, each with at least one shared event |
| PeopleRoutes.WhyRoute | apps/api/src/routes/people.ts:88-107 | 400 iff an id is empty or limitEvents does not parse; at most limitEvents ≤ 200 rows; no rows when either person is missing |
| PeopleRoutes.ParseSharedEvents | apps/api/src/routes/people.ts:109-117 | accepted iff both ids are non-empty and limit parses; the limit is then the parsed value in [1, 100] (10 when absent), with the coerced includePending flag |
| PeopleRoutes.PersonGraphView | apps/api/src/routes/people.ts:151-184 | nodes are the center, then the events, then the people, as person, event and person nodes; one edge per record |
| PeopleRoutes.PersonViewEdges | apps/api/src/routes/people.ts:151-184 | when the records join the row, every view edge joins a person node to an event node of the view |
| PeopleRoutes.NeighborhoodRoute | apps/api/src/routes/people.ts:128-191 | 400 iff the id is empty or a limit falls outside [1, 100] / [1, 200]; a missing person gives 200 with no body, never 404 |
| PeopleRoutes.NeighborhoodViewEdges | apps/api/src/routes/people.ts:128-191 | a returned graph has the stored person as its first node, and every edge joins a person node to an event node |
| PeopleRoutes.NeighborhoodViewSize | apps/api/src/routes/people.ts:130-134 | a returned graph has at most 1 + limitEvents + limitPeople nodes, with the limits 25 and 50 when absent |
| PeopleRoutes.RowViewClaims | apps/api/src/routes/people.ts:172-183 | each edge of a row's view shows a stored, enumerated claim whose person and event exist, the center's or passing the status filter |
| PeopleRoutes.NeighborhoodViewClaims | apps/api/src/routes/people.ts:128-191 | end to end: every edge the route sends shows a stored claim (id, person, event, status, relationshipType, weight = score or 0) that is the center's or passes the coerced status filter |
| EventsRoutes.EventGraphView | apps/api/src/routes/events.ts:27-41 | nodes are the center event, then the events, then the people; one edge per record |
| EventsRoutes.EventViewEdges | apps/api/src/routes/events.ts:27-41 | when the records join the row, every view edge joins a person node to an event node of the view |
| EventsRoutes.EventNeighborhoodRoute | apps/api/src/routes/events.ts:7-46 | 400 iff the id is empty or limitPeople is outside [1, 200] or limitEvents outside [1, 100]; a missing event gives 200 with no body |
| EventsRoutes.EventNeighborhoodViewEdges | apps/api/src/routes/events.ts:7-46 | a returned graph has the stored event as its first node, and every edge joins a person node to an event node |
| EventsRoutes.EventNeighborhoodViewSize | apps/api/src/routes/events.ts:9-13 | a returned graph has at most 1 + limitEvents + limitPeople nodes, with the limits 25 and 60 when absent |
| EventsRoutes.RowViewClaims | apps/api/src/routes/events.ts:33-40 | each edge of a row's view shows a stored, enumerated claim whose person and event exist and which passes the status filter |
| EventsRoutes.EventNeighborhoodViewClaims | apps/api/src/routes/events.ts:7-46 | end to end: every edge the route sends shows a stored claim (id, person, event, status, relationshipType, weight = score or 0) that passes the coerced status filter |
| GraphAnalysis.NodeIndex | apps/web/src/app/graphAnalysis.ts:8 | the index holds every node's id and maps each id to a node of the graph with that id |
| GraphAnalysis.NodeIndexLast | apps/web/src/app/graphAnalysis.ts:8 | with repeated ids, the last node with an id wins |
| GraphAnalysis.TallySpec | apps/web/src/app/graphAnalysis.ts:14-22 | accumulating into a map keeps keys in first-insertion order, without repeats, each with the sum of its entries' weights |
| GraphAnalysis.TallyKeys | apps/web/src/app/graphAnalysis.ts:20 | a key is in the map iff some entry has it |
| GraphAnalysis.ScoreEvents | apps/web/src/app/graphAnalysis.ts:14-22 | the loop computes the tally of the event entries |
| GraphAnalysis.EventEntriesSpec | apps/web/src/app/graphAnalysis.ts:15-21 | an id's summed entry weight is its incident weight when its node is an event, 0 otherwise; it has an entry iff it is an event node some edge targets |
| GraphAnalysis.EventScoresSpec | apps/web/src/app/graphAnalysis.ts:13-22 | the scored ids are exactly the event nodes some edge targets, each with the sum of its incident edge weights (non-numbers as 0) |
| GraphAnalysis.GroupByEvent | apps/web/src/app/graphAnalysis.ts:34-44 | the loop builds the reference event-to-people map |
| GraphAnalysis.PeopleByEventSpec | apps/web/src/app/graphAnalysis.ts:34-44 | each event's list holds exactly the person-to-event edges into it, in edge order |
| GraphAnalysis.CollectFocusEvents | apps/web/src/app/graphAnalysis.ts:50-57 | the loop computes the focus's events |
| GraphAnalysis.FocusEventsSpec | apps/web/src/app/graphAnalysis.ts:50-57 | the focus's events have no repeats and are exactly the targets of the focus's person-to-event edges |
| GraphAnalysis.AddContributions | apps/web/src/app/graphAnalysis.ts:61-65 | the inner loop adds each non-focus contribution of the event to the running tally |
| GraphAnalysis.ScorePeople | apps/web/src/app/graphAnalysis.ts:60-66 | the nested loop computes the tally of the person entries |
| GraphAnalysis.EventListWeight | apps/web/src/app/graphAnalysis.ts:61-64 | within one event, a person's contributed weight is the sum of their person-to-event edges into it; the focus contributes 0 |
| GraphAnalysis.PersonEntriesSpec | apps/web/src/app/graphAnalysis.ts:59-66 | a person's total over the focus's events is their shared weight, and they get an entry iff they are not the focus and share an event |
| GraphAnalysis.PersonScoresSpec | apps/web/src/app/graphAnalysis.ts:46-67 | the scored people are exactly those other than the focus sharing an event with it, without repeats, each with the summed weight of their edges into the focus's events (each event counted once) |
| GraphAnalysis.RankedItems | apps/web/src/app/graphAnalysis.ts:24-29 | each sorted item is the item of a scored key, and no key appears twice |
| GraphAnalysis.TopItemsSound | apps/web/src/app/graphAnalysis.ts:24-30 | the top list has at most n items, sorted by score descending, no repeats, each with its key's score |
| GraphAnalysis.TopItemsComplete | apps/web/src/app/graphAnalysis.ts:24-30 | every scored key is in the top list unless it is full of items scoring no lower |
| GraphAnalysis.FirstTwoNames | apps/web/src/app/graphAnalysis.ts:79-85 | the first two labels are joined by " and ", or just the first when there is one |
| GraphAnalysis.AnalyzeGraph | apps/web/src/app/graphAnalysis.ts:5-89 | the method computes the reference analysis; a null graph or focus gives empty lists and an empty summary |
| GraphAnalysis.TopEventsSpec | apps/web/src/app/graphAnalysis.ts:13-30 | topEvents holds at most 5 distinct event nodes, sorted by score descending, labelled by name, scored by incident weight; any targeted event left out scores no higher than all 5 |
| GraphAnalysis.TopPeopleSpec | apps/web/src/app/graphAnalysis.ts:46-75 | topPeople is empty for an event focus; otherwise at most 8 distinct person nodes other than the focus, sorted by shared weight descending; anyone sharing an event who is left out scores no higher than all 8 |
| GraphAnalysis.SummarySpec | apps/web/src/app/graphAnalysis.ts:77-86 | the summary is non-empty iff the focus is a person and both lists are non-empty; it is then "label is most connected to P through E." with the first two of each |

## Left out

- Database I/O, sessions, transactions and concurrency are not modelled. Each Cypher statement is one atomic method on `Ledger`, so concurrent votes on one claim are outside the model.
- `createdAt`, `updatedAt`, `addedAt` and `datetime()` are not modelled: clocks are outside the model, and none of these fields affects any result.
- `crypto.randomUUID()` is not modelled. The claim id and the drawn source id are parameters, and `ClaimsCypher.Ledger.CreateClaim` requires the claim id to be fresh, as a UUID is in practice.
- URL and ISO-datetime validation are outside the model. They are the predicate parameters `isUrl` and `isDateTime` of `ClaimRoutes.ParseEvidence`.
- Floating point is not modelled. Vote values are reals compared with exactly 1 and −1; `minScore` is a real compared with integer scores. Scores and weights are unbounded integers.
- Dates are integers of the form year × 372 + (month − 1) × 31 + (day − 1). This keeps the order of calendar dates and the Jan 1 year windows, not the calendar itself.
- The text of `CYPHER_SHARED_EVENTS_PREVIEW` is not part of this model: the query is referenced by the shared-events route but not defined in the modelled files. Only that route's parameter schema is modelled (`PeopleRoutes.ParseSharedEvents`).
- Error bodies (`error.flatten()`) are not modelled. A failed parse is the `BadRequest` reply.
- The claim enumeration order `order` is an input. The one-edge-per-claim lemmas assume it lists each claim once and that claims are stored under their ids. Which order the database uses is not modelled.
- `graph.edges ?? []` in `analyzeGraph` is not modelled: the modelled edges are always a list.
- GraphAnalysis.TopEventsSpec: the fallback of a label to the id is not stated, because every scored id is a node of the graph, so the fallback is unreachable.
- GraphAnalysis.TopItemsComplete: it states ties only as "no lower"; it does not state that the JavaScript sort is stable. The model's sort is stable.
- PeopleRoutes.WhyRoute: it states the route's bounds and error cases; the rows themselves are stated by `PeopleCypher.WhySound` and `PeopleCypher.WhyComplete`.
- QueryParams.ParseFlag: the corrected flag is stated and proved, but the routes keep the coercion as written, so no route reads `false` as false.
- Entity enrichment from Wikipedia, search, seeding, constraints and all web UI rendering are outside the core and not modelled.

## Findings

| source | as written | input that shows it | evidently intended | confidence | as-written member | corrected member |
|---|---|---|---|---|---|---|
| apps/api/src/routes/people.ts:13 | `z.coerce.boolean()` applies `Boolean(value)` to the query string, so every non-empty string is true | `?includePending=false` (or `=0`) includes PENDING claims | "false" and "0" mean false | not executed | QueryParams.CoerceBoolean, shown by QueryParams.FalseFlagIncludesPending | QueryParams.ParseFlag, proved by QueryParams.ParseFlagIntended |
