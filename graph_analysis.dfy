/** The client's analysis of a `{nodes, edges}` view around a focus: event
    scores from incident edge weights, co-participant scores for a person
    focus, the top-5 and top-8 rankings, and the one-line summary. */
module GraphAnalysis {
  import opened Common
  import opened Store
  import opened GraphDto

  /** The selected node; `caption` is the optional `label`. */
  datatype Focus = Focus(kind: Kind, id: Id, caption: Option<string>)

  datatype TopItem = TopItem(id: Id, caption: string, score: int, kind: Kind)

  datatype Analysis = Analysis(topPeople: seq<TopItem>, topEvents: seq<TopItem>, summary: string)

  // ---------------------------------------------------------- nodeById

  /** `new Map(nodes.map(n => [n.id, n]))`: every node is found under its
      id, and only nodes of the list are. */
  function NodeIndex(nodes: seq<Node>): (idx: map<Id, Node>)
    ensures forall id :: id in idx ==> idx[id] in nodes && idx[id].id == id
    ensures forall n :: n in nodes ==> n.id in idx
  {
    if nodes == [] then map[]
    else
      var init := nodes[..|nodes| - 1];
      var last := nodes[|nodes| - 1];
      assert forall n :: n in nodes <==> n in init || n == last;
      NodeIndex(init)[last.id := last]
  }

  /** Of several nodes with one id, the last one wins. */
  lemma {:induction false} NodeIndexLast(nodes: seq<Node>, i: nat)
    requires i < |nodes| && forall j :: i < j < |nodes| ==> nodes[j].id != nodes[i].id
    ensures NodeIndex(nodes)[nodes[i].id] == nodes[i]
  {
    if i < |nodes| - 1 {
      var init := nodes[..|nodes| - 1];
      assert init[i] == nodes[i];
      NodeIndexLast(init, i);
    }
  }

  /** `typeof e.weight === "number" ? e.weight : 0`. */
  function Weight(e: Edge): int {
    e.weight.GetOr(0)
  }

  /** `nodeById.get(id)?.kind === k`. */
  predicate HasKind(idx: map<Id, Node>, id: Id, k: Kind) {
    id in idx && idx[id].kind == k
  }

  predicate ToEvent(idx: map<Id, Node>, e: Edge) {
    HasKind(idx, e.target, EventKind)
  }

  predicate PersonToEvent(idx: map<Id, Node>, e: Edge) {
    HasKind(idx, e.source, PersonKind) && ToEvent(idx, e)
  }

  // ------------------------------------------------------------ tallies

  /** One `scores.set(key, (scores.get(key) ?? 0) + w)`. */
  datatype Entry = Entry(key: Id, w: int)

  /** A `Map<string, number>`: its keys in insertion order and its values. */
  datatype Scores = Scores(keys: seq<Id>, total: map<Id, int>)

  function KeyOf(x: Entry): Id {
    x.key
  }

  /** The map after one more entry: an existing key keeps its place. */
  function Bump(t: Scores, x: Entry): Scores {
    if x.key in t.total then Scores(t.keys, t.total[x.key := t.total[x.key] + x.w])
    else Scores(t.keys + [x.key], t.total[x.key := x.w])
  }

  /** The map after the entries, in order, starting empty. */
  function Tally(xs: seq<Entry>): Scores {
    if xs == [] then Scores([], map[]) else Bump(Tally(xs[..|xs| - 1]), xs[|xs| - 1])
  }

  lemma TallySnoc(xs: seq<Entry>, x: Entry)
    ensures Tally(xs + [x]) == Bump(Tally(xs), x)
  {
    assert (xs + [x])[..|xs|] == xs;
  }

  /** The weights of the entries for `k`, summed. */
  function WeightOf(xs: seq<Entry>, k: Id): int {
    if xs == [] then 0
    else WeightOf(xs[..|xs| - 1], k) + (if xs[|xs| - 1].key == k then xs[|xs| - 1].w else 0)
  }

  lemma {:induction false} WeightOfAppend(xs: seq<Entry>, ys: seq<Entry>, k: Id)
    ensures WeightOf(xs + ys, k) == WeightOf(xs, k) + WeightOf(ys, k)
  {
    if ys != [] {
      var init := ys[..|ys| - 1];
      assert (xs + ys)[..|xs + ys| - 1] == xs + init;
      WeightOfAppend(xs, init, k);
    } else {
      assert xs + ys == xs;
    }
  }

  /** A tally holds each key once, in order of first occurrence. */
  lemma {:induction false} TallyOrder(xs: seq<Entry>)
    ensures var t := Tally(xs);
      t.keys == Distinct(MapSeq(xs, KeyOf)) && forall k :: k in t.total <==> k in t.keys
  {
    if xs != [] {
      var init := xs[..|xs| - 1];
      var x := xs[|xs| - 1];
      LastSplit(xs);
      TallyOrder(init);
      MapSeqSnoc(init, KeyOf, x);
      DistinctAppend(MapSeq(init, KeyOf), x.key);
    }
  }

  /** A tally holds, under each key, the sum of that key's weights. */
  lemma {:induction false} TallyTotals(xs: seq<Entry>)
    ensures var t := Tally(xs);
      forall k :: k in t.total ==> t.total[k] == WeightOf(xs, k)
  {
    if xs != [] {
      var init := xs[..|xs| - 1];
      var x := xs[|xs| - 1];
      var t0 := Tally(init);
      TallyTotals(init);
      forall k | k in Tally(xs).total
        ensures Tally(xs).total[k] == WeightOf(xs, k)
      {
        if k == x.key && x.key !in t0.total {
          TallyMissing(init, k);
        }
      }
    }
  }

  /** A tally holds each key once, in order of first occurrence, with the
      sum of that key's weights. */
  lemma TallySpec(xs: seq<Entry>)
    ensures var t := Tally(xs);
      t.keys == Distinct(MapSeq(xs, KeyOf)) &&
      (forall k :: k in t.total <==> k in t.keys) &&
      (forall k :: k in t.total ==> t.total[k] == WeightOf(xs, k))
  {
    TallyOrder(xs);
    TallyTotals(xs);
  }

  lemma {:induction false} TallyMissing(xs: seq<Entry>, k: Id)
    requires k !in Tally(xs).total
    ensures WeightOf(xs, k) == 0 && forall x :: x in xs ==> x.key != k
  {
    if xs != [] {
      var init := xs[..|xs| - 1];
      assert k !in Tally(init).total;
      TallyMissing(init, k);
      assert forall x :: x in xs ==> x in init || x == xs[|xs| - 1];
    }
  }

  /** Keys of a tally are exactly the keys of its entries. */
  lemma TallyKeys(xs: seq<Entry>, k: Id)
    ensures k in Tally(xs).total <==> exists x :: x in xs && x.key == k
  {
    TallySpec(xs);
    MapSeqIn(xs, KeyOf, k);
  }

  // -------------------------------------------------------- eventScores

  /** The entries the event loop makes: one per edge whose target node is
      an event, keyed by the target, in edge order. */
  function EventEntries(edges: seq<Edge>, idx: map<Id, Node>): seq<Entry> {
    if edges == [] then []
    else
      var e := edges[|edges| - 1];
      EventEntries(edges[..|edges| - 1], idx) + (if ToEvent(idx, e) then [Entry(e.target, Weight(e))] else [])
  }

  /** The reference score: the weights of all edges that end at `k`, summed. */
  function IncidentWeight(edges: seq<Edge>, k: Id): int {
    if edges == [] then 0
    else IncidentWeight(edges[..|edges| - 1], k) + (if edges[|edges| - 1].target == k then Weight(edges[|edges| - 1]) else 0)
  }

  /** The first loop: `eventScores` holds the tally of the event entries. */
  method ScoreEvents(edges: seq<Edge>, idx: map<Id, Node>) returns (scores: Scores)
    ensures scores == Tally(EventEntries(edges, idx))
  {
    var keys: seq<Id> := [];
    var total: map<Id, int> := map[];
    var i := 0;
    while i < |edges|
      invariant 0 <= i <= |edges|
      invariant Scores(keys, total) == Tally(EventEntries(edges[..i], idx))
    {
      var e := edges[i];
      var w := if e.weight.Some? then e.weight.value else 0;
      assert edges[..i + 1][..i] == edges[..i];
      assert w == Weight(e);
      if e.target in idx && idx[e.target].kind == EventKind {
        assert EventEntries(edges[..i + 1], idx) == EventEntries(edges[..i], idx) + [Entry(e.target, w)];
        TallySnoc(EventEntries(edges[..i], idx), Entry(e.target, w));
        if e.target in total {
          total := total[e.target := total[e.target] + w];
        } else {
          keys := keys + [e.target];
          total := total[e.target := w];
        }
      } else {
        assert EventEntries(edges[..i + 1], idx) == EventEntries(edges[..i], idx) + [];
        assert EventEntries(edges[..i + 1], idx) == EventEntries(edges[..i], idx);
      }
      i := i + 1;
    }
    assert edges[..i] == edges;
    scores := Scores(keys, total);
  }

  /** The event entries for `k` sum to the weights of the edges ending at
      `k` when `k` is an event node, and there are none otherwise. */
  lemma {:induction false} EventEntriesSpec(edges: seq<Edge>, idx: map<Id, Node>, k: Id)
    ensures WeightOf(EventEntries(edges, idx), k) == if HasKind(idx, k, EventKind) then IncidentWeight(edges, k) else 0
    ensures (exists x :: x in EventEntries(edges, idx) && x.key == k) <==>
            HasKind(idx, k, EventKind) && exists e :: e in edges && e.target == k
  {
    if edges != [] {
      var init := edges[..|edges| - 1];
      var e := edges[|edges| - 1];
      var tail := if ToEvent(idx, e) then [Entry(e.target, Weight(e))] else [];
      LastSplit(edges);
      EventEntriesSpec(init, idx, k);
      WeightOfAppend(EventEntries(init, idx), tail, k);
      assert WeightOf(tail, k) == if ToEvent(idx, e) && e.target == k then Weight(e) else 0 by {
        if tail != [] {
          assert tail[..0] == [];
        }
      }
      assert forall x :: x in EventEntries(edges, idx) <==> x in EventEntries(init, idx) || x in tail;
      assert forall d :: d in edges <==> d in init || d == e;
    }
  }

  /** `eventScores`: the event nodes that some edge ends at, each once in
      order of first appearance, scored with the summed weights of the
      edges ending there. */
  lemma EventScoresSpec(edges: seq<Edge>, idx: map<Id, Node>)
    ensures var t := Tally(EventEntries(edges, idx));
      NoDups(t.keys) &&
      (forall k :: k in t.total <==> k in t.keys) &&
      (forall k :: k in t.total <==> HasKind(idx, k, EventKind) && exists e :: e in edges && e.target == k) &&
      (forall k :: k in t.total ==> t.total[k] == IncidentWeight(edges, k))
  {
    var xs := EventEntries(edges, idx);
    TallySpec(xs);
    forall k
      ensures k in Tally(xs).total <==> HasKind(idx, k, EventKind) && exists e :: e in edges && e.target == k
      ensures k in Tally(xs).total ==> Tally(xs).total[k] == IncidentWeight(edges, k)
    {
      TallyKeys(xs, k);
      EventEntriesSpec(edges, idx, k);
    }
  }

  // ------------------------------------------------------ peopleByEvent

  /** `{ personId, w }`: one person's edge into an event. */
  datatype Contribution = Contribution(personId: Id, w: int)

  /** `peopleByEvent.get(k) ?? []`. */
  function ListOf(m: map<Id, seq<Contribution>>, k: Id): seq<Contribution> {
    if k in m then m[k] else []
  }

  /** The map the second loop builds: each person-to-event edge pushes its
      source and weight onto its target's list. */
  function PeopleByEvent(edges: seq<Edge>, idx: map<Id, Node>): map<Id, seq<Contribution>> {
    if edges == [] then map[]
    else
      var m := PeopleByEvent(edges[..|edges| - 1], idx);
      var e := edges[|edges| - 1];
      if PersonToEvent(idx, e) then m[e.target := ListOf(m, e.target) + [Contribution(e.source, Weight(e))]] else m
  }

  /** The reference list of an event: the person-to-event edges into it, in order. */
  function ContributionsTo(edges: seq<Edge>, idx: map<Id, Node>, ev: Id): seq<Contribution> {
    if edges == [] then []
    else
      var e := edges[|edges| - 1];
      ContributionsTo(edges[..|edges| - 1], idx, ev) +
        (if PersonToEvent(idx, e) && e.target == ev then [Contribution(e.source, Weight(e))] else [])
  }

  /** Each event's list holds exactly the person-to-event edges into it, in edge order. */
  lemma {:induction false} PeopleByEventSpec(edges: seq<Edge>, idx: map<Id, Node>, ev: Id)
    ensures ListOf(PeopleByEvent(edges, idx), ev) == ContributionsTo(edges, idx, ev)
  {
    if edges != [] {
      PeopleByEventSpec(edges[..|edges| - 1], idx, ev);
    }
  }

  /** The second loop. */
  method GroupByEvent(edges: seq<Edge>, idx: map<Id, Node>) returns (m: map<Id, seq<Contribution>>)
    ensures m == PeopleByEvent(edges, idx)
  {
    m := map[];
    var i := 0;
    while i < |edges|
      invariant 0 <= i <= |edges|
      invariant m == PeopleByEvent(edges[..i], idx)
    {
      var e := edges[i];
      var w := if e.weight.Some? then e.weight.value else 0;
      assert edges[..i + 1][..i] == edges[..i];
      if e.source in idx && idx[e.source].kind == PersonKind && e.target in idx && idx[e.target].kind == EventKind {
        var list := if e.target in m then m[e.target] else [];
        list := list + [Contribution(e.source, w)];
        m := m[e.target := list];
      }
      i := i + 1;
    }
    assert edges[..i] == edges;
  }

  // ------------------------------------------------------ focusEventIds

  /** The `Set` the third loop builds, in insertion order: the targets of the
      focus's person-to-event edges, each once. */
  function FocusEvents(edges: seq<Edge>, idx: map<Id, Node>, focusId: Id): seq<Id> {
    if edges == [] then []
    else
      var evs := FocusEvents(edges[..|edges| - 1], idx, focusId);
      var e := edges[|edges| - 1];
      if PersonToEvent(idx, e) && e.source == focusId && e.target !in evs then evs + [e.target] else evs
  }

  /** The focus's events: no repeats, and exactly the events some
      person-to-event edge of the focus ends at. */
  lemma {:induction false} FocusEventsSpec(edges: seq<Edge>, idx: map<Id, Node>, focusId: Id)
    ensures var evs := FocusEvents(edges, idx, focusId);
      NoDups(evs) &&
      forall ev :: ev in evs <==> exists e :: e in edges && PersonToEvent(idx, e) && e.source == focusId && e.target == ev
  {
    if edges != [] {
      var init := edges[..|edges| - 1];
      LastSplit(edges);
      FocusEventsSpec(init, idx, focusId);
      assert forall d :: d in edges <==> d in init || d == edges[|edges| - 1];
    }
  }

  /** The third loop. */
  method CollectFocusEvents(edges: seq<Edge>, idx: map<Id, Node>, focusId: Id) returns (evs: seq<Id>)
    ensures evs == FocusEvents(edges, idx, focusId)
  {
    evs := [];
    var i := 0;
    while i < |edges|
      invariant 0 <= i <= |edges|
      invariant evs == FocusEvents(edges[..i], idx, focusId)
    {
      var e := edges[i];
      assert edges[..i + 1][..i] == edges[..i];
      if e.source in idx && idx[e.source].kind == PersonKind && e.target in idx && idx[e.target].kind == EventKind &&
         e.source == focusId && e.target !in evs {
        evs := evs + [e.target];
      }
      i := i + 1;
    }
    assert edges[..i] == edges;
  }

  // ------------------------------------------------------- personScores

  /** The entries one event's list makes: every contribution except the focus's own. */
  function ContribEntries(cs: seq<Contribution>, focusId: Id): seq<Entry> {
    if cs == [] then []
    else
      var c := cs[|cs| - 1];
      ContribEntries(cs[..|cs| - 1], focusId) + (if c.personId == focusId then [] else [Entry(c.personId, c.w)])
  }

  /** The entries of the nested loop, event by event. */
  function PersonEntries(evs: seq<Id>, m: map<Id, seq<Contribution>>, focusId: Id): seq<Entry> {
    if evs == [] then []
    else PersonEntries(evs[..|evs| - 1], m, focusId) + ContribEntries(ListOf(m, evs[|evs| - 1]), focusId)
  }

  /** One more contribution bumps the tally unless it is the focus's own. */
  lemma ContribTallyStep(before: seq<Entry>, people: seq<Contribution>, j: nat, focusId: Id)
    requires j < |people|
    ensures people[j].personId == focusId ==>
      Continued(before, people, j + 1, focusId) == Continued(before, people, j, focusId)
    ensures people[j].personId != focusId ==>
      Continued(before, people, j + 1, focusId) ==
      Bump(Continued(before, people, j, focusId), Entry(people[j].personId, people[j].w))
  {
    var p := people[j];
    var xs := before + ContribEntries(people[..j], focusId);
    assert people[..j + 1] == people[..j] + [p];
    ContribEntriesSnoc(people[..j], p, focusId);
    if p.personId == focusId {
      assert before + ContribEntries(people[..j + 1], focusId) == xs;
    } else {
      assert before + ContribEntries(people[..j + 1], focusId) == xs + [Entry(p.personId, p.w)];
      TallySnoc(xs, Entry(p.personId, p.w));
    }
  }

  /** The tally of `before` continued with the first `j` contributions. */
  function Continued(before: seq<Entry>, people: seq<Contribution>, j: nat, focusId: Id): Scores
    requires j <= |people|
  {
    Tally(before + ContribEntries(people[..j], focusId))
  }

  /** The inner loop over one event's list, continuing a tally of `before`. */
  method AddContributions(scores0: Scores, people: seq<Contribution>, focusId: Id, ghost before: seq<Entry>)
    returns (scores: Scores)
    requires scores0 == Tally(before)
    ensures scores == Tally(before + ContribEntries(people, focusId))
  {
    var keys, total := scores0.keys, scores0.total;
    var j := 0;
    assert before + ContribEntries(people[..0], focusId) == before;
    while j < |people|
      invariant 0 <= j <= |people|
      invariant Scores(keys, total) == Continued(before, people, j, focusId)
    {
      var p := people[j];
      ContribTallyStep(before, people, j, focusId);
      if p.personId != focusId {
        if p.personId in total {
          total := total[p.personId := total[p.personId] + p.w];
        } else {
          keys := keys + [p.personId];
          total := total[p.personId := p.w];
        }
      }
      j := j + 1;
    }
    assert people[..j] == people;
    scores := Scores(keys, total);
  }

  /** The nested loop: `personScores` holds the tally of the person entries. */
  method ScorePeople(evs: seq<Id>, m: map<Id, seq<Contribution>>, focusId: Id) returns (scores: Scores)
    ensures scores == Tally(PersonEntries(evs, m, focusId))
  {
    scores := Scores([], map[]);
    var i := 0;
    while i < |evs|
      invariant 0 <= i <= |evs|
      invariant scores == Tally(PersonEntries(evs[..i], m, focusId))
    {
      var people := if evs[i] in m then m[evs[i]] else [];
      assert evs[..i + 1][..i] == evs[..i];
      scores := AddContributions(scores, people, focusId, PersonEntries(evs[..i], m, focusId));
      i := i + 1;
    }
    assert evs[..i] == evs;
  }

  /** The reference co-participation weight: the weights of `k`'s
      person-to-event edges into `ev`, summed. */
  function PairWeight(edges: seq<Edge>, idx: map<Id, Node>, k: Id, ev: Id): int {
    if edges == [] then 0
    else
      var e := edges[|edges| - 1];
      PairWeight(edges[..|edges| - 1], idx, k, ev) +
        (if PersonToEvent(idx, e) && e.source == k && e.target == ev then Weight(e) else 0)
  }

  /** The reference person score: `k`'s co-participation weights summed
      over the events `evs`. */
  function SharedWeight(edges: seq<Edge>, idx: map<Id, Node>, evs: seq<Id>, k: Id): int {
    if evs == [] then 0
    else SharedWeight(edges, idx, evs[..|evs| - 1], k) + PairWeight(edges, idx, k, evs[|evs| - 1])
  }

  /** `k` has a person-to-event edge into one of `evs`. */
  predicate SharesOne(edges: seq<Edge>, idx: map<Id, Node>, evs: seq<Id>, k: Id) {
    exists e :: e in edges && PersonToEvent(idx, e) && e.source == k && e.target in evs
  }

  /** A list with one more contribution: its entry is added unless it is
      the focus's own. */
  lemma ContribEntriesSnoc(cs: seq<Contribution>, c: Contribution, focusId: Id)
    ensures ContribEntries(cs + [c], focusId) ==
            ContribEntries(cs, focusId) + (if c.personId == focusId then [] else [Entry(c.personId, c.w)])
  {
    assert (cs + [c])[..|cs|] == cs;
  }

  lemma WeightOfOne(x: Entry, k: Id)
    ensures WeightOf([x], k) == if x.key == k then x.w else 0
  {
    assert [x][..0] == [];
  }

  /** One event's list with one more edge: the edge adds an entry exactly
      when it is a person-to-event edge into `ev` from someone other than the
      focus. */
  lemma EventListSnoc(edges: seq<Edge>, idx: map<Id, Node>, ev: Id, focusId: Id)
    requires edges != []
    ensures var e := edges[|edges| - 1];
      ContribEntries(ContributionsTo(edges, idx, ev), focusId) ==
        ContribEntries(ContributionsTo(edges[..|edges| - 1], idx, ev), focusId) +
        (if PersonToEvent(idx, e) && e.target == ev && e.source != focusId then [Entry(e.source, Weight(e))] else [])
  {
    var init := edges[..|edges| - 1];
    var e := edges[|edges| - 1];
    var cs0 := ContributionsTo(init, idx, ev);
    if PersonToEvent(idx, e) && e.target == ev {
      ContribEntriesSnoc(cs0, Contribution(e.source, Weight(e)), focusId);
    } else {
      assert ContributionsTo(edges, idx, ev) == cs0 + [] == cs0;
    }
  }

  /** One event's list, focus skipped: another person's entries sum to that
      person's edge weights into the event, and the focus has none. */
  lemma {:induction false} EventListWeight(edges: seq<Edge>, idx: map<Id, Node>, ev: Id, focusId: Id, k: Id)
    ensures WeightOf(ContribEntries(ContributionsTo(edges, idx, ev), focusId), k) ==
            if k == focusId then 0 else PairWeight(edges, idx, k, ev)
  {
    if edges != [] {
      var init := edges[..|edges| - 1];
      var e := edges[|edges| - 1];
      var xs0 := ContribEntries(ContributionsTo(init, idx, ev), focusId);
      var hit := PersonToEvent(idx, e) && e.target == ev;
      var extra := if hit && e.source != focusId then [Entry(e.source, Weight(e))] else [];
      EventListWeight(init, idx, ev, focusId, k);
      EventListSnoc(edges, idx, ev, focusId);
      WeightOfAppend(xs0, extra, k);
      assert PairWeight(edges, idx, k, ev) == PairWeight(init, idx, k, ev) + (if hit && e.source == k then Weight(e) else 0);
      if extra != [] {
        WeightOfOne(extra[0], k);
        assert WeightOf(extra, k) == if e.source == k then Weight(e) else 0;
      } else {
        assert WeightOf(extra, k) == 0;
      }
    }
  }

  /** One event's list, focus skipped: a person has an entry exactly when
      they are not the focus and have a person-to-event edge into the event. */
  lemma {:induction false} EventListKeys(edges: seq<Edge>, idx: map<Id, Node>, ev: Id, focusId: Id, k: Id)
    ensures (exists x :: x in ContribEntries(ContributionsTo(edges, idx, ev), focusId) && x.key == k) <==>
            k != focusId && exists e :: e in edges && PersonToEvent(idx, e) && e.source == k && e.target == ev
  {
    if edges != [] {
      var init := edges[..|edges| - 1];
      var e := edges[|edges| - 1];
      EventListKeys(init, idx, ev, focusId, k);
      EventListSnoc(edges, idx, ev, focusId);
      LastSplit(edges);
      assert forall d :: d in edges <==> d in init || d == e;
    }
  }

  /** The nested loop's entries for `k`: nothing for the focus, and for
      anyone else the co-participation weights over the events `evs`; `k`
      has entries exactly when they are not the focus and share one of the
      events. */
  lemma {:induction false} PersonEntriesSpec(edges: seq<Edge>, idx: map<Id, Node>, evs: seq<Id>, focusId: Id, k: Id)
    ensures var xs := PersonEntries(evs, PeopleByEvent(edges, idx), focusId);
      WeightOf(xs, k) == (if k == focusId then 0 else SharedWeight(edges, idx, evs, k)) &&
      ((exists x :: x in xs && x.key == k) <==> k != focusId && SharesOne(edges, idx, evs, k))
  {
    if evs != [] {
      var init := evs[..|evs| - 1];
      var ev := evs[|evs| - 1];
      var m := PeopleByEvent(edges, idx);
      LastSplit(evs);
      PersonEntriesSpec(edges, idx, init, focusId, k);
      PeopleByEventSpec(edges, idx, ev);
      EventListWeight(edges, idx, ev, focusId, k);
      EventListKeys(edges, idx, ev, focusId, k);
      var xs0 := PersonEntries(init, m, focusId);
      var ys := ContribEntries(ListOf(m, ev), focusId);
      WeightOfAppend(xs0, ys, k);
      assert forall x :: x in xs0 + ys <==> x in xs0 || x in ys;
      assert forall d :: d in evs <==> d in init || d == ev;
      if k != focusId && SharesOne(edges, idx, evs, k) {
        var e :| e in edges && PersonToEvent(idx, e) && e.source == k && e.target in evs;
        if e.target != ev {
          assert SharesOne(edges, idx, init, k);
        }
      }
    }
  }

  /** `personScores` for a person focus: each other person once, in order of
      first appearance, never the focus; exactly the people with an edge into
      one of the focus's events, scored with their edge weights into those
      events, each event counted once however many edges the focus has
      into it. */
  lemma PersonScoresSpec(edges: seq<Edge>, idx: map<Id, Node>, focusId: Id)
    ensures var evs := FocusEvents(edges, idx, focusId);
      var t := Tally(PersonEntries(evs, PeopleByEvent(edges, idx), focusId));
      NoDups(evs) && NoDups(t.keys) &&
      (forall k :: k in t.total <==> k in t.keys) &&
      focusId !in t.total &&
      (forall k :: k in t.total <==> k != focusId && SharesOne(edges, idx, evs, k)) &&
      (forall k :: k in t.total ==> t.total[k] == SharedWeight(edges, idx, evs, k))
  {
    var evs := FocusEvents(edges, idx, focusId);
    var xs := PersonEntries(evs, PeopleByEvent(edges, idx), focusId);
    FocusEventsSpec(edges, idx, focusId);
    TallySpec(xs);
    forall k
      ensures k in Tally(xs).total <==> k != focusId && SharesOne(edges, idx, evs, k)
      ensures k in Tally(xs).total ==> Tally(xs).total[k] == SharedWeight(edges, idx, evs, k)
    {
      TallyKeys(xs, k);
      PersonEntriesSpec(edges, idx, evs, focusId, k);
    }
  }

  // ------------------------------------------------------------ rankings

  /** `nodeById.get(id)?.label ?? id`. */
  function LabelOf(idx: map<Id, Node>, id: Id): string {
    if id in idx then idx[id].caption else id
  }

  /** The item of key `k` of a score map. */
  function ItemOf(t: Scores, idx: map<Id, Node>, kind: Kind, k: Id): (it: TopItem)
    ensures it.id == k && it.kind == kind
  {
    TopItem(k, LabelOf(idx, k), if k in t.total then t.total[k] else 0, kind)
  }

  /** `.sort((a, b) => b.score - a.score)`: by score, highest first. */
  function ByScore(it: TopItem): Rank {
    Rank(it.score, 0)
  }

  /** `[...scores.entries()].map(…).sort(…).slice(0, n)`. */
  function TopItems(t: Scores, idx: map<Id, Node>, kind: Kind, n: nat): seq<TopItem> {
    Take(SortDesc(Items(t, idx, kind), ByScore), n)
  }

  /** The items of a score map, in key order, before ranking. */
  function Items(t: Scores, idx: map<Id, Node>, kind: Kind): seq<TopItem> {
    MapSeq(t.keys, (k: Id) => ItemOf(t, idx, kind, k))
  }

  /** Each ranked item is the item of a key of the map, and no key occurs twice. */
  lemma RankedItems(t: Scores, idx: map<Id, Node>, kind: Kind)
    requires NoDups(t.keys) && forall k :: k in t.total <==> k in t.keys
    ensures var sorted := SortDesc(Items(t, idx, kind), ByScore);
      (forall it :: it in sorted ==> it.id in t.total && it == ItemOf(t, idx, kind, it.id)) &&
      (forall i, j :: 0 <= i < j < |sorted| ==> sorted[i].id != sorted[j].id)
  {
    SortedImage(t.keys, (k: Id) => ItemOf(t, idx, kind, k), (it: TopItem) => it.id, ByScore);
  }

  /** A ranking: at most `n` items, highest score first, one per key, each
      carrying its key's score. */
  lemma {:induction false} TopItemsSound(t: Scores, idx: map<Id, Node>, kind: Kind, n: nat)
    requires NoDups(t.keys) && forall k :: k in t.total <==> k in t.keys
    ensures var r := TopItems(t, idx, kind, n);
      |r| <= n && SortedDesc(r, ByScore) &&
      (forall i, j :: 0 <= i < j < |r| ==> r[i].id != r[j].id) &&
      (forall it :: it in r ==> it.id in t.total && it == ItemOf(t, idx, kind, it.id) && it.score == t.total[it.id])
  {
    var sorted := SortDesc(Items(t, idx, kind), ByScore);
    var r := TopItems(t, idx, kind, n);
    assert r == Take(sorted, n);
    assert r == sorted[..|r|];
    RankedItems(t, idx, kind);
    forall i, j | 0 <= i < j < |r|
      ensures r[i].id != r[j].id && !Above(ByScore(r[j]), ByScore(r[i]))
    {
      assert r[i] == sorted[i] && r[j] == sorted[j];
    }
    forall it | it in r
      ensures it in sorted
    {
      var i :| 0 <= i < |r| && r[i] == it;
      assert sorted[i] == it;
    }
  }

  /** A key left out of a ranking scores no higher than any item kept, and
      is left out only when `n` items were kept. */
  lemma {:induction false} TopItemsComplete(t: Scores, idx: map<Id, Node>, kind: Kind, n: nat)
    requires forall k :: k in t.total <==> k in t.keys
    ensures var r := TopItems(t, idx, kind, n);
      forall k :: k in t.total ==>
        ItemOf(t, idx, kind, k) in r || (|r| == n && forall y :: y in r ==> t.total[k] <= y.score)
  {
    var f := (k: Id) => ItemOf(t, idx, kind, k);
    var items := Items(t, idx, kind);
    TopN(items, ByScore, n);
    forall k | k in t.total
      ensures f(k) in items
    {
      MapSeqIn(t.keys, f, f(k));
    }
  }

  // ------------------------------------------------------------- summary

  /** `list.join(sep)`. */
  function Join(ss: seq<string>, sep: string): string {
    if ss == [] then "" else if |ss| == 1 then ss[0] else ss[0] + sep + Join(ss[1..], sep)
  }

  function Labels(items: seq<TopItem>): (r: seq<string>)
    ensures |r| == |items| && forall i :: 0 <= i < |items| ==> r[i] == items[i].caption
  {
    MapSeq(items, (it: TopItem) => it.caption)
  }

  /** The labels of the first two items, joined by " and ". */
  function FirstTwo(items: seq<TopItem>): string {
    Join(Labels(Take(items, 2)), " and ")
  }

  /** The first two items are named, the second only when there is one. */
  lemma FirstTwoNames(items: seq<TopItem>)
    requires items != []
    ensures FirstTwo(items) == if |items| == 1 then items[0].caption
                               else items[0].caption + " and " + items[1].caption
  {
    var ls := Labels(Take(items, 2));
    if |items| > 1 {
      assert |ls| == 2 && ls[0] == items[0].caption && ls[1] == items[1].caption;
      assert ls[1..] == [items[1].caption];
      assert Join(ls[1..], " and ") == items[1].caption;
    } else {
      assert ls == [items[0].caption];
    }
  }

  /** The one-line summary for a focus labelled `name`. */
  function SummaryText(name: string, topPeople: seq<TopItem>, topEvents: seq<TopItem>): string {
    name + " is most connected to " + FirstTwo(topPeople) + " through " + FirstTwo(topEvents) + "."
  }

  // ------------------------------------------------------------ analysis

  /** The event scores of a graph. */
  function EventScores(g: GraphView): Scores {
    Tally(EventEntries(g.edges, NodeIndex(g.nodes)))
  }

  /** The person scores of a graph around `f`; none unless `f` is a person. */
  function PersonScores(g: GraphView, f: Focus): Scores {
    var idx := NodeIndex(g.nodes);
    if f.kind == PersonKind then
      Tally(PersonEntries(FocusEvents(g.edges, idx, f.id), PeopleByEvent(g.edges, idx), f.id))
    else Scores([], map[])
  }

  /** The reference result of `analyzeGraph`. */
  function Analyze(graph: Option<GraphView>, focus: Option<Focus>): Analysis {
    if graph.None? || focus.None? then Analysis([], [], "")
    else
      var g := graph.value;
      var f := focus.value;
      var idx := NodeIndex(g.nodes);
      var topEvents := TopItems(EventScores(g), idx, EventKind, 5);
      var topPeople := TopItems(PersonScores(g, f), idx, PersonKind, 8);
      var summary :=
        if f.kind == PersonKind && |topPeople| > 0 && |topEvents| > 0
        then SummaryText(f.caption.GetOr(f.id), topPeople, topEvents)
        else "";
      Analysis(topPeople, topEvents, summary)
  }

  /** `analyzeGraph`: the three loops, then the rankings and the summary. */
  method AnalyzeGraph(graph: Option<GraphView>, focus: Option<Focus>) returns (r: Analysis)
    ensures r == Analyze(graph, focus)
    ensures graph.None? || focus.None? ==> r == Analysis([], [], "")
  {
    if graph.None? || focus.None? {
      return Analysis([], [], "");
    }
    var g := graph.value;
    var f := focus.value;
    var idx := NodeIndex(g.nodes);
    var eventScores := ScoreEvents(g.edges, idx);
    var topEvents := TopItems(eventScores, idx, EventKind, 5);
    var peopleByEvent := GroupByEvent(g.edges, idx);
    var personScores := Scores([], map[]);
    if f.kind == PersonKind {
      var focusEventIds := CollectFocusEvents(g.edges, idx, f.id);
      personScores := ScorePeople(focusEventIds, peopleByEvent, f.id);
    }
    var topPeople := TopItems(personScores, idx, PersonKind, 8);
    var summary := if f.kind == PersonKind && |topPeople| > 0 && |topEvents| > 0
                   then SummaryText(f.caption.GetOr(f.id), topPeople, topEvents)
                   else "";
    r := Analysis(topPeople, topEvents, summary);
  }

  /** `topEvents`: at most five event nodes, highest score first, each once,
      labelled with its node's label and scored with the summed weights of
      the edges ending at it; an event some edge ends at is listed unless
      five are and it scores no higher than any of them. */
  lemma TopEventsSpec(g: GraphView, f: Focus)
    ensures var r := Analyze(Some(g), Some(f)).topEvents;
      var idx := NodeIndex(g.nodes);
      |r| <= 5 && SortedDesc(r, ByScore) &&
      (forall i, j :: 0 <= i < j < |r| ==> r[i].id != r[j].id) &&
      (forall it :: it in r ==>
         it.kind == EventKind && HasKind(idx, it.id, EventKind) && it.caption == idx[it.id].caption &&
         it.score == IncidentWeight(g.edges, it.id) && exists e :: e in g.edges && e.target == it.id) &&
      (forall e :: e in g.edges && ToEvent(idx, e) ==>
         (exists it :: it in r && it.id == e.target) ||
         (|r| == 5 && forall y :: y in r ==> IncidentWeight(g.edges, e.target) <= y.score))
  {
    var idx := NodeIndex(g.nodes);
    var t := EventScores(g);
    var r := Analyze(Some(g), Some(f)).topEvents;
    assert r == TopItems(t, idx, EventKind, 5);
    EventScoresSpec(g.edges, idx);
    TopItemsSound(t, idx, EventKind, 5);
    TopItemsComplete(t, idx, EventKind, 5);
    forall e | e in g.edges && ToEvent(idx, e)
      ensures (exists it :: it in r && it.id == e.target) ||
              (|r| == 5 && forall y :: y in r ==> IncidentWeight(g.edges, e.target) <= y.score)
    {
      assert e.target in t.total;
      if ItemOf(t, idx, EventKind, e.target) in r {
        assert ItemOf(t, idx, EventKind, e.target).id == e.target;
      }
    }
  }

  /** `topPeople`: empty unless the focus is a person; otherwise at most
      eight person nodes, highest score first, each once, never the focus,
      each with an edge into one of the focus's events and scored with its
      edge weights into those events; such a person is listed unless eight
      are and they score no higher than any of them. */
  lemma TopPeopleSpec(g: GraphView, f: Focus)
    ensures var r := Analyze(Some(g), Some(f)).topPeople;
      var idx := NodeIndex(g.nodes);
      var evs := FocusEvents(g.edges, idx, f.id);
      (f.kind == EventKind ==> r == []) &&
      |r| <= 8 && SortedDesc(r, ByScore) &&
      (forall i, j :: 0 <= i < j < |r| ==> r[i].id != r[j].id) &&
      (forall it :: it in r ==>
         it.kind == PersonKind && it.id != f.id && HasKind(idx, it.id, PersonKind) &&
         it.caption == idx[it.id].caption &&
         SharesOne(g.edges, idx, evs, it.id) && it.score == SharedWeight(g.edges, idx, evs, it.id)) &&
      (forall k :: f.kind == PersonKind && k != f.id && SharesOne(g.edges, idx, evs, k) ==>
         (exists it :: it in r && it.id == k) ||
         (|r| == 8 && forall y :: y in r ==> SharedWeight(g.edges, idx, evs, k) <= y.score))
  {
    var idx := NodeIndex(g.nodes);
    var evs := FocusEvents(g.edges, idx, f.id);
    var t := PersonScores(g, f);
    var r := Analyze(Some(g), Some(f)).topPeople;
    assert r == TopItems(t, idx, PersonKind, 8);
    if f.kind == PersonKind {
      PersonScoresSpec(g.edges, idx, f.id);
      TopItemsSound(t, idx, PersonKind, 8);
      TopItemsComplete(t, idx, PersonKind, 8);
      forall it | it in r
        ensures HasKind(idx, it.id, PersonKind)
      {
        var e :| e in g.edges && PersonToEvent(idx, e) && e.source == it.id && e.target in evs;
      }
      forall k | k != f.id && SharesOne(g.edges, idx, evs, k)
        ensures (exists it :: it in r && it.id == k) ||
                (|r| == 8 && forall y :: y in r ==> SharedWeight(g.edges, idx, evs, k) <= y.score)
      {
        if ItemOf(t, idx, PersonKind, k) in r {
          assert ItemOf(t, idx, PersonKind, k).id == k;
        }
      }
    } else {
      assert t.keys == [];
      assert Items(t, idx, PersonKind) == [];
    }
  }

  /** The summary is non-empty exactly for a person focus with some top
      person and some top event; it then names the focus (its label, else
      its id), the first two top people and the first two top events. */
  lemma SummarySpec(g: GraphView, f: Focus)
    ensures var a := Analyze(Some(g), Some(f));
      (a.summary != "" <==> f.kind == PersonKind && a.topPeople != [] && a.topEvents != []) &&
      (a.summary != "" ==>
         a.summary == f.caption.GetOr(f.id) + " is most connected to " + FirstTwo(a.topPeople) +
                      " through " + FirstTwo(a.topEvents) + ".")
  {
    var a := Analyze(Some(g), Some(f));
    if f.kind == PersonKind && a.topPeople != [] && a.topEvents != [] {
      var text := SummaryText(f.caption.GetOr(f.id), a.topPeople, a.topEvents);
      assert |text| >= |" is most connected to "| > 0;
    }
  }
}
