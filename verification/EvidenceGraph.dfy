/** The capped evidence graph and its incremental refresh (scout_graph.py). A node id is the digest of its kind
    and value, modelled as that pair. Proposal records are immutable: an id always names the same proposal. */
module EvidenceGraph {
  import opened Collections

  type Id = nat

  datatype Kind = Program | ProposalNode | Scout | Asset | Category | Invariant | Identity | Resource | Record

  datatype Value = ById(id: Id) | ByText(text: string)

  datatype Node = Node(kind: Kind, value: Value)

  datatype Relation = Contains | GeneratedBy | Targets | ClassifiedAs | TestsInvariant | UsesIdentity | AffectsResource
    | DerivedFrom

  datatype Edge = Edge(source: Node, relation: Relation, target: Node)

  /** `asset` is already reduced to origin and path; `cited` are the record ids the proposal refers to. */
  datatype Proposal = Proposal(scoutType: string, asset: string, category: string, statedInvariant: string,
                               identityContext: string, resourceType: string, cited: set<Id>)

  /** The proposal behind each id. */
  type Catalogue = Id -> Proposal

  /** For each proposal, the sorted list of those cited records that can be read, are of a usable kind and are
      bound to no other program. */
  type Evidence = Id -> seq<Id>

  // ----- The unbounded graph -----

  function ProposalOf(id: Id): Node { Node(ProposalNode, ById(id)) }

  function RecordOf(id: Id): Node { Node(Record, ById(id)) }

  function ProgramOf(program: string): Node { Node(Program, ByText(program)) }

  function Dimensions(id: Id, p: Proposal): seq<Edge> {
    [Edge(ProposalOf(id), GeneratedBy, Node(Scout, ByText(p.scoutType))),
     Edge(ProposalOf(id), Targets, Node(Asset, ByText(p.asset))),
     Edge(ProposalOf(id), ClassifiedAs, Node(Category, ByText(p.category))),
     Edge(ProposalOf(id), TestsInvariant, Node(Invariant, ByText(p.statedInvariant))),
     Edge(ProposalOf(id), UsesIdentity, Node(Identity, ByText(p.identityContext))),
     Edge(ProposalOf(id), AffectsResource, Node(Resource, ByText(p.resourceType)))]
  }

  function RecordLinks(id: Id, records: seq<Id>): (r: seq<Edge>)
    ensures forall e :: e in r <==> exists x :: x in records && e == Edge(ProposalOf(id), DerivedFrom, RecordOf(x))
  {
    if records == [] then []
    else
      assert records == records[..|records| - 1] + [records[|records| - 1]];
      RecordLinks(id, records[..|records| - 1]) + [Edge(ProposalOf(id), DerivedFrom, RecordOf(records[|records| - 1]))]
  }

  /** What a proposal adds, in order. Every link brings its target node along. */
  function Links(program: string, id: Id, p: Proposal, records: seq<Id>): seq<Edge> {
    [Edge(ProgramOf(program), Contains, ProposalOf(id))] + Dimensions(id, p) + RecordLinks(id, records)
  }

  /** All edges the proposals `ids` call for, and all nodes. */
  function AllEdges(program: string, c: Catalogue, ids: set<Id>, ev: Evidence): set<Edge> {
    set id, e | id in ids && e in Links(program, id, c(id), ev(id)) :: e
  }

  function Targeted(edges: set<Edge>): set<Node> {
    set e | e in edges :: e.target
  }

  function AllNodes(program: string, c: Catalogue, ids: set<Id>, ev: Evidence): set<Node> {
    {ProgramOf(program)} + Targeted(AllEdges(program, c, ids, ev))
  }

  // ----- The bounded graph -----

  datatype Graph = Graph(nodes: set<Node>, edges: set<Edge>, truncated: bool)

  datatype Limits = Limits(maxNodes: nat, maxEdges: nat)

  /** `node`: kept if known or if there is room, else the graph is truncated. */
  function WithNode(g: Graph, l: Limits, n: Node): Graph {
    if |g.nodes| < l.maxNodes || n in g.nodes then g.(nodes := g.nodes + {n}) else g.(truncated := true)
  }

  /** `edge`: dropped silently when an end is missing. */
  function WithEdge(g: Graph, l: Limits, e: Edge): Graph {
    if e.source in g.nodes && e.target in g.nodes && |g.edges| < l.maxEdges then g.(edges := g.edges + {e})
    else if e.source in g.nodes && e.target in g.nodes && e !in g.edges then g.(truncated := true)
    else g
  }

  function WithLink(g: Graph, l: Limits, e: Edge): Graph {
    WithEdge(WithNode(g, l, e.target), l, e)
  }

  function WithLinks(g: Graph, l: Limits, links: seq<Edge>): Graph {
    if links == [] then g else WithLink(WithLinks(g, l, links[..|links| - 1]), l, links[|links| - 1])
  }

  predicate Exceeds(l: Limits, nodes: set<Node>, edges: set<Edge>) {
    |nodes| > l.maxNodes || |edges| > l.maxEdges
  }

  /** How a bounded graph stands to the unbounded `nodes` and `edges`: inside the limits, edges join present nodes,
      truncated exactly when the unbounded graph exceeds a limit and otherwise complete. */
  ghost predicate Bounds(g: Graph, l: Limits, nodes: set<Node>, edges: set<Edge>) {
    && g.nodes <= nodes && g.edges <= edges
    && |g.nodes| <= l.maxNodes && |g.edges| <= l.maxEdges
    && (forall e | e in g.edges :: e.source in g.nodes && e.target in g.nodes)
    && (g.truncated <==> Exceeds(l, nodes, edges))
    && (!g.truncated ==> g.nodes == nodes && g.edges == edges)
  }

  lemma NodeKeepsBounds(g: Graph, l: Limits, n: Node, nodes: set<Node>, edges: set<Edge>)
    requires Bounds(g, l, nodes, edges)
    ensures Bounds(WithNode(g, l, n), l, nodes + {n}, edges)
  {
    SubsetSize(nodes, nodes + {n});
    SubsetSize(g.nodes, nodes);
    var r := WithNode(g, l, n);
    if g.truncated {
      assert Exceeds(l, nodes + {n}, edges);
    } else if n in nodes {
      assert nodes + {n} == nodes;
    }
  }

  lemma EdgeKeepsBounds(g: Graph, l: Limits, e: Edge, nodes: set<Node>, edges: set<Edge>)
    requires Bounds(g, l, nodes, edges) && e.source in nodes && e.target in nodes
    ensures Bounds(WithEdge(g, l, e), l, nodes, edges + {e})
  {
    SubsetSize(edges, edges + {e});
    if !g.truncated && e in edges {
      assert edges + {e} == edges;
    }
  }

  /** The unbounded nodes after some links. */
  function NodesAfter(nodes: set<Node>, links: seq<Edge>): set<Node> {
    if links == [] then nodes else NodesAfter(nodes, links[..|links| - 1]) + {links[|links| - 1].target}
  }

  function EdgesAfter(edges: set<Edge>, links: seq<Edge>): set<Edge> {
    if links == [] then edges else EdgesAfter(edges, links[..|links| - 1]) + {links[|links| - 1]}
  }

  lemma {:induction false} AfterIsUnion(nodes: set<Node>, edges: set<Edge>, links: seq<Edge>)
    ensures NodesAfter(nodes, links) == nodes + Targeted(Elements(links))
    ensures EdgesAfter(edges, links) == edges + Elements(links)
  {
    if links != [] {
      var front, last := links[..|links| - 1], links[|links| - 1];
      AfterIsUnion(nodes, edges, front);
      assert links == front + [last];
      ElementsSnoc(front, last);
    } else {
      assert Elements(links) == {} && Targeted({}) == {};
    }
  }

  lemma {:induction false} LinksKeepBounds(g: Graph, l: Limits, links: seq<Edge>, nodes: set<Node>, edges: set<Edge>)
    requires Bounds(g, l, nodes, edges)
    requires forall k | 0 <= k < |links| :: links[k].source in NodesAfter(nodes, links[..k])
    ensures Bounds(WithLinks(g, l, links), l, NodesAfter(nodes, links), EdgesAfter(edges, links))
  {
    if links != [] {
      var front, last := links[..|links| - 1], links[|links| - 1];
      forall k | 0 <= k < |front| ensures front[k].source in NodesAfter(nodes, front[..k]) {
        assert front[..k] == links[..k];
      }
      LinksKeepBounds(g, l, front, nodes, edges);
      var n, e := NodesAfter(nodes, front), EdgesAfter(edges, front);
      NodeKeepsBounds(WithLinks(g, l, front), l, last.target, n, e);
      EdgeKeepsBounds(WithNode(WithLinks(g, l, front), l, last.target), l, last, n + {last.target}, e);
    }
  }

  lemma ElementsSnoc(s: seq<Edge>, e: Edge)
    ensures Elements(s + [e]) == Elements(s) + {e}
    ensures Targeted(Elements(s + [e])) == Targeted(Elements(s)) + {e.target}
  {
    var t := s + [e];
    assert t[|s|] == e;
    assert Elements(t) == Elements(s) + {e};
    assert Targeted(Elements(s) + {e}) == Targeted(Elements(s)) + {e.target};
  }

  /** A proposal's links start at the program, whose node is there, or at its own node, which the first link adds. */
  lemma LinksRooted(program: string, id: Id, p: Proposal, records: seq<Id>, nodes: set<Node>, k: nat)
    requires k < |Links(program, id, p, records)| && ProgramOf(program) in nodes
    ensures var links := Links(program, id, p, records);
            links[k].source in NodesAfter(nodes, links[..k])
  {
    var links := Links(program, id, p, records);
    AfterIsUnion(nodes, {}, links[..k]);
    if k > 0 {
      assert links[..k][0] == Edge(ProgramOf(program), Contains, ProposalOf(id));
      assert links[..k][0] in Elements(links[..k]);
      assert ProposalOf(id) in Targeted(Elements(links[..k]));
      if k >= 7 {
        assert links[k] == RecordLinks(id, records)[k - 7];
        assert links[k] in RecordLinks(id, records);
      }
    }
  }

  lemma AllGrow(program: string, c: Catalogue, ids: set<Id>, id: Id, ev: Evidence)
    ensures var links := Links(program, id, c(id), ev(id));
            && AllEdges(program, c, ids + {id}, ev) == AllEdges(program, c, ids, ev) + Elements(links)
            && AllNodes(program, c, ids + {id}, ev) == AllNodes(program, c, ids, ev) + Targeted(Elements(links))
  {
    var links := Links(program, id, c(id), ev(id));
    var edges := AllEdges(program, c, ids, ev);
    assert AllEdges(program, c, ids + {id}, ev) == edges + Elements(links);
    TargetedUnion(edges, Elements(links));
  }

  lemma TargetedUnion(a: set<Edge>, b: set<Edge>)
    ensures Targeted(a + b) == Targeted(a) + Targeted(b)
  {
  }

  /** Absorbing one more proposal. */
  lemma ProposalKeepsBounds(g: Graph, l: Limits, program: string, c: Catalogue, ids: set<Id>, id: Id, ev: Evidence)
    requires Bounds(g, l, AllNodes(program, c, ids, ev), AllEdges(program, c, ids, ev))
    ensures Bounds(WithLinks(g, l, Links(program, id, c(id), ev(id))), l,
                   AllNodes(program, c, ids + {id}, ev), AllEdges(program, c, ids + {id}, ev))
  {
    var links := Links(program, id, c(id), ev(id));
    var nodes, edges := AllNodes(program, c, ids, ev), AllEdges(program, c, ids, ev);
    forall k | 0 <= k < |links| ensures links[k].source in NodesAfter(nodes, links[..k]) {
      LinksRooted(program, id, c(id), ev(id), nodes, k);
    }
    LinksKeepBounds(g, l, links, nodes, edges);
    AfterIsUnion(nodes, edges, links);
    AllGrow(program, c, ids, id, ev);
  }

  lemma EmptyBounds(l: Limits, program: string, c: Catalogue, ev: Evidence)
    ensures Bounds(WithNode(Graph({}, {}, false), l, ProgramOf(program)), l, AllNodes(program, c, {}, ev),
                   AllEdges(program, c, {}, ev))
  {
    assert AllEdges(program, c, {}, ev) == {};
    assert AllNodes(program, c, {}, ev) == {ProgramOf(program)};
  }

  // ----- Snapshots -----

  /** What a snapshot's source hash is taken over. */
  datatype Material = Material(id: Id, asset: string, category: string, statedInvariant: string, cited: set<Id>)

  datatype Snapshot = Snapshot(program: string, material: seq<Material>, graph: Graph, considered: nat,
                               incremental: bool, added: nat)

  function MaterialOf(c: Catalogue, ids: seq<Id>): (r: seq<Material>)
    ensures |r| == |ids|
    ensures forall i :: 0 <= i < |ids| ==> r[i].id == ids[i]
  {
    seq(|ids|, i requires 0 <= i < |ids| =>
      var p := c(ids[i]); Material(ids[i], p.asset, p.category, p.statedInvariant, p.cited))
  }

  /** The material of the listed proposals: each id with its asset, category, invariant and cited records. */
  ghost predicate Hashes(m: seq<Material>, c: Catalogue, ids: seq<Id>) {
    && |m| == |ids|
    && forall k | 0 <= k < |m| ::
         && m[k].id == ids[k] && m[k].asset == c(ids[k]).asset && m[k].category == c(ids[k]).category
         && m[k].statedInvariant == c(ids[k]).statedInvariant && m[k].cited == c(ids[k]).cited
  }

  /** There is one material of a listing. */
  lemma MaterialHashes(c: Catalogue, ids: seq<Id>, m: seq<Material>)
    ensures Hashes(m, c, ids) <==> m == MaterialOf(c, ids)
  {
    if Hashes(m, c, ids) {
      forall k | 0 <= k < |m| ensures m[k] == MaterialOf(c, ids)[k] {
      }
    }
  }

  function IdsOf(s: Snapshot): (r: seq<Id>)
    ensures |r| == |s.material|
    ensures forall i :: 0 <= i < |r| ==> r[i] == s.material[i].id
  {
    seq(|s.material|, i requires 0 <= i < |s.material| => s.material[i].id)
  }

  /** The proposals whose nodes a snapshot holds. */
  function Indexed(g: Graph): set<Id> {
    set n | n in g.nodes && n.kind == ProposalNode && n.value.ById? :: n.value.id
  }

  function WithProposals(g: Graph, l: Limits, program: string, c: Catalogue, ids: seq<Id>, ev: Evidence): Graph {
    if ids == [] then g
    else
      var id := ids[|ids| - 1];
      WithLinks(WithProposals(g, l, program, c, ids[..|ids| - 1], ev), l, Links(program, id, c(id), ev(id)))
  }

  const EMPTY: Graph := Graph({}, {}, false)

  /** A graph built from scratch. */
  function Rebuilt(l: Limits, program: string, c: Catalogue, ids: seq<Id>, ev: Evidence): Graph {
    WithProposals(WithNode(EMPTY, l, ProgramOf(program)), l, program, c, ids, ev)
  }

  /** Whether a prior snapshot can be extended: all its proposals are still there, and all of them had nodes. */
  predicate Extensible(prior: Snapshot, ids: seq<Id>) {
    Indexed(prior.graph) <= Elements(ids) && prior.considered == |Indexed(prior.graph)|
  }

  function Pending(prior: Snapshot, ids: seq<Id>): seq<Id> {
    Filter((id: Id) => id !in Indexed(prior.graph), ids)
  }

  /** One refresh: the prior snapshot if nothing changed, an extension of it if possible, else a rebuild. */
  function Refreshed(l: Limits, c: Catalogue, latest: map<string, Snapshot>, program: string, ids: seq<Id>,
                     ev: Evidence): Snapshot {
    var material := MaterialOf(c, ids);
    if program in latest && latest[program].material == material then latest[program]
    else if program in latest && Extensible(latest[program], ids) then
      var prior := latest[program];
      var pending := Pending(prior, ids);
      Snapshot(program, material,
               WithProposals(WithNode(prior.graph, l, ProgramOf(program)), l, program, c, pending, ev),
               |ids|, true, |pending|)
    else Snapshot(program, material, Rebuilt(l, program, c, ids, ev), |ids|, false, |ids|)
  }

  /** A snapshot stands in the right relation to the unbounded graph of its proposals, under the evidence each of
      them had when it was indexed. */
  ghost predicate Sound(s: Snapshot, l: Limits, program: string, c: Catalogue, used: Evidence) {
    && s.considered == |s.material|
    && Bounds(s.graph, l, AllNodes(program, c, Elements(IdsOf(s)), used),
              AllEdges(program, c, Elements(IdsOf(s)), used))
  }

  lemma SetSnoc(base: set<Id>, ids: seq<Id>)
    requires ids != []
    ensures base + Elements(ids) == base + Elements(ids[..|ids| - 1]) + {ids[|ids| - 1]}
  {
    assert ids == ids[..|ids| - 1] + [ids[|ids| - 1]];
  }

  lemma {:induction false} WithProposalsBounds(g: Graph, l: Limits, program: string, c: Catalogue, base: set<Id>,
                                               ids: seq<Id>, ev: Evidence, all: set<Id>)
    requires Bounds(g, l, AllNodes(program, c, base, ev), AllEdges(program, c, base, ev))
    requires all == base + Elements(ids)
    ensures Bounds(WithProposals(g, l, program, c, ids, ev), l, AllNodes(program, c, all, ev),
                   AllEdges(program, c, all, ev))
  {
    if ids == [] {
      assert all == base;
    } else {
      var front, id := ids[..|ids| - 1], ids[|ids| - 1];
      var some := base + Elements(front);
      assert all == some + {id} by { SetSnoc(base, ids); }
      WithProposalsBounds(g, l, program, c, base, front, ev, some);
      var h := WithProposals(g, l, program, c, front, ev);
      ProposalKeepsBounds(h, l, program, c, some, id, ev);
      assert WithProposals(g, l, program, c, ids, ev) == WithLinks(h, l, Links(program, id, c(id), ev(id)));
    }
  }

  /** Building from scratch reports truncation exactly when the unbounded graph exceeds a limit. */
  lemma RebuiltBounds(l: Limits, program: string, c: Catalogue, ids: seq<Id>, ev: Evidence)
    ensures Bounds(Rebuilt(l, program, c, ids, ev), l, AllNodes(program, c, Elements(ids), ev),
                   AllEdges(program, c, Elements(ids), ev))
  {
    EmptyBounds(l, program, c, ev);
    WithProposalsBounds(WithNode(EMPTY, l, ProgramOf(program)), l, program, c, {}, ids, ev, Elements(ids));
  }

  lemma AllDependOn(program: string, c: Catalogue, ids: set<Id>, f: Evidence, g: Evidence)
    requires forall id | id in ids :: Elements(f(id)) == Elements(g(id))
    ensures AllEdges(program, c, ids, f) == AllEdges(program, c, ids, g)
    ensures AllNodes(program, c, ids, f) == AllNodes(program, c, ids, g)
  {
    forall id, e | id in ids ensures e in Links(program, id, c(id), f(id)) <==> e in Links(program, id, c(id), g(id)) {
      assert forall x :: x in f(id) <==> x in Elements(f(id));
      assert forall x :: x in g(id) <==> x in Elements(g(id));
    }
  }

  /** Only proposals of the snapshot have proposal nodes, so an extensible snapshot has them all. */
  lemma ExtensibleIndexed(s: Snapshot, l: Limits, program: string, c: Catalogue, used: Evidence, ids: seq<Id>)
    requires Sound(s, l, program, c, used) && Extensible(s, ids)
    ensures Indexed(s.graph) == Elements(IdsOf(s))
  {
    IndexedInAll(s, l, program, c, used);
    ElementsSize(IdsOf(s));
    SubsetSize(Indexed(s.graph), Elements(IdsOf(s)));
    SubsetSameSize(Indexed(s.graph), Elements(IdsOf(s)));
  }

  /** The unbounded graph has a proposal node for exactly its proposals. */
  lemma ProposalNodes(program: string, c: Catalogue, ids: set<Id>, ev: Evidence, id: Id)
    ensures ProposalOf(id) in AllNodes(program, c, ids, ev) <==> id in ids
  {
    var edges := AllEdges(program, c, ids, ev);
    if id in ids {
      var e := Edge(ProgramOf(program), Contains, ProposalOf(id));
      assert e == Links(program, id, c(id), ev(id))[0] && e in Links(program, id, c(id), ev(id));
      assert e in edges;
    }
    if ProposalOf(id) in Targeted(edges) {
      var e :| e in edges && e.target == ProposalOf(id);
      var other :| other in ids && e in Links(program, other, c(other), ev(other));
      ProposalTarget(program, other, c(other), ev(other), e);
    }
  }

  lemma IndexedNode(g: Graph, id: Id)
    ensures id in Indexed(g) <==> ProposalOf(id) in g.nodes
  {
    if id in Indexed(g) {
      var n :| n in g.nodes && n.kind == ProposalNode && n.value.ById? && n.value.id == id;
      assert n == ProposalOf(id);
    }
  }

  lemma IndexedInAll(s: Snapshot, l: Limits, program: string, c: Catalogue, used: Evidence)
    requires Sound(s, l, program, c, used)
    ensures Indexed(s.graph) <= Elements(IdsOf(s))
    ensures !s.graph.truncated ==> Indexed(s.graph) == Elements(IdsOf(s))
  {
    forall id ensures id in Indexed(s.graph) ==> id in Elements(IdsOf(s))
              ensures !s.graph.truncated && id in Elements(IdsOf(s)) ==> id in Indexed(s.graph) {
      IndexedNode(s.graph, id);
      ProposalNodes(program, c, Elements(IdsOf(s)), used, id);
    }
  }

  lemma ProposalTarget(program: string, id: Id, p: Proposal, records: seq<Id>, e: Edge)
    requires e in Links(program, id, p, records)
    ensures e.target.kind == ProposalNode ==> e == Edge(ProgramOf(program), Contains, ProposalOf(id))
    ensures e.relation == DerivedFrom ==>
              exists x :: x in records && e == Edge(ProposalOf(id), DerivedFrom, RecordOf(x))
  {
    assert e == Edge(ProgramOf(program), Contains, ProposalOf(id)) || e in Dimensions(id, p)
           || e in RecordLinks(id, records);
  }

  /** The evidence each proposal of a refreshed snapshot was indexed under. */
  ghost function UsedAfter(l: Limits, c: Catalogue, latest: map<string, Snapshot>, program: string, ids: seq<Id>,
                           ev: Evidence, used: Evidence): Evidence {
    if program in latest && latest[program].material == MaterialOf(c, ids) then used
    else if program in latest && Extensible(latest[program], ids) then
      (id: Id) => if id in Indexed(latest[program].graph) then used(id) else ev(id)
    else ev
  }

  /** Every refresh, whichever way it goes, leaves a sound snapshot of exactly the proposals asked for. */
  lemma RefreshedSound(l: Limits, c: Catalogue, latest: map<string, Snapshot>, program: string, ids: seq<Id>,
                       ev: Evidence, used: Evidence)
    requires program in latest ==> Sound(latest[program], l, program, c, used)
    ensures IdsOf(Refreshed(l, c, latest, program, ids, ev)) == ids
    ensures Sound(Refreshed(l, c, latest, program, ids, ev), l, program, c,
                  UsedAfter(l, c, latest, program, ids, ev, used))
  {
    var s, now := Refreshed(l, c, latest, program, ids, ev), UsedAfter(l, c, latest, program, ids, ev, used);
    assert IdsOf(s) == ids;
    if program in latest && latest[program].material == MaterialOf(c, ids) {
    } else if program in latest && Extensible(latest[program], ids) {
      ExtendedSound(l, c, latest[program], program, ids, ev, used, now);
    } else {
      RebuiltBounds(l, program, c, ids, ev);
    }
  }

  lemma ExtendedSound(l: Limits, c: Catalogue, prior: Snapshot, program: string, ids: seq<Id>, ev: Evidence,
                      used: Evidence, now: Evidence)
    requires Sound(prior, l, program, c, used) && Extensible(prior, ids)
    requires forall id :: now(id) == if id in Indexed(prior.graph) then used(id) else ev(id)
    ensures Bounds(WithProposals(WithNode(prior.graph, l, ProgramOf(program)), l, program, c, Pending(prior, ids), ev),
                   l, AllNodes(program, c, Elements(ids), now), AllEdges(program, c, Elements(ids), now))
  {
    ExtendedBounds(l, c, prior, program, ids, used, now);
    SameEvidence(WithNode(prior.graph, l, ProgramOf(program)), l, program, c, Pending(prior, ids), ev, now);
  }

  lemma ExtendedBounds(l: Limits, c: Catalogue, prior: Snapshot, program: string, ids: seq<Id>, used: Evidence,
                       now: Evidence)
    requires Sound(prior, l, program, c, used) && Extensible(prior, ids)
    requires forall id | id in Indexed(prior.graph) :: now(id) == used(id)
    ensures Bounds(WithProposals(WithNode(prior.graph, l, ProgramOf(program)), l, program, c, Pending(prior, ids), now),
                   l, AllNodes(program, c, Elements(ids), now), AllEdges(program, c, Elements(ids), now))
  {
    var before := Elements(IdsOf(prior));
    ExtensibleIndexed(prior, l, program, c, used, ids);
    AllDependOn(program, c, before, used, now);
    ProgramKept(prior.graph, l, program, c, before, now);
    PendingCompletes(prior, before, ids);
    WithProposalsBounds(WithNode(prior.graph, l, ProgramOf(program)), l, program, c, before, Pending(prior, ids), now,
                        Elements(ids));
  }

  lemma PendingCompletes(prior: Snapshot, before: set<Id>, ids: seq<Id>)
    requires Indexed(prior.graph) == before && before <= Elements(ids)
    ensures Elements(ids) == before + Elements(Pending(prior, ids))
  {
  }

  /** Adding the program's node again changes no bound. */
  lemma ProgramKept(g: Graph, l: Limits, program: string, c: Catalogue, ids: set<Id>, ev: Evidence)
    requires Bounds(g, l, AllNodes(program, c, ids, ev), AllEdges(program, c, ids, ev))
    ensures Bounds(WithNode(g, l, ProgramOf(program)), l, AllNodes(program, c, ids, ev), AllEdges(program, c, ids, ev))
  {
    ProgramInAll(program, c, ids, ev);
    NodeKeepsBounds(g, l, ProgramOf(program), AllNodes(program, c, ids, ev), AllEdges(program, c, ids, ev));
  }

  lemma ProgramInAll(program: string, c: Catalogue, ids: set<Id>, ev: Evidence)
    ensures AllNodes(program, c, ids, ev) + {ProgramOf(program)} == AllNodes(program, c, ids, ev)
  {
  }

  lemma {:induction false} SameEvidence(g: Graph, l: Limits, program: string, c: Catalogue, ids: seq<Id>, f: Evidence,
                                        h: Evidence)
    requires forall id | id in ids :: f(id) == h(id)
    ensures WithProposals(g, l, program, c, ids, f) == WithProposals(g, l, program, c, ids, h)
  {
    if ids != [] {
      SameEvidence(g, l, program, c, ids[..|ids| - 1], f, h);
    }
  }

  /** Truncated exactly when the unbounded graph of `ids` exceeds a limit, which is when a rebuild is; otherwise
      the same nodes and edges as a rebuild. */
  ghost predicate LikeRebuilt(s: Snapshot, l: Limits, program: string, c: Catalogue, ids: seq<Id>, ev: Evidence) {
    var rebuilt := Rebuilt(l, program, c, ids, ev);
    && (s.graph.truncated <==> Exceeds(l, AllNodes(program, c, Elements(ids), ev),
                                       AllEdges(program, c, Elements(ids), ev)))
    && (s.graph.truncated <==> rebuilt.truncated)
    && (!s.graph.truncated ==> s.graph.nodes == rebuilt.nodes && s.graph.edges == rebuilt.edges)
  }

  /** A snapshot is like a rebuild as long as every proposal still has the evidence it was indexed under. */
  lemma SoundEqualsRebuild(s: Snapshot, l: Limits, program: string, c: Catalogue, used: Evidence, ev: Evidence)
    requires Sound(s, l, program, c, used)
    requires forall id | id in IdsOf(s) :: Elements(used(id)) == Elements(ev(id))
    ensures LikeRebuilt(s, l, program, c, IdsOf(s), ev)
  {
    AllDependOn(program, c, Elements(IdsOf(s)), used, ev);
    RebuiltBounds(l, program, c, IdsOf(s), ev);
  }

  /** An untruncated snapshot is the graph of a rebuild, flag included, exactly when no proposal's usable evidence
      changed after it was indexed. A cited record that becomes readable later is not picked up, even if a rebuild
      would exceed a limit for it. */
  lemma SnapshotMatchesRebuildExactly(s: Snapshot, l: Limits, program: string, c: Catalogue, used: Evidence,
                                      ev: Evidence)
    requires Sound(s, l, program, c, used) && !s.graph.truncated
    ensures s.graph == Rebuilt(l, program, c, IdsOf(s), ev)
            <==> forall id | id in IdsOf(s) :: Elements(used(id)) == Elements(ev(id))
  {
    RebuiltBounds(l, program, c, IdsOf(s), ev);
    EdgesMatchExactly(program, c, IdsOf(s), used, ev);
    if forall id | id in IdsOf(s) :: Elements(used(id)) == Elements(ev(id)) {
      AllDependOn(program, c, Elements(IdsOf(s)), used, ev);
    }
  }

  lemma AllWithin(program: string, c: Catalogue, ids: set<Id>, f: Evidence, g: Evidence)
    requires forall id | id in ids :: Elements(f(id)) <= Elements(g(id))
    ensures AllEdges(program, c, ids, f) <= AllEdges(program, c, ids, g)
    ensures AllNodes(program, c, ids, f) <= AllNodes(program, c, ids, g)
  {
    forall id, e | id in ids && e in Links(program, id, c(id), f(id)) ensures e in Links(program, id, c(id), g(id)) {
      assert forall x :: x in f(id) <==> x in Elements(f(id));
      assert forall x :: x in g(id) <==> x in Elements(g(id));
    }
  }

  /** The graph of the proposals exceeds a limit under the evidence. */
  predicate TooLarge(l: Limits, program: string, c: Catalogue, ids: seq<Id>, ev: Evidence) {
    Exceeds(l, AllNodes(program, c, Elements(ids), ev), AllEdges(program, c, Elements(ids), ev))
  }

  /** More evidence makes a larger graph. */
  lemma TooLargeStays(l: Limits, program: string, c: Catalogue, ids: seq<Id>, f: Evidence, g: Evidence)
    requires TooLarge(l, program, c, ids, f) && forall id | id in ids :: Elements(f(id)) <= Elements(g(id))
    ensures TooLarge(l, program, c, ids, g)
  {
    AllWithin(program, c, Elements(ids), f, g);
    SubsetSize(AllNodes(program, c, Elements(ids), f), AllNodes(program, c, Elements(ids), g));
    SubsetSize(AllEdges(program, c, Elements(ids), f), AllEdges(program, c, Elements(ids), g));
  }

  /** The flag of a snapshot, truncated or not, is that of a rebuild exactly when the graph is too large both under the
      evidence its proposals were indexed under and under the present one, or under neither. So evidence that is only
      gained never leaves a truncated snapshot's flag out of date, and evidence that is only lost never an untruncated
      one's. */
  lemma FlagMatchesExactly(s: Snapshot, l: Limits, program: string, c: Catalogue, used: Evidence, ev: Evidence)
    requires Sound(s, l, program, c, used)
    ensures s.graph.truncated == Rebuilt(l, program, c, IdsOf(s), ev).truncated
            <==> (TooLarge(l, program, c, IdsOf(s), used) <==> TooLarge(l, program, c, IdsOf(s), ev))
    ensures s.graph.truncated && (forall id | id in IdsOf(s) :: Elements(used(id)) <= Elements(ev(id)))
            ==> Rebuilt(l, program, c, IdsOf(s), ev).truncated
    ensures !s.graph.truncated && (forall id | id in IdsOf(s) :: Elements(ev(id)) <= Elements(used(id)))
            ==> !Rebuilt(l, program, c, IdsOf(s), ev).truncated
  {
    RebuiltBounds(l, program, c, IdsOf(s), ev);
    if s.graph.truncated && forall id | id in IdsOf(s) :: Elements(used(id)) <= Elements(ev(id)) {
      TooLargeStays(l, program, c, IdsOf(s), used, ev);
    }
    if TooLarge(l, program, c, IdsOf(s), ev)
       && forall id | id in IdsOf(s) :: Elements(ev(id)) <= Elements(used(id)) {
      TooLargeStays(l, program, c, IdsOf(s), ev, used);
    }
  }

  lemma EdgesMatchExactly(program: string, c: Catalogue, ids: seq<Id>, used: Evidence, ev: Evidence)
    ensures AllEdges(program, c, Elements(ids), used) == AllEdges(program, c, Elements(ids), ev)
            <==> forall id | id in ids :: Elements(used(id)) == Elements(ev(id))
  {
    if forall id | id in ids :: Elements(used(id)) == Elements(ev(id)) {
      AllDependOn(program, c, Elements(ids), used, ev);
    } else if AllEdges(program, c, Elements(ids), used) == AllEdges(program, c, Elements(ids), ev) {
      var id :| id in ids && Elements(used(id)) != Elements(ev(id));
      EvidenceRecovered(program, c, Elements(ids), used, ev, id);
      EvidenceRecovered(program, c, Elements(ids), ev, used, id);
      assert false;
    }
  }

  /** A proposal's evidence can be read off the edges. */
  lemma EvidenceRecovered(program: string, c: Catalogue, ids: set<Id>, f: Evidence, g: Evidence, id: Id)
    requires id in ids && AllEdges(program, c, ids, f) <= AllEdges(program, c, ids, g)
    ensures Elements(f(id)) <= Elements(g(id))
  {
    forall x | x in f(id) ensures x in g(id) {
      var e := Edge(ProposalOf(id), DerivedFrom, RecordOf(x));
      assert e in RecordLinks(id, f(id));
      assert e in Links(program, id, c(id), f(id));
      assert e in AllEdges(program, c, ids, f);
      var other :| other in ids && e in Links(program, other, c(other), g(other));
      ProposalTarget(program, other, c(other), g(other), e);
    }
  }

  /** The divergence, at its smallest: proposal `a` cites record `x`, which cannot be read when `a` is first
      indexed. Once it can, extending the snapshot by another proposal `b` leaves it without the edge to `x` that
      a rebuild has, although neither graph is truncated. */
  lemma LateEvidenceMissed(l: Limits, program: string, c: Catalogue, a: Id, b: Id, x: Id, early: Evidence,
                           late: Evidence)
    requires a != b && l.maxNodes >= 17 && l.maxEdges >= 16
    requires early(a) == [] && late(a) == [x] && late(b) == []
    ensures var first := Refreshed(l, c, map[], program, [a], early);
            var second := Refreshed(l, c, map[program := first], program, [a, b], late);
            && !second.graph.truncated && !Rebuilt(l, program, c, [a, b], late).truncated
            && second.graph.edges != Rebuilt(l, program, c, [a, b], late).edges
  {
    var first := Refreshed(l, c, map[], program, [a], early);
    RefreshedSound(l, c, map[], program, [a], early, early);
    FirstIndexed(l, program, c, a, b, first, early);
    StillMissing(l, program, c, first, a, b, x, [a, b], early, late);
  }

  lemma StillMissing(l: Limits, program: string, c: Catalogue, first: Snapshot, a: Id, b: Id, x: Id, ids: seq<Id>,
                     early: Evidence, late: Evidence)
    requires a != b && l.maxNodes >= 17 && l.maxEdges >= 16 && ids == [a, b]
    requires IdsOf(first) == [a] && Sound(first, l, program, c, early) && Indexed(first.graph) == {a}
             && Extensible(first, ids)
    requires early(a) == [] && late(a) == [x] && late(b) == []
    ensures var second := Refreshed(l, c, map[program := first], program, ids, late);
            && !second.graph.truncated && !Rebuilt(l, program, c, ids, late).truncated
            && second.graph.edges != Rebuilt(l, program, c, ids, late).edges
  {
    var latest := map[program := first];
    RefreshedSound(l, c, latest, program, ids, late, early);
    var used := UsedAfter(l, c, latest, program, ids, late, early);
    assert used(a) == [] && used(b) == [] by {
      assert |MaterialOf(c, ids)| == 2 && |first.material| == |IdsOf(first)| == 1;
    }
    SecondMisses(l, program, c, a, b, x, Refreshed(l, c, latest, program, ids, late), used, late);
  }

  lemma FirstIndexed(l: Limits, program: string, c: Catalogue, a: Id, b: Id, first: Snapshot, ev: Evidence)
    requires l.maxNodes >= 17 && l.maxEdges >= 16 && ev(a) == []
    requires IdsOf(first) == [a] && Sound(first, l, program, c, ev)
    ensures Indexed(first.graph) == {a} && Extensible(first, [a, b])
  {
    assert !first.graph.truncated by { SmallFits(l, program, c, [a], ev); }
    IndexedInAll(first, l, program, c, ev);
    assert Elements([a]) == {a};
    assert {a} <= Elements([a, b]) by { assert [a, b][0] == a; }
  }

  lemma SecondMisses(l: Limits, program: string, c: Catalogue, a: Id, b: Id, x: Id, second: Snapshot, used: Evidence,
                     late: Evidence)
    requires a != b && l.maxNodes >= 17 && l.maxEdges >= 16
    requires IdsOf(second) == [a, b] && Sound(second, l, program, c, used)
    requires used(a) == [] && used(b) == [] && late(a) == [x] && late(b) == []
    ensures !second.graph.truncated && !Rebuilt(l, program, c, [a, b], late).truncated
    ensures second.graph.edges != Rebuilt(l, program, c, [a, b], late).edges
  {
    var ids := IdsOf(second);
    assert !second.graph.truncated by { SmallFits(l, program, c, ids, used); }
    assert !Rebuilt(l, program, c, ids, late).truncated by {
      SmallFits(l, program, c, ids, late);
      RebuiltBounds(l, program, c, ids, late);
    }
    assert x in Elements(late(a)) && x !in Elements(used(a)) by { assert [x][0] == x; }
    assert a in ids by { assert ids[0] == a; }
    RebuiltBounds(l, program, c, ids, late);
    EdgesMatchExactly(program, c, ids, used, late);
  }

  /** Two proposals with at most one record each need no more than 17 nodes and 16 edges. */
  lemma SmallFits(l: Limits, program: string, c: Catalogue, ids: seq<Id>, ev: Evidence)
    requires |ids| <= 2 && l.maxNodes >= 17 && l.maxEdges >= 16 && forall id | id in ids :: |ev(id)| <= 1
    ensures !Exceeds(l, AllNodes(program, c, Elements(ids), ev), AllEdges(program, c, Elements(ids), ev))
  {
    EdgesCount(program, c, ids, ev);
    TargetedSize(AllEdges(program, c, Elements(ids), ev));
  }

  lemma {:induction false} EdgesCount(program: string, c: Catalogue, ids: seq<Id>, ev: Evidence)
    requires forall id | id in ids :: |ev(id)| <= 1
    ensures |AllEdges(program, c, Elements(ids), ev)| <= 8 * |ids|
  {
    if ids == [] {
      assert AllEdges(program, c, Elements(ids), ev) == {};
    } else {
      var front, id := ids[..|ids| - 1], ids[|ids| - 1];
      EdgesCount(program, c, front, ev);
      assert ids == front + [id];
      assert Elements(ids) == Elements(front) + {id};
      AllGrow(program, c, Elements(front), id, ev);
      var links := Links(program, id, c(id), ev(id));
      ElementsSize(links);
      RecordLinksLength(id, ev(id));
      assert |links| <= 8;
    }
  }

  lemma {:induction false} RecordLinksLength(id: Id, records: seq<Id>)
    ensures |RecordLinks(id, records)| == |records|
  {
    if records != [] {
      RecordLinksLength(id, records[..|records| - 1]);
    }
  }

  lemma {:induction false} TargetedSize(edges: set<Edge>)
    ensures |Targeted(edges)| <= |edges|
  {
    if edges != {} {
      var e :| e in edges;
      TargetedSize(edges - {e});
      TargetedUnion(edges - {e}, {e});
      assert edges == edges - {e} + {e};
      assert Targeted({e}) == {e.target};
    }
  }

  // ----- What a graph shows -----

  /** The edges of one proposal: from its program, to the six things it is about, and to the records it derives from. */
  predicate DrawnFor(program: string, id: Id, p: Proposal, records: seq<Id>, e: Edge) {
    var it := Node(ProposalNode, ById(id));
    || e == Edge(Node(Program, ByText(program)), Contains, it)
    || e == Edge(it, GeneratedBy, Node(Scout, ByText(p.scoutType)))
    || e == Edge(it, Targets, Node(Asset, ByText(p.asset)))
    || e == Edge(it, ClassifiedAs, Node(Category, ByText(p.category)))
    || e == Edge(it, TestsInvariant, Node(Invariant, ByText(p.statedInvariant)))
    || e == Edge(it, UsesIdentity, Node(Identity, ByText(p.identityContext)))
    || e == Edge(it, AffectsResource, Node(Resource, ByText(p.resourceType)))
    || exists i | 0 <= i < |records| :: e == Edge(it, DerivedFrom, Node(Record, ById(records[i])))
  }

  ghost predicate Drawn(program: string, c: Catalogue, ids: seq<Id>, ev: Evidence, e: Edge) {
    exists i | 0 <= i < |ids| :: DrawnFor(program, ids[i], c(ids[i]), ev(ids[i]), e)
  }

  ghost predicate Reached(program: string, c: Catalogue, ids: seq<Id>, ev: Evidence, n: Node) {
    exists e: Edge :: e.target == n && Drawn(program, c, ids, ev, e)
  }

  /** The graph has edges of the listed proposals only, and the program and what edges lead to for nodes; unless it is
      truncated it has all of them. */
  ghost predicate Shows(g: Graph, program: string, c: Catalogue, ids: seq<Id>, ev: Evidence) {
    && (forall e :: e in g.edges ==> Drawn(program, c, ids, ev, e))
    && (forall n :: n in g.nodes ==> n == Node(Program, ByText(program)) || Reached(program, c, ids, ev, n))
    && (!g.truncated ==>
          && Node(Program, ByText(program)) in g.nodes
          && (forall e :: Drawn(program, c, ids, ev, e) ==> e in g.edges && e.target in g.nodes))
  }

  lemma DimensionsDrawn(id: Id, p: Proposal, e: Edge)
    ensures var it := Node(ProposalNode, ById(id));
            e in Dimensions(id, p) <==>
              || e == Edge(it, GeneratedBy, Node(Scout, ByText(p.scoutType)))
              || e == Edge(it, Targets, Node(Asset, ByText(p.asset)))
              || e == Edge(it, ClassifiedAs, Node(Category, ByText(p.category)))
              || e == Edge(it, TestsInvariant, Node(Invariant, ByText(p.statedInvariant)))
              || e == Edge(it, UsesIdentity, Node(Identity, ByText(p.identityContext)))
              || e == Edge(it, AffectsResource, Node(Resource, ByText(p.resourceType)))
  {
    var six := Dimensions(id, p);
    assert six[0] in six && six[1] in six && six[2] in six && six[3] in six && six[4] in six && six[5] in six;
  }

  lemma RecordsDrawn(id: Id, records: seq<Id>, e: Edge)
    ensures e in RecordLinks(id, records)
            <==> exists i | 0 <= i < |records| ::
              e == Edge(Node(ProposalNode, ById(id)), DerivedFrom, Node(Record, ById(records[i])))
  {
    if e in RecordLinks(id, records) {
      var x :| x in records && e == Edge(ProposalOf(id), DerivedFrom, RecordOf(x));
      var i :| 0 <= i < |records| && records[i] == x;
    }
    if i :| 0 <= i < |records| && e == Edge(Node(ProposalNode, ById(id)), DerivedFrom, Node(Record, ById(records[i]))) {
      assert records[i] in records;
    }
  }

  lemma LinksDrawn(program: string, id: Id, p: Proposal, records: seq<Id>, e: Edge)
    ensures e in Links(program, id, p, records) <==> DrawnFor(program, id, p, records, e)
  {
    var front := [Edge(ProgramOf(program), Contains, ProposalOf(id))];
    assert e in Links(program, id, p, records)
           <==> e in front || e in Dimensions(id, p) || e in RecordLinks(id, records);
    DimensionsDrawn(id, p, e);
    RecordsDrawn(id, records, e);
  }

  lemma AllDrawn(program: string, c: Catalogue, ids: seq<Id>, ev: Evidence, e: Edge)
    ensures e in AllEdges(program, c, Elements(ids), ev) <==> Drawn(program, c, ids, ev, e)
  {
    if e in AllEdges(program, c, Elements(ids), ev) {
      var id :| id in Elements(ids) && e in Links(program, id, c(id), ev(id));
      var i :| 0 <= i < |ids| && ids[i] == id;
      LinksDrawn(program, id, c(id), ev(id), e);
    }
    if Drawn(program, c, ids, ev, e) {
      var i :| 0 <= i < |ids| && DrawnFor(program, ids[i], c(ids[i]), ev(ids[i]), e);
      LinksDrawn(program, ids[i], c(ids[i]), ev(ids[i]), e);
      assert ids[i] in Elements(ids);
    }
  }

  lemma BoundsShow(g: Graph, l: Limits, program: string, c: Catalogue, ids: seq<Id>, ev: Evidence, nodes: set<Node>,
                   all: set<Edge>)
    requires Bounds(g, l, nodes, all)
    requires forall n :: n in nodes <==> n == Node(Program, ByText(program)) || Reached(program, c, ids, ev, n)
    requires forall e :: e in all <==> Drawn(program, c, ids, ev, e)
    ensures Shows(g, program, c, ids, ev)
  {
    if !g.truncated {
      forall e | Drawn(program, c, ids, ev, e) ensures e in g.edges && e.target in g.nodes {
        assert Reached(program, c, ids, ev, e.target);
      }
    }
  }

  /** A sound snapshot shows what its proposals and the evidence they were indexed under call for. */
  lemma SoundShows(s: Snapshot, l: Limits, program: string, c: Catalogue, used: Evidence)
    requires Sound(s, l, program, c, used)
    ensures Shows(s.graph, program, c, IdsOf(s), used)
  {
    var ids := IdsOf(s);
    var all := AllEdges(program, c, Elements(ids), used);
    forall e ensures e in all <==> Drawn(program, c, ids, used, e) {
      AllDrawn(program, c, ids, used, e);
    }
    var nodes := AllNodes(program, c, Elements(ids), used);
    forall n ensures n in nodes <==> n == Node(Program, ByText(program)) || Reached(program, c, ids, used, n) {
      if n in Targeted(all) {
        var e :| e in all && e.target == n;
        assert Drawn(program, c, ids, used, e);
      }
    }
    BoundsShow(s.graph, l, program, c, ids, used, nodes, all);
  }

  /** A refresh indexes a proposal under the present evidence, unless the snapshot it extends or keeps has it. */
  lemma UsedMeans(l: Limits, c: Catalogue, latest: map<string, Snapshot>, program: string, ids: seq<Id>, ev: Evidence,
                  used: Evidence, id: Id)
    ensures var now, kept := UsedAfter(l, c, latest, program, ids, ev, used)(id),
                             program in latest && latest[program].material == MaterialOf(c, ids);
            && (kept ==> now == used(id))
            && (!kept && (program !in latest || Node(ProposalNode, ById(id)) !in latest[program].graph.nodes)
                ==> now == ev(id))
            && (now == ev(id) || now == used(id))
  {
  }

  // ----- The builder as it runs -----

  /** The graph one refresh is working on. */
  class Draft {
    const limits: Limits
    var nodes: set<Node>
    var edges: set<Edge>
    var truncated: bool

    ghost function Value(): Graph
      reads this
    {
      Graph(nodes, edges, truncated)
    }

    constructor (limits: Limits, start: Graph)
      ensures this.limits == limits && Value() == start
    {
      this.limits := limits;
      nodes, edges, truncated := start.nodes, start.edges, start.truncated;
    }

    method AddNode(n: Node)
      modifies this`nodes, this`truncated
      ensures Value() == WithNode(old(Value()), limits, n)
    {
      if |nodes| < limits.maxNodes || n in nodes {
        nodes := nodes + {n};
      } else {
        truncated := true;
      }
    }

    method AddEdge(e: Edge)
      modifies this`edges, this`truncated
      ensures Value() == WithEdge(old(Value()), limits, e)
    {
      if e.source in nodes && e.target in nodes && |edges| < limits.maxEdges {
        edges := edges + {e};
      } else if e.source in nodes && e.target in nodes && e !in edges {
        truncated := true;
      }
    }

    method AddLinks(links: seq<Edge>)
      modifies this`nodes, this`edges, this`truncated
      ensures Value() == WithLinks(old(Value()), limits, links)
    {
      for i := 0 to |links|
        invariant Value() == WithLinks(old(Value()), limits, links[..i])
      {
        assert links[..i + 1][..i] == links[..i];
        AddNode(links[i].target);
        AddEdge(links[i]);
      }
      assert links[..|links|] == links;
    }

    method AddProposals(program: string, c: Catalogue, ids: seq<Id>, ev: Evidence)
      modifies this`nodes, this`edges, this`truncated
      ensures Value() == WithProposals(old(Value()), limits, program, c, ids, ev)
    {
      for i := 0 to |ids|
        invariant Value() == WithProposals(old(Value()), limits, program, c, ids[..i], ev)
      {
        assert ids[..i + 1][..i] == ids[..i];
        AddLinks(Links(program, ids[i], c(ids[i]), ev(ids[i])));
      }
      assert ids[..|ids|] == ids;
    }
  }

  ghost predicate AllSound(latest: map<string, Snapshot>, used: map<string, Evidence>, l: Limits, c: Catalogue) {
    forall program | program in latest :: program in used && Sound(latest[program], l, program, c, used[program])
  }

  ghost predicate IndexedUnder(s: Snapshot, used: Evidence, ev: Evidence) {
    forall id | id in IdsOf(s) :: Elements(used(id)) == Elements(ev(id))
  }

  ghost predicate AllUnder(latest: map<string, Snapshot>, used: map<string, Evidence>, ev: Evidence) {
    forall program | program in latest :: program in used && IndexedUnder(latest[program], used[program], ev)
  }

  /** A refreshed snapshot is over the listed proposals, and is the old one exactly when that was. */
  lemma MaterialRefreshed(l: Limits, c: Catalogue, latest: map<string, Snapshot>, program: string, ids: seq<Id>,
                          ev: Evidence)
    ensures Hashes(Refreshed(l, c, latest, program, ids, ev).material, c, ids)
    ensures program in latest ==>
              (latest[program].material == MaterialOf(c, ids) <==> Hashes(latest[program].material, c, ids))
  {
    MaterialHashes(c, ids, MaterialOf(c, ids));
    if program in latest {
      MaterialHashes(c, ids, latest[program].material);
    }
  }

  lemma RefreshKeeps(l: Limits, c: Catalogue, latest: map<string, Snapshot>, used: map<string, Evidence>,
                     program: string, ids: seq<Id>, ev: Evidence, now: Evidence)
    requires AllSound(latest, used, l, c)
    requires now == UsedAfter(l, c, latest, program, ids, ev, if program in used then used[program] else ev)
    ensures var s := Refreshed(l, c, latest, program, ids, ev);
            && IdsOf(s) == ids
            && AllSound(latest[program := s], used[program := now], l, c)
            && (AllUnder(latest, used, ev) ==>
                  AllUnder(latest[program := s], used[program := now], ev) && LikeRebuilt(s, l, program, c, ids, ev))
  {
    var was := if program in used then used[program] else ev;
    RefreshedSound(l, c, latest, program, ids, ev, was);
    var s := Refreshed(l, c, latest, program, ids, ev);
    if AllUnder(latest, used, ev) {
      UsedFollows(l, c, latest, program, ids, ev, was);
      SoundEqualsRebuild(s, l, program, c, now, ev);
    }
    OthersKept(l, c, latest, used, program, s, now, ev);
  }

  lemma RefreshShows(l: Limits, c: Catalogue, latest: map<string, Snapshot>, used: map<string, Evidence>,
                     program: string, ids: seq<Id>, ev: Evidence, now: Evidence)
    requires AllSound(latest, used, l, c)
    requires now == UsedAfter(l, c, latest, program, ids, ev, if program in used then used[program] else ev)
    ensures Shows(Refreshed(l, c, latest, program, ids, ev).graph, program, c, ids, now)
  {
    RefreshedSound(l, c, latest, program, ids, ev, if program in used then used[program] else ev);
    SoundShows(Refreshed(l, c, latest, program, ids, ev), l, program, c, now);
  }

  lemma OthersKept(l: Limits, c: Catalogue, latest: map<string, Snapshot>, used: map<string, Evidence>,
                   program: string, s: Snapshot, now: Evidence, ev: Evidence)
    requires AllSound(latest, used, l, c) && Sound(s, l, program, c, now)
    ensures AllSound(latest[program := s], used[program := now], l, c)
    ensures AllUnder(latest, used, ev) && IndexedUnder(s, now, ev)
            ==> AllUnder(latest[program := s], used[program := now], ev)
  {
  }

  class EvidenceGraphBuilder {
    const limits: Limits
    const catalogue: Catalogue
    /** The latest snapshot record of each program. */
    var latest: map<string, Snapshot>
    /** The evidence each indexed proposal was last indexed under, per program. */
    ghost var used: map<string, Evidence>

    ghost predicate Valid()
      reads this
    {
      AllSound(latest, used, limits, catalogue)
    }

    /** Every snapshot was made under the evidence `ev`. */
    ghost predicate Under(ev: Evidence)
      reads this
    {
      AllUnder(latest, used, ev)
    }

    constructor (limits: Limits, catalogue: Catalogue)
      ensures Valid() && latest == map[] && this.limits == limits && this.catalogue == catalogue
    {
      this.limits, this.catalogue := limits, catalogue;
      latest, used := map[], map[];
    }

    /** A refresh always leaves a sound snapshot. Along any chain of refreshes under the same evidence it is the
        rebuild, except for which nodes and edges a truncated graph keeps. */
    method Refresh(program: string, ids: seq<Id>, ev: Evidence) returns (s: Snapshot, skipped: bool)
      requires Valid()
      modifies this
      ensures Valid()
      ensures latest == old(latest)[program := s] && s == Refreshed(limits, catalogue, old(latest), program, ids, ev)
      ensures skipped <==> program in old(latest) && old(latest)[program].material == MaterialOf(catalogue, ids)
      ensures skipped <==> program in old(latest) && Hashes(old(latest)[program].material, catalogue, ids)
      ensures IdsOf(s) == ids && Hashes(s.material, catalogue, ids)
      ensures used == old(used)[program := UsedAfter(limits, catalogue, old(latest), program, ids, ev,
                                                     if program in old(used) then old(used)[program] else ev)]
      ensures Shows(s.graph, program, catalogue, ids, used[program])
      ensures old(Under(ev)) ==> Under(ev)
      ensures old(Under(ev)) ==> LikeRebuilt(s, limits, program, catalogue, ids, ev)
    {
      ghost var now := UsedAfter(limits, catalogue, latest, program, ids, ev,
                                 if program in used then used[program] else ev);
      hide Hashes, MaterialOf, Shows;
      MaterialRefreshed(limits, catalogue, latest, program, ids, ev);
      s, skipped := Compute(program, ids, ev);
      RefreshKeeps(limits, catalogue, latest, used, program, ids, ev, now);
      RefreshShows(limits, catalogue, latest, used, program, ids, ev, now);
      Store(program, s, now);
    }

    method Store(program: string, s: Snapshot, ghost now: Evidence)
      modifies this
      ensures latest == old(latest)[program := s] && used == old(used)[program := now]
    {
      latest, used := latest[program := s], used[program := now];
    }

    method Compute(program: string, ids: seq<Id>, ev: Evidence) returns (s: Snapshot, skipped: bool)
      ensures s == Refreshed(limits, catalogue, latest, program, ids, ev)
      ensures skipped <==> program in latest && latest[program].material == MaterialOf(catalogue, ids)
    {
      var material := MaterialOf(catalogue, ids);
      if program in latest && latest[program].material == material {
        return latest[program], true;
      }
      var pending, start, incremental := ids, EMPTY, false;
      if program in latest && Extensible(latest[program], ids) {
        pending, start, incremental := Pending(latest[program], ids), latest[program].graph, true;
      }
      var draft := new Draft(limits, start);
      draft.AddNode(ProgramOf(program));
      draft.AddProposals(program, catalogue, pending, ev);
      s := Snapshot(program, material, Graph(draft.nodes, draft.edges, draft.truncated), |ids|, incremental, |pending|);
      skipped := false;
    }
  }

  /** A refresh under `ev` indexes new proposals under `ev` and leaves the others as they were. */
  lemma UsedFollows(l: Limits, c: Catalogue, latest: map<string, Snapshot>, program: string, ids: seq<Id>, ev: Evidence,
                    used: Evidence)
    requires program in latest ==>
               Sound(latest[program], l, program, c, used) && IndexedUnder(latest[program], used, ev)
    requires IdsOf(Refreshed(l, c, latest, program, ids, ev)) == ids
    ensures IndexedUnder(Refreshed(l, c, latest, program, ids, ev), UsedAfter(l, c, latest, program, ids, ev, used), ev)
  {
    if program in latest && latest[program].material == MaterialOf(c, ids) {
      assert IdsOf(latest[program]) == ids;
    } else if program in latest && Extensible(latest[program], ids) {
      ExtensibleIndexed(latest[program], l, program, c, used, ids);
    }
  }
}
