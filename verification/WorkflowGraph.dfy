/**
 The workflow specification: nodes, conditional edges, join policies, and the admission checks that
 relate them.  `AssertAcyclic` is Kahn's algorithm as the kernel runs it, proved to accept exactly
 the acyclic edge lists.
*/
module WorkflowGraph {
  import opened Graphs
  import opened Wrappers

  type Id = string

  datatype NodeKind =
    | AgentTask | ToolActivity | Decision | Verification | HumanTask
    | Timer | SignalWait | Subworkflow | Compensation | Synthesis

  datatype NodeState =
    | Proposed | Admitted | Scheduled | Leased | Running | Waiting | Verifying | RetryWait
    | Unknown | Skipped | Succeeded | Failed | Cancelled | ManualIntervention

  datatype ArtifactRef = ArtifactRef(artifactId: Id, digest: string, mediaType: string)

  datatype NodeProjection = NodeProjection(
    nodeId: Id,
    state: NodeState,
    attemptIds: seq<Id>,
    resultRef: Option<ArtifactRef>,
    errorCode: Option<string>)

  /** The pointer operators (`exists`, `eq`, `in`) are some test of the source's own projection. */
  datatype Condition =
    | StatusIs(state: NodeState)
    | Selector(holds: NodeProjection -> bool)

  datatype Edge = Edge(from: Id, to: Id, condition: Option<Condition>)

  datatype JoinPolicy = All | Any | Quorum(minimum: int)

  datatype NodeSpec = NodeSpec(nodeId: Id, kind: NodeKind, join: Option<JoinPolicy>)

  datatype ModePolicy = Auto | Solo | Workflow

  datatype Topology = SingleAgent | DelegatedAgents | WorkflowGraph

  datatype Spec = Spec(
    workflowId: Id,
    runId: Id,
    sessionId: Id,
    modePolicy: ModePolicy,
    topology: Topology,
    revision: int,
    nodes: seq<NodeSpec>,
    edges: seq<Edge>,
    maxGraphMutations: int)

  /** The error codes of the workflow kernel. */
  datatype WorkflowError =
    | SpecInvalid | NodeDuplicate | EdgeInvalid | JoinInvalid | GraphCycle | ModeOverrideIncompatible
    | HistoryInvalid | TransitionInvalid | GraphPatchRejected | TaskRequestConflict
    | NodeNotFound | AttemptNotFound | AttemptDuplicate | AttemptInvalid

  function NodeIds(nodes: seq<NodeSpec>): (ids: seq<Id>)
    ensures |ids| == |nodes|
    ensures forall i :: 0 <= i < |ids| ==> ids[i] == nodes[i].nodeId
  {
    seq(|nodes|, i requires 0 <= i < |nodes| => nodes[i].nodeId)
  }

  ghost function Arcs(edges: seq<Edge>): set<(Id, Id)> {
    set i | 0 <= i < |edges| :: (edges[i].from, edges[i].to)
  }

  predicate EdgesInside(ids: seq<Id>, edges: seq<Edge>) {
    forall i :: 0 <= i < |edges| ==>
      edges[i].from != edges[i].to && edges[i].from in ids && edges[i].to in ids
  }

  function Incoming(edges: seq<Edge>, nodeId: Id): (r: seq<Edge>)
    ensures forall i :: 0 <= i < |r| ==> r[i].to == nodeId && (exists j :: 0 <= j < |edges| && r[i] == edges[j])
  {
    if edges == [] then []
    else
      var last := edges[|edges| - 1];
      Incoming(edges[..|edges| - 1], nodeId) + (if last.to == nodeId then [last] else [])
  }

  predicate JoinAdmissible(node: NodeSpec, edges: seq<Edge>) {
    node.join.Some? ==>
      && node.kind in {Decision, Synthesis}
      && |Incoming(edges, node.nodeId)| > 0
      && (node.join.value.Quorum? ==> 0 < node.join.value.minimum <= |Incoming(edges, node.nodeId)|)
  }

  /** The relational part of `validateWorkflowSpecV1`, in the order in which the checks are made. */
  ghost function ValidateSpec(spec: Spec): (r: Result<Spec, WorkflowError>)
    ensures r.Ok? <==> ValidSpec(spec)
    ensures r.Ok? ==> r.value == spec
  {
    if spec.nodes == [] || spec.revision <= 0 || spec.maxGraphMutations < 0 then Err(SpecInvalid)
    else if !Distinct(NodeIds(spec.nodes)) then Err(NodeDuplicate)
    else if !EdgesInside(NodeIds(spec.nodes), spec.edges) then Err(EdgeInvalid)
    else if !Acyclic(Arcs(spec.edges)) then Err(GraphCycle)
    else if exists i :: 0 <= i < |spec.nodes| && !JoinAdmissible(spec.nodes[i], spec.edges) then
      Err(JoinInvalid)
    else if !ModeAdmissible(spec) then Err(ModeOverrideIncompatible)
    else Ok(spec)
  }

  predicate ModeAdmissible(spec: Spec) {
    spec.modePolicy == Solo ==>
      forall i :: 0 <= i < |spec.nodes| ==> spec.nodes[i].nodeId == "root" || spec.nodes[i].kind == ToolActivity
  }

  ghost predicate ValidSpec(spec: Spec) {
    && spec.nodes != [] && spec.revision > 0 && spec.maxGraphMutations >= 0
    && Distinct(NodeIds(spec.nodes))
    && EdgesInside(NodeIds(spec.nodes), spec.edges)
    && Acyclic(Arcs(spec.edges))
    && (forall i :: 0 <= i < |spec.nodes| ==> JoinAdmissible(spec.nodes[i], spec.edges))
    && ModeAdmissible(spec)
  }

  // ---------- Kahn's queue ----------

  /** How many of the first `n` edges into `v` still come from a node that has not been visited. */
  ghost function Remaining(edges: seq<Edge>, n: nat, v: Id, done: set<Id>): nat
    requires n <= |edges|
  {
    if n == 0 then 0
    else Remaining(edges, n - 1, v, done) + (if edges[n - 1].to == v && edges[n - 1].from !in done then 1 else 0)
  }

  /** The targets of the first `n` edges that leave `u`, in edge order and with repetitions. */
  ghost function Targets(edges: seq<Edge>, n: nat, u: Id): seq<Id>
    requires n <= |edges|
  {
    if n == 0 then []
    else Targets(edges, n - 1, u) + (if edges[n - 1].from == u then [edges[n - 1].to] else [])
  }

  /** Occurrences of `v` in `s` from index `k` on. */
  ghost function Occurrences(s: seq<Id>, k: nat, v: Id): nat
    requires k <= |s|
    decreases |s| - k
  {
    if k == |s| then 0 else Occurrences(s, k + 1, v) + (if s[k] == v then 1 else 0)
  }

  lemma {:induction false} OccurrencesSnoc(s: seq<Id>, x: Id, k: nat, v: Id)
    requires k <= |s|
    ensures Occurrences(s + [x], k, v) == Occurrences(s, k, v) + (if x == v then 1 else 0)
    decreases |s| - k
  {
    if k < |s| {
      OccurrencesSnoc(s, x, k + 1, v);
    }
  }

  lemma {:induction false} RemainingZero(edges: seq<Edge>, n: nat, v: Id, done: set<Id>)
    requires n <= |edges| && Remaining(edges, n, v, done) == 0
    ensures forall i :: 0 <= i < n && edges[i].to == v ==> edges[i].from in done
  {
    if n > 0 {
      RemainingZero(edges, n - 1, v, done);
    }
  }

  lemma {:induction false} RemainingWitness(edges: seq<Edge>, n: nat, v: Id, done: set<Id>) returns (i: nat)
    requires n <= |edges| && Remaining(edges, n, v, done) > 0
    ensures i < n && edges[i].to == v && edges[i].from !in done
  {
    if edges[n - 1].to == v && edges[n - 1].from !in done {
      i := n - 1;
    } else {
      i := RemainingWitness(edges, n - 1, v, done);
    }
  }

  /** Visiting `u` removes from every node's count its edges out of `u`. */
  lemma {:induction false} VisitRemoves(edges: seq<Edge>, n: nat, u: Id, v: Id, done: set<Id>)
    requires n <= |edges| && u !in done
    ensures Remaining(edges, n, v, done)
         == Remaining(edges, n, v, done + {u}) + Occurrences(Targets(edges, n, u), 0, v)
  {
    if n > 0 {
      VisitRemoves(edges, n - 1, u, v, done);
      if edges[n - 1].from == u {
        OccurrencesSnoc(Targets(edges, n - 1, u), edges[n - 1].to, 0, v);
      } else {
        assert Targets(edges, n, u) == Targets(edges, n - 1, u);
      }
    }
  }

  lemma {:induction false} TargetsInside(edges: seq<Edge>, n: nat, u: Id, ids: seq<Id>)
    requires n <= |edges| && EdgesInside(ids, edges)
    ensures forall x :: x in Targets(edges, n, u) ==> x in ids
  {
    if n > 0 {
      TargetsInside(edges, n - 1, u, ids);
    }
  }

  /** Every node's count is the number of its edges from unvisited nodes among the first `n`. */
  ghost predicate Counted(edges: seq<Edge>, n: nat, done: set<Id>, indegree: map<Id, int>)
    requires n <= |edges|
  {
    forall v :: v in indegree ==> indegree[v] == Remaining(edges, n, v, done)
  }

  function Listed(outgoing: map<Id, seq<Id>>, v: Id): seq<Id> {
    if v in outgoing then outgoing[v] else []
  }

  ghost predicate Listing(edges: seq<Edge>, n: nat, outgoing: map<Id, seq<Id>>)
    requires n <= |edges|
  {
    forall v :: Listed(outgoing, v) == Targets(edges, n, v)
  }

  lemma CountStep(edges: seq<Edge>, k: nat, indegree: map<Id, int>)
    requires k < |edges| && Counted(edges, k, {}, indegree) && edges[k].to in indegree
    ensures Counted(edges, k + 1, {}, indegree[edges[k].to := indegree[edges[k].to] + 1])
  {
  }

  lemma ListStep(edges: seq<Edge>, k: nat, outgoing: map<Id, seq<Id>>)
    requires k < |edges| && Listing(edges, k, outgoing)
    ensures Listing(edges, k + 1, outgoing[edges[k].from := Listed(outgoing, edges[k].from) + [edges[k].to]])
  {
    var next := outgoing[edges[k].from := Listed(outgoing, edges[k].from) + [edges[k].to]];
    forall v ensures Listed(next, v) == Targets(edges, k + 1, v) {
      assert Listed(outgoing, v) == Targets(edges, k, v);
      assert Targets(edges, k, v) + [] == Targets(edges, k, v);
    }
  }

  /** Counts edges into each node and lists the edges out of each node. */
  method CountEdges(ids: seq<Id>, edges: seq<Edge>) returns (outgoing: map<Id, seq<Id>>, indegree: map<Id, int>)
    requires EdgesInside(ids, edges)
    ensures indegree.Keys == Elements(ids)
    ensures Counted(edges, |edges|, {}, indegree)
    ensures Listing(edges, |edges|, outgoing)
  {
    outgoing := map[];
    indegree := map v | v in ids :: 0;
    for k := 0 to |edges|
      invariant indegree.Keys == Elements(ids)
      invariant Counted(edges, k, {}, indegree)
      invariant Listing(edges, k, outgoing)
    {
      var edge := edges[k];
      CountStep(edges, k, indegree);
      ListStep(edges, k, outgoing);
      outgoing := outgoing[edge.from := Listed(outgoing, edge.from) + [edge.to]];
      indegree := indegree[edge.to := indegree[edge.to] + 1];
    }
  }

  /** The queue holds exactly the unvisited nodes whose count is zero, each once. */
  ghost predicate Queued(done: set<Id>, indegree: map<Id, int>, ready: seq<Id>) {
    && Distinct(ready)
    && (forall v :: v in ready ==> v in indegree && v !in done)
    && (forall v :: v in indegree ==> (indegree[v] == 0 <==> v in done || v in ready))
  }

  /** Nodes left over when the queue runs dry all wait for one another, so they hold a cycle. */
  lemma LeftoverIsCyclic(ids: seq<Id>, edges: seq<Edge>, done: set<Id>, indegree: map<Id, int>)
    requires EdgesInside(ids, edges) && indegree.Keys == Elements(ids)
    requires Counted(edges, |edges|, done, indegree) && Queued(done, indegree, [])
    requires done <= Elements(ids) && done != Elements(ids)
    ensures !Acyclic(Arcs(edges))
  {
    var left := Elements(ids) - done;
    forall v | v in left ensures HasEntry(Arcs(edges), left, v) {
      assert indegree[v] == Remaining(edges, |edges|, v, done) != 0;
      var i := RemainingWitness(edges, |edges|, v, done);
      assert edges[i].from in ids;
      assert (edges[i].from, edges[i].to) in Arcs(edges);
    }
    var w :| w in Elements(ids) && w !in done;
    assert w in left;
    AllEnteredIsCyclic(Arcs(edges), left);
  }

  /** Every visited node was visited after all sources of its edges. */
  ghost predicate Ranked(edges: seq<Edge>, done: set<Id>, rank: map<Id, int>, visited: int) {
    && rank.Keys == done && |done| == visited
    && (forall v :: v in rank ==> rank[v] < visited)
    && (forall i :: 0 <= i < |edges| && edges[i].to in done ==>
          edges[i].from in rank && rank[edges[i].from] < rank[edges[i].to])
  }

  lemma RankStep(edges: seq<Edge>, done: set<Id>, rank: map<Id, int>, visited: int, id: Id)
    requires Ranked(edges, done, rank, visited) && id !in done
    requires Remaining(edges, |edges|, id, done) == 0
    ensures Ranked(edges, done + {id}, rank[id := visited], visited + 1)
  {
    RemainingZero(edges, |edges|, id, done);
  }

  /** Once the queue is empty the number of visits decides between acyclic and cyclic. */
  lemma QueueDry(ids: seq<Id>, edges: seq<Edge>, done: set<Id>, indegree: map<Id, int>, rank: map<Id, int>, visited: int)
    requires Distinct(ids) && EdgesInside(ids, edges)
    requires indegree.Keys == Elements(ids) && done <= Elements(ids)
    requires Counted(edges, |edges|, done, indegree) && Queued(done, indegree, [])
    requires Ranked(edges, done, rank, visited)
    ensures visited == |ids| <==> Acyclic(Arcs(edges))
  {
    DistinctSize(ids);
    SubsetSize(done, Elements(ids));
    if visited == |ids| {
      RankedIsAcyclic(Arcs(edges), rank);
    } else {
      assert |done| != |Elements(ids)|;
      LeftoverIsCyclic(ids, edges, done, indegree);
    }
  }

  ghost predicate CountedAhead(edges: seq<Edge>, done: set<Id>, targets: seq<Id>, k: nat, indegree: map<Id, int>)
    requires k <= |targets|
  {
    forall v :: v in indegree ==> indegree[v] == Remaining(edges, |edges|, v, done) + Occurrences(targets, k, v)
  }

  lemma PopReady(done: set<Id>, indegree: map<Id, int>, ready: seq<Id>)
    requires Queued(done, indegree, ready) && |ready| > 0
    ensures Queued(done + {ready[0]}, indegree, ready[1..])
  {
    var rest := ready[1..];
    assert forall i :: 0 <= i < |rest| ==> rest[i] == ready[i + 1];
    assert forall v :: v in ready <==> v == ready[0] || v in rest;
  }

  lemma BeforeTargets(edges: seq<Edge>, done: set<Id>, id: Id, indegree: map<Id, int>)
    requires Counted(edges, |edges|, done, indegree) && id !in done
    ensures CountedAhead(edges, done + {id}, Targets(edges, |edges|, id), 0, indegree)
  {
    forall v | v in indegree
      ensures indegree[v]
           == Remaining(edges, |edges|, v, done + {id}) + Occurrences(Targets(edges, |edges|, id), 0, v)
    {
      VisitRemoves(edges, |edges|, id, v, done);
    }
  }

  method VisitTargets(edges: seq<Edge>, ghost done: set<Id>, targets: seq<Id>,
                      indegree0: map<Id, int>, ready0: seq<Id>)
    returns (indegree: map<Id, int>, ready: seq<Id>)
    requires forall x :: x in targets ==> x in indegree0
    requires CountedAhead(edges, done, targets, 0, indegree0)
    requires Queued(done, indegree0, ready0)
    ensures indegree.Keys == indegree0.Keys
    ensures Counted(edges, |edges|, done, indegree)
    ensures Queued(done, indegree, ready)
  {
    indegree, ready := indegree0, ready0;
    for k := 0 to |targets|
      invariant indegree.Keys == indegree0.Keys
      invariant CountedAhead(edges, done, targets, k, indegree)
      invariant Queued(done, indegree, ready)
    {
      var next := targets[k];
      assert next in targets;
      assert Occurrences(targets, k, next) > 0;
      var count := (if next in indegree then indegree[next] else 0) - 1;
      indegree := indegree[next := count];
      if count == 0 {
        ready := ready + [next];
      }
    }
  }

  function IdsWithoutEntry(ids: seq<Id>, n: nat, indegree: map<Id, int>): (r: seq<Id>)
    requires n <= |ids| && Distinct(ids) && forall v :: v in ids ==> v in indegree
    ensures Distinct(r)
    ensures forall v :: v in r <==> v in ids[..n] && indegree[v] == 0
  {
    if n == 0 then []
    else
      var rest := IdsWithoutEntry(ids, n - 1, indegree);
      assert ids[..n] == ids[..n - 1] + [ids[n - 1]];
      if indegree[ids[n - 1]] == 0 then rest + [ids[n - 1]] else rest
  }

  /** Kahn's queue visits every node if and only if the edges form no cycle; it always terminates. */
  method AssertAcyclic(nodes: seq<NodeSpec>, edges: seq<Edge>) returns (ok: bool)
    requires Distinct(NodeIds(nodes)) && EdgesInside(NodeIds(nodes), edges)
    ensures ok <==> Acyclic(Arcs(edges))
  {
    var ids := NodeIds(nodes);
    var outgoing, indegree := CountEdges(ids, edges);
    var ready := IdsWithoutEntry(ids, |ids|, indegree);
    assert ids[..|ids|] == ids;
    var visited := 0;
    ghost var done: set<Id>, rank: map<Id, int> := {}, map[];
    DistinctSize(ids);
    while |ready| > 0
      invariant indegree.Keys == Elements(ids) && done <= Elements(ids)
      invariant Counted(edges, |edges|, done, indegree)
      invariant Queued(done, indegree, ready)
      invariant Ranked(edges, done, rank, visited)
      decreases |ids| - visited
    {
      var id := ready[0];
      assert id in ready && id in ids;
      RankStep(edges, done, rank, visited, id);
      PopReady(done, indegree, ready);
      BeforeTargets(edges, done, id, indegree);
      TargetsInside(edges, |edges|, id, ids);
      rank := rank[id := visited];
      visited := visited + 1;
      done := done + {id};
      SubsetSize(done, Elements(ids));
      indegree, ready := VisitTargets(edges, done, Listed(outgoing, id), indegree, ready[1..]);
    }
    ok := visited == |nodes|;
    assert ready == [];
    QueueDry(ids, edges, done, indegree, rank, visited);
  }
  /** The checks as the kernel makes them: loops over nodes and edges, and the queue for the graph. */
  method ValidateWorkflowSpec(spec: Spec) returns (r: Result<Spec, WorkflowError>)
    ensures r == ValidateSpec(spec)
  {
    if |spec.nodes| < 1 || spec.revision <= 0 || spec.maxGraphMutations < 0 {
      return Err(SpecInvalid);
    }
    if !Distinct(NodeIds(spec.nodes)) {
      return Err(NodeDuplicate);
    }
    if !EdgesInside(NodeIds(spec.nodes), spec.edges) {
      return Err(EdgeInvalid);
    }
    var acyclic := AssertAcyclic(spec.nodes, spec.edges);
    if !acyclic {
      return Err(GraphCycle);
    }
    for k := 0 to |spec.nodes|
      invariant forall i :: 0 <= i < k ==> JoinAdmissible(spec.nodes[i], spec.edges)
    {
      if !JoinAdmissible(spec.nodes[k], spec.edges) {
        return Err(JoinInvalid);
      }
    }
    if !ModeAdmissible(spec) {
      return Err(ModeOverrideIncompatible);
    }
    r := Ok(spec);
  }
}
