/**
 What a workflow projection says about its history: who may enter which state, what each event does to the
 run, to each node and to each attempt, and that a running workflow can start.
*/
module WorkflowHistory {
  import opened Graphs
  import opened Wrappers
  import opened WorkflowGraph
  import opened WorkflowReadiness
  import opened WorkflowEvents

  // ---------- Who may enter a state ----------

  /** The transition table of runs, read by where a move leads. */
  lemma RunIsEnteredFrom(from: RunState)
    ensures RunState.Created !in RunTransitions(from)
    ensures RunState.Running in RunTransitions(from) <==> from in {RunState.Created, RunState.Waiting, RunState.Paused}
    ensures RunState.Waiting in RunTransitions(from) <==> from == RunState.Running
    ensures RunState.Paused in RunTransitions(from) <==> from in {RunState.Running, RunState.Waiting}
    ensures RunState.Cancelling in RunTransitions(from) <==> from in {RunState.Running, RunState.Waiting, RunState.Paused}
    ensures RunState.Cancelled in RunTransitions(from) <==> from in {RunState.Created, RunState.Cancelling}
    ensures RunState.Completed in RunTransitions(from) <==> from == RunState.Running
    ensures RunState.Failed in RunTransitions(from) <==> from in {RunState.Running, RunState.Waiting, RunState.Cancelling}
    ensures RunState.Terminated in RunTransitions(from) <==> !Finished(from)
  {
  }

  /** The transition table of nodes, read by where a move leads. */
  lemma NodeIsEnteredFrom(from: NodeState)
    ensures NodeState.Proposed !in NodeTransitions(from)
    ensures NodeState.Admitted in NodeTransitions(from) <==> from == NodeState.Proposed
    ensures NodeState.Scheduled in NodeTransitions(from) <==>
      from in {NodeState.Admitted, NodeState.Leased, NodeState.Waiting, NodeState.RetryWait}
    ensures NodeState.Leased in NodeTransitions(from) <==> from == NodeState.Scheduled
    ensures NodeState.Running in NodeTransitions(from) <==> from == NodeState.Leased
    ensures NodeState.Waiting in NodeTransitions(from) <==> from in {NodeState.Admitted, NodeState.Running}
    ensures NodeState.Verifying in NodeTransitions(from) <==> from == NodeState.Running
    ensures NodeState.RetryWait in NodeTransitions(from) <==>
      from in {NodeState.Running, NodeState.Verifying, NodeState.Failed}
    ensures NodeState.Unknown in NodeTransitions(from) <==> from in {NodeState.Leased, NodeState.Running}
    ensures NodeState.Skipped in NodeTransitions(from) <==> from == NodeState.Admitted
    ensures NodeState.Succeeded in NodeTransitions(from) <==>
      from in {NodeState.Scheduled, NodeState.Running, NodeState.Waiting, NodeState.Verifying, NodeState.Unknown}
    ensures NodeState.ManualIntervention in NodeTransitions(from) <==> from in {NodeState.Verifying, NodeState.Unknown}
    ensures NodeState.Cancelled in NodeTransitions(from) <==>
      from in {NodeState.Proposed, NodeState.Admitted, NodeState.Scheduled, NodeState.Leased, NodeState.Running,
               NodeState.Waiting, NodeState.RetryWait}
    ensures NodeState.Failed in NodeTransitions(from) <==>
      from in {NodeState.Proposed, NodeState.Admitted, NodeState.Scheduled, NodeState.Running, NodeState.Waiting,
               NodeState.Verifying, NodeState.RetryWait, NodeState.Unknown}
  {
  }

  /** The transition table of attempts, read by where a move leads. */
  lemma AttemptIsEnteredFrom(from: AttemptState)
    ensures AttemptState.Scheduled in AttemptTransitions(from) <==> from in {AttemptState.Leased, AttemptState.RetryWait}
    ensures AttemptState.Leased in AttemptTransitions(from) <==> from == AttemptState.Scheduled
    ensures AttemptState.Running in AttemptTransitions(from) <==> from in {AttemptState.Leased, AttemptState.Waiting}
    ensures AttemptState.Waiting in AttemptTransitions(from) <==> from == AttemptState.Running
    ensures AttemptState.Verifying in AttemptTransitions(from) <==> from == AttemptState.Running
    ensures AttemptState.RetryWait in AttemptTransitions(from) <==>
      from in {AttemptState.Running, AttemptState.Waiting, AttemptState.Verifying}
    ensures AttemptState.Unknown in AttemptTransitions(from) <==> from in {AttemptState.Leased, AttemptState.Running}
    ensures AttemptState.Succeeded in AttemptTransitions(from) <==>
      from in {AttemptState.Running, AttemptState.Waiting, AttemptState.Verifying, AttemptState.Unknown}
    ensures AttemptState.ManualIntervention in AttemptTransitions(from) <==>
      from in {AttemptState.Verifying, AttemptState.Unknown}
    ensures AttemptState.Failed in AttemptTransitions(from) <==>
      from in {AttemptState.Running, AttemptState.Waiting, AttemptState.Verifying, AttemptState.RetryWait, AttemptState.Unknown}
    ensures AttemptState.Cancelled in AttemptTransitions(from) <==>
      from in {AttemptState.Scheduled, AttemptState.Leased, AttemptState.Running, AttemptState.Waiting, AttemptState.RetryWait}
  {
  }

  // ---------- The run ----------

  /** The state of the run that an event announces, if it announces one. */
  ghost function Announced(data: EventData): Option<RunState> {
    match data
    case WorkflowStarted => Some(RunState.Running)
    case WorkflowResumed => Some(RunState.Running)
    case WorkflowWaiting => Some(RunState.Waiting)
    case WorkflowPaused => Some(RunState.Paused)
    case WorkflowCancelling(_) => Some(RunState.Cancelling)
    case WorkflowTerminal(outcome, _) => Some(outcome)
    case _ => None
  }

  /** The code that the last cancelling or terminal event gave. */
  ghost function LastCode(events: seq<Event>): Option<string> {
    if events == [] then None
    else
      match events[|events| - 1].data
      case WorkflowCancelling(code) => Some(code)
      case WorkflowTerminal(_, code) => code
      case _ => LastCode(events[..|events| - 1])
  }

  ghost function LastAnnounced(events: seq<Event>): RunState {
    if events == [] then RunState.Created
    else
      var last := Announced(events[|events| - 1].data);
      if last.Some? then last.value else LastAnnounced(events[..|events| - 1])
  }

  lemma EventMovesRun(p: Projection, event: Event)
    requires Apply(p, event).Ok?
    ensures var q := Apply(p, event).value;
      && q.state == Announced(event.data).GetOr(p.state)
      && q.terminalCode == (match event.data
                            case WorkflowCancelling(code) => Some(code)
                            case WorkflowTerminal(_, code) => code
                            case _ => p.terminalCode)
      && q.workflowId == p.workflowId && q.runId == p.runId
    ensures Announced(event.data).Some? ==> Announced(event.data).value in RunTransitions(p.state)
  {
  }

  lemma {:induction false} ReplayMovesRun(initial: Projection, events: seq<Event>)
    requires Replay(initial, events).Ok? && initial.state == RunState.Created && initial.terminalCode == None
    ensures Replay(initial, events).value.state == LastAnnounced(events)
    ensures Replay(initial, events).value.terminalCode == LastCode(events)
    ensures Replay(initial, events).value.workflowId == initial.workflowId
    ensures Replay(initial, events).value.runId == initial.runId
  {
    if events != [] {
      ReplayMovesRun(initial, events[..|events| - 1]);
      EventMovesRun(Replay(initial, events[..|events| - 1]).value, events[|events| - 1]);
    }
  }

  /** The run is in the state announced last, with the code given last, under the ids of its specification. */
  lemma RunFollowsHistory(events: seq<Event>)
    requires Reduce(events).Ok?
    ensures Reduce(events).value.state == LastAnnounced(events)
    ensures Reduce(events).value.terminalCode == LastCode(events)
    ensures Reduce(events).value.workflowId == events[0].data.spec.workflowId
    ensures Reduce(events).value.runId == events[0].data.spec.runId
  {
    ReplayMovesRun(Initial(events[0].data.spec).value, events);
  }

  // ---------- Each node ----------

  ghost predicate DistinctNodes(nodes: seq<NodeProjection>) {
    forall i, j :: 0 <= i < j < |nodes| ==> nodes[i].nodeId != nodes[j].nodeId
  }

  lemma SoundIsDistinct(p: Projection, r0: int)
    requires Sound(p, r0)
    ensures DistinctNodes(p.nodes)
  {
    forall i, j | 0 <= i < j < |p.nodes| ensures p.nodes[i].nodeId != p.nodes[j].nodeId {
      assert NodeIds(p.spec.nodes)[i] != NodeIds(p.spec.nodes)[j];
    }
  }

  lemma LookupIsMember(nodes: seq<NodeProjection>, node: NodeProjection)
    requires DistinctNodes(nodes) && node in nodes
    ensures Lookup(nodes, node.nodeId) == Some(node)
  {
    var i :| 0 <= i < |nodes| && nodes[i] == node;
    LookupFinds(nodes, i);
  }

  /** What an event leaves under a node id, from what was there. */
  ghost function NodeAfter(before: Option<NodeProjection>, data: EventData, id: Id): Option<NodeProjection> {
    match data
    case GraphPatched(patch) =>
      if id !in NodeIds(patch.nodes) then None
      else if before.Some? then before
      else Some(NodeProjection(id, NodeState.Proposed, [], None, None))
    case TaskAdmitted(node, attempt) =>
      if id == node.nodeId then Some(NodeProjection(id, NodeState.Scheduled, [attempt.attemptId], None, None)) else before
    case NodeStateChanged(nodeId, state, error, result) =>
      if before.Some? && id == nodeId then Some(NodeProjection(id, state, before.value.attemptIds, result, error)) else before
    case AttemptCreated(attempt) =>
      if before.Some? && id == attempt.nodeId then
        Some(before.value.(attemptIds := before.value.attemptIds + [attempt.attemptId]))
      else before
    case _ => before
  }

  /** If each node of one list is the image of the node with its id in another, lookups are images too. */
  lemma LookupImage(before: seq<NodeProjection>, after: seq<NodeProjection>, id: Id)
    requires DistinctNodes(before) && DistinctNodes(after)
    ensures Lookup(before, id).Some? <==> exists i :: 0 <= i < |before| && before[i].nodeId == id
    ensures Lookup(after, id).Some? <==> exists i :: 0 <= i < |after| && after[i].nodeId == id
    ensures forall i :: 0 <= i < |before| && before[i].nodeId == id ==> Lookup(before, id) == Some(before[i])
    ensures forall i :: 0 <= i < |after| && after[i].nodeId == id ==> Lookup(after, id) == Some(after[i])
  {
    forall i | 0 <= i < |before| && before[i].nodeId == id ensures Lookup(before, id) == Some(before[i]) {
      LookupIsMember(before, before[i]);
    }
    forall i | 0 <= i < |after| && after[i].nodeId == id ensures Lookup(after, id) == Some(after[i]) {
      LookupIsMember(after, after[i]);
    }
  }

  /** Two lists with the same distinct ids in the same order, looked up at one of them. */
  lemma SameIdsLookup(before: seq<NodeProjection>, after: seq<NodeProjection>, id: Id)
    requires DistinctNodes(before) && |after| == |before|
    requires forall i :: 0 <= i < |before| ==> after[i].nodeId == before[i].nodeId
    ensures Lookup(before, id).None? ==> Lookup(after, id).None?
    ensures Lookup(before, id).Some? ==>
      exists i :: 0 <= i < |before| && before[i].nodeId == id && Lookup(before, id) == Some(before[i])
               && Lookup(after, id) == Some(after[i])
  {
    LookupImage(before, after, id);
  }

  lemma ChangedNodes(p: Projection, r0: int, event: Event)
    requires Sound(p, r0) && Apply(p, event).Ok? && !event.data.GraphPatched? && !event.data.TaskAdmitted?
    ensures var nodes := Apply(p, event).value.nodes;
      && |nodes| == |p.nodes|
      && (forall i :: 0 <= i < |nodes| ==> nodes[i].nodeId == p.nodes[i].nodeId)
      && (forall i :: 0 <= i < |nodes| ==> Some(nodes[i]) == NodeAfter(Some(p.nodes[i]), event.data, p.nodes[i].nodeId))
  {
    match event.data
    case AttemptCreated(attempt) =>
      var found := FindNode(p.nodes, attempt.nodeId).value;
      assert found.nodeId == attempt.nodeId;
    case _ =>
  }

  lemma ChangeOnNode(p: Projection, r0: int, event: Event, id: Id)
    requires Sound(p, r0) && Apply(p, event).Ok? && !event.data.GraphPatched? && !event.data.TaskAdmitted?
    ensures Lookup(Apply(p, event).value.nodes, id) == NodeAfter(Lookup(p.nodes, id), event.data, id)
  {
    ChangedNodes(p, r0, event);
    SoundIsDistinct(p, r0);
    SameIdsLookup(p.nodes, Apply(p, event).value.nodes, id);
  }

  lemma PatchOnNode(p: Projection, r0: int, event: Event, id: Id)
    requires Sound(p, r0) && Apply(p, event).Ok? && event.data.GraphPatched?
    ensures Lookup(Apply(p, event).value.nodes, id) == NodeAfter(Lookup(p.nodes, id), event.data, id)
  {
    var q := Apply(p, event).value;
    ApplySound(p, event, r0);
    SoundIsDistinct(p, r0);
    SoundIsDistinct(q, r0);
    LookupImage(p.nodes, q.nodes, id);
    var ids := NodeIds(event.data.patch.nodes);
    assert forall i :: 0 <= i < |q.nodes| ==> q.nodes[i].nodeId == ids[i];
  }

  lemma AdmissionOnNode(p: Projection, r0: int, event: Event, id: Id)
    requires Sound(p, r0) && Apply(p, event).Ok? && event.data.TaskAdmitted?
    ensures Lookup(Apply(p, event).value.nodes, id) == NodeAfter(Lookup(p.nodes, id), event.data, id)
  {
  }

  /** An accepted event does to each node exactly what it says, and a move of a node is one that its table allows. */
  lemma EventOnNode(p: Projection, r0: int, event: Event, id: Id)
    requires Sound(p, r0) && Apply(p, event).Ok?
    ensures Lookup(Apply(p, event).value.nodes, id) == NodeAfter(Lookup(p.nodes, id), event.data, id)
    ensures event.data.NodeStateChanged? && event.data.nodeId == id ==>
      Lookup(p.nodes, id).Some? && event.data.nodeState in NodeTransitions(Lookup(p.nodes, id).value.state)
  {
    match event.data
    case GraphPatched(_) => PatchOnNode(p, r0, event, id);
    case TaskAdmitted(_, _) => AdmissionOnNode(p, r0, event, id);
    case _ => ChangeOnNode(p, r0, event, id);
    SoundIsDistinct(p, r0);
    LookupImage(p.nodes, p.nodes, id);
  }

  // ---------- Each attempt ----------

  /** An attempt after a change of its state: what is not given is kept, and times are noted. */
  ghost predicate FollowsChange(before: Attempt, after: Attempt, change: AttemptChange) {
    && after.attemptId == before.attemptId && after.nodeId == before.nodeId && after.ordinal == before.ordinal
    && change.state in AttemptTransitions(before.state) && after.state == change.state
    && after.leaseToken == (if change.leaseToken.None? then before.leaseToken else change.leaseToken)
    && after.workerId == (if change.workerId.None? then before.workerId else change.workerId)
    && after.lastProgressAt == Some(change.at)
    && after.startedAt == (if after.state == AttemptState.Running then Some(change.at) else before.startedAt)
    && after.finishedAt == (if AttemptTransitions(after.state) == {} then Some(change.at) else before.finishedAt)
    && after.errorCode == change.errorCode && after.resultRef == change.resultRef && after.receiptRef == change.receiptRef
  }

  /** Attempts are only added, and each is changed only by events that name it. */
  lemma EventOnAttempts(p: Projection, event: Event, i: nat)
    requires Apply(p, event).Ok? && i < |p.attempts|
    ensures var q := Apply(p, event).value;
      && |q.attempts| == |p.attempts| + (if event.data.TaskAdmitted? || event.data.AttemptCreated? then 1 else 0)
      && (event.data.TaskAdmitted? ==> q.attempts[|p.attempts|] == event.data.attempt)
      && (event.data.AttemptCreated? ==> q.attempts[|p.attempts|] == event.data.created)
      && if event.data.AttemptStateChanged? && event.data.change.attemptId == p.attempts[i].attemptId
         then FollowsChange(p.attempts[i], q.attempts[i], event.data.change)
         else q.attempts[i] == p.attempts[i]
  {
  }

  // ---------- Starting ----------

  lemma EntryFromInside(spec: Spec, v: Id)
    requires ValidSpec(spec) && Incoming(spec.edges, v) != []
    ensures HasEntry(Arcs(spec.edges), Elements(NodeIds(spec.nodes)), v)
  {
    IncomingIsEdge(spec.edges, v, 0);
  }

  /** Some node of a valid graph has no incoming edge. */
  lemma SomeRoot(spec: Spec) returns (i: nat)
    requires ValidSpec(spec)
    ensures i < |spec.nodes| && Incoming(spec.edges, spec.nodes[i].nodeId) == []
  {
    var ids := NodeIds(spec.nodes);
    assert ids[0] in Elements(ids);
    var v := MinimalVertex(Arcs(spec.edges), Elements(ids));
    i :| 0 <= i < |ids| && ids[i] == v;
    if Incoming(spec.edges, v) != [] {
      EntryFromInside(spec, v);
    }
  }

  /** In every reachable running workflow in which no node has started, some node is ready to start. */
  lemma RunningCanStart(events: seq<Event>)
    requires Reduce(events).Ok? && Reduce(events).value.state == RunState.Running
    requires forall i :: 0 <= i < |Reduce(events).value.nodes| ==>
      Reduce(events).value.nodes[i].state in {NodeState.Proposed, NodeState.Admitted, NodeState.RetryWait}
    ensures ReadyIds(Reduce(events).value, |Reduce(events).value.spec.nodes|) != []
  {
    HistorySound(events);
    var p, r0 := Reduce(events).value, events[0].data.spec.revision;
    var i := SomeRoot(p.spec);
    RootIsReady(p.spec, p.nodes, p.nodes[i].nodeId);
    ReadyIdsExact(p, r0);
    assert p.nodes[i].nodeId in ReadyIds(p, |p.nodes|);
  }

  /** Every edge is unconditional and comes from a success. */
  ghost predicate AllSucceeded(nodes: seq<NodeProjection>, incoming: seq<Edge>) {
    && Unconditional(incoming) && SourcesKnown(nodes, incoming)
    && forall k :: 0 <= k < |incoming| ==> Lookup(nodes, incoming[k].from).value.state == NodeState.Succeeded
  }

  lemma AllAreTaken(nodes: seq<NodeProjection>, incoming: seq<Edge>)
    requires AllSucceeded(nodes, incoming)
    ensures TakenEdges(nodes, incoming) == SuccessfulEdges(nodes, incoming) && OpenEdges(nodes, incoming) == {}
    ensures |SuccessfulEdges(nodes, incoming)| == |incoming|
  {
    SuccessCount(nodes, incoming);
    AllCount(Branches(nodes, incoming), |incoming|, Successful);
  }

  /** Only decisions and syntheses join, and with all sources succeeded an admitted join can be passed. */
  lemma AdmittedJoinCanBeMet(spec: Spec, nodes: seq<NodeProjection>, i: nat)
    requires ValidSpec(spec) && i < |spec.nodes| && spec.nodes[i].join.Some?
    requires AllSucceeded(nodes, Incoming(spec.edges, spec.nodes[i].nodeId))
    ensures spec.nodes[i].kind in {Decision, Synthesis}
    ensures ReadinessOf(spec, nodes, spec.nodes[i].nodeId) == Ready
  {
    JoinIsDeclared(spec.nodes, i);
    assert JoinAdmissible(spec.nodes[i], spec.edges);
    AllAreTaken(nodes, Incoming(spec.edges, spec.nodes[i].nodeId));
    ReadinessBySources(spec, nodes, spec.nodes[i].nodeId);
  }

  lemma {:induction false} AllCount(branches: seq<Branch>, n: nat, b: Branch)
    requires n <= |branches| && forall i :: 0 <= i < n ==> branches[i] == b
    ensures CountTo(branches, n, b) == n
  {
    if n > 0 {
      AllCount(branches, n - 1, b);
    }
  }

  /** Ready nodes are listed in the order of the specification. */
  lemma {:induction false} ReadyIdsInOrder(p: Projection, n: nat, a: nat, b: nat, i: nat, j: nat)
    requires n <= |p.spec.nodes| && Distinct(NodeIds(p.spec.nodes))
    requires a < |ReadyIds(p, n)| && b < |ReadyIds(p, n)| && i < j < |p.spec.nodes|
    requires ReadyIds(p, n)[a] == p.spec.nodes[i].nodeId && ReadyIds(p, n)[b] == p.spec.nodes[j].nodeId
    ensures a < b
  {
    var ids := NodeIds(p.spec.nodes);
    ReadyIdsAmong(p, n);
    assert ReadyIds(p, n)[b] in ReadyIds(p, n) && ids[j] in ids[..n];
    var k :| 0 <= k < n && ids[k] == ids[j];
    if b < |ReadyIds(p, n - 1)| && a < |ReadyIds(p, n - 1)| {
      ReadyIdsInOrder(p, n - 1, a, b, i, j);
    }
  }

  ghost predicate IsNode(spec: Spec, id: Id) {
    exists i :: 0 <= i < |spec.nodes| && spec.nodes[i].nodeId == id
  }

  // ---------- Which specifications and events are accepted ----------

  ghost function EdgesTo(edges: seq<Edge>, nodeId: Id): set<int> {
    set k | 0 <= k < |edges| && edges[k].to == nodeId
  }

  lemma {:induction false} IncomingIsCounted(edges: seq<Edge>, nodeId: Id)
    ensures |Incoming(edges, nodeId)| == |EdgesTo(edges, nodeId)|
  {
    if edges != [] {
      var n := |edges| - 1;
      IncomingIsCounted(edges[..n], nodeId);
      if edges[n].to == nodeId {
        assert EdgesTo(edges, nodeId) == EdgesTo(edges[..n], nodeId) + {n};
      } else {
        assert EdgesTo(edges, nodeId) == EdgesTo(edges[..n], nodeId);
      }
    }
  }

  ghost predicate JoinCanBeMet(node: NodeSpec, edges: seq<Edge>) {
    node.join.Some? ==>
      && (node.kind == Decision || node.kind == Synthesis)
      && EdgesTo(edges, node.nodeId) != {}
      && forall minimum :: node.join == Some(Quorum(minimum)) ==> 1 <= minimum <= |EdgesTo(edges, node.nodeId)|
  }

  ghost function Unless(ok: bool, error: WorkflowError): Option<WorkflowError> {
    if ok then None else Some(error)
  }

  ghost predicate SomeIdTwice(spec: Spec) {
    exists i, j :: 0 <= i < j < |spec.nodes| && spec.nodes[i].nodeId == spec.nodes[j].nodeId
  }

  ghost predicate EdgeIsSound(spec: Spec, edge: Edge) {
    edge.from != edge.to && IsNode(spec, edge.from) && IsNode(spec, edge.to)
  }

  ghost predicate TeamInSolo(spec: Spec) {
    spec.modePolicy == Solo && exists node :: node in spec.nodes && node.nodeId != "root" && node.kind != ToolActivity
  }

  /** The first thing that is wrong with a specification. */
  ghost function SpecFault(spec: Spec): Option<WorkflowError> {
    if |spec.nodes| == 0 || spec.revision < 1 || spec.maxGraphMutations < 0 then Some(SpecInvalid)
    else if SomeIdTwice(spec) then Some(NodeDuplicate)
    else if exists edge :: edge in spec.edges && !EdgeIsSound(spec, edge) then Some(EdgeInvalid)
    else if !Acyclic(Arcs(spec.edges)) then Some(GraphCycle)
    else if exists node :: node in spec.nodes && !JoinCanBeMet(node, spec.edges) then Some(JoinInvalid)
    else Unless(!TeamInSolo(spec), ModeOverrideIncompatible)
  }

  lemma IdsExactly(spec: Spec)
    ensures Distinct(NodeIds(spec.nodes)) <==> !SomeIdTwice(spec)
    ensures EdgesInside(NodeIds(spec.nodes), spec.edges) <==> forall edge :: edge in spec.edges ==> EdgeIsSound(spec, edge)
  {
    var ids := NodeIds(spec.nodes);
    forall id ensures id in ids <==> IsNode(spec, id) {
      if IsNode(spec, id) {
        var i :| 0 <= i < |spec.nodes| && spec.nodes[i].nodeId == id;
        assert ids[i] == id;
      }
    }
    if SomeIdTwice(spec) {
      var i, j :| 0 <= i < j < |spec.nodes| && spec.nodes[i].nodeId == spec.nodes[j].nodeId;
      assert ids[i] == ids[j];
    }
    if EdgesInside(ids, spec.edges) {
      forall edge | edge in spec.edges ensures EdgeIsSound(spec, edge) {
        var k :| 0 <= k < |spec.edges| && spec.edges[k] == edge;
      }
    }
    if forall edge :: edge in spec.edges ==> EdgeIsSound(spec, edge) {
      forall k | 0 <= k < |spec.edges|
        ensures spec.edges[k].from != spec.edges[k].to && spec.edges[k].from in ids && spec.edges[k].to in ids
      {
        assert EdgeIsSound(spec, spec.edges[k]);
      }
    }
  }

  lemma JoinsExactly(spec: Spec)
    ensures (exists i :: 0 <= i < |spec.nodes| && !JoinAdmissible(spec.nodes[i], spec.edges))
       <==> exists node :: node in spec.nodes && !JoinCanBeMet(node, spec.edges)
  {
    forall i | 0 <= i < |spec.nodes| ensures JoinAdmissible(spec.nodes[i], spec.edges) <==> JoinCanBeMet(spec.nodes[i], spec.edges) {
      IncomingIsCounted(spec.edges, spec.nodes[i].nodeId);
    }
  }

  /** A specification is accepted, as it is, exactly if nothing is wrong with it, and refused for the first thing that is. */
  lemma SpecFaultExactly(spec: Spec)
    ensures match SpecFault(spec)
            case Some(error) => ValidateSpec(spec) == Err(error)
            case None => ValidateSpec(spec) == Ok(spec)
  {
    IdsExactly(spec);
    JoinsExactly(spec);
  }

  /** A workflow starts at its own revision, created, with every node proposed and nothing spent. */
  lemma InitialExactly(spec: Spec)
    ensures Initial(spec).Ok? <==> ValidSpec(spec)
    ensures ValidSpec(spec) ==>
      var p := Initial(spec).value;
      && p == Projection(spec.workflowId, spec.runId, spec.revision, 0, RunState.Created, spec, p.nodes, [], 0,
                         Usage(0, 0, 0, 0, 0), None)
      && |p.nodes| == |spec.nodes|
      && forall i :: 0 <= i < |p.nodes| ==>
           p.nodes[i] == NodeProjection(spec.nodes[i].nodeId, NodeState.Proposed, [], None, None)
  {
  }

  ghost predicate NodeIsKnown(p: Projection, nodeId: Id) {
    exists node :: node in p.nodes && node.nodeId == nodeId
  }

  ghost predicate AttemptIsKnown(p: Projection, attemptId: Id) {
    exists attempt :: attempt in p.attempts && attempt.attemptId == attemptId
  }

  ghost function Refusal(r: Result<Spec, WorkflowError>): Option<WorkflowError> {
    if r.Err? then Some(r.error) else None
  }

  /** What is held against an event. */
  ghost function Objection(p: Projection, event: Event): Option<WorkflowError> {
    if event.workflowId != p.workflowId || event.runId != p.runId || event.sequence != p.sequence + 1 then Some(HistoryInvalid)
    else
      match event.data
      case WorkflowCreated(spec) => Unless(p.sequence == 0 && spec.workflowId == p.workflowId, HistoryInvalid)
      case GraphPatched(patch) =>
        if !ValidSpec(patch) then Refusal(ValidateSpec(patch))
        else Unless(patch.revision == p.revision + 1 && p.graphMutations < p.spec.maxGraphMutations, GraphPatchRejected)
      case TaskAdmitted(node, attempt) =>
        if NodeIsKnown(p, node.nodeId) || AttemptIsKnown(p, attempt.attemptId)
           || attempt.nodeId != node.nodeId || attempt.ordinal != 1
        then Some(TaskRequestConflict)
        else Refusal(ValidateSpec(p.spec.(nodes := p.spec.nodes + [node])))
      case NodeStateChanged(nodeId, state, _, _) =>
        if !NodeIsKnown(p, nodeId) then Some(NodeNotFound)
        else Unless(forall node :: node in p.nodes && node.nodeId == nodeId ==> state in NodeTransitions(node.state), TransitionInvalid)
      case AttemptCreated(created) =>
        if AttemptIsKnown(p, created.attemptId) then Some(AttemptDuplicate)
        else
          Unless(exists node :: node in p.nodes && node.nodeId == created.nodeId && created.ordinal == |node.attemptIds| + 1,
                 AttemptInvalid)
      case AttemptStateChanged(change) =>
        if !AttemptIsKnown(p, change.attemptId) then Some(AttemptNotFound)
        else
          Unless(forall a :: a in p.attempts && a.attemptId == change.attemptId ==> change.state in AttemptTransitions(a.state),
                 TransitionInvalid)
      case _ =>
        if Announced(event.data).Some? then Unless(Announced(event.data).value in RunTransitions(p.state), TransitionInvalid)
        else None
  }

  lemma KnownExactly(p: Projection, id: Id)
    ensures HasNode(p.nodes, id) <==> NodeIsKnown(p, id)
    ensures HasAttempt(p.attempts, id) <==> AttemptIsKnown(p, id)
  {
    if i :| 0 <= i < |p.nodes| && p.nodes[i].nodeId == id {
      assert p.nodes[i] in p.nodes;
    }
    if i :| 0 <= i < |p.attempts| && p.attempts[i].attemptId == id {
      assert p.attempts[i] in p.attempts;
    }
  }

  ghost predicate Answers(objection: Option<WorkflowError>, r: Outcomes<Projection>) {
    match objection
    case Some(error) => r == Err(error)
    case None => r.Ok?
  }

  lemma NodeChangeExactly(p: Projection, event: Event)
    requires event.data.NodeStateChanged? && event.workflowId == p.workflowId && event.runId == p.runId
    requires event.sequence == p.sequence + 1
    ensures Answers(Objection(p, event), Apply(p, event))
  {
    KnownExactly(p, event.data.nodeId);
    assert (exists i :: 0 <= i < |p.nodes| && p.nodes[i].nodeId == event.data.nodeId
                     && event.data.nodeState !in NodeTransitions(p.nodes[i].state))
      <==> !(forall node :: node in p.nodes && node.nodeId == event.data.nodeId ==> event.data.nodeState in NodeTransitions(node.state));
  }

  lemma AttemptChangeExactly(p: Projection, event: Event)
    requires event.data.AttemptStateChanged? && event.workflowId == p.workflowId && event.runId == p.runId
    requires event.sequence == p.sequence + 1
    ensures Answers(Objection(p, event), Apply(p, event))
  {
    var change := event.data.change;
    KnownExactly(p, change.attemptId);
    assert (exists i :: 0 <= i < |p.attempts| && p.attempts[i].attemptId == change.attemptId
                     && change.state !in AttemptTransitions(p.attempts[i].state))
      <==> !(forall a :: a in p.attempts && a.attemptId == change.attemptId ==> change.state in AttemptTransitions(a.state));
  }

  lemma NewAttemptExactly(p: Projection, r0: int, event: Event)
    requires Sound(p, r0) && event.data.AttemptCreated? && event.workflowId == p.workflowId && event.runId == p.runId
    requires event.sequence == p.sequence + 1
    ensures Answers(Objection(p, event), Apply(p, event))
  {
    var created := event.data.created;
    KnownExactly(p, created.attemptId);
    KnownExactly(p, created.nodeId);
    var found := FindNode(p.nodes, created.nodeId);
    if found.Some? {
      forall node | node in p.nodes && node.nodeId == created.nodeId ensures node == found.value {
        var i :| 0 <= i < |p.nodes| && p.nodes[i] == node;
        SameNode(p, i, found.value);
      }
    }
  }

  /** In every reachable projection an event is accepted exactly if nothing is held against it, and refused with that. */
  lemma EventIsAcceptedExactly(events: seq<Event>, event: Event)
    requires Reduce(events).Ok?
    ensures Answers(Objection(Reduce(events).value, event), Apply(Reduce(events).value, event))
  {
    var p := Reduce(events).value;
    HistorySound(events);
    if event.workflowId == p.workflowId && event.runId == p.runId && event.sequence == p.sequence + 1 {
      match event.data
      case NodeStateChanged(_, _, _, _) => NodeChangeExactly(p, event);
      case AttemptStateChanged(_) => AttemptChangeExactly(p, event);
      case AttemptCreated(_) => NewAttemptExactly(p, events[0].data.spec.revision, event);
      case TaskAdmitted(node, attempt) =>
        KnownExactly(p, node.nodeId);
        KnownExactly(p, attempt.attemptId);
      case _ =>
    }
  }

  // ---------- Specification, revision and usage ----------

  /** An event changes the specification only by replacing it, adding a node to it or naming its topology. */
  lemma EventOnSpec(p: Projection, event: Event)
    requires Apply(p, event).Ok?
    ensures var q := Apply(p, event).value;
      && q.spec == (match event.data
                    case GraphPatched(patch) => patch
                    case TaskAdmitted(node, _) => p.spec.(nodes := p.spec.nodes + [node])
                    case TopologyChanged(topology) => p.spec.(topology := topology)
                    case _ => p.spec)
      && q.revision == (if event.data.GraphPatched? then p.revision + 1 else p.revision)
      && q.graphMutations == (if event.data.GraphPatched? then p.graphMutations + 1 else p.graphMutations)
  {
  }

  datatype Measure = Turns | ToolCalls | InputTokens | OutputTokens | AgentTasks

  ghost function AmountOf(usage: Usage, measure: Measure): int {
    match measure
    case Turns => usage.turns
    case ToolCalls => usage.toolCalls
    case InputTokens => usage.inputTokens
    case OutputTokens => usage.outputTokens
    case AgentTasks => usage.agentTasks
  }

  ghost function Sum(events: seq<Event>, measure: Measure): int {
    if events == [] then 0
    else
      var last := events[|events| - 1].data;
      Sum(events[..|events| - 1], measure) + (if last.BudgetCharged? then AmountOf(last.charge, measure) else 0)
  }

  lemma {:induction false} ChargesAddUp(events: seq<Event>, measure: Measure)
    ensures AmountOf(Charges(events), measure) == Sum(events, measure)
  {
    if events != [] {
      ChargesAddUp(events[..|events| - 1], measure);
    }
  }

  /** What a workflow has used is, by every measure, the sum of its recorded charges. */
  lemma UsageAddsUp(events: seq<Event>, measure: Measure)
    requires Reduce(events).Ok?
    ensures AmountOf(Reduce(events).value.usage, measure) == Sum(events, measure)
  {
    HistorySound(events);
    ChargesAddUp(events, measure);
  }
}
