/**
 The event-sourced workflow projection: the transition tables, the reducer, and what every accepted
 history guarantees about the projection it leaves.
*/
module WorkflowEvents {
  import opened Graphs
  import opened Wrappers
  import opened WorkflowGraph
  import opened WorkflowReadiness

  datatype RunState =
    | Created | Running | Waiting | Paused | Cancelling | Cancelled | Completed | Failed | Terminated

  datatype AttemptState =
    | Scheduled | Leased | Running | Waiting | Verifying | RetryWait | Unknown
    | Succeeded | Failed | Cancelled | ManualIntervention

  datatype Attempt = Attempt(
    attemptId: Id,
    nodeId: Id,
    ordinal: int,
    state: AttemptState,
    leaseToken: Option<string>,
    workerId: Option<string>,
    startedAt: Option<string>,
    lastProgressAt: Option<string>,
    finishedAt: Option<string>,
    resultRef: Option<ArtifactRef>,
    receiptRef: Option<ArtifactRef>,
    errorCode: Option<string>)

  datatype Usage = Usage(turns: int, toolCalls: int, inputTokens: int, outputTokens: int, agentTasks: int) {
    function Plus(other: Usage): Usage {
      Usage(turns + other.turns, toolCalls + other.toolCalls, inputTokens + other.inputTokens,
            outputTokens + other.outputTokens, agentTasks + other.agentTasks)
    }
  }

  const NO_USAGE := Usage(0, 0, 0, 0, 0)

  datatype Projection = Projection(
    workflowId: Id,
    runId: Id,
    revision: int,
    sequence: nat,
    state: RunState,
    spec: Spec,
    nodes: seq<NodeProjection>,
    attempts: seq<Attempt>,
    graphMutations: int,
    usage: Usage,
    terminalCode: Option<string>)

  type Outcome = s: RunState | s in {RunState.Cancelled, RunState.Completed, RunState.Failed, RunState.Terminated} witness RunState.Completed

  datatype EventData =
    | WorkflowCreated(spec: Spec)
    | WorkflowStarted
    | WorkflowWaiting
    | WorkflowPaused
    | WorkflowResumed
    | WorkflowCancelling(code: string)
    | WorkflowTerminal(outcome: Outcome, terminalCode: Option<string>)
    | TopologyChanged(topology: Topology)
    | BudgetCharged(charge: Usage)
    | EvidenceNoted  // signals, effect receipts, snapshots, timers and human decisions
    | GraphPatched(patch: Spec)
    | TaskAdmitted(node: NodeSpec, attempt: Attempt)
    | NodeStateChanged(nodeId: Id, nodeState: NodeState, nodeError: Option<string>, nodeResult: Option<ArtifactRef>)
    | AttemptCreated(created: Attempt)
    | AttemptStateChanged(change: AttemptChange)

  datatype AttemptChange = AttemptChange(
    attemptId: Id,
    state: AttemptState,
    leaseToken: Option<string>,
    workerId: Option<string>,
    at: string,
    errorCode: Option<string>,
    resultRef: Option<ArtifactRef>,
    receiptRef: Option<ArtifactRef>)

  datatype Event = Event(workflowId: Id, runId: Id, sequence: nat, data: EventData)

  type Outcomes<T> = Result<T, WorkflowError>

  // ---------- Transition tables ----------

  function RunTransitions(from: RunState): set<RunState> {
    match from
    case Created => {RunState.Running, RunState.Cancelled, RunState.Terminated}
    case Running =>
      {RunState.Waiting, RunState.Paused, RunState.Cancelling, RunState.Completed, RunState.Failed, RunState.Terminated}
    case Waiting => {RunState.Running, RunState.Paused, RunState.Cancelling, RunState.Failed, RunState.Terminated}
    case Paused => {RunState.Running, RunState.Cancelling, RunState.Terminated}
    case Cancelling => {RunState.Cancelled, RunState.Failed, RunState.Terminated}
    case _ => {}
  }

  function NodeTransitions(from: NodeState): set<NodeState> {
    match from
    case Proposed => {NodeState.Admitted, NodeState.Cancelled, NodeState.Failed}
    case Admitted => {NodeState.Scheduled, NodeState.Waiting, NodeState.Skipped, NodeState.Cancelled, NodeState.Failed}
    case Scheduled => {NodeState.Leased, NodeState.Succeeded, NodeState.Cancelled, NodeState.Failed}
    case Leased => {NodeState.Running, NodeState.Scheduled, NodeState.Unknown, NodeState.Cancelled}
    case Running =>
      {NodeState.Waiting, NodeState.Verifying, NodeState.RetryWait, NodeState.Unknown, NodeState.Succeeded,
       NodeState.Failed, NodeState.Cancelled}
    case Waiting => {NodeState.Scheduled, NodeState.Succeeded, NodeState.Cancelled, NodeState.Failed}
    case Verifying => {NodeState.Succeeded, NodeState.RetryWait, NodeState.Failed, NodeState.ManualIntervention}
    case RetryWait => {NodeState.Scheduled, NodeState.Failed, NodeState.Cancelled}
    case Unknown => {NodeState.Succeeded, NodeState.Failed, NodeState.ManualIntervention}
    case Failed => {NodeState.RetryWait}
    case _ => {}
  }

  function AttemptTransitions(from: AttemptState): set<AttemptState> {
    match from
    case Scheduled => {AttemptState.Leased, AttemptState.Cancelled}
    case Leased => {AttemptState.Running, AttemptState.Scheduled, AttemptState.Unknown, AttemptState.Cancelled}
    case Running => {AttemptState.Waiting, AttemptState.Verifying, AttemptState.RetryWait, AttemptState.Unknown, AttemptState.Succeeded, AttemptState.Failed, AttemptState.Cancelled}
    case Waiting => {AttemptState.Running, AttemptState.RetryWait, AttemptState.Succeeded, AttemptState.Failed, AttemptState.Cancelled}
    case Verifying => {AttemptState.Succeeded, AttemptState.RetryWait, AttemptState.Failed, AttemptState.ManualIntervention}
    case RetryWait => {AttemptState.Scheduled, AttemptState.Failed, AttemptState.Cancelled}
    case Unknown => {AttemptState.Succeeded, AttemptState.Failed, AttemptState.ManualIntervention}
    case _ => {}
  }

  // ---------- The reducer ----------

  ghost function Initial(spec: Spec): (r: Outcomes<Projection>) {
    var s :- ValidateSpec(spec);
    Ok(Projection(s.workflowId, s.runId, s.revision, 0, RunState.Created, s, FreshNodes(s.nodes), [], 0, NO_USAGE, None))
  }

  function FreshNode(nodeId: Id): NodeProjection {
    NodeProjection(nodeId, NodeState.Proposed, [], None, None)
  }

  function FreshNodes(nodes: seq<NodeSpec>): (r: seq<NodeProjection>)
    ensures |r| == |nodes|
    ensures forall i :: 0 <= i < |r| ==> r[i] == FreshNode(nodes[i].nodeId)
  {
    seq(|nodes|, i requires 0 <= i < |nodes| => FreshNode(nodes[i].nodeId))
  }

  function KeptNodes(nodes: seq<NodeSpec>, existing: seq<NodeProjection>): (r: seq<NodeProjection>)
    ensures |r| == |nodes|
    ensures forall i {:trigger r[i]} :: 0 <= i < |r| ==>
      r[i] == Lookup(existing, nodes[i].nodeId).GetOr(FreshNode(nodes[i].nodeId))
  {
    seq(|nodes|, i requires 0 <= i < |nodes| => Lookup(existing, nodes[i].nodeId).GetOr(FreshNode(nodes[i].nodeId)))
  }

  /** Changes the state of every node with the id; fails if there is none or the table forbids it. */
  function UpdateNode(nodes: seq<NodeProjection>, data: EventData): Outcomes<seq<NodeProjection>>
    requires data.NodeStateChanged?
  {
    if exists i :: 0 <= i < |nodes| && nodes[i].nodeId == data.nodeId && data.nodeState !in NodeTransitions(nodes[i].state)
    then Err(TransitionInvalid)
    else if forall i :: 0 <= i < |nodes| ==> nodes[i].nodeId != data.nodeId then Err(NodeNotFound)
    else Ok(seq(|nodes|, i requires 0 <= i < |nodes| =>
      if nodes[i].nodeId != data.nodeId then nodes[i]
      else nodes[i].(state := data.nodeState, errorCode := data.nodeError, resultRef := data.nodeResult)))
  }

  function Changed(attempt: Attempt, change: AttemptChange): Attempt {
    attempt.(
      state := change.state,
      leaseToken := if change.leaseToken.Some? then change.leaseToken else attempt.leaseToken,
      workerId := if change.workerId.Some? then change.workerId else attempt.workerId,
      startedAt := if change.state == AttemptState.Running then Some(change.at) else attempt.startedAt,
      lastProgressAt := Some(change.at),
      finishedAt :=
        if change.state in {AttemptState.Succeeded, AttemptState.Failed, AttemptState.Cancelled, AttemptState.ManualIntervention} then Some(change.at)
        else attempt.finishedAt,
      errorCode := change.errorCode,
      resultRef := change.resultRef,
      receiptRef := change.receiptRef)
  }

  function UpdateAttempt(attempts: seq<Attempt>, change: AttemptChange): Outcomes<seq<Attempt>> {
    if exists i :: 0 <= i < |attempts| && attempts[i].attemptId == change.attemptId
                && change.state !in AttemptTransitions(attempts[i].state)
    then Err(TransitionInvalid)
    else if forall i :: 0 <= i < |attempts| ==> attempts[i].attemptId != change.attemptId
    then Err(AttemptNotFound)
    else Ok(seq(|attempts|, i requires 0 <= i < |attempts| =>
      if attempts[i].attemptId != change.attemptId then attempts[i] else Changed(attempts[i], change)))
  }

  predicate HasAttempt(attempts: seq<Attempt>, attemptId: Id) {
    exists i :: 0 <= i < |attempts| && attempts[i].attemptId == attemptId
  }

  predicate HasNode(nodes: seq<NodeProjection>, nodeId: Id) {
    exists i :: 0 <= i < |nodes| && nodes[i].nodeId == nodeId
  }

  function FindNode(nodes: seq<NodeProjection>, nodeId: Id): (r: Option<NodeProjection>)
    ensures r.None? <==> !HasNode(nodes, nodeId)
    ensures r.Some? ==> r.value in nodes && r.value.nodeId == nodeId
  {
    if nodes == [] then None
    else if nodes[0].nodeId == nodeId then Some(nodes[0])
    else
      assert HasNode(nodes, nodeId) ==> HasNode(nodes[1..], nodeId) by {
        assert forall i :: 0 < i < |nodes| ==> nodes[i] == nodes[1..][i - 1];
      }
      FindNode(nodes[1..], nodeId)
  }

  function WithAttempt(nodes: seq<NodeProjection>, nodeId: Id, attemptId: Id): (r: seq<NodeProjection>)
    ensures |r| == |nodes|
    ensures forall i {:trigger r[i]} :: 0 <= i < |r| ==>
      r[i] == if nodes[i].nodeId == nodeId then nodes[i].(attemptIds := nodes[i].attemptIds + [attemptId]) else nodes[i]
  {
    seq(|nodes|, i requires 0 <= i < |nodes| =>
      if nodes[i].nodeId == nodeId then nodes[i].(attemptIds := nodes[i].attemptIds + [attemptId]) else nodes[i])
  }

  function MoveTo(current: Projection, next: Projection, state: RunState): Outcomes<Projection> {
    if state in RunTransitions(current.state) then Ok(next.(state := state))
    else Err(TransitionInvalid)
  }

  ghost function Apply(current: Projection, event: Event): Outcomes<Projection> {
    if event.workflowId != current.workflowId || event.runId != current.runId || event.sequence != current.sequence + 1
    then Err(HistoryInvalid)
    else ApplyData(current, current.(sequence := event.sequence), event.data)
  }

  ghost function ApplyData(current: Projection, next: Projection, data: EventData): Outcomes<Projection> {
    match data
    case GraphPatched(patch) => ApplyPatch(current, next, patch)
    case TaskAdmitted(node, attempt) => ApplyAdmission(current, next, node, attempt)
    case _ => ApplyOnGraph(current, next, data)
  }

  /** The events that leave the nodes and edges of the specification as they are. */
  function ApplyOnGraph(current: Projection, next: Projection, data: EventData): Outcomes<Projection>
    requires !data.GraphPatched? && !data.TaskAdmitted?
  {
    match data
    case WorkflowCreated(spec) =>
      if current.sequence != 0 || spec.workflowId != current.workflowId then Err(HistoryInvalid) else Ok(next)
    case WorkflowStarted => MoveTo(current, next, RunState.Running)
    case WorkflowWaiting => MoveTo(current, next, RunState.Waiting)
    case WorkflowPaused => MoveTo(current, next, RunState.Paused)
    case WorkflowResumed => MoveTo(current, next, RunState.Running)
    case WorkflowCancelling(code) =>
      var moved :- MoveTo(current, next, RunState.Cancelling);
      Ok(moved.(terminalCode := Some(code)))
    case WorkflowTerminal(outcome, code) =>
      var moved :- MoveTo(current, next, outcome);
      Ok(moved.(terminalCode := code))
    case TopologyChanged(topology) => Ok(next.(spec := current.spec.(topology := topology)))
    case BudgetCharged(charge) => Ok(next.(usage := current.usage.Plus(charge)))
    case EvidenceNoted => Ok(next)
    case NodeStateChanged(_, _, _, _) =>
      var nodes :- UpdateNode(current.nodes, data);
      Ok(next.(nodes := nodes))
    case AttemptCreated(attempt) => ApplyAttempt(current, next, attempt)
    case AttemptStateChanged(change) =>
      var attempts :- UpdateAttempt(current.attempts, change);
      Ok(next.(attempts := attempts))
  }

  ghost function ApplyPatch(current: Projection, next: Projection, patch: Spec): Outcomes<Projection> {
    var spec :- ValidateSpec(patch);
    if spec.revision != current.revision + 1 || current.graphMutations >= current.spec.maxGraphMutations
    then Err(GraphPatchRejected)
    else Ok(next.(
      revision := spec.revision,
      spec := spec,
      graphMutations := current.graphMutations + 1,
      nodes := KeptNodes(spec.nodes, current.nodes)))
  }

  ghost function ApplyAdmission(current: Projection, next: Projection, node: NodeSpec, attempt: Attempt): Outcomes<Projection> {
    if HasNode(current.nodes, node.nodeId) || HasAttempt(current.attempts, attempt.attemptId)
      || attempt.nodeId != node.nodeId || attempt.ordinal != 1
    then Err(TaskRequestConflict)
    else
      var spec :- ValidateSpec(current.spec.(nodes := current.spec.nodes + [node]));
      Ok(next.(
        spec := spec,
        nodes := current.nodes + [NodeProjection(node.nodeId, NodeState.Scheduled, [attempt.attemptId], None, None)],
        attempts := current.attempts + [attempt]))
  }

  function ApplyAttempt(current: Projection, next: Projection, attempt: Attempt): Outcomes<Projection> {
    if HasAttempt(current.attempts, attempt.attemptId) then Err(AttemptDuplicate)
    else
      match FindNode(current.nodes, attempt.nodeId)
      case None => Err(AttemptInvalid)
      case Some(node) =>
        if attempt.ordinal != |node.attemptIds| + 1 then Err(AttemptInvalid)
        else Ok(next.(
          attempts := current.attempts + [attempt],
          nodes := WithAttempt(current.nodes, node.nodeId, attempt.attemptId)))
  }

  ghost function Replay(current: Projection, events: seq<Event>): Outcomes<Projection>
    decreases |events|
  {
    if events == [] then Ok(current)
    else
      var before :- Replay(current, events[..|events| - 1]);
      Apply(before, events[|events| - 1])
  }

  ghost function Reduce(events: seq<Event>): Outcomes<Projection> {
    if events == [] || !events[0].data.WorkflowCreated? then Err(HistoryInvalid)
    else
      var initial :- Initial(events[0].data.spec);
      Replay(initial, events)
  }

  // ---------- The reducer as the kernel runs it ----------

  method InitialWorkflowProjection(spec: Spec) returns (r: Outcomes<Projection>)
    ensures r == Initial(spec)
  {
    var s :- ValidateWorkflowSpec(spec);
    r := Ok(Projection(s.workflowId, s.runId, s.revision, 0, RunState.Created, s, FreshNodes(s.nodes), [], 0, NO_USAGE, None));
  }

  /** One event; every specification it brings is checked anew, the cycle check included. */
  method ApplyWorkflowEvent(current: Projection, event: Event) returns (r: Outcomes<Projection>)
    ensures r == Apply(current, event)
  {
    if event.workflowId != current.workflowId || event.runId != current.runId || event.sequence != current.sequence + 1 {
      return Err(HistoryInvalid);
    }
    var next := current.(sequence := event.sequence);
    match event.data {
      case GraphPatched(patch) =>
        var spec :- ValidateWorkflowSpec(patch);
        if spec.revision != current.revision + 1 || current.graphMutations >= current.spec.maxGraphMutations {
          return Err(GraphPatchRejected);
        }
        r := Ok(next.(revision := spec.revision, spec := spec, graphMutations := current.graphMutations + 1,
                      nodes := KeptNodes(spec.nodes, current.nodes)));
      case TaskAdmitted(node, attempt) =>
        if HasNode(current.nodes, node.nodeId) || HasAttempt(current.attempts, attempt.attemptId)
          || attempt.nodeId != node.nodeId || attempt.ordinal != 1 {
          return Err(TaskRequestConflict);
        }
        var spec :- ValidateWorkflowSpec(current.spec.(nodes := current.spec.nodes + [node]));
        r := Ok(next.(
          spec := spec,
          nodes := current.nodes + [NodeProjection(node.nodeId, NodeState.Scheduled, [attempt.attemptId], None, None)],
          attempts := current.attempts + [attempt]));
      case _ => r := ApplyOnGraph(current, next, event.data);
    }
  }

  lemma {:induction false} RefusalStays(initial: Projection, events: seq<Event>, k: nat)
    requires k <= |events| && Replay(initial, events[..k]).Err?
    ensures Replay(initial, events) == Replay(initial, events[..k])
    decreases |events|
  {
    var n := |events| - 1;
    if k == |events| {
      assert events[..k] == events;
    } else {
      assert events[..n][..k] == events[..k];
      RefusalStays(initial, events[..n], k);
    }
  }

  /** The events are applied one by one; the first that is refused ends the reduction. */
  method ReduceWorkflowEvents(events: seq<Event>) returns (r: Outcomes<Projection>)
    ensures r == Reduce(events)
  {
    if |events| == 0 || !events[0].data.WorkflowCreated? {
      return Err(HistoryInvalid);
    }
    r := InitialWorkflowProjection(events[0].data.spec);
    if r.Err? {
      return;
    }
    ghost var initial := r.value;
    for k := 0 to |events|
      invariant r.Ok? && r == Replay(initial, events[..k])
    {
      assert events[..k + 1][..k] == events[..k];
      r := ApplyWorkflowEvent(r.value, events[k]);
      if r.Err? {
        RefusalStays(initial, events, k + 1);
        return;
      }
    }
    assert events[..|events|] == events;
  }

  // ---------- What every accepted history guarantees ----------

  ghost predicate NodesFollowSpec(p: Projection) {
    && |p.nodes| == |p.spec.nodes|
    && (forall i :: 0 <= i < |p.nodes| ==> p.nodes[i].nodeId == p.spec.nodes[i].nodeId)
    && Distinct(NodeIds(p.spec.nodes))
  }

  ghost predicate DistinctAttempts(attempts: seq<Attempt>) {
    forall i, j :: 0 <= i < j < |attempts| ==> attempts[i].attemptId != attempts[j].attemptId
  }

  ghost predicate Names(attempts: seq<Attempt>, attemptId: Id, nodeId: Id, ordinal: int) {
    exists j :: 0 <= j < |attempts| && attempts[j].attemptId == attemptId
             && attempts[j].nodeId == nodeId && attempts[j].ordinal == ordinal
  }

  /** The k-th attempt id of a node names an attempt of that node with ordinal k + 1. */
  ghost predicate Linked(node: NodeProjection, attempts: seq<Attempt>) {
    forall k :: 0 <= k < |node.attemptIds| ==> Names(attempts, node.attemptIds[k], node.nodeId, k + 1)
  }

  ghost predicate AllLinked(nodes: seq<NodeProjection>, attempts: seq<Attempt>) {
    forall i :: 0 <= i < |nodes| ==> Linked(nodes[i], attempts)
  }

  ghost predicate Sound(p: Projection, initialRevision: int) {
    && ValidSpec(p.spec)
    && NodesFollowSpec(p)
    && DistinctAttempts(p.attempts)
    && AllLinked(p.nodes, p.attempts)
    && p.revision == p.spec.revision
    && p.graphMutations == p.revision - initialRevision
  }

  ghost function Charges(events: seq<Event>): Usage {
    if events == [] then NO_USAGE
    else
      var last := events[|events| - 1].data;
      var before := Charges(events[..|events| - 1]);
      if last.BudgetCharged? then before.Plus(last.charge) else before
  }

  lemma LinkedGrows(nodes: seq<NodeProjection>, attempts: seq<Attempt>, attempt: Attempt)
    requires AllLinked(nodes, attempts)
    ensures AllLinked(nodes, attempts + [attempt])
  {
    var more := attempts + [attempt];
    forall i, k | 0 <= i < |nodes| && 0 <= k < |nodes[i].attemptIds|
      ensures Names(more, nodes[i].attemptIds[k], nodes[i].nodeId, k + 1)
    {
      assert Linked(nodes[i], attempts);
      assert Names(attempts, nodes[i].attemptIds[k], nodes[i].nodeId, k + 1);
      var j :| 0 <= j < |attempts| && attempts[j].attemptId == nodes[i].attemptIds[k]
            && attempts[j].nodeId == nodes[i].nodeId && attempts[j].ordinal == k + 1;
      assert more[j] == attempts[j];
    }
  }

  lemma PatchSound(current: Projection, next: Projection, patch: Spec, r0: int)
    requires Sound(current, r0) && ApplyPatch(current, next, patch).Ok? && next.attempts == current.attempts
    ensures Sound(ApplyPatch(current, next, patch).value, r0)
  {
    var q := ApplyPatch(current, next, patch).value;
    forall i | 0 <= i < |q.nodes|
      ensures q.nodes[i].nodeId == q.spec.nodes[i].nodeId && Linked(q.nodes[i], q.attempts)
    {
      var kept := Lookup(current.nodes, patch.nodes[i].nodeId);
      if kept.Some? {
        assert kept.value in current.nodes;
      }
    }
  }

  lemma AdmissionSound(current: Projection, next: Projection, node: NodeSpec, attempt: Attempt, r0: int)
    requires Sound(current, r0) && ApplyAdmission(current, next, node, attempt).Ok?
    requires next.revision == current.revision && next.graphMutations == current.graphMutations
    ensures Sound(ApplyAdmission(current, next, node, attempt).value, r0)
  {
    var q := ApplyAdmission(current, next, node, attempt).value;
    LinkedGrows(current.nodes, current.attempts, attempt);
    assert q.attempts[|current.attempts|] == attempt;
    assert Names(q.attempts, attempt.attemptId, node.nodeId, 1);
    assert Linked(q.nodes[|current.nodes|], q.attempts);
  }

  lemma AttemptSound(current: Projection, next: Projection, attempt: Attempt, r0: int)
    requires Sound(current, r0) && ApplyAttempt(current, next, attempt).Ok?
    requires next == current.(sequence := next.sequence)
    ensures Sound(ApplyAttempt(current, next, attempt).value, r0)
  {
    var q := ApplyAttempt(current, next, attempt).value;
    LinkedGrows(current.nodes, current.attempts, attempt);
    var found := FindNode(current.nodes, attempt.nodeId).value;
    assert q.attempts[|current.attempts|] == attempt;
    forall i | 0 <= i < |q.nodes| ensures Linked(q.nodes[i], q.attempts) {
      if current.nodes[i].nodeId == attempt.nodeId {
        SameNode(current, i, found);
        assert Names(q.attempts, attempt.attemptId, attempt.nodeId, attempt.ordinal);
        assert Linked(current.nodes[i], q.attempts);
      }
    }
  }

  lemma SameNode(p: Projection, i: nat, node: NodeProjection)
    requires NodesFollowSpec(p) && i < |p.nodes| && node in p.nodes && node.nodeId == p.nodes[i].nodeId
    ensures node == p.nodes[i]
  {
    var j :| 0 <= j < |p.nodes| && p.nodes[j] == node;
    assert NodeIds(p.spec.nodes)[i] == NodeIds(p.spec.nodes)[j];
  }

  lemma UpdateNodeSound(current: Projection, data: EventData, r0: int)
    requires Sound(current, r0) && data.NodeStateChanged? && UpdateNode(current.nodes, data).Ok?
    ensures Sound(current.(nodes := UpdateNode(current.nodes, data).value), r0)
  {
    var nodes := UpdateNode(current.nodes, data).value;
    forall i | 0 <= i < |nodes|
      ensures nodes[i].nodeId == current.nodes[i].nodeId && Linked(nodes[i], current.attempts)
    {
      assert Linked(current.nodes[i], current.attempts);
    }
  }

  lemma UpdateAttemptSound(current: Projection, change: AttemptChange, r0: int)
    requires Sound(current, r0) && UpdateAttempt(current.attempts, change).Ok?
    ensures Sound(current.(attempts := UpdateAttempt(current.attempts, change).value), r0)
  {
    var attempts := UpdateAttempt(current.attempts, change).value;
    forall i, k | 0 <= i < |current.nodes| && 0 <= k < |current.nodes[i].attemptIds|
      ensures Names(attempts, current.nodes[i].attemptIds[k], current.nodes[i].nodeId, k + 1)
    {
      assert Linked(current.nodes[i], current.attempts);
      assert Names(current.attempts, current.nodes[i].attemptIds[k], current.nodes[i].nodeId, k + 1);
      var j :| 0 <= j < |current.attempts| && current.attempts[j].attemptId == current.nodes[i].attemptIds[k]
            && current.attempts[j].nodeId == current.nodes[i].nodeId && current.attempts[j].ordinal == k + 1;
      assert attempts[j].attemptId == current.attempts[j].attemptId;
    }
  }

  /** Every accepted event keeps the projection sound and adds exactly its own charge. */
  lemma ApplySound(current: Projection, event: Event, r0: int)
    requires Sound(current, r0) && Apply(current, event).Ok?
    ensures Sound(Apply(current, event).value, r0)
    ensures Apply(current, event).value.sequence == current.sequence + 1
    ensures Apply(current, event).value.usage
         == if event.data.BudgetCharged? then current.usage.Plus(event.data.charge) else current.usage
  {
    var next := current.(sequence := event.sequence);
    match event.data
    case GraphPatched(patch) => PatchSound(current, next, patch, r0);
    case TaskAdmitted(node, attempt) => AdmissionSound(current, next, node, attempt, r0);
    case NodeStateChanged(_, _, _, _) => UpdateNodeSound(current, event.data, r0);
    case AttemptCreated(attempt) => AttemptSound(current, next, attempt, r0);
    case AttemptStateChanged(change) => UpdateAttemptSound(current, change, r0);
    case TopologyChanged(topology) =>
      assert ValidSpec(current.spec.(topology := topology));
    case _ =>
  }

  lemma {:induction false} ReplaySound(initial: Projection, events: seq<Event>, r0: int)
    requires Sound(initial, r0) && initial.sequence == 0 && initial.usage == NO_USAGE
    requires Replay(initial, events).Ok?
    ensures Sound(Replay(initial, events).value, r0)
    ensures Replay(initial, events).value.sequence == |events|
    ensures Replay(initial, events).value.usage == Charges(events)
  {
    if events != [] {
      var n := |events| - 1;
      ReplaySound(initial, events[..n], r0);
      ApplySound(Replay(initial, events[..n]).value, events[n], r0);
    }
  }

  lemma InitialSound(spec: Spec)
    requires Initial(spec).Ok?
    ensures Sound(Initial(spec).value, spec.revision)
  {
  }

  /**
   Every accepted history leaves distinct nodes in specification order, a valid acyclic graph,
   distinct attempts that the nodes list by ordinal, one graph mutation per revision after the
   first, one sequence number per event, and the sum of all recorded charges.
  */
  lemma HistorySound(events: seq<Event>)
    requires Reduce(events).Ok?
    ensures Sound(Reduce(events).value, events[0].data.spec.revision)
    ensures Acyclic(Arcs(Reduce(events).value.spec.edges))
    ensures Reduce(events).value.sequence == |events|
    ensures Reduce(events).value.usage == Charges(events)
  {
    InitialSound(events[0].data.spec);
    ReplaySound(Initial(events[0].data.spec).value, events, events[0].data.spec.revision);
  }

  predicate Finished(state: RunState) {
    state in {RunState.Cancelled, RunState.Completed, RunState.Failed, RunState.Terminated}
  }

  /** A finished workflow stays finished, in the same way and for the same reason. */
  lemma {:induction false} FinishedIsAbsorbing(p: Projection, events: seq<Event>)
    requires Finished(p.state) && Replay(p, events).Ok?
    ensures Replay(p, events).value.state == p.state && Replay(p, events).value.terminalCode == p.terminalCode
  {
    if events != [] {
      FinishedIsAbsorbing(p, events[..|events| - 1]);
    }
  }

  lemma {:induction false} ReplaySplits(p: Projection, first: seq<Event>, second: seq<Event>)
    requires Replay(p, first + second).Ok?
    ensures Replay(p, first).Ok? && Replay(Replay(p, first).value, second) == Replay(p, first + second)
  {
    if second == [] {
      assert first + second == first;
    } else {
      var n := |second| - 1;
      assert (first + second)[..|first + second| - 1] == first + second[..n];
      ReplaySplits(p, first, second[..n]);
    }
  }

  /** Over whole histories: whatever is appended after a finished prefix cannot reopen it. */
  lemma HistoryStaysFinished(events: seq<Event>, more: seq<Event>)
    requires Reduce(events + more).Ok? && events != []
    ensures Reduce(events).Ok?
    ensures Finished(Reduce(events).value.state) ==>
      Reduce(events + more).value.state == Reduce(events).value.state
  {
    assert (events + more)[0] == events[0];
    ReplaySplits(Initial(events[0].data.spec).value, events, more);
    if Finished(Reduce(events).value.state) {
      FinishedIsAbsorbing(Reduce(events).value, more);
    }
  }

  // ---------- Scheduler progress ----------

  ghost predicate Open(p: Projection, i: int) {
    0 <= i < |p.nodes| && !Terminal(p.nodes[i].state)
  }

  ghost predicate Actionable(p: Projection, i: int)
    requires Open(p, i)
  {
    ReadinessOf(p.spec, p.nodes, p.nodes[i].nodeId) != StillWaiting
  }

  lemma {:induction false} IncomingIsEdge(edges: seq<Edge>, nodeId: Id, k: nat)
    requires k < |Incoming(edges, nodeId)|
    ensures (Incoming(edges, nodeId)[k].from, nodeId) in Arcs(edges)
  {
    var edge := Incoming(edges, nodeId)[k];
    var j :| 0 <= j < |edges| && edge == edges[j];
    assert (edges[j].from, edges[j].to) in Arcs(edges);
  }

  /** A node none of whose sources is open has a settled verdict. */
  lemma NoPendingNoWaiting(branches: seq<Branch>, join: Option<JoinPolicy>)
    requires Pending !in branches && (join.Some? && join.value.Quorum? ==> join.value.minimum >= 1)
    ensures Verdict(branches, join) != StillWaiting
  {
    CountZero(branches, |branches|, Pending);
  }

  lemma {:induction false} JoinIsPositive(spec: Spec, nodes: seq<NodeSpec>, nodeId: Id)
    requires forall i :: 0 <= i < |nodes| ==> JoinAdmissible(nodes[i], spec.edges)
    ensures PositiveQuorum(JoinOf(nodes, nodeId))
  {
    var found := FindSpec(nodes, nodeId);
    if found.Some? {
      assert found.value in nodes;
    }
  }

  ghost function OpenIds(p: Projection): set<Id> {
    set j | 0 <= j < |p.nodes| && !Terminal(p.nodes[j].state) :: p.nodes[j].nodeId
  }

  /** A pending branch comes from an open node. */
  lemma PendingIsEntry(p: Projection, s: set<Id>, v: Id, k: nat)
    requires s == OpenIds(p) && k < |Incoming(p.spec.edges, v)|
    requires Branches(p.nodes, Incoming(p.spec.edges, v))[k] == Pending
    ensures HasEntry(Arcs(p.spec.edges), s, v)
  {
    IncomingIsEdge(p.spec.edges, v, k);
    var source := Lookup(p.nodes, Incoming(p.spec.edges, v)[k].from).value;
    assert source in p.nodes && source.nodeId in s;
  }

  /** Some open node is not waiting: the earliest open node in the acyclic graph has a verdict. */
  lemma SoundProgress(p: Projection, r0: int, open: int) returns (i: int)
    requires Sound(p, r0) && Open(p, open)
    ensures Open(p, i) && Actionable(p, i)
  {
    var s := OpenIds(p);
    assert p.nodes[open].nodeId in s;
    var v := MinimalVertex(Arcs(p.spec.edges), s);
    i :| Open(p, i) && p.nodes[i].nodeId == v;
    var incoming := Incoming(p.spec.edges, v);
    forall k | 0 <= k < |incoming| ensures Branches(p.nodes, incoming)[k] != Pending {
      if Branches(p.nodes, incoming)[k] == Pending {
        PendingIsEntry(p, s, v, k);
      }
    }
    JoinIsPositive(p.spec, p.spec.nodes, v);
    NoPendingNoWaiting(Branches(p.nodes, incoming), JoinOf(p.spec.nodes, v));
  }

  /** In every reachable projection with an open node, some open node can be acted on. */
  lemma SchedulerProgress(events: seq<Event>)
    requires Reduce(events).Ok?
    requires exists i :: Open(Reduce(events).value, i)
    ensures exists i :: Open(Reduce(events).value, i) && Actionable(Reduce(events).value, i)
  {
    HistorySound(events);
    var p := Reduce(events).value;
    var open :| Open(p, open);
    var i := SoundProgress(p, events[0].data.spec.revision, open);
  }

  // ---------- The nodes that are ready ----------

  predicate CanStart(state: NodeState) {
    state in {NodeState.Proposed, NodeState.Admitted, NodeState.RetryWait}
  }

  ghost predicate ReadyToStart(p: Projection, nodeId: Id) {
    var node := FindNode(p.nodes, nodeId);
    node.Some? && CanStart(node.value.state) && ReadinessOf(p.spec, p.nodes, nodeId) == Ready
  }

  /** Those of the first `n` nodes of the specification that are ready to start. */
  ghost function ReadyIds(p: Projection, n: nat): seq<Id>
    requires n <= |p.spec.nodes|
  {
    if n == 0 then []
    else
      var nodeId := p.spec.nodes[n - 1].nodeId;
      ReadyIds(p, n - 1) + (if ReadyToStart(p, nodeId) then [nodeId] else [])
  }

  method ReadyWorkflowNodeIds(p: Projection) returns (ids: seq<Id>)
    ensures ids == if p.state == RunState.Running then ReadyIds(p, |p.spec.nodes|) else []
  {
    ids := [];
    if p.state != RunState.Running {
      return;
    }
    for k := 0 to |p.spec.nodes|
      invariant ids == ReadyIds(p, k)
    {
      var nodeId := p.spec.nodes[k].nodeId;
      var node := FindNode(p.nodes, nodeId);
      if node.Some? && CanStart(node.value.state) {
        var readiness := NodeReadiness(p.spec, p.nodes, nodeId);
        if readiness == Ready {
          ids := ids + [nodeId];
        }
      }
    }
  }

  lemma ReadyHere(p: Projection, i: nat)
    requires NodesFollowSpec(p) && i < |p.nodes|
    ensures ReadyToStart(p, p.nodes[i].nodeId)
       <==> CanStart(p.nodes[i].state) && ReadinessOf(p.spec, p.nodes, p.nodes[i].nodeId) == Ready
  {
    assert HasNode(p.nodes, p.nodes[i].nodeId);
    SameNode(p, i, FindNode(p.nodes, p.nodes[i].nodeId).value);
  }

  lemma {:induction false} ReadyIdsAmong(p: Projection, n: nat)
    requires n <= |p.spec.nodes| && Distinct(NodeIds(p.spec.nodes))
    ensures forall id :: id in ReadyIds(p, n) <==> id in NodeIds(p.spec.nodes)[..n] && ReadyToStart(p, id)
    ensures Distinct(ReadyIds(p, n))
  {
    if n > 0 {
      ReadyIdsAmong(p, n - 1);
      var ids := NodeIds(p.spec.nodes);
      assert ids[..n] == ids[..n - 1] + [ids[n - 1]];
      assert ids[n - 1] !in ids[..n - 1];
    }
  }

  /** In a sound projection a node is listed, once, exactly if it has not started and its verdict is ready. */
  lemma ReadyIdsExact(p: Projection, r0: int)
    requires Sound(p, r0)
    ensures Distinct(ReadyIds(p, |p.nodes|))
    ensures forall i :: 0 <= i < |p.nodes| ==>
      (p.nodes[i].nodeId in ReadyIds(p, |p.nodes|) <==>
        p.nodes[i].state in {NodeState.Proposed, NodeState.Admitted, NodeState.RetryWait} && ReadinessOf(p.spec, p.nodes, p.nodes[i].nodeId) == Ready)
  {
    var ids := NodeIds(p.spec.nodes);
    ReadyIdsAmong(p, |p.nodes|);
    forall i | 0 <= i < |p.nodes|
      ensures p.nodes[i].nodeId in ReadyIds(p, |p.nodes|) <==>
        p.nodes[i].state in {NodeState.Proposed, NodeState.Admitted, NodeState.RetryWait} && ReadinessOf(p.spec, p.nodes, p.nodes[i].nodeId) == Ready
    {
      ReadyHere(p, i);
      assert ids[..|ids|][i] == p.nodes[i].nodeId;
    }
  }
}
