/**
 The three-valued join evaluator: given what is known of the sources of a node's incoming edges, is
 the node ready, skipped, blocked, or still waiting?
*/
module WorkflowReadiness {
  import opened Graphs
  import opened Wrappers
  import opened WorkflowGraph

  datatype Readiness = StillWaiting | Ready | SkippedOver | Blocked

  predicate Terminal(state: NodeState) {
    state in {Unknown, Skipped, Succeeded, Failed, Cancelled, ManualIntervention}
  }

  /** The projection registered last under an id, as in a map built from the node list. */
  function Lookup(nodes: seq<NodeProjection>, id: Id): (r: Option<NodeProjection>)
    ensures r.Some? ==> r.value.nodeId == id && r.value in nodes
    ensures r.None? ==> forall i :: 0 <= i < |nodes| ==> nodes[i].nodeId != id
  {
    if nodes == [] then None
    else if nodes[|nodes| - 1].nodeId == id then Some(nodes[|nodes| - 1])
    else Lookup(nodes[..|nodes| - 1], id)
  }

  function FindSpec(nodes: seq<NodeSpec>, id: Id): (r: Option<NodeSpec>)
    ensures r.Some? ==> r.value in nodes && r.value.nodeId == id
  {
    if nodes == [] then None
    else if nodes[0].nodeId == id then Some(nodes[0])
    else FindSpec(nodes[1..], id)
  }

  predicate EdgeMatches(source: NodeProjection, edge: Edge) {
    match edge.condition
    case None => true
    case Some(StatusIs(state)) => source.state == state
    case Some(Selector(holds)) => holds(source)
  }

  predicate Selected(source: NodeProjection, edge: Edge) {
    if edge.condition.None? then source.state != Skipped else EdgeMatches(source, edge)
  }

  /** What one incoming edge contributes to its target. */
  datatype Branch = Missing | Pending | Unselected | Unsuccessful | Successful

  function BranchOf(nodes: seq<NodeProjection>, edge: Edge): Branch {
    match Lookup(nodes, edge.from)
    case None => Missing
    case Some(source) =>
      if !Terminal(source.state) then Pending
      else if !Selected(source, edge) then Unselected
      else if source.state == Succeeded then Successful
      else Unsuccessful
  }

  function Branches(nodes: seq<NodeProjection>, incoming: seq<Edge>): (r: seq<Branch>)
    ensures |r| == |incoming|
    ensures forall i :: 0 <= i < |r| ==> r[i] == BranchOf(nodes, incoming[i])
  {
    seq(|incoming|, i requires 0 <= i < |incoming| => BranchOf(nodes, incoming[i]))
  }

  /** How many of the first `n` branches are `b`. */
  function CountTo(branches: seq<Branch>, n: nat, b: Branch): nat
    requires n <= |branches|
  {
    if n == 0 then 0 else CountTo(branches, n - 1, b) + (if branches[n - 1] == b then 1 else 0)
  }

  function Count(branches: seq<Branch>, b: Branch): nat {
    CountTo(branches, |branches|, b)
  }

  lemma {:induction false} CountZero(branches: seq<Branch>, n: nat, b: Branch)
    requires n <= |branches| && forall i :: 0 <= i < n ==> branches[i] != b
    ensures CountTo(branches, n, b) == 0
  {
    if n > 0 {
      CountZero(branches, n - 1, b);
    }
  }

  /** The join rule on branches: `all` needs every selected branch, `any` one, a quorum its minimum. */
  function Verdict(branches: seq<Branch>, join: Option<JoinPolicy>): Readiness {
    if branches == [] then Ready
    else if Missing in branches then Blocked
    else
      var active := Count(branches, Pending) + Count(branches, Successful) + Count(branches, Unsuccessful);
      if active == 0 then (if join.None? || join.value.All? then SkippedOver else Blocked)
      else
        var minimum := Minimum(join, active);
        if Count(branches, Successful) >= minimum then Ready
        else if Count(branches, Successful) + Count(branches, Pending) < minimum then Blocked
        else StillWaiting
  }

  function Minimum(join: Option<JoinPolicy>, active: nat): int {
    match join
    case Some(Any) => 1
    case Some(Quorum(minimum)) => minimum
    case _ => active
  }

  function JoinOf(nodes: seq<NodeSpec>, nodeId: Id): Option<JoinPolicy> {
    match FindSpec(nodes, nodeId)
    case Some(node) => node.join
    case None => None
  }

  function ReadinessOf(spec: Spec, nodes: seq<NodeProjection>, nodeId: Id): Readiness {
    Verdict(Branches(nodes, Incoming(spec.edges, nodeId)), JoinOf(spec.nodes, nodeId))
  }

  /** The three counters after the first `k` incoming edges. */
  ghost predicate Tallied(branches: seq<Branch>, k: nat, active: int, succeeded: int, pending: int)
    requires k <= |branches|
  {
    && (forall i :: 0 <= i < k ==> branches[i] != Missing)
    && pending == CountTo(branches, k, Pending)
    && succeeded == CountTo(branches, k, Successful)
    && active == pending + succeeded + CountTo(branches, k, Unsuccessful)
  }

  lemma TallyStep(branches: seq<Branch>, k: nat, active: int, succeeded: int, pending: int)
    requires k < |branches| && Tallied(branches, k, active, succeeded, pending)
    ensures match branches[k]
      case Missing => true
      case Pending => Tallied(branches, k + 1, active + 1, succeeded, pending + 1)
      case Unselected => Tallied(branches, k + 1, active, succeeded, pending)
      case Unsuccessful => Tallied(branches, k + 1, active + 1, succeeded, pending)
      case Successful => Tallied(branches, k + 1, active + 1, succeeded + 1, pending)
  {
  }

  /** The counters of all branches decide the verdict. */
  lemma TallyDecides(branches: seq<Branch>, join: Option<JoinPolicy>, active: int, succeeded: int, pending: int)
    requires branches != [] && Tallied(branches, |branches|, active, succeeded, pending)
    ensures Verdict(branches, join) ==
      if active == 0 then (if join.None? || join.value.All? then SkippedOver else Blocked)
      else if succeeded >= Minimum(join, active) then Ready
      else if succeeded + pending < Minimum(join, active) then Blocked
      else StillWaiting
  {
  }

  /** The evaluator as the kernel runs it: one pass over the incoming edges with three counters. */
  method NodeReadiness(spec: Spec, nodes: seq<NodeProjection>, nodeId: Id) returns (r: Readiness)
    ensures r == ReadinessOf(spec, nodes, nodeId)
  {
    var incoming := Incoming(spec.edges, nodeId);
    if |incoming| == 0 {
      return Ready;
    }
    ghost var branches := Branches(nodes, incoming);
    var join := JoinOf(spec.nodes, nodeId);
    var active, succeeded, pending := 0, 0, 0;
    for k := 0 to |incoming|
      invariant Tallied(branches, k, active, succeeded, pending)
    {
      var edge := incoming[k];
      var source := Lookup(nodes, edge.from);
      TallyStep(branches, k, active, succeeded, pending);
      if source.None? {
        assert branches[k] == Missing;
        return Blocked;
      }
      if !Terminal(source.value.state) {
        active := active + 1;
        pending := pending + 1;
        continue;
      }
      if !Selected(source.value, edge) {
        continue;
      }
      active := active + 1;
      if source.value.state == Succeeded {
        succeeded := succeeded + 1;
      }
    }
    TallyDecides(branches, join, active, succeeded, pending);
    if active == 0 {
      return if join.None? || join.value.All? then SkippedOver else Blocked;
    }
    var minimum := Minimum(join, active);
    if succeeded >= minimum {
      return Ready;
    }
    r := if succeeded + pending < minimum then Blocked else StillWaiting;
  }

  // ---------- The verdict, read off the sources ----------

  /** Every incoming edge comes from a node of the projection. */
  ghost predicate SourcesKnown(nodes: seq<NodeProjection>, incoming: seq<Edge>) {
    forall i :: 0 <= i < |incoming| ==> Lookup(nodes, incoming[i].from).Some?
  }

  /** The edges whose source has not finished. */
  ghost function OpenEdges(nodes: seq<NodeProjection>, incoming: seq<Edge>): set<int>
    requires SourcesKnown(nodes, incoming)
  {
    set i | 0 <= i < |incoming| && !Terminal(Lookup(nodes, incoming[i].from).value.state)
  }

  /** The edges that a finished source selects; without a condition every end but a skip does. */
  ghost function TakenEdges(nodes: seq<NodeProjection>, incoming: seq<Edge>): set<int>
    requires SourcesKnown(nodes, incoming)
  {
    set i | 0 <= i < |incoming| && Takes(Lookup(nodes, incoming[i].from).value, incoming[i])
  }

  ghost predicate Takes(source: NodeProjection, edge: Edge) {
    && source.state in {Unknown, Skipped, Succeeded, Failed, Cancelled, ManualIntervention}
    && match edge.condition
       case None => source.state != Skipped
       case Some(StatusIs(state)) => source.state == state
       case Some(Selector(holds)) => holds(source)
  }

  ghost function SuccessfulEdges(nodes: seq<NodeProjection>, incoming: seq<Edge>): set<int>
    requires SourcesKnown(nodes, incoming)
  {
    set i | i in TakenEdges(nodes, incoming) && Lookup(nodes, incoming[i].from).value.state == Succeeded
  }

  lemma {:induction false} CountedSet(branches: seq<Branch>, n: nat, b: Branch, where: set<int>)
    requires n <= |branches| && forall i :: i in where <==> 0 <= i < n && branches[i] == b
    ensures CountTo(branches, n, b) == |where|
  {
    if n == 0 {
      if where != {} {
        var i := SomeMember(where);
      }
    } else {
      CountedSet(branches, n - 1, b, where - {n - 1});
    }
  }

  /** The incoming edges are all edges into the node, each as often as it is declared. */
  lemma {:induction false} IncomingIsComplete(edges: seq<Edge>, nodeId: Id)
    ensures forall e {:trigger multiset(Incoming(edges, nodeId))[e]} ::
      multiset(Incoming(edges, nodeId))[e] == if e.to == nodeId then multiset(edges)[e] else 0
  {
    if edges != [] {
      var n := |edges| - 1;
      IncomingIsComplete(edges[..n], nodeId);
      assert edges == edges[..n] + [edges[n]];
    }
  }

  /** In a specification with distinct nodes each node has its own join. */
  lemma {:induction false} JoinIsDeclared(nodes: seq<NodeSpec>, i: nat)
    requires Distinct(NodeIds(nodes)) && i < |nodes|
    ensures JoinOf(nodes, nodes[i].nodeId) == nodes[i].join
  {
    assert NodeIds(nodes)[i] == nodes[i].nodeId && NodeIds(nodes)[0] == nodes[0].nodeId;
    if i > 0 {
      assert NodeIds(nodes)[1..] == NodeIds(nodes[1..]);
      JoinIsDeclared(nodes[1..], i - 1);
      assert nodes[1..][i - 1] == nodes[i];
    }
  }

  /** The projection of a node is found under its id. */
  lemma {:induction false} LookupFinds(nodes: seq<NodeProjection>, i: nat)
    requires i < |nodes| && forall j :: i < j < |nodes| ==> nodes[j].nodeId != nodes[i].nodeId
    ensures Lookup(nodes, nodes[i].nodeId) == Some(nodes[i])
  {
    if i < |nodes| - 1 {
      LookupFinds(nodes[..|nodes| - 1], i);
    }
  }

  /** A node without incoming edges is ready, and a node with an unknown source is blocked. */
  lemma RootIsReady(spec: Spec, nodes: seq<NodeProjection>, nodeId: Id)
    ensures Incoming(spec.edges, nodeId) == [] ==> ReadinessOf(spec, nodes, nodeId) == Ready
    ensures !SourcesKnown(nodes, Incoming(spec.edges, nodeId)) ==> ReadinessOf(spec, nodes, nodeId) == Blocked
  {
    var incoming := Incoming(spec.edges, nodeId);
    if !SourcesKnown(nodes, incoming) {
      var i :| 0 <= i < |incoming| && Lookup(nodes, incoming[i].from).None?;
      assert Branches(nodes, incoming)[i] == Missing;
    }
  }

  lemma OpenCount(nodes: seq<NodeProjection>, incoming: seq<Edge>)
    requires SourcesKnown(nodes, incoming)
    ensures Count(Branches(nodes, incoming), Pending) == |OpenEdges(nodes, incoming)|
  {
    CountedSet(Branches(nodes, incoming), |incoming|, Pending, OpenEdges(nodes, incoming));
  }

  lemma SuccessCount(nodes: seq<NodeProjection>, incoming: seq<Edge>)
    requires SourcesKnown(nodes, incoming)
    ensures Count(Branches(nodes, incoming), Successful) == |SuccessfulEdges(nodes, incoming)|
  {
    CountedSet(Branches(nodes, incoming), |incoming|, Successful, SuccessfulEdges(nodes, incoming));
  }

  lemma FailureCount(nodes: seq<NodeProjection>, incoming: seq<Edge>)
    requires SourcesKnown(nodes, incoming)
    ensures Count(Branches(nodes, incoming), Unsuccessful)
         == |TakenEdges(nodes, incoming) - SuccessfulEdges(nodes, incoming)|
  {
    CountedSet(Branches(nodes, incoming), |incoming|, Unsuccessful,
               TakenEdges(nodes, incoming) - SuccessfulEdges(nodes, incoming));
  }

  lemma NoneMissing(nodes: seq<NodeProjection>, incoming: seq<Edge>)
    requires SourcesKnown(nodes, incoming)
    ensures Missing !in Branches(nodes, incoming)
  {
  }

  /**
   What a node with known sources is, from the states of the sources, the edges they select and the join
   alone.  Without a join, or with `all`, every edge that is or may still be selected has to come from a success.
  */
  lemma ReadinessBySources(spec: Spec, nodes: seq<NodeProjection>, nodeId: Id)
    requires Incoming(spec.edges, nodeId) != [] && SourcesKnown(nodes, Incoming(spec.edges, nodeId))
    ensures var incoming, join := Incoming(spec.edges, nodeId), JoinOf(spec.nodes, nodeId);
      var open, taken, good := OpenEdges(nodes, incoming), TakenEdges(nodes, incoming), SuccessfulEdges(nodes, incoming);
      var r := ReadinessOf(spec, nodes, nodeId);
      if join.None? || join.value.All? then
        && (r == SkippedOver <==> open == {} && taken == {})
        && (r == Ready <==> open == {} && taken != {} && taken == good)
        && (r == Blocked <==> taken != good)
      else
        var minimum := if join.value.Any? then 1 else join.value.minimum;
        && (r == Ready <==> open + taken != {} && |good| >= minimum)
        && (r == Blocked <==> open + taken == {} || |good| + |open| < minimum)
  {
    var incoming := Incoming(spec.edges, nodeId);
    var open, taken, good := OpenEdges(nodes, incoming), TakenEdges(nodes, incoming), SuccessfulEdges(nodes, incoming);
    NoneMissing(nodes, incoming);
    OpenCount(nodes, incoming);
    SuccessCount(nodes, incoming);
    FailureCount(nodes, incoming);
    assert taken - good == {} <==> taken == good;
    assert |taken - good| == 0 <==> taken - good == {};
    assert |open| == 0 <==> open == {};
    assert |good| == 0 <==> good == {};
    assert open + taken == {} <==> open == {} && taken == {};
  }

  // ---------- The verdict is exact ----------

  /** `after` settles every pending branch of `before` in some way and changes nothing else. */
  ghost predicate Settles(before: seq<Branch>, after: seq<Branch>) {
    && |after| == |before|
    && forall i {:trigger after[i]} :: 0 <= i < |before| ==>
         if before[i] == Pending then after[i] in {Unselected, Unsuccessful, Successful} else after[i] == before[i]
  }

  predicate PositiveQuorum(join: Option<JoinPolicy>) {
    join.Some? && join.value.Quorum? ==> join.value.minimum >= 1
  }

  /** The counts of a settled list: pending branches are distributed over the three outcomes. */
  lemma {:induction false} SettledCounts(before: seq<Branch>, after: seq<Branch>, n: nat)
    requires Settles(before, after) && n <= |before|
    ensures CountTo(after, n, Pending) == 0
    ensures CountTo(after, n, Successful) >= CountTo(before, n, Successful)
    ensures CountTo(after, n, Unsuccessful) >= CountTo(before, n, Unsuccessful)
    ensures CountTo(after, n, Successful) + CountTo(after, n, Unsuccessful)
         <= CountTo(before, n, Successful) + CountTo(before, n, Unsuccessful) + CountTo(before, n, Pending)
  {
    if n > 0 {
      SettledCounts(before, after, n - 1);
      assert after[n - 1] == after[n - 1];
    }
  }

  lemma SettledMissing(before: seq<Branch>, after: seq<Branch>)
    requires Settles(before, after)
    ensures Missing in after <==> Missing in before
  {
    if i :| 0 <= i < |after| && after[i] == Missing {
      assert before[i] == Missing;
    }
    if i :| 0 <= i < |before| && before[i] == Missing {
      assert after[i] == Missing;
    }
  }

  /** No way of settling the pending branches changes a verdict, nor leaves one open. */
  lemma VerdictStands(before: seq<Branch>, after: seq<Branch>, join: Option<JoinPolicy>)
    requires Settles(before, after) && PositiveQuorum(join)
    ensures Verdict(after, join) != StillWaiting
    ensures Verdict(before, join) != StillWaiting ==> Verdict(after, join) == Verdict(before, join)
  {
    SettledCounts(before, after, |before|);
    SettledMissing(before, after);
  }

  function SettleAll(branches: seq<Branch>, outcome: Branch): (r: seq<Branch>)
    ensures |r| == |branches|
    ensures forall i {:trigger r[i]} :: 0 <= i < |r| ==> r[i] == if branches[i] == Pending then outcome else branches[i]
  {
    seq(|branches|, i requires 0 <= i < |branches| => if branches[i] == Pending then outcome else branches[i])
  }

  lemma {:induction false} SettleAllCounts(branches: seq<Branch>, outcome: Branch, b: Branch, n: nat)
    requires outcome != Pending && b != Pending && n <= |branches|
    ensures CountTo(SettleAll(branches, outcome), n, b)
         == CountTo(branches, n, b) + (if b == outcome then CountTo(branches, n, Pending) else 0)
  {
    if n > 0 {
      SettleAllCounts(branches, outcome, b, n - 1);
      assert SettleAll(branches, outcome)[n - 1] == SettleAll(branches, outcome)[n - 1];
    }
  }

  lemma AllSettled(branches: seq<Branch>, outcome: Branch)
    requires outcome in {Unselected, Unsuccessful, Successful}
    ensures Settles(branches, SettleAll(branches, outcome))
  {
  }

  /** Waiting means undecided: settling everything well and settling everything badly differ. */
  lemma WaitingIsOpen(branches: seq<Branch>, join: Option<JoinPolicy>)
    requires Verdict(branches, join) == StillWaiting && PositiveQuorum(join)
    ensures Verdict(SettleAll(branches, Successful), join) == Ready
    ensures Verdict(SettleAll(branches, Unsuccessful), join) == Blocked
  {
    var good, bad := SettleAll(branches, Successful), SettleAll(branches, Unsuccessful);
    AllSettled(branches, Successful);
    AllSettled(branches, Unsuccessful);
    SettledCounts(branches, good, |branches|);
    SettledCounts(branches, bad, |branches|);
    SettledMissing(branches, good);
    SettledMissing(branches, bad);
    SettleAllCounts(branches, Successful, Successful, |branches|);
    SettleAllCounts(branches, Successful, Unsuccessful, |branches|);
    SettleAllCounts(branches, Unsuccessful, Successful, |branches|);
    SettleAllCounts(branches, Unsuccessful, Unsuccessful, |branches|);
  }

  // ---------- The same on projections ----------

  /** Every unfinished node reaches some terminal state; finished nodes are held fixed. */
  ghost predicate Finishes(before: seq<NodeProjection>, after: seq<NodeProjection>) {
    && |after| == |before|
    && forall i {:trigger after[i]} :: 0 <= i < |before| ==>
         && after[i].nodeId == before[i].nodeId
         && Terminal(after[i].state)
         && (Terminal(before[i].state) ==> after[i] == before[i])
  }

  lemma {:induction false} LookupFinished(before: seq<NodeProjection>, after: seq<NodeProjection>, id: Id)
    requires Finishes(before, after)
    ensures Lookup(before, id).None? <==> Lookup(after, id).None?
    ensures Lookup(after, id).Some? ==>
      && Terminal(Lookup(after, id).value.state)
      && (Terminal(Lookup(before, id).value.state) ==> Lookup(after, id) == Lookup(before, id))
  {
    if before != [] {
      var n := |before| - 1;
      assert after[n] == after[|after| - 1];
      assert forall i {:trigger after[..n][i]} :: 0 <= i < n ==> after[..n][i] == after[i] && before[..n][i] == before[i];
      LookupFinished(before[..n], after[..n], id);
    }
  }

  lemma FinishedBranches(before: seq<NodeProjection>, after: seq<NodeProjection>, incoming: seq<Edge>)
    requires Finishes(before, after)
    ensures Settles(Branches(before, incoming), Branches(after, incoming))
  {
    forall i {:trigger Branches(after, incoming)[i]} | 0 <= i < |incoming|
      ensures
        if Branches(before, incoming)[i] == Pending
        then Branches(after, incoming)[i] in {Unselected, Unsuccessful, Successful}
        else Branches(after, incoming)[i] == Branches(before, incoming)[i]
    {
      LookupFinished(before, after, incoming[i].from);
    }
  }

  /** A ready, skipped or blocked verdict survives every way the unfinished sources can finish. */
  lemma VerdictIsFinal(spec: Spec, before: seq<NodeProjection>, after: seq<NodeProjection>, nodeId: Id)
    requires PositiveQuorum(JoinOf(spec.nodes, nodeId)) && Finishes(before, after)
    ensures ReadinessOf(spec, after, nodeId) != StillWaiting
    ensures ReadinessOf(spec, before, nodeId) != StillWaiting ==>
      ReadinessOf(spec, after, nodeId) == ReadinessOf(spec, before, nodeId)
  {
    var incoming := Incoming(spec.edges, nodeId);
    FinishedBranches(before, after, incoming);
    VerdictStands(Branches(before, incoming), Branches(after, incoming), JoinOf(spec.nodes, nodeId));
  }

  /** Ends every unfinished node as `ends` says, and in the given state if it says nothing. */
  function FinishWith(nodes: seq<NodeProjection>, ends: map<Id, NodeProjection>, state: NodeState): (r: seq<NodeProjection>)
    requires Terminal(state)
    requires forall id :: id in ends ==> ends[id].nodeId == id && Terminal(ends[id].state)
    ensures |r| == |nodes| && forall i {:trigger r[i]} :: 0 <= i < |r| ==> r[i] == EndOf(nodes[i], ends, state)
    ensures Finishes(nodes, r)
  {
    seq(|nodes|, i requires 0 <= i < |nodes| => EndOf(nodes[i], ends, state))
  }

  function EndOf(node: NodeProjection, ends: map<Id, NodeProjection>, state: NodeState): NodeProjection {
    if Terminal(node.state) then node
    else if node.nodeId in ends then ends[node.nodeId]
    else node.(state := state)
  }

  lemma {:induction false} LookupFinishWith(nodes: seq<NodeProjection>, ends: map<Id, NodeProjection>, state: NodeState, id: Id)
    requires Terminal(state) && Lookup(nodes, id).Some?
    requires forall id :: id in ends ==> ends[id].nodeId == id && Terminal(ends[id].state)
    ensures Lookup(FinishWith(nodes, ends, state), id) == Some(EndOf(Lookup(nodes, id).value, ends, state))
  {
    var n, after := |nodes| - 1, FinishWith(nodes, ends, state);
    assert after[n] == EndOf(nodes[n], ends, state);
    if nodes[n].nodeId != id {
      LookupFinishWith(nodes[..n], ends, state, id);
      assert after[..n] == FinishWith(nodes[..n], ends, state);
    }
  }

  ghost predicate Unconditional(edges: seq<Edge>) {
    forall i :: 0 <= i < |edges| ==> edges[i].condition.None?
  }

  lemma FinishAllBranches(nodes: seq<NodeProjection>, state: NodeState, incoming: seq<Edge>)
    requires state in {Succeeded, Failed} && Unconditional(incoming)
    ensures Branches(FinishWith(nodes, map[], state), incoming)
         == SettleAll(Branches(nodes, incoming), if state == Succeeded then Successful else Unsuccessful)
  {
    FinishedBranches(nodes, FinishWith(nodes, map[], state), incoming);
    forall i {:trigger Branches(FinishWith(nodes, map[], state), incoming)[i]} | 0 <= i < |incoming|
      ensures Branches(FinishWith(nodes, map[], state), incoming)[i]
           == SettleAll(Branches(nodes, incoming), if state == Succeeded then Successful else Unsuccessful)[i]
    {
      if Branches(nodes, incoming)[i] == Pending {
        LookupFinishWith(nodes, map[], state, incoming[i].from);
      }
    }
  }

  ghost predicate Disagree(spec: Spec, before: seq<NodeProjection>, nodeId: Id,
                           one: seq<NodeProjection>, other: seq<NodeProjection>) {
    && Finishes(before, one) && Finishes(before, other)
    && ReadinessOf(spec, one, nodeId) != ReadinessOf(spec, other, nodeId)
  }

  ghost predicate Undecided(spec: Spec, nodes: seq<NodeProjection>, nodeId: Id) {
    exists one, other :: Disagree(spec, nodes, nodeId, one, other)
  }

  /** A verdict other than waiting leaves no two completions that disagree. */
  lemma VerdictDecides(spec: Spec, nodes: seq<NodeProjection>, nodeId: Id)
    requires PositiveQuorum(JoinOf(spec.nodes, nodeId)) && ReadinessOf(spec, nodes, nodeId) != StillWaiting
    ensures !Undecided(spec, nodes, nodeId)
  {
    forall one, other ensures !Disagree(spec, nodes, nodeId, one, other) {
      if Finishes(nodes, one) && Finishes(nodes, other) {
        VerdictIsFinal(spec, nodes, one, nodeId);
        VerdictIsFinal(spec, nodes, other, nodeId);
      }
    }
  }

  /**
   With unconditional edges the evaluator waits exactly as long as two ways of finishing the
   unfinished nodes would still give different verdicts.
  */
  lemma WaitsExactlyWhileOpen(spec: Spec, nodes: seq<NodeProjection>, nodeId: Id)
    requires PositiveQuorum(JoinOf(spec.nodes, nodeId)) && Unconditional(Incoming(spec.edges, nodeId))
    ensures ReadinessOf(spec, nodes, nodeId) == StillWaiting <==> Undecided(spec, nodes, nodeId)
  {
    var incoming, join := Incoming(spec.edges, nodeId), JoinOf(spec.nodes, nodeId);
    if ReadinessOf(spec, nodes, nodeId) == StillWaiting {
      WaitingIsOpen(Branches(nodes, incoming), join);
      FinishAllBranches(nodes, Succeeded, incoming);
      FinishAllBranches(nodes, Failed, incoming);
      assert Disagree(spec, nodes, nodeId, FinishWith(nodes, map[], Succeeded), FinishWith(nodes, map[], Failed));
    } else {
      VerdictDecides(spec, nodes, nodeId);
    }
  }

  // ---------- Conditional edges ----------

  /** An end of the edge's source, successful or not, under which the edge is selected. */
  ghost predicate SelectedEnd(p: NodeProjection, edge: Edge, success: bool) {
    p.nodeId == edge.from && Terminal(p.state) && (p.state == Succeeded <==> success) && Selected(p, edge)
  }

  /** The source can still succeed, or fail to, in a way that selects the edge. */
  ghost predicate CanCount(edge: Edge, success: bool) {
    exists p :: SelectedEnd(p, edge, success)
  }

  ghost predicate PendingEdge(nodes: seq<NodeProjection>, incoming: seq<Edge>, i: int) {
    0 <= i < |incoming| && BranchOf(nodes, incoming[i]) == Pending
  }

  ghost predicate SomeCanCount(nodes: seq<NodeProjection>, incoming: seq<Edge>, success: bool) {
    exists i :: PendingEdge(nodes, incoming, i) && CanCount(incoming[i], success)
  }

  /** One successful end of a source that selects all its edges among the chosen ones. */
  ghost predicate SelectsChosen(p: NodeProjection, incoming: seq<Edge>, chosen: set<int>, source: Id) {
    && p.nodeId == source && p.state == Succeeded
    && forall i :: i in chosen && 0 <= i < |incoming| && incoming[i].from == source ==> Selected(p, incoming[i])
  }

  /** The chosen edges are pending, and for each of their sources one success selects all of them. */
  ghost predicate SucceedTogether(nodes: seq<NodeProjection>, incoming: seq<Edge>, chosen: set<int>) {
    forall i :: i in chosen ==>
      PendingEdge(nodes, incoming, i) && exists p :: SelectsChosen(p, incoming, chosen, incoming[i].from)
  }

  /** Enough pending edges can still succeed together to bring the successes to the minimum. */
  ghost predicate WithinReach(nodes: seq<NodeProjection>, incoming: seq<Edge>, minimum: int) {
    exists chosen :: SucceedTogether(nodes, incoming, chosen)
                  && Count(Branches(nodes, incoming), Successful) + |chosen| >= minimum
  }

  /**
   What is left open in a waiting join.  An `any` or quorum join can still be met.  An `all` join can
   still fail, or, as long as nothing has succeeded, still be joined by a success or be skipped.
  */
  ghost predicate LeftOpen(nodes: seq<NodeProjection>, incoming: seq<Edge>, join: Option<JoinPolicy>) {
    match join
    case Some(Any) => SomeCanCount(nodes, incoming, true)
    case Some(Quorum(minimum)) => WithinReach(nodes, incoming, minimum)
    case _ =>
      || SomeCanCount(nodes, incoming, false)
      || (Count(Branches(nodes, incoming), Successful) == 0 && SomeCanCount(nodes, incoming, true))
  }

  lemma {:induction false} CountPositive(branches: seq<Branch>, n: nat, i: nat)
    requires i < n <= |branches|
    ensures CountTo(branches, n, branches[i]) > 0
  {
    if i < n - 1 {
      CountPositive(branches, n - 1, i);
    }
  }

  lemma {:induction false} CountWitness(branches: seq<Branch>, n: nat, b: Branch) returns (i: nat)
    requires n <= |branches| && CountTo(branches, n, b) > 0
    ensures i < n && branches[i] == b
  {
    if branches[n - 1] == b {
      i := n - 1;
    } else {
      i := CountWitness(branches, n - 1, b);
    }
  }

  /** How many successes a waiting `any` or quorum join asks for. */
  function Needed(join: Option<JoinPolicy>): Option<int> {
    match join
    case Some(Any) => Some(1)
    case Some(Quorum(minimum)) => Some(minimum)
    case _ => None
  }

  /** The verdict of a join that waited, from the branches it ends with. */
  function Ending(branches: seq<Branch>, needed: Option<int>): Readiness {
    match needed
    case Some(minimum) => if Count(branches, Successful) >= minimum then Ready else Blocked
    case None =>
      if Count(branches, Unsuccessful) > 0 then Blocked
      else if Count(branches, Successful) > 0 then Ready
      else SkippedOver
  }

  /** How a waiting join ends, once its pending branches have settled. */
  lemma SettledVerdict(before: seq<Branch>, after: seq<Branch>, join: Option<JoinPolicy>)
    requires Settles(before, after) && PositiveQuorum(join) && Verdict(before, join) == StillWaiting
    ensures Needed(join).Some? ==> Count(before, Successful) < Needed(join).value
    ensures Needed(join).None? ==> Count(before, Unsuccessful) == 0
    ensures Verdict(after, join) == Ending(after, Needed(join))
  {
    SettledCounts(before, after, |before|);
    SettledMissing(before, after);
  }

  /** `gained` are the pending branches among the first `n` that have settled well. */
  ghost predicate Gains(before: seq<Branch>, after: seq<Branch>, n: nat, gained: set<int>)
    requires n <= |before| == |after|
  {
    forall i :: i in gained <==> 0 <= i < n && before[i] == Pending && after[i] == Successful
  }

  lemma {:induction false} SuccessesGained(before: seq<Branch>, after: seq<Branch>, n: nat) returns (gained: set<int>)
    requires Settles(before, after) && n <= |before|
    ensures Gains(before, after, n, gained)
    ensures CountTo(after, n, Successful) == CountTo(before, n, Successful) + |gained|
  {
    if n == 0 {
      return {};
    }
    gained := SuccessesGained(before, after, n - 1);
    assert after[n - 1] == after[n - 1];
    if before[n - 1] == Pending && after[n - 1] == Successful {
      gained := gained + {n - 1};
    }
  }

  /** The edges whose pending sources a completion ends with success could succeed together. */
  lemma GainedTogether(nodes: seq<NodeProjection>, after: seq<NodeProjection>, incoming: seq<Edge>, gained: set<int>)
    requires Gains(Branches(nodes, incoming), Branches(after, incoming), |incoming|, gained)
    ensures SucceedTogether(nodes, incoming, gained)
  {
    forall i | i in gained
      ensures PendingEdge(nodes, incoming, i) && exists p :: SelectsChosen(p, incoming, gained, incoming[i].from)
    {
      assert SelectsChosen(Lookup(after, incoming[i].from).value, incoming, gained, incoming[i].from);
    }
  }

  /** A completion that ends the sources of the chosen edges with success, and all others badly. */
  lemma ReachChosen(nodes: seq<NodeProjection>, incoming: seq<Edge>, chosen: set<int>) returns (after: seq<NodeProjection>)
    requires SucceedTogether(nodes, incoming, chosen)
    ensures Finishes(nodes, after)
    ensures Count(Branches(after, incoming), Successful) >= Count(Branches(nodes, incoming), Successful) + |chosen|
  {
    var sources := set i | i in chosen :: incoming[i].from;
    var ends := map id | id in sources :: var p :| SelectsChosen(p, incoming, chosen, id); p;
    after := FinishWith(nodes, ends, Failed);
    FinishedBranches(nodes, after, incoming);
    var gained := SuccessesGained(Branches(nodes, incoming), Branches(after, incoming), |incoming|);
    forall i | i in chosen ensures i in gained {
      assert incoming[i].from in sources;
      assert SelectsChosen(ends[incoming[i].from], incoming, chosen, incoming[i].from);
      LookupFinishWith(nodes, ends, Failed, incoming[i].from);
    }
    SubsetSize(chosen, gained);
  }

  /** Ending everything badly gains nothing. */
  lemma NothingGained(nodes: seq<NodeProjection>, incoming: seq<Edge>)
    ensures Count(Branches(FinishWith(nodes, map[], Failed), incoming), Successful) == Count(Branches(nodes, incoming), Successful)
  {
    var after := FinishWith(nodes, map[], Failed);
    FinishedBranches(nodes, after, incoming);
    var gained := SuccessesGained(Branches(nodes, incoming), Branches(after, incoming), |incoming|);
    forall i | i in gained ensures false {
      LookupFinishWith(nodes, map[], Failed, incoming[i].from);
    }
    assert gained == {};
  }

  /** An `any` join is a quorum of one: one edge that can succeed is enough. */
  lemma OneWithinReach(nodes: seq<NodeProjection>, incoming: seq<Edge>)
    requires Count(Branches(nodes, incoming), Successful) == 0
    ensures WithinReach(nodes, incoming, 1) <==> SomeCanCount(nodes, incoming, true)
  {
    if SomeCanCount(nodes, incoming, true) {
      var i :| PendingEdge(nodes, incoming, i) && CanCount(incoming[i], true);
      var p :| SelectedEnd(p, incoming[i], true);
      assert SelectsChosen(p, incoming, {i}, incoming[i].from);
      assert SucceedTogether(nodes, incoming, {i});
    }
    if WithinReach(nodes, incoming, 1) {
      var chosen :| SucceedTogether(nodes, incoming, chosen) && |chosen| >= 1;
      var i := SomeMember(chosen);
      var p :| SelectsChosen(p, incoming, chosen, incoming[i].from);
      assert SelectedEnd(p, incoming[i], true);
    }
  }

  /** A waiting join that asks for a number of successes is undecided exactly if they are within reach. */
  lemma QuorumUndecided(spec: Spec, nodes: seq<NodeProjection>, nodeId: Id)
    requires PositiveQuorum(JoinOf(spec.nodes, nodeId)) && ReadinessOf(spec, nodes, nodeId) == StillWaiting
    requires Needed(JoinOf(spec.nodes, nodeId)).Some?
    ensures Undecided(spec, nodes, nodeId)
       <==> WithinReach(nodes, Incoming(spec.edges, nodeId), Needed(JoinOf(spec.nodes, nodeId)).value)
  {
    var incoming, join := Incoming(spec.edges, nodeId), JoinOf(spec.nodes, nodeId);
    var minimum := Needed(join).value;
    if WithinReach(nodes, incoming, minimum) {
      var chosen :| SucceedTogether(nodes, incoming, chosen)
                 && Count(Branches(nodes, incoming), Successful) + |chosen| >= minimum;
      var good := ReachChosen(nodes, incoming, chosen);
      var bad := FinishWith(nodes, map[], Failed);
      NothingGained(nodes, incoming);
      FinishedVerdict(spec, nodes, good, nodeId);
      FinishedVerdict(spec, nodes, bad, nodeId);
      assert Disagree(spec, nodes, nodeId, good, bad);
    } else {
      forall one, other ensures !Disagree(spec, nodes, nodeId, one, other) {
        if Finishes(nodes, one) && Finishes(nodes, other) {
          OutOfReach(spec, nodes, one, nodeId);
          OutOfReach(spec, nodes, other, nodeId);
        }
      }
    }
  }

  lemma FinishedVerdict(spec: Spec, nodes: seq<NodeProjection>, after: seq<NodeProjection>, nodeId: Id)
    requires PositiveQuorum(JoinOf(spec.nodes, nodeId)) && ReadinessOf(spec, nodes, nodeId) == StillWaiting
    requires Finishes(nodes, after)
    ensures ReadinessOf(spec, after, nodeId)
         == Ending(Branches(after, Incoming(spec.edges, nodeId)), Needed(JoinOf(spec.nodes, nodeId)))
    ensures Needed(JoinOf(spec.nodes, nodeId)).None? ==>
      Count(Branches(nodes, Incoming(spec.edges, nodeId)), Unsuccessful) == 0
  {
    var incoming := Incoming(spec.edges, nodeId);
    FinishedBranches(nodes, after, incoming);
    SettledVerdict(Branches(nodes, incoming), Branches(after, incoming), JoinOf(spec.nodes, nodeId));
  }

  lemma OutOfReach(spec: Spec, nodes: seq<NodeProjection>, after: seq<NodeProjection>, nodeId: Id)
    requires PositiveQuorum(JoinOf(spec.nodes, nodeId)) && ReadinessOf(spec, nodes, nodeId) == StillWaiting
    requires Needed(JoinOf(spec.nodes, nodeId)).Some? && Finishes(nodes, after)
    requires !WithinReach(nodes, Incoming(spec.edges, nodeId), Needed(JoinOf(spec.nodes, nodeId)).value)
    ensures ReadinessOf(spec, after, nodeId) == Blocked
  {
    var incoming := Incoming(spec.edges, nodeId);
    FinishedVerdict(spec, nodes, after, nodeId);
    FinishedBranches(nodes, after, incoming);
    var gained := SuccessesGained(Branches(nodes, incoming), Branches(after, incoming), |incoming|);
    GainedTogether(nodes, after, incoming, gained);
  }

  /** A completion in which one pending edge ends as it can, and everything else in the given state. */
  lemma EndOneEdge(nodes: seq<NodeProjection>, incoming: seq<Edge>, i: nat, success: bool, state: NodeState)
    returns (after: seq<NodeProjection>)
    requires PendingEdge(nodes, incoming, i) && CanCount(incoming[i], success) && Terminal(state)
    ensures Finishes(nodes, after)
    ensures Count(Branches(after, incoming), if success then Successful else Unsuccessful) > 0
  {
    var p :| SelectedEnd(p, incoming[i], success);
    var ends := map[incoming[i].from := p];
    after := FinishWith(nodes, ends, state);
    LookupFinishWith(nodes, ends, state, incoming[i].from);
    CountPositive(Branches(after, incoming), |incoming|, i);
  }

  /** What a completion adds to a waiting `all` join some pending edge could add. */
  lemma AddedCouldCount(nodes: seq<NodeProjection>, after: seq<NodeProjection>, incoming: seq<Edge>, success: bool)
    requires Finishes(nodes, after)
    requires Count(Branches(nodes, incoming), if success then Successful else Unsuccessful) == 0
    requires Count(Branches(after, incoming), if success then Successful else Unsuccessful) > 0
    ensures SomeCanCount(nodes, incoming, success)
  {
    var outcome := if success then Successful else Unsuccessful;
    FinishedBranches(nodes, after, incoming);
    var i := CountWitness(Branches(after, incoming), |incoming|, outcome);
    if Branches(nodes, incoming)[i] == outcome {
      CountPositive(Branches(nodes, incoming), |incoming|, i);
    }
    LookupFinished(nodes, after, incoming[i].from);
    assert SelectedEnd(Lookup(after, incoming[i].from).value, incoming[i], success);
    assert PendingEdge(nodes, incoming, i);
  }

  /** All sources succeeding, nothing becomes unsuccessful. */
  lemma NothingLost(nodes: seq<NodeProjection>, incoming: seq<Edge>)
    requires Count(Branches(nodes, incoming), Unsuccessful) == 0
    ensures Count(Branches(FinishWith(nodes, map[], Succeeded), incoming), Unsuccessful) == 0
  {
    var before, after := Branches(nodes, incoming), Branches(FinishWith(nodes, map[], Succeeded), incoming);
    if Count(after, Unsuccessful) > 0 {
      FinishedBranches(nodes, FinishWith(nodes, map[], Succeeded), incoming);
      var i := CountWitness(after, |incoming|, Unsuccessful);
      if before[i] == Pending {
        LookupFinishWith(nodes, map[], Succeeded, incoming[i].from);
      } else {
        CountPositive(before, |incoming|, i);
      }
    }
  }

  /** If no pending edge can fail, a completion is ready or skipped. */
  lemma NoneUnsuccessful(spec: Spec, nodes: seq<NodeProjection>, after: seq<NodeProjection>, nodeId: Id)
    requires ReadinessOf(spec, nodes, nodeId) == StillWaiting && Needed(JoinOf(spec.nodes, nodeId)).None?
    requires !SomeCanCount(nodes, Incoming(spec.edges, nodeId), false) && Finishes(nodes, after)
    ensures ReadinessOf(spec, after, nodeId)
         == if Count(Branches(after, Incoming(spec.edges, nodeId)), Successful) > 0 then Ready else SkippedOver
  {
    FinishedVerdict(spec, nodes, after, nodeId);
    if Count(Branches(after, Incoming(spec.edges, nodeId)), Unsuccessful) > 0 {
      AddedCouldCount(nodes, after, Incoming(spec.edges, nodeId), false);
    }
  }

  /** With nothing left open, every completion of a waiting `all` join has the same verdict. */
  lemma AllClosed(spec: Spec, nodes: seq<NodeProjection>, after: seq<NodeProjection>, nodeId: Id)
    requires ReadinessOf(spec, nodes, nodeId) == StillWaiting && Needed(JoinOf(spec.nodes, nodeId)).None?
    requires !LeftOpen(nodes, Incoming(spec.edges, nodeId), JoinOf(spec.nodes, nodeId)) && Finishes(nodes, after)
    ensures ReadinessOf(spec, after, nodeId)
         == if Count(Branches(nodes, Incoming(spec.edges, nodeId)), Successful) > 0 then Ready else SkippedOver
  {
    var incoming := Incoming(spec.edges, nodeId);
    NoneUnsuccessful(spec, nodes, after, nodeId);
    FinishedBranches(nodes, after, incoming);
    SettledCounts(Branches(nodes, incoming), Branches(after, incoming), |incoming|);
    if Count(Branches(nodes, incoming), Successful) == 0 && Count(Branches(after, incoming), Successful) > 0 {
      AddedCouldCount(nodes, after, incoming, true);
    }
  }

  /** If a pending edge can still fail, failing it blocks what success everywhere would not. */
  lemma AllMayFail(spec: Spec, nodes: seq<NodeProjection>, nodeId: Id)
    requires ReadinessOf(spec, nodes, nodeId) == StillWaiting && Needed(JoinOf(spec.nodes, nodeId)).None?
    requires SomeCanCount(nodes, Incoming(spec.edges, nodeId), false)
    ensures Undecided(spec, nodes, nodeId)
  {
    var incoming := Incoming(spec.edges, nodeId);
    var other := FinishWith(nodes, map[], Succeeded);
    FinishedVerdict(spec, nodes, other, nodeId);
    NothingLost(nodes, incoming);
    var i :| PendingEdge(nodes, incoming, i) && CanCount(incoming[i], false);
    var one := EndOneEdge(nodes, incoming, i, false, Failed);
    FinishedVerdict(spec, nodes, one, nodeId);
    assert Disagree(spec, nodes, nodeId, one, other);
  }

  /** If nothing can fail and nothing has succeeded, one success decides between ready and skipped. */
  lemma AllMayJoin(spec: Spec, nodes: seq<NodeProjection>, nodeId: Id)
    requires ReadinessOf(spec, nodes, nodeId) == StillWaiting && Needed(JoinOf(spec.nodes, nodeId)).None?
    requires !SomeCanCount(nodes, Incoming(spec.edges, nodeId), false)
    requires SomeCanCount(nodes, Incoming(spec.edges, nodeId), true)
    requires Count(Branches(nodes, Incoming(spec.edges, nodeId)), Successful) == 0
    ensures Undecided(spec, nodes, nodeId)
  {
    var incoming := Incoming(spec.edges, nodeId);
    var i :| PendingEdge(nodes, incoming, i) && CanCount(incoming[i], true);
    var one := EndOneEdge(nodes, incoming, i, true, Failed);
    var other := FinishWith(nodes, map[], Failed);
    NothingGained(nodes, incoming);
    NoneUnsuccessful(spec, nodes, one, nodeId);
    NoneUnsuccessful(spec, nodes, other, nodeId);
    assert Disagree(spec, nodes, nodeId, one, other);
  }

  /**
   Whatever the conditions: two completions disagree exactly if the node waits and its join has
   something left open.  A node for which nothing is left open waits idly.
  */
  lemma UndecidedExactly(spec: Spec, nodes: seq<NodeProjection>, nodeId: Id)
    requires PositiveQuorum(JoinOf(spec.nodes, nodeId))
    ensures Undecided(spec, nodes, nodeId) <==>
      && ReadinessOf(spec, nodes, nodeId) == StillWaiting
      && LeftOpen(nodes, Incoming(spec.edges, nodeId), JoinOf(spec.nodes, nodeId))
  {
    var incoming, join := Incoming(spec.edges, nodeId), JoinOf(spec.nodes, nodeId);
    if ReadinessOf(spec, nodes, nodeId) != StillWaiting {
      VerdictDecides(spec, nodes, nodeId);
    } else if Needed(join).Some? {
      QuorumUndecided(spec, nodes, nodeId);
      if join.value.Any? {
        OneWithinReach(nodes, incoming);
      }
    } else if LeftOpen(nodes, incoming, join) {
      if SomeCanCount(nodes, incoming, false) {
        AllMayFail(spec, nodes, nodeId);
      } else {
        AllMayJoin(spec, nodes, nodeId);
      }
    } else {
      forall one, other ensures !Disagree(spec, nodes, nodeId, one, other) {
        if Finishes(nodes, one) && Finishes(nodes, other) {
          AllClosed(spec, nodes, one, nodeId);
          AllClosed(spec, nodes, other, nodeId);
        }
      }
    }
  }

  /** The pending edges whose sources can still succeed in a way that selects them. */
  ghost function Hopeful(nodes: seq<NodeProjection>, incoming: seq<Edge>): set<int> {
    set i | 0 <= i < |incoming| && PendingEdge(nodes, incoming, i) && CanCount(incoming[i], true)
  }

  /** If no two pending edges share a source, they can be counted one by one. */
  lemma SeparateSourcesReach(nodes: seq<NodeProjection>, incoming: seq<Edge>, minimum: int)
    requires forall i, j :: PendingEdge(nodes, incoming, i) && PendingEdge(nodes, incoming, j) && i != j ==>
      incoming[i].from != incoming[j].from
    ensures WithinReach(nodes, incoming, minimum)
       <==> Count(Branches(nodes, incoming), Successful) + |Hopeful(nodes, incoming)| >= minimum
  {
    var hopeful := Hopeful(nodes, incoming);
    forall i | i in hopeful ensures exists p :: SelectsChosen(p, incoming, hopeful, incoming[i].from) {
      var p :| SelectedEnd(p, incoming[i], true);
      assert SelectsChosen(p, incoming, hopeful, incoming[i].from);
    }
    assert SucceedTogether(nodes, incoming, hopeful);
    if WithinReach(nodes, incoming, minimum) {
      var chosen :| SucceedTogether(nodes, incoming, chosen)
                 && Count(Branches(nodes, incoming), Successful) + |chosen| >= minimum;
      forall i | i in chosen ensures i in hopeful {
        var p :| SelectsChosen(p, incoming, chosen, incoming[i].from);
        assert SelectedEnd(p, incoming[i], true);
      }
      SubsetSize(chosen, hopeful);
    }
  }

  ghost predicate WaitsIdly(spec: Spec, nodes: seq<NodeProjection>, nodeId: Id) {
    && PositiveQuorum(JoinOf(spec.nodes, nodeId))
    && ReadinessOf(spec, nodes, nodeId) == StillWaiting
    && !Undecided(spec, nodes, nodeId)
  }

  /** Conditions can settle a join before its sources do: this node waits though nothing is open. */
  lemma ConditionalMayWaitIdly()
    ensures exists spec, nodes, nodeId :: WaitsIdly(spec, nodes, nodeId)
  {
    var edge := Edge("a", "b", Some(Selector(_ => false)));
    var spec := Spec("w", "r", "s", Auto, WorkflowGraph, 1, [NodeSpec("a", AgentTask, None), NodeSpec("b", AgentTask, None)], [edge], 0);
    var nodes := [NodeProjection("a", Proposed, [], None, None), NodeProjection("b", Proposed, [], None, None)];
    assert spec.edges[..0] == [];
    assert Incoming(spec.edges, "b") == [edge];
    assert nodes[..1] == [nodes[0]];
    assert Lookup(nodes, "a") == Some(nodes[0]);
    assert Branches(nodes, [edge]) == [Pending];
    CountZero([Pending], 1, Successful);
    CountZero([Pending], 1, Unsuccessful);
    assert CountTo([Pending], 1, Pending) == CountTo([Pending], 0, Pending) + 1;
    assert JoinOf(spec.nodes, "b") == None;
    assert !CanCount(edge, true) && !CanCount(edge, false);
    UndecidedExactly(spec, nodes, "b");
    assert WaitsIdly(spec, nodes, "b");
  }
}
