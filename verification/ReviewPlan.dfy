/**
 The review plan: a machine over its journal events in which an item becomes accepted only through an
 accepted review of its open attempt.
*/
module ReviewPlan {
  import opened Wrappers

  type Id = string

  datatype PlanState = Active | Reviewing | Blocked | Completed | Abandoned | Cancelled

  datatype ItemState = Pending | Running | ReviewRequested | Accepted | NeedsFix | Blocked | Skipped

  datatype AttemptState = Open | ReviewRequested | Accepted | NeedsFix | Blocked | Cancelled

  datatype Verdict = Accepted | NeedsFix | Replan | Blocked

  datatype Attempt = Attempt(itemAttemptId: Id, attemptNumber: int, state: AttemptState, evidenceRefs: seq<string>)

  datatype Scope = ItemScope(itemId: Id) | FinalScope

  datatype Prepared = Prepared(
    preparedReviewId: Id,
    scope: Scope,
    planRevision: int,
    itemAttemptId: Option<Id>,
    evidenceRefs: seq<string>,
    reviewInputDigest: string)

  datatype Decision = Decision(reviewRequestId: Id, verdict: Verdict, decisionDigest: string)

  datatype Block = Block(blockId: Id, code: string)

  datatype Criterion = Criterion(id: Id, required: bool, definition: string)

  datatype ItemDefinition = ItemDefinition(id: Id, title: string, criterionIds: seq<Id>, reviewCheckpoint: bool)

  datatype Policy = Policy(finalOnly: bool, maxRepairAttempts: nat, maxReplans: nat, maxReviews: nat, maxNoProgress: nat)

  const DEFAULT_POLICY := Policy(false, 8, 8, 3, 3)

  datatype Definition = Definition(
    objective: string,
    criteria: seq<Criterion>,
    items: seq<ItemDefinition>,
    policy: Option<Policy>)

  /** Stands for the digest of a definition under a policy: equal exactly for equal content. */
  datatype PlanHash = PlanHash(objective: string, criteria: seq<Criterion>, items: seq<ItemDefinition>, policy: Policy)

  datatype Item = Item(
    definition: ItemDefinition,
    order: nat,
    state: ItemState,
    attemptCount: int,
    currentAttempt: Option<Attempt>,
    block: Option<Block>,
    prepared: Option<Prepared>,
    taskRefs: seq<string>,
    evidenceRefs: seq<string>,
    acceptedEvidenceRefs: Option<seq<string>>,
    acceptedAttemptId: Option<Id>,
    acceptedInputDigest: Option<string>,
    lastReview: Option<Decision>)

  datatype Plan = Plan(
    planId: Id,
    revision: int,
    objective: string,
    state: PlanState,
    policy: Policy,
    criteria: seq<Criterion>,
    items: seq<Item>,
    attemptCount: int,
    replanCount: int,
    noProgressCount: int,
    focusedAttemptId: Option<Id>,
    block: Option<Block>,
    finalPrepared: Option<Prepared>,
    lastReview: Option<Decision>)

  datatype EventData =
    | Created(input: Definition, planHash: PlanHash)
    | Revised(fromPlanRevision: int, input: Definition, planHash: PlanHash)
    | ItemStateChanged(itemId: Id, itemState: ItemState, itemBlock: Option<Block>)
    | AttemptStarted(itemId: Id, itemAttemptId: Id, attemptNumber: int)
    | AttemptFocused(itemId: Id, itemAttemptId: Id)
    | AttemptCarriedForward(itemId: Id, itemAttemptId: Id, fromPlanRevision: int)
    | AttemptClosed(itemId: Id, itemAttemptId: Id, attemptState: AttemptState)
    | ExecutionRequested(itemId: Id, itemAttemptId: Id)
    | ExecutionBound(itemId: Id, itemAttemptId: Id, taskRef: string)
    | RootToolRequested(itemId: Id, itemAttemptId: Id)
    | RootToolRecorded(itemId: Id, itemAttemptId: Id, resultRef: Option<string>, effectReceiptRef: Option<string>)
    | ReviewPrepared(prepared: Prepared)
    | ReviewRequestedEvent(preparedReviewId: Id)
    | ReviewRecorded(preparedReviewId: Id, reviewRequestId: Id, decision: Decision)
    | NoProgressRecorded(noProgressCount: int)
    | BlockResolved(blockId: Id)
    | StateChanged(state: PlanState, block: Option<Block>)

  datatype Event = Event(planId: Id, planRevision: int, data: EventData)

  datatype ReviewError = TransitionInvalid | DefinitionInvalid | ProjectionInvalid

  type Checked<T> = Result<T, ReviewError>

  // ---------- Transition tables ----------

  predicate PlanMayBecome(from: PlanState, to: PlanState) {
    match from
    case Active => to in {PlanState.Reviewing, PlanState.Blocked, PlanState.Abandoned, PlanState.Cancelled}
    case Reviewing => to in {PlanState.Active, PlanState.Blocked, PlanState.Completed, PlanState.Cancelled}
    case Blocked => to in {PlanState.Active, PlanState.Abandoned, PlanState.Cancelled}
    case _ => false
  }

  predicate ItemMayBecome(from: ItemState, to: ItemState) {
    match from
    case Pending => to in {ItemState.Running, ItemState.Skipped, ItemState.Blocked}
    case Running => to in {ItemState.ReviewRequested, ItemState.NeedsFix, ItemState.Accepted, ItemState.Blocked}
    case ReviewRequested => to in {ItemState.Accepted, ItemState.NeedsFix, ItemState.Blocked}
    case NeedsFix => to in {ItemState.Running, ItemState.Blocked, ItemState.Skipped}
    case Blocked => to in {ItemState.Pending, ItemState.Running, ItemState.Skipped}
    case _ => false
  }

  function ItemStateFor(verdict: Verdict): ItemState {
    match verdict
    case Accepted => ItemState.Accepted
    case Blocked => ItemState.Blocked
    case _ => ItemState.NeedsFix
  }

  function PlanStateFor(verdict: Verdict): PlanState {
    match verdict
    case Accepted => PlanState.Completed
    case Blocked => PlanState.Blocked
    case _ => PlanState.Active
  }

  // ---------- Validation ----------

  predicate NoRepeats(ids: seq<Id>) {
    forall i, j :: 0 <= i < j < |ids| ==> ids[i] != ids[j]
  }

  predicate Among(ids: seq<Id>, criteria: seq<Criterion>) {
    forall i :: 0 <= i < |ids| ==> exists j :: 0 <= j < |criteria| && criteria[j].id == ids[i]
  }

  predicate CriteriaDiffer(criteria: seq<Criterion>) {
    forall i, j :: 0 <= i < j < |criteria| ==> criteria[i].id != criteria[j].id
  }

  predicate ItemDefined(item: ItemDefinition, criteria: seq<Criterion>) {
    item.criterionIds != [] && NoRepeats(item.criterionIds) && Among(item.criterionIds, criteria)
  }

  predicate Used(criterion: Criterion, items: seq<ItemDefinition>) {
    exists i :: 0 <= i < |items| && criterion.id in items[i].criterionIds
  }

  predicate PolicyValid(p: Policy) {
    1 <= p.maxRepairAttempts <= 32 && 1 <= p.maxReplans <= 32 && 1 <= p.maxReviews <= 32 && 1 <= p.maxNoProgress <= 32
  }

  predicate DefinitionValid(d: Definition) {
    && d.criteria != [] && CriteriaDiffer(d.criteria)
    && d.items != [] && (forall i, j :: 0 <= i < j < |d.items| ==> d.items[i].id != d.items[j].id)
    && (forall i :: 0 <= i < |d.items| ==> ItemDefined(d.items[i], d.criteria))
    && (forall i :: 0 <= i < |d.criteria| && d.criteria[i].required ==> Used(d.criteria[i], d.items))
    && PolicyValid(d.policy.GetOr(DEFAULT_POLICY))
  }

  predicate PreparedValid(p: Prepared) {
    p.scope.ItemScope? ==> p.itemAttemptId.Some?
  }

  /** Accepted evidence comes with an accepted attempt, and an accepted item has both. */
  predicate ItemValid(item: Item, criteria: seq<Criterion>) {
    && ItemDefined(item.definition, criteria)
    && (item.prepared.Some? ==> PreparedValid(item.prepared.value))
    && (item.acceptedEvidenceRefs.None? <==> item.acceptedAttemptId.None?)
    && (item.state.Accepted? ==> item.acceptedEvidenceRefs.Some?)
  }

  predicate ItemsDiffer(items: seq<Item>) {
    forall i, j :: 0 <= i < j < |items| ==> items[i].definition.id != items[j].definition.id
  }

  predicate ProjectionValid(plan: Plan) {
    && plan.criteria != [] && CriteriaDiffer(plan.criteria)
    && plan.items != [] && ItemsDiffer(plan.items)
    && (forall i :: 0 <= i < |plan.items| ==> ItemValid(plan.items[i], plan.criteria))
    && PolicyValid(plan.policy)
    && (plan.finalPrepared.Some? ==> PreparedValid(plan.finalPrepared.value))
  }

  // ---------- Lookups ----------

  /** The position of the item with this id, or the number of items if there is none. */
  function Position(items: seq<Item>, itemId: Id): (k: nat)
    ensures k <= |items|
    ensures k < |items| ==> items[k].definition.id == itemId
    ensures k == |items| ==> forall i :: 0 <= i < |items| ==> items[i].definition.id != itemId
  {
    if items == [] then 0
    else if items[0].definition.id == itemId then 0
    else
      assert forall i :: 0 < i < |items| ==> items[i] == items[1..][i - 1];
      1 + Position(items[1..], itemId)
  }

  predicate HasItem(plan: Plan, itemId: Id) {
    Position(plan.items, itemId) < |plan.items|
  }

  function ItemOf(plan: Plan, itemId: Id): Item
    requires HasItem(plan, itemId)
  {
    plan.items[Position(plan.items, itemId)]
  }

  function WithItem(plan: Plan, item: Item): Plan
    requires HasItem(plan, item.definition.id)
  {
    plan.(items := plan.items[Position(plan.items, item.definition.id) := item])
  }

  predicate AttemptIs(item: Item, itemAttemptId: Id) {
    item.currentAttempt.Some? && item.currentAttempt.value.itemAttemptId == itemAttemptId
  }

  predicate HasAttempt(plan: Plan, itemId: Id, itemAttemptId: Id) {
    HasItem(plan, itemId) && AttemptIs(ItemOf(plan, itemId), itemAttemptId)
  }

  /** The prepared review with this id: the final one if there is one, else that of the first item holding it. */
  function FindPrepared(plan: Plan, preparedReviewId: Id): Option<Prepared> {
    var found := if plan.finalPrepared.Some? then plan.finalPrepared else FirstPrepared(plan.items, preparedReviewId);
    if found.Some? && found.value.preparedReviewId == preparedReviewId then found else None
  }

  function FirstPrepared(items: seq<Item>, preparedReviewId: Id): (r: Option<Prepared>)
    ensures r.Some? ==> r.value.preparedReviewId == preparedReviewId
    ensures r.Some? ==> exists i :: 0 <= i < |items| && items[i].prepared == r
  {
    if items == [] then None
    else if items[0].prepared.Some? && items[0].prepared.value.preparedReviewId == preparedReviewId then items[0].prepared
    else
      var r := FirstPrepared(items[1..], preparedReviewId);
      assert forall i :: 0 < i < |items| ==> items[i] == items[1..][i - 1];
      r
  }

  function FirstBlocked(items: seq<Item>, blockId: Id): (k: nat)
    ensures k <= |items|
    ensures k < |items| ==> items[k].block.Some? && items[k].block.value.blockId == blockId
  {
    if items == [] then 0
    else if items[0].block.Some? && items[0].block.value.blockId == blockId then 0
    else 1 + FirstBlocked(items[1..], blockId)
  }

  function AppendUnique(refs: seq<string>, ref: string): Checked<seq<string>> {
    if ref in refs then Err(TransitionInvalid) else Ok(refs + [ref])
  }

  function AppendOptional(refs: seq<string>, ref: Option<string>): Checked<seq<string>> {
    if ref.Some? then AppendUnique(refs, ref.value) else Ok(refs)
  }

  // ---------- The reducer ----------

  function FreshItem(definition: ItemDefinition, order: nat): Item {
    Item(definition, order, ItemState.Pending, 0, None, None, None, [], [], None, None, None, None)
  }

  function Create(event: Event, d: Definition, planHash: PlanHash): Checked<Plan> {
    var policy := d.policy.GetOr(DEFAULT_POLICY);
    if event.planRevision != 1 then Err(TransitionInvalid)
    else if !DefinitionValid(d) then Err(DefinitionInvalid)
    else if planHash != PlanHash(d.objective, d.criteria, d.items, policy) then Err(TransitionInvalid)
    else Ok(Plan(event.planId, 1, d.objective, PlanState.Active, policy, d.criteria, FreshItems(d.items),
                 0, 0, 0, None, None, None, None))
  }

  function FreshItems(definitions: seq<ItemDefinition>): (r: seq<Item>)
    ensures |r| == |definitions| && forall i :: 0 <= i < |r| ==> r[i] == FreshItem(definitions[i], i)
  {
    seq(|definitions|, i requires 0 <= i < |definitions| => FreshItem(definitions[i], i))
  }

  /** An accepted item whose definition is unchanged is carried over; every other item starts again. */
  function RevisedItem(plan: Plan, definition: ItemDefinition, order: nat): Item {
    if HasItem(plan, definition.id) && ItemOf(plan, definition.id).definition == definition
       && ItemOf(plan, definition.id).state.Accepted?
    then ItemOf(plan, definition.id).(order := order)
    else FreshItem(definition, order)
  }

  function RevisedItems(plan: Plan, definitions: seq<ItemDefinition>): (r: seq<Item>)
    ensures |r| == |definitions| && forall i :: 0 <= i < |r| ==> r[i] == RevisedItem(plan, definitions[i], i)
  {
    seq(|definitions|, i requires 0 <= i < |definitions| => RevisedItem(plan, definitions[i], i))
  }

  function Revise(plan: Plan, event: Event, fromRevision: int, d: Definition, planHash: PlanHash): Checked<Plan> {
    var policy := d.policy.GetOr(plan.policy);
    if !DefinitionValid(d) then Err(DefinitionInvalid)
    else if fromRevision != plan.revision || event.planRevision != plan.revision + 1 then Err(TransitionInvalid)
    else if planHash != PlanHash(d.objective, d.criteria, d.items, policy) || plan.finalPrepared.Some? then
      Err(TransitionInvalid)
    else Ok(plan.(revision := event.planRevision, objective := d.objective, policy := policy, criteria := d.criteria,
                  items := RevisedItems(plan, d.items), replanCount := plan.replanCount + 1,
                  state := PlanState.Active, block := None))
  }

  function StartAttempt(plan: Plan, item: Item, itemAttemptId: Id, attemptNumber: int): Checked<Plan>
    requires HasItem(plan, item.definition.id)
  {
    if item.currentAttempt.Some? || item.state !in {ItemState.Pending, ItemState.NeedsFix, ItemState.Blocked} then
      Err(TransitionInvalid)
    else if attemptNumber != item.attemptCount + 1 then Err(TransitionInvalid)
    else
      var started := item.(currentAttempt := Some(Attempt(itemAttemptId, attemptNumber, Open, [])),
                           attemptCount := attemptNumber, state := ItemState.Running, block := None);
      Ok(WithItem(plan, started).(attemptCount := plan.attemptCount + 1, focusedAttemptId := Some(itemAttemptId)))
  }

  function Unfocused(plan: Plan, itemAttemptId: Id): Plan {
    if plan.focusedAttemptId == Some(itemAttemptId) then plan.(focusedAttemptId := None) else plan
  }

  function RecordTool(plan: Plan, item: Item, result: Option<string>, receipt: Option<string>): Checked<Plan>
    requires HasItem(plan, item.definition.id) && item.currentAttempt.Some?
  {
    var attempt := item.currentAttempt.value;
    var refs1 :- AppendOptional(item.evidenceRefs, result);
    var own1 :- AppendOptional(attempt.evidenceRefs, result);
    var refs2 :- AppendOptional(refs1, receipt);
    var own2 :- AppendOptional(own1, receipt);
    Ok(WithItem(plan, item.(evidenceRefs := refs2, currentAttempt := Some(attempt.(evidenceRefs := own2)))))
  }

  function PrepareReview(plan: Plan, p: Prepared): Checked<Plan> {
    if !PreparedValid(p) then Err(ProjectionInvalid)
    else if p.planRevision != plan.revision then Err(TransitionInvalid)
    else
      match p.scope
      case ItemScope(itemId) =>
        if !HasAttempt(plan, itemId, p.itemAttemptId.value) || ItemOf(plan, itemId).prepared.Some? then
          Err(TransitionInvalid)
        else Ok(WithItem(plan, ItemOf(plan, itemId).(prepared := Some(p))))
      case FinalScope =>
        if plan.finalPrepared.Some? then Err(TransitionInvalid) else Ok(plan.(finalPrepared := Some(p)))
  }

  function RequestReview(plan: Plan, p: Prepared): Checked<Plan> {
    match p.scope
    case ItemScope(itemId) =>
      if p.itemAttemptId.None? || !HasAttempt(plan, itemId, p.itemAttemptId.value) then Err(TransitionInvalid)
      else
        var item := ItemOf(plan, itemId);
        Ok(WithItem(plan, item.(currentAttempt := Some(item.currentAttempt.value.(state := AttemptState.ReviewRequested)),
                                state := ItemState.ReviewRequested)))
    case FinalScope =>
      if PlanMayBecome(plan.state, PlanState.Reviewing) then Ok(plan.(state := PlanState.Reviewing))
      else Err(TransitionInvalid)
  }

  /** The item after its review: accepted with what was reviewed, or sent back; its attempt is over. */
  function Reviewed(item: Item, p: Prepared, decision: Decision): Item
    requires p.itemAttemptId.Some?
  {
    var closed := item.(lastReview := Some(decision), state := ItemStateFor(decision.verdict),
                        prepared := None, currentAttempt := None);
    if decision.verdict.Accepted? then
      closed.(acceptedInputDigest := Some(p.reviewInputDigest), acceptedEvidenceRefs := Some(p.evidenceRefs),
              acceptedAttemptId := p.itemAttemptId)
    else closed
  }

  function RecordReview(plan: Plan, p: Prepared, decision: Decision): Checked<Plan> {
    match p.scope
    case ItemScope(itemId) =>
      if p.itemAttemptId.None? || !HasAttempt(plan, itemId, p.itemAttemptId.value) then Err(TransitionInvalid)
      else Ok(Unfocused(WithItem(plan, Reviewed(ItemOf(plan, itemId), p, decision)), p.itemAttemptId.value))
    case FinalScope =>
      var target := PlanStateFor(decision.verdict);
      if plan.state != target && !PlanMayBecome(plan.state, target) then Err(TransitionInvalid)
      else Ok(plan.(lastReview := Some(decision), finalPrepared := None, state := target))
  }

  function ResolveBlock(plan: Plan, blockId: Id): Checked<Plan> {
    if plan.block.Some? && plan.block.value.blockId == blockId then Ok(plan.(block := None, state := PlanState.Active))
    else
      var k := FirstBlocked(plan.items, blockId);
      if k == |plan.items| then Err(TransitionInvalid)
      else
        var item := plan.items[k];
        var state := if item.state.Blocked? then ItemState.Pending else item.state;
        Ok(plan.(items := plan.items[k := item.(block := None, state := state)]))
  }

  function WithoutPrepared(items: seq<Item>): (r: seq<Item>)
    ensures |r| == |items| && forall i :: 0 <= i < |r| ==> r[i] == items[i].(prepared := None)
  {
    seq(|items|, i requires 0 <= i < |items| => items[i].(prepared := None))
  }

  function ChangeState(plan: Plan, state: PlanState, block: Option<Block>): Checked<Plan> {
    if state.Blocked? != block.Some? || !PlanMayBecome(plan.state, state) then Err(TransitionInvalid)
    else
      var next := plan.(state := state, block := block);
      if state.Abandoned? || state.Cancelled? then Ok(next.(finalPrepared := None, items := WithoutPrepared(plan.items)))
      else Ok(next)
  }

  /** The events that name an item and its open attempt. */
  function ApplyToAttempt(plan: Plan, data: EventData): Checked<Plan> {
    match data
    case AttemptFocused(itemId, attemptId) =>
      if HasAttempt(plan, itemId, attemptId) then Ok(plan.(focusedAttemptId := Some(attemptId)))
      else Err(TransitionInvalid)
    case AttemptCarriedForward(itemId, attemptId, fromRevision) =>
      if HasAttempt(plan, itemId, attemptId) && fromRevision == plan.revision - 1 then Ok(plan) else Err(TransitionInvalid)
    case AttemptClosed(itemId, attemptId, _) =>
      if !HasAttempt(plan, itemId, attemptId) then Err(TransitionInvalid)
      else Ok(Unfocused(WithItem(plan, ItemOf(plan, itemId).(currentAttempt := None)), attemptId))
    case ExecutionRequested(itemId, attemptId) =>
      if HasAttempt(plan, itemId, attemptId) then Ok(plan) else Err(TransitionInvalid)
    case ExecutionBound(itemId, attemptId, taskRef) =>
      if !HasAttempt(plan, itemId, attemptId) then Err(TransitionInvalid)
      else
        var refs :- AppendUnique(ItemOf(plan, itemId).taskRefs, taskRef);
        Ok(WithItem(plan, ItemOf(plan, itemId).(taskRefs := refs)))
    case RootToolRequested(itemId, attemptId) =>
      if HasAttempt(plan, itemId, attemptId) then Ok(plan) else Err(TransitionInvalid)
    case RootToolRecorded(itemId, attemptId, result, receipt) =>
      if !HasAttempt(plan, itemId, attemptId) then Err(TransitionInvalid)
      else RecordTool(plan, ItemOf(plan, itemId), result, receipt)
    case _ => Err(TransitionInvalid)
  }

  /** What an event does before the resulting projection is validated. */
  function Update(plan: Plan, event: Event): Checked<Plan> {
    match event.data
    case Created(_, _) => Err(TransitionInvalid)
    case Revised(fromRevision, d, planHash) => Revise(plan, event, fromRevision, d, planHash)
    case ItemStateChanged(itemId, state, block) =>
      if !HasItem(plan, itemId) || !ItemMayBecome(ItemOf(plan, itemId).state, state) then Err(TransitionInvalid)
      else Ok(WithItem(plan, ItemOf(plan, itemId).(state := state, block := block)))
    case AttemptStarted(itemId, attemptId, number) =>
      if !HasItem(plan, itemId) then Err(TransitionInvalid)
      else StartAttempt(plan, ItemOf(plan, itemId), attemptId, number)
    case ReviewPrepared(p) => PrepareReview(plan, p)
    case ReviewRequestedEvent(preparedReviewId) =>
      var p := FindPrepared(plan, preparedReviewId);
      if p.None? then Err(TransitionInvalid) else RequestReview(plan, p.value)
    case ReviewRecorded(preparedReviewId, requestId, decision) =>
      var p := FindPrepared(plan, preparedReviewId);
      if p.None? || decision.reviewRequestId != requestId then Err(TransitionInvalid)
      else RecordReview(plan, p.value, decision)
    case NoProgressRecorded(count) =>
      if count != plan.noProgressCount + 1 then Err(TransitionInvalid) else Ok(plan.(noProgressCount := count))
    case BlockResolved(blockId) => ResolveBlock(plan, blockId)
    case StateChanged(state, block) => ChangeState(plan, state, block)
    case _ => ApplyToAttempt(plan, event.data)
  }

  function Validated(plan: Plan): Checked<Plan> {
    if ProjectionValid(plan) then Ok(plan) else Err(ProjectionInvalid)
  }

  function Apply(current: Option<Plan>, event: Event): Checked<Plan> {
    if event.data.Created? then
      if current.Some? then Err(TransitionInvalid)
      else
        var created :- Create(event, event.data.input, event.data.planHash);
        Validated(created)
    else if current.None? || current.value.planId != event.planId then Err(TransitionInvalid)
    else if !event.data.Revised? && current.value.revision != event.planRevision then Err(TransitionInvalid)
    else
      var next :- Update(current.value, event);
      Validated(next)
  }

  /** Applies the events from position `i` up to position `j`. */
  function Replay(current: Option<Plan>, events: seq<Event>, i: nat, j: nat): Checked<Option<Plan>>
    requires i <= j <= |events|
  {
    if i == j then Ok(current)
    else
      var before :- Replay(current, events, i, j - 1);
      var plan :- Apply(before, events[j - 1]);
      Ok(Some(plan))
  }

  /** The plan after the first `n` events. */
  function After(events: seq<Event>, n: nat): Checked<Option<Plan>>
    requires n <= |events|
  {
    Replay(None, events, 0, n)
  }
}
