/**
 Every event of a review plan, told by what it asks of the plan before it and what it leaves: the changes that are
 accepted, target state by target state, and nothing else.
*/
module ReviewRules {
  import opened Wrappers
  import opened ReviewPlan

  // ---------- One item ----------

  ghost predicate IsOpen(a: Item, itemAttemptId: Id) {
    exists attempt :: a.currentAttempt == Some(attempt) && attempt.itemAttemptId == itemAttemptId
  }

  /** The states from which an item may be set by hand; acceptance needs accepted evidence. */
  ghost predicate ItemMayTurn(a: Item, state: ItemState) {
    match state
    case Pending => a.state.Blocked?
    case Running => a.state.Pending? || a.state.NeedsFix? || a.state.Blocked?
    case ReviewRequested => a.state.Running?
    case Accepted => (a.state.Running? || a.state.ReviewRequested?) && a.acceptedEvidenceRefs.Some?
    case NeedsFix => a.state.Running? || a.state.ReviewRequested?
    case Blocked => a.state.Pending? || a.state.Running? || a.state.ReviewRequested? || a.state.NeedsFix?
    case Skipped => a.state.Pending? || a.state.NeedsFix? || a.state.Blocked?
  }

  ghost function Given(ref: Option<string>): seq<string> {
    if ref.Some? then [ref.value] else []
  }

  ghost predicate NewRefs(refs: seq<string>, added: seq<string>) {
    (forall r :: r in added ==> r !in refs) && forall i, j :: 0 <= i < j < |added| ==> added[i] != added[j]
  }

  /** What an event asks of its item, and what it leaves of it. */
  ghost predicate ItemMoves(a: Item, data: EventData, b: Item) {
    match data
    case ItemStateChanged(_, state, block) => ItemMayTurn(a, state) && b == a.(state := state, block := block)
    case AttemptStarted(_, attemptId, number) =>
      && a.currentAttempt.None? && (a.state.Pending? || a.state.NeedsFix? || a.state.Blocked?)
      && number == a.attemptCount + 1
      && b == a.(currentAttempt := Some(Attempt(attemptId, number, Open, [])), attemptCount := number,
                 state := ItemState.Running, block := None)
    case AttemptFocused(_, attemptId) => IsOpen(a, attemptId) && b == a
    case AttemptCarriedForward(_, attemptId, _) => IsOpen(a, attemptId) && b == a
    case AttemptClosed(_, attemptId, _) => IsOpen(a, attemptId) && b == a.(currentAttempt := None)
    case ExecutionRequested(_, attemptId) => IsOpen(a, attemptId) && b == a
    case ExecutionBound(_, attemptId, taskRef) =>
      IsOpen(a, attemptId) && taskRef !in a.taskRefs && b == a.(taskRefs := a.taskRefs + [taskRef])
    case RootToolRequested(_, attemptId) => IsOpen(a, attemptId) && b == a
    case RootToolRecorded(_, attemptId, result, receipt) =>
      && IsOpen(a, attemptId)
      && var added, attempt := Given(result) + Given(receipt), a.currentAttempt.value;
      && NewRefs(a.evidenceRefs, added) && NewRefs(attempt.evidenceRefs, added)
      && b == a.(evidenceRefs := a.evidenceRefs + added,
                 currentAttempt := Some(attempt.(evidenceRefs := attempt.evidenceRefs + added)))
    case _ => false
  }

  /** The item with this id, before and after; all others stay. */
  ghost predicate OneItem(items: seq<Item>, after: seq<Item>, itemId: Id, k: nat) {
    k < |items| && |after| == |items| && items[k].definition.id == itemId && after == items[k := after[k]]
  }

  ghost predicate Moved(plan: Plan, data: EventData, itemId: Id, after: seq<Item>) {
    exists k :: 0 <= k < |plan.items| && OneItem(plan.items, after, itemId, k) && ItemMoves(plan.items[k], data, after[k])
  }

  // ---------- Reviews ----------

  ghost predicate Holds(item: Item, preparedReviewId: Id, p: Prepared) {
    item.prepared == Some(p) && p.preparedReviewId == preparedReviewId
  }

  /** The prepared review of this id; a final review hides those of the items. */
  ghost predicate PreparedIs(plan: Plan, preparedReviewId: Id, p: Prepared) {
    && p.preparedReviewId == preparedReviewId
    && match plan.finalPrepared
       case Some(final) => p == final
       case None =>
         exists k :: 0 <= k < |plan.items| && Holds(plan.items[k], preparedReviewId, p)
                  && forall j, other :: 0 <= j < k ==> !Holds(plan.items[j], preparedReviewId, other)
  }

  ghost predicate ReviewAsked(a: Item, p: Prepared, b: Item) {
    && p.itemAttemptId.Some? && IsOpen(a, p.itemAttemptId.value)
    && b == a.(state := ItemState.ReviewRequested,
               currentAttempt := Some(a.currentAttempt.value.(state := AttemptState.ReviewRequested)))
  }

  ghost predicate ReviewGiven(a: Item, p: Prepared, decision: Decision, b: Item) {
    && p.itemAttemptId.Some? && IsOpen(a, p.itemAttemptId.value)
    && var over := a.(lastReview := Some(decision), prepared := None, currentAttempt := None);
    match decision.verdict
    case Accepted =>
      b == over.(state := ItemState.Accepted, acceptedInputDigest := Some(p.reviewInputDigest),
                 acceptedEvidenceRefs := Some(p.evidenceRefs), acceptedAttemptId := p.itemAttemptId)
    case Blocked => b == over.(state := ItemState.Blocked)
    case _ => b == over.(state := ItemState.NeedsFix)
  }

  ghost predicate ReviewPreparedFor(plan: Plan, p: Prepared, q: Plan) {
    && p.planRevision == plan.revision
    && match p.scope
       case ItemScope(itemId) =>
         q == plan.(items := q.items)
         && p.itemAttemptId.Some?
         && exists k :: 0 <= k < |plan.items| && OneItem(plan.items, q.items, itemId, k)
                     && IsOpen(plan.items[k], p.itemAttemptId.value) && plan.items[k].prepared.None?
                     && q.items[k] == plan.items[k].(prepared := Some(p))
       case FinalScope => plan.finalPrepared.None? && q == plan.(finalPrepared := Some(p))
  }

  ghost predicate ReviewRequestedOf(plan: Plan, p: Prepared, q: Plan) {
    match p.scope
    case ItemScope(itemId) =>
      q == plan.(items := q.items)
      && exists k :: 0 <= k < |plan.items| && OneItem(plan.items, q.items, itemId, k)
                  && ReviewAsked(plan.items[k], p, q.items[k])
    case FinalScope => plan.state.Active? && q == plan.(state := PlanState.Reviewing)
  }

  ghost function Without(focus: Option<Id>, attemptId: Option<Id>): Option<Id> {
    if focus == attemptId then None else focus
  }

  /** An item's review decides the item; the final one completes the plan, blocks it, or sets it going again. */
  ghost predicate ReviewRecordedOf(plan: Plan, p: Prepared, decision: Decision, q: Plan) {
    match p.scope
    case ItemScope(itemId) =>
      q == plan.(items := q.items, focusedAttemptId := Without(plan.focusedAttemptId, p.itemAttemptId))
      && exists k :: 0 <= k < |plan.items| && OneItem(plan.items, q.items, itemId, k)
                  && ReviewGiven(plan.items[k], p, decision, q.items[k])
    case FinalScope =>
      var over := plan.(lastReview := Some(decision), finalPrepared := None);
      match decision.verdict
      case Accepted =>
        (plan.state.Reviewing? || plan.state.Completed?) && q == over.(state := PlanState.Completed)
      case Blocked =>
        (plan.state.Active? || plan.state.Reviewing? || plan.state.Blocked?) && q == over.(state := PlanState.Blocked)
      case _ =>
        (plan.state.Active? || plan.state.Reviewing? || plan.state.Blocked?) && q == over.(state := PlanState.Active)
  }

  // ---------- The plan ----------

  ghost predicate PlanMayTurn(from: PlanState, to: PlanState) {
    match to
    case Active => from.Reviewing? || from.Blocked?
    case Reviewing => from.Active?
    case Blocked => from.Active? || from.Reviewing?
    case Completed => from.Reviewing?
    case Abandoned => from.Active? || from.Blocked?
    case Cancelled => from.Active? || from.Reviewing? || from.Blocked?
  }

  ghost predicate StateSet(plan: Plan, state: PlanState, block: Option<Block>, q: Plan) {
    && PlanMayTurn(plan.state, state) && (state.Blocked? <==> block.Some?)
    && if state.Abandoned? || state.Cancelled? then
         q == plan.(state := state, block := block, finalPrepared := None, items := q.items)
         && |q.items| == |plan.items|
         && forall k :: 0 <= k < |q.items| ==> q.items[k] == plan.items[k].(prepared := None)
       else q == plan.(state := state, block := block)
  }

  ghost predicate IsBlockedBy(block: Option<Block>, blockId: Id) {
    exists b :: block == Some(b) && b.blockId == blockId
  }

  /** The block of the plan is lifted, or else that of the first item that it holds up. */
  ghost predicate BlockLifted(plan: Plan, blockId: Id, q: Plan) {
    if IsBlockedBy(plan.block, blockId) then q == plan.(block := None, state := PlanState.Active)
    else
      q == plan.(items := q.items) && |q.items| == |plan.items|
      && exists k :: 0 <= k < |plan.items| && IsBlockedBy(plan.items[k].block, blockId)
           && (forall j :: 0 <= j < k ==> !IsBlockedBy(plan.items[j].block, blockId))
           && q.items == plan.items[k := q.items[k]]
           && q.items[k] == plan.items[k].(block := None,
                state := if plan.items[k].state.Blocked? then ItemState.Pending else plan.items[k].state)
  }

  ghost predicate AcceptedAs(items: seq<Item>, definition: ItemDefinition, item: Item) {
    item in items && item.definition == definition && item.state.Accepted?
  }

  /** Accepted items with an unchanged definition are carried over, all others start anew. */
  ghost predicate RevisedAs(items: seq<Item>, definition: ItemDefinition, order: nat, b: Item) {
    && (forall a :: AcceptedAs(items, definition, a) ==> b == a.(order := order))
    && ((forall a :: a in items ==> !AcceptedAs(items, definition, a)) ==>
          b == Item(definition, order, ItemState.Pending, 0, None, None, None, [], [], None, None, None, None))
  }

  ghost predicate IsCriterion(criteria: seq<Criterion>, id: Id) {
    exists criterion :: criterion in criteria && criterion.id == id
  }

  ghost predicate SoundItem(item: ItemDefinition, criteria: seq<Criterion>) {
    && item.criterionIds != []
    && (forall i, j :: 0 <= i < j < |item.criterionIds| ==> item.criterionIds[i] != item.criterionIds[j])
    && forall id :: id in item.criterionIds ==> IsCriterion(criteria, id)
  }

  ghost predicate IsUsed(criterion: Criterion, items: seq<ItemDefinition>) {
    exists item :: item in items && criterion.id in item.criterionIds
  }

  ghost predicate SoundPolicy(p: Policy) {
    && 1 <= p.maxRepairAttempts <= 32 && 1 <= p.maxReplans <= 32
    && 1 <= p.maxReviews <= 32 && 1 <= p.maxNoProgress <= 32
  }

  /** Criteria and items with ids of their own; items that check known criteria; and every required criterion checked. */
  ghost predicate SoundDefinition(d: Definition) {
    && |d.criteria| > 0 && (forall i, j :: 0 <= i < j < |d.criteria| ==> d.criteria[i].id != d.criteria[j].id)
    && |d.items| > 0 && (forall i, j :: 0 <= i < j < |d.items| ==> d.items[i].id != d.items[j].id)
    && (forall item :: item in d.items ==> SoundItem(item, d.criteria))
    && (forall criterion :: criterion in d.criteria && criterion.required ==> IsUsed(criterion, d.items))
    && (d.policy.Some? ==> SoundPolicy(d.policy.value))
  }

  ghost predicate RevisedTo(plan: Plan, fromRevision: int, toRevision: int, d: Definition, planHash: PlanHash, q: Plan) {
    && SoundDefinition(d) && fromRevision == plan.revision && toRevision == plan.revision + 1 && plan.finalPrepared.None?
    && var policy := if d.policy.Some? then d.policy.value else plan.policy;
    && planHash == PlanHash(d.objective, d.criteria, d.items, policy)
    && q == plan.(revision := toRevision, objective := d.objective, policy := policy, criteria := d.criteria,
                  items := q.items, replanCount := plan.replanCount + 1, state := PlanState.Active, block := None)
    && |q.items| == |d.items|
    && forall k :: 0 <= k < |q.items| ==> RevisedAs(plan.items, d.items[k], k, q.items[k])
  }

  // ---------- Every event ----------

  ghost predicate OnItem(data: EventData) {
    || data.ItemStateChanged? || data.AttemptStarted? || data.AttemptFocused? || data.AttemptCarriedForward?
    || data.AttemptClosed? || data.ExecutionRequested? || data.ExecutionBound? || data.RootToolRequested?
    || data.RootToolRecorded?
  }

  /** What an event about one item does to the plan around it. */
  ghost predicate AroundItem(plan: Plan, data: EventData, q: Plan) {
    match data
    case AttemptStarted(_, attemptId, _) =>
      q == plan.(items := q.items, attemptCount := plan.attemptCount + 1, focusedAttemptId := Some(attemptId))
    case AttemptFocused(_, attemptId) => q == plan.(items := q.items, focusedAttemptId := Some(attemptId))
    case AttemptClosed(_, attemptId, _) =>
      q == plan.(items := q.items, focusedAttemptId := Without(plan.focusedAttemptId, Some(attemptId)))
    case AttemptCarriedForward(_, _, fromRevision) => q == plan.(items := q.items) && fromRevision == plan.revision - 1
    case _ => q == plan.(items := q.items)
  }

  /** The event leads from the one plan to the other. */
  ghost predicate Leads(plan: Plan, event: Event, q: Plan) {
    && event.planId == plan.planId
    && (!event.data.Revised? ==> event.planRevision == plan.revision)
    && match event.data
       case Created(_, _) => false
       case Revised(fromRevision, d, planHash) => RevisedTo(plan, fromRevision, event.planRevision, d, planHash, q)
       case ReviewPrepared(p) => ReviewPreparedFor(plan, p, q)
       case ReviewRequestedEvent(id) => exists p :: PreparedIs(plan, id, p) && ReviewRequestedOf(plan, p, q)
       case ReviewRecorded(id, requestId, decision) =>
         decision.reviewRequestId == requestId && exists p :: PreparedIs(plan, id, p) && ReviewRecordedOf(plan, p, decision, q)
       case NoProgressRecorded(count) => count == plan.noProgressCount + 1 && q == plan.(noProgressCount := count)
       case BlockResolved(blockId) => BlockLifted(plan, blockId, q)
       case StateChanged(state, block) => StateSet(plan, state, block, q)
       case _ => Moved(plan, event.data, event.data.itemId, q.items) && AroundItem(plan, event.data, q)
  }

  // ---------- Lookups ----------

  lemma {:induction false} FirstPosition(items: seq<Item>, k: nat)
    requires k < |items| && ItemsDiffer(items)
    ensures Position(items, items[k].definition.id) == k
  {
    if k > 0 {
      assert items[0].definition.id != items[k].definition.id;
      FirstPosition(items[1..], k - 1);
    }
  }

  lemma ItemAt(plan: Plan, itemId: Id, k: nat)
    requires ItemsDiffer(plan.items) && k < |plan.items| && plan.items[k].definition.id == itemId
    ensures HasItem(plan, itemId) && Position(plan.items, itemId) == k && ItemOf(plan, itemId) == plan.items[k]
  {
    FirstPosition(plan.items, k);
  }

  lemma {:induction false} FirstPreparedAt(items: seq<Item>, id: Id) returns (k: nat)
    ensures k <= |items|
    ensures k < |items| <==> FirstPrepared(items, id).Some?
    ensures k < |items| ==> Holds(items[k], id, FirstPrepared(items, id).value)
    ensures forall j, other :: 0 <= j < k ==> !Holds(items[j], id, other)
  {
    if items == [] {
      k := 0;
    } else if items[0].prepared.Some? && items[0].prepared.value.preparedReviewId == id {
      k := 0;
    } else {
      k := FirstPreparedAt(items[1..], id);
      k := k + 1;
      forall j, other | 0 <= j < k ensures !Holds(items[j], id, other) {
        if j > 0 {
          assert items[j] == items[1..][j - 1];
        }
      }
    }
  }

  lemma PreparedExactly(plan: Plan, id: Id)
    ensures FindPrepared(plan, id).Some? ==> PreparedIs(plan, id, FindPrepared(plan, id).value)
    ensures forall p :: PreparedIs(plan, id, p) ==> FindPrepared(plan, id) == Some(p)
  {
    if plan.finalPrepared.None? {
      var k := FirstPreparedAt(plan.items, id);
      forall p | PreparedIs(plan, id, p) ensures FindPrepared(plan, id) == Some(p) {
        var m :| 0 <= m < |plan.items| && Holds(plan.items[m], id, p)
          && forall j, other :: 0 <= j < m ==> !Holds(plan.items[j], id, other);
        assert m == k;
      }
    }
  }

  lemma {:induction false} FirstBlockedAt(items: seq<Item>, blockId: Id)
    ensures var k := FirstBlocked(items, blockId);
      && (k < |items| ==> IsBlockedBy(items[k].block, blockId))
      && forall j :: 0 <= j < k ==> !IsBlockedBy(items[j].block, blockId)
  {
    if items != [] && !(items[0].block.Some? && items[0].block.value.blockId == blockId) {
      FirstBlockedAt(items[1..], blockId);
      var k := FirstBlocked(items, blockId);
      forall j | 0 <= j < k ensures !IsBlockedBy(items[j].block, blockId) {
        if j > 0 {
          assert items[j] == items[1..][j - 1];
        }
      }
    }
  }

  lemma AppendExactly(refs: seq<string>, result: Option<string>, receipt: Option<string>)
    ensures var first := AppendOptional(refs, result);
      var both := if first.Ok? then AppendOptional(first.value, receipt) else first;
      && (both.Ok? <==> NewRefs(refs, Given(result) + Given(receipt)))
      && (both.Ok? ==> both.value == refs + (Given(result) + Given(receipt)))
  {
    var added := Given(result) + Given(receipt);
    if result.Some? {
      assert added[0] == result.value && result.value in added;
    }
    if receipt.Some? {
      assert added[|added| - 1] == receipt.value && receipt.value in added;
    }
  }

  // ---------- Exactly ----------

  /** Changing one item in place keeps the projection valid exactly if the item stays so. */
  lemma OneItemValid(plan: Plan, q: Plan, k: nat)
    requires ProjectionValid(plan) && k < |plan.items| && |q.items| == |plan.items|
    requires q.items == plan.items[k := q.items[k]] && q.items[k].definition == plan.items[k].definition
    requires q.criteria == plan.criteria && q.policy == plan.policy && q.finalPrepared == plan.finalPrepared
    ensures ProjectionValid(q) <==> ItemValid(q.items[k], plan.criteria)
  {
    forall i, j | 0 <= i < j < |q.items| ensures q.items[i].definition.id != q.items[j].definition.id {
      assert plan.items[i].definition.id != plan.items[j].definition.id;
    }
  }

  lemma ToolItemExactly(plan: Plan, event: Event, q: Plan)
    requires ProjectionValid(plan) && event.data.RootToolRecorded? && HasAttempt(plan, event.data.itemId, event.data.itemAttemptId)
    requires var k := Position(plan.items, event.data.itemId);
      OneItem(plan.items, q.items, event.data.itemId, k) && q == plan.(items := q.items)
    ensures var k := Position(plan.items, event.data.itemId);
      Update(plan, event) == Ok(q) <==> ItemMoves(plan.items[k], event.data, q.items[k])
  {
    var k := Position(plan.items, event.data.itemId);
    var a := plan.items[k];
    AppendExactly(a.evidenceRefs, event.data.resultRef, event.data.effectReceiptRef);
    AppendExactly(a.currentAttempt.value.evidenceRefs, event.data.resultRef, event.data.effectReceiptRef);
  }

  lemma ItemUpdateExactly(plan: Plan, event: Event, q: Plan, k: nat)
    requires ProjectionValid(plan) && OnItem(event.data) && k < |plan.items| && |q.items| == |plan.items|
    requires OneItem(plan.items, q.items, event.data.itemId, k)
    ensures Update(plan, event) == Ok(q) && (q.items[k].state.Accepted? ==> q.items[k].acceptedEvidenceRefs.Some?)
       <==> ItemMoves(plan.items[k], event.data, q.items[k]) && AroundItem(plan, event.data, q)
  {
    ItemAt(plan, event.data.itemId, k);
    assert ItemValid(plan.items[k], plan.criteria);
    if event.data.ItemStateChanged? {
      HandItemExactly(plan, event, q, k);
    } else if event.data.RootToolRecorded? {
      if HasAttempt(plan, event.data.itemId, event.data.itemAttemptId) && q == plan.(items := q.items) {
        ToolItemExactly(plan, event, q);
      }
    } else if event.data.AttemptStarted? || event.data.AttemptClosed? || event.data.ExecutionBound? {
      AttemptItemExactly(plan, event, q, k);
    } else {
      SameItemExactly(plan, event, q, k);
    }
  }

  lemma AttemptItemExactly(plan: Plan, event: Event, q: Plan, k: nat)
    requires ProjectionValid(plan) && k < |plan.items| && |q.items| == |plan.items|
    requires event.data.AttemptStarted? || event.data.AttemptClosed? || event.data.ExecutionBound?
    requires OneItem(plan.items, q.items, event.data.itemId, k)
    ensures Update(plan, event) == Ok(q)
       <==> ItemMoves(plan.items[k], event.data, q.items[k]) && AroundItem(plan, event.data, q)
  {
    ItemAt(plan, event.data.itemId, k);
  }

  /** Events that leave the item as it is. */
  lemma SameItemExactly(plan: Plan, event: Event, q: Plan, k: nat)
    requires ProjectionValid(plan) && OnItem(event.data) && k < |plan.items| && |q.items| == |plan.items|
    requires !event.data.ItemStateChanged? && !event.data.RootToolRecorded?
    requires !event.data.AttemptStarted? && !event.data.AttemptClosed? && !event.data.ExecutionBound?
    requires OneItem(plan.items, q.items, event.data.itemId, k)
    ensures Update(plan, event) == Ok(q)
       <==> ItemMoves(plan.items[k], event.data, q.items[k]) && AroundItem(plan, event.data, q)
  {
    ItemAt(plan, event.data.itemId, k);
    assert q.items[k] == plan.items[k] ==> q.items == plan.items;
  }

  lemma HandItemExactly(plan: Plan, event: Event, q: Plan, k: nat)
    requires ProjectionValid(plan) && event.data.ItemStateChanged? && k < |plan.items| && |q.items| == |plan.items|
    requires OneItem(plan.items, q.items, event.data.itemId, k)
    ensures Update(plan, event) == Ok(q) && (q.items[k].state.Accepted? ==> q.items[k].acceptedEvidenceRefs.Some?)
       <==> ItemMoves(plan.items[k], event.data, q.items[k]) && AroundItem(plan, event.data, q)
  {
    ItemAt(plan, event.data.itemId, k);
  }

  lemma ItemStaysValid(plan: Plan, data: EventData, k: nat, b: Item)
    requires ProjectionValid(plan) && k < |plan.items| && ItemMoves(plan.items[k], data, b)
    ensures b.definition == plan.items[k].definition && ItemValid(b, plan.criteria)
  {
    assert ItemValid(plan.items[k], plan.criteria);
  }

  /** An accepted event about an item has an item, and changes only that. */
  lemma ItemUpdateIsLocal(plan: Plan, event: Event)
    requires ProjectionValid(plan) && OnItem(event.data) && Update(plan, event).Ok?
    ensures var q, k := Update(plan, event).value, Position(plan.items, event.data.itemId);
      && k < |plan.items| && OneItem(plan.items, q.items, event.data.itemId, k)
      && q.criteria == plan.criteria && q.policy == plan.policy && q.finalPrepared == plan.finalPrepared
      && q.items[k].definition == plan.items[k].definition
  {
    var k := Position(plan.items, event.data.itemId);
    assert plan.items == plan.items[k := plan.items[k]];
  }

  lemma ItemEventLeads(plan: Plan, event: Event)
    requires ProjectionValid(plan) && OnItem(event.data) && Update(plan, event).Ok?
    requires ProjectionValid(Update(plan, event).value)
    ensures var q := Update(plan, event).value; Moved(plan, event.data, event.data.itemId, q.items) && AroundItem(plan, event.data, q)
  {
    var q, k := Update(plan, event).value, Position(plan.items, event.data.itemId);
    ItemUpdateIsLocal(plan, event);
    assert ItemValid(q.items[k], q.criteria);
    ItemUpdateExactly(plan, event, q, k);
  }

  lemma ItemEventIsMade(plan: Plan, event: Event, q: Plan)
    requires ProjectionValid(plan) && OnItem(event.data)
    requires Moved(plan, event.data, event.data.itemId, q.items) && AroundItem(plan, event.data, q)
    ensures Update(plan, event) == Ok(q) && ProjectionValid(q)
  {
    var k :| 0 <= k < |plan.items| && OneItem(plan.items, q.items, event.data.itemId, k)
      && ItemMoves(plan.items[k], event.data, q.items[k]);
    ItemUpdateExactly(plan, event, q, k);
    ItemStaysValid(plan, event.data, k, q.items[k]);
    OneItemValid(plan, q, k);
  }

  // ----- Reviews -----

  lemma PrepareExactly(plan: Plan, p: Prepared, q: Plan)
    requires ProjectionValid(plan)
    ensures PrepareReview(plan, p) == Ok(q) && ProjectionValid(q) <==> ReviewPreparedFor(plan, p, q)
  {
    if p.scope.ItemScope? {
      var itemId := p.scope.itemId;
      if PrepareReview(plan, p) == Ok(q) {
        var k := Position(plan.items, itemId);
        assert OneItem(plan.items, q.items, itemId, k);
      }
      if ReviewPreparedFor(plan, p, q) {
        var k :| 0 <= k < |plan.items| && OneItem(plan.items, q.items, itemId, k)
          && IsOpen(plan.items[k], p.itemAttemptId.value) && plan.items[k].prepared.None?
          && q.items[k] == plan.items[k].(prepared := Some(p));
        ItemAt(plan, itemId, k);
        OneItemValid(plan, q, k);
        assert ItemValid(plan.items[k], plan.criteria);
      }
    }
  }

  lemma RequestExactly(plan: Plan, p: Prepared, q: Plan)
    requires ProjectionValid(plan)
    ensures RequestReview(plan, p) == Ok(q) && ProjectionValid(q) <==> ReviewRequestedOf(plan, p, q)
  {
    if p.scope.ItemScope? {
      var itemId := p.scope.itemId;
      if RequestReview(plan, p) == Ok(q) {
        var k := Position(plan.items, itemId);
        assert OneItem(plan.items, q.items, itemId, k) && ReviewAsked(plan.items[k], p, q.items[k]);
      }
      if ReviewRequestedOf(plan, p, q) {
        var k :| 0 <= k < |plan.items| && OneItem(plan.items, q.items, itemId, k) && ReviewAsked(plan.items[k], p, q.items[k]);
        ItemAt(plan, itemId, k);
        OneItemValid(plan, q, k);
        assert ItemValid(plan.items[k], plan.criteria);
      }
    }
  }

  lemma RecordExactly(plan: Plan, p: Prepared, decision: Decision, q: Plan)
    requires ProjectionValid(plan)
    ensures RecordReview(plan, p, decision) == Ok(q) && ProjectionValid(q) <==> ReviewRecordedOf(plan, p, decision, q)
  {
    if p.scope.ItemScope? {
      if RecordReview(plan, p, decision) == Ok(q) {
        RecordedOnItem(plan, p, decision, q);
      }
      if ReviewRecordedOf(plan, p, decision, q) {
        var k :| 0 <= k < |plan.items| && OneItem(plan.items, q.items, p.scope.itemId, k)
          && ReviewGiven(plan.items[k], p, decision, q.items[k]);
        ItemIsRecorded(plan, p, decision, q, k);
      }
    }
  }

  lemma RecordedOnItem(plan: Plan, p: Prepared, decision: Decision, q: Plan)
    requires p.scope.ItemScope? && RecordReview(plan, p, decision) == Ok(q)
    ensures ReviewRecordedOf(plan, p, decision, q)
  {
    var k := Position(plan.items, p.scope.itemId);
    assert OneItem(plan.items, q.items, p.scope.itemId, k) && ReviewGiven(plan.items[k], p, decision, q.items[k]);
  }

  lemma ItemIsRecorded(plan: Plan, p: Prepared, decision: Decision, q: Plan, k: nat)
    requires ProjectionValid(plan) && p.scope.ItemScope? && k < |plan.items|
    requires OneItem(plan.items, q.items, p.scope.itemId, k) && ReviewGiven(plan.items[k], p, decision, q.items[k])
    requires q == plan.(items := q.items, focusedAttemptId := Without(plan.focusedAttemptId, p.itemAttemptId))
    ensures RecordReview(plan, p, decision) == Ok(q) && ProjectionValid(q)
  {
    ItemAt(plan, p.scope.itemId, k);
    OneItemValid(plan, q, k);
    assert ItemValid(plan.items[k], plan.criteria);
  }

  // ----- The plan -----

  lemma StateExactly(plan: Plan, state: PlanState, block: Option<Block>, q: Plan)
    requires ProjectionValid(plan)
    ensures ChangeState(plan, state, block) == Ok(q) && ProjectionValid(q) <==> StateSet(plan, state, block, q)
  {
    if StateSet(plan, state, block, q) {
      assert q.items == if state.Abandoned? || state.Cancelled? then WithoutPrepared(plan.items) else plan.items;
      forall k | 0 <= k < |q.items| ensures ItemValid(q.items[k], q.criteria) {
        assert ItemValid(plan.items[k], plan.criteria);
      }
    }
  }

  lemma LiftExactly(plan: Plan, blockId: Id, q: Plan)
    requires ProjectionValid(plan)
    ensures ResolveBlock(plan, blockId) == Ok(q) && ProjectionValid(q) <==> BlockLifted(plan, blockId, q)
  {
    FirstBlockedAt(plan.items, blockId);
    var first := FirstBlocked(plan.items, blockId);
    if !IsBlockedBy(plan.block, blockId) {
      if BlockLifted(plan, blockId, q) {
        var k :| 0 <= k < |plan.items| && IsBlockedBy(plan.items[k].block, blockId)
          && (forall j :: 0 <= j < k ==> !IsBlockedBy(plan.items[j].block, blockId))
          && q.items == plan.items[k := q.items[k]]
          && q.items[k] == plan.items[k].(block := None,
               state := if plan.items[k].state.Blocked? then ItemState.Pending else plan.items[k].state);
        assert k == first;
        OneItemValid(plan, q, k);
        assert ItemValid(plan.items[k], plan.criteria);
      }
    }
  }

  lemma CriterionAt(criteria: seq<Criterion>, id: Id)
    ensures IsCriterion(criteria, id) <==> exists j :: 0 <= j < |criteria| && criteria[j].id == id
  {
    if IsCriterion(criteria, id) {
      var criterion :| criterion in criteria && criterion.id == id;
      var j :| 0 <= j < |criteria| && criteria[j] == criterion;
    }
    if j :| 0 <= j < |criteria| && criteria[j].id == id {
      assert criteria[j] in criteria;
    }
  }

  lemma AmongExactly(ids: seq<Id>, criteria: seq<Criterion>)
    ensures Among(ids, criteria) <==> forall id :: id in ids ==> IsCriterion(criteria, id)
  {
    if Among(ids, criteria) {
      forall id | id in ids ensures IsCriterion(criteria, id) {
        CriterionAt(criteria, id);
        var i :| 0 <= i < |ids| && ids[i] == id;
      }
    } else {
      var i :| 0 <= i < |ids| && !exists j :: 0 <= j < |criteria| && criteria[j].id == ids[i];
      CriterionAt(criteria, ids[i]);
      assert ids[i] in ids;
    }
  }

  lemma ItemSoundExactly(item: ItemDefinition, criteria: seq<Criterion>)
    ensures ItemDefined(item, criteria) <==> SoundItem(item, criteria)
  {
    AmongExactly(item.criterionIds, criteria);
  }

  lemma UsedExactly(criterion: Criterion, items: seq<ItemDefinition>)
    ensures Used(criterion, items) <==> IsUsed(criterion, items)
  {
    if i :| 0 <= i < |items| && criterion.id in items[i].criterionIds {
      assert items[i] in items;
    }
  }

  /** A definition is accepted exactly if it is sound. */
  lemma DefinitionSoundExactly(d: Definition)
    ensures DefinitionValid(d) <==> SoundDefinition(d)
  {
    forall i | 0 <= i < |d.items| ensures ItemDefined(d.items[i], d.criteria) <==> SoundItem(d.items[i], d.criteria) {
      ItemSoundExactly(d.items[i], d.criteria);
    }
    forall i | 0 <= i < |d.criteria| ensures Used(d.criteria[i], d.items) <==> IsUsed(d.criteria[i], d.items) {
      UsedExactly(d.criteria[i], d.items);
    }
    if SoundDefinition(d) {
      forall i | 0 <= i < |d.items| ensures ItemDefined(d.items[i], d.criteria) {
        assert d.items[i] in d.items;
      }
      forall i | 0 <= i < |d.criteria| && d.criteria[i].required ensures Used(d.criteria[i], d.items) {
        assert d.criteria[i] in d.criteria;
      }
    }
  }

  lemma RevisedItemExactly(plan: Plan, definition: ItemDefinition, order: nat, b: Item)
    requires ProjectionValid(plan)
    ensures b == RevisedItem(plan, definition, order) <==> RevisedAs(plan.items, definition, order, b)
  {
    if a :| AcceptedAs(plan.items, definition, a) {
      var k :| 0 <= k < |plan.items| && plan.items[k] == a;
      ItemAt(plan, definition.id, k);
      assert forall c :: AcceptedAs(plan.items, definition, c) ==> c == a by {
        forall c | AcceptedAs(plan.items, definition, c) ensures c == a {
          var j :| 0 <= j < |plan.items| && plan.items[j] == c;
          ItemAt(plan, definition.id, j);
        }
      }
    } else if HasItem(plan, definition.id) {
      assert ItemOf(plan, definition.id) in plan.items;
    }
  }

  lemma RevisedStaysValid(plan: Plan, d: Definition, k: nat)
    requires ProjectionValid(plan) && DefinitionValid(d) && k < |d.items|
    ensures RevisedItem(plan, d.items[k], k).definition == d.items[k]
    ensures ItemValid(RevisedItem(plan, d.items[k], k), d.criteria)
  {
    assert ItemDefined(d.items[k], d.criteria);
    if HasItem(plan, d.items[k].id) {
      assert ItemValid(ItemOf(plan, d.items[k].id), plan.criteria);
    }
  }

  lemma ReviseExactly(plan: Plan, event: Event, fromRevision: int, d: Definition, planHash: PlanHash, q: Plan)
    requires ProjectionValid(plan)
    ensures Revise(plan, event, fromRevision, d, planHash) == Ok(q) && ProjectionValid(q)
       <==> RevisedTo(plan, fromRevision, event.planRevision, d, planHash, q)
  {
    DefinitionSoundExactly(d);
    forall k, b | 0 <= k < |d.items|
      ensures b == RevisedItem(plan, d.items[k], k) <==> RevisedAs(plan.items, d.items[k], k, b)
    {
      RevisedItemExactly(plan, d.items[k], k, b);
    }
    if RevisedTo(plan, fromRevision, event.planRevision, d, planHash, q) {
      assert q.items == RevisedItems(plan, d.items);
      forall k | 0 <= k < |q.items| ensures ItemValid(q.items[k], q.criteria) && q.items[k].definition == d.items[k] {
        RevisedStaysValid(plan, d, k);
      }
    }
  }

  // ----- Every event -----

  lemma RequestedEventExactly(plan: Plan, event: Event, q: Plan)
    requires ProjectionValid(plan) && event.planId == plan.planId && event.planRevision == plan.revision
    requires event.data.ReviewRequestedEvent?
    ensures Update(plan, event) == Ok(q) && ProjectionValid(q) <==> Leads(plan, event, q)
  {
    PreparedExactly(plan, event.data.preparedReviewId);
    var found := FindPrepared(plan, event.data.preparedReviewId);
    if found.Some? {
      RequestExactly(plan, found.value, q);
    }
  }

  lemma RecordedEventExactly(plan: Plan, event: Event, q: Plan)
    requires ProjectionValid(plan) && event.planId == plan.planId && event.planRevision == plan.revision
    requires event.data.ReviewRecorded?
    ensures Update(plan, event) == Ok(q) && ProjectionValid(q) <==> Leads(plan, event, q)
  {
    PreparedExactly(plan, event.data.preparedReviewId);
    var found := FindPrepared(plan, event.data.preparedReviewId);
    if found.Some? {
      RecordExactly(plan, found.value, event.data.decision, q);
    }
  }

  lemma UpdateExactly(plan: Plan, event: Event, q: Plan)
    requires ProjectionValid(plan) && event.planId == plan.planId
    requires !event.data.Revised? ==> event.planRevision == plan.revision
    ensures Update(plan, event) == Ok(q) && ProjectionValid(q) <==> Leads(plan, event, q)
  {
    match event.data
    case Revised(fromRevision, d, planHash) => ReviseExactly(plan, event, fromRevision, d, planHash, q);
    case ReviewPrepared(p) => PrepareExactly(plan, p, q);
    case ReviewRequestedEvent(_) => RequestedEventExactly(plan, event, q);
    case ReviewRecorded(_, _, _) => RecordedEventExactly(plan, event, q);
    case BlockResolved(blockId) => LiftExactly(plan, blockId, q);
    case StateChanged(state, block) => StateExactly(plan, state, block, q);
    case Created(_, _) =>
    case NoProgressRecorded(_) =>
    case _ =>
      if Update(plan, event) == Ok(q) && ProjectionValid(q) {
        ItemEventLeads(plan, event);
      }
      if Leads(plan, event, q) {
        ItemEventIsMade(plan, event, q);
      }
  }

  lemma {:induction false} JournalIsValid(events: seq<Event>, n: nat)
    requires n <= |events| && After(events, n).Ok? && After(events, n).value.Some?
    ensures ProjectionValid(After(events, n).value.value)
  {
  }

  /**
   After an accepted journal an event is accepted exactly if it leads from the plan to another, and that is what the
   plan becomes.
  */
  lemma NextEventExactly(events: seq<Event>, event: Event, q: Plan)
    requires After(events, |events|).Ok? && After(events, |events|).value.Some?
    ensures Apply(After(events, |events|).value, event) == Ok(q) <==> Leads(After(events, |events|).value.value, event, q)
  {
    var plan := After(events, |events|).value.value;
    JournalIsValid(events, |events|);
    if event.planId == plan.planId && (event.data.Revised? || event.planRevision == plan.revision) {
      UpdateExactly(plan, event, q);
    }
  }

  // ----- The first event -----

  ghost predicate CreatedAs(event: Event, q: Plan) {
    && event.data.Created? && event.planRevision == 1 && SoundDefinition(event.data.input)
    && var d := event.data.input;
    && var policy := if d.policy.Some? then d.policy.value else Policy(false, 8, 8, 3, 3);
    && event.data.planHash == PlanHash(d.objective, d.criteria, d.items, policy)
    && q == Plan(event.planId, 1, d.objective, PlanState.Active, policy, d.criteria, q.items, 0, 0, 0, None, None, None, None)
    && |q.items| == |d.items|
    && forall k :: 0 <= k < |q.items| ==>
         q.items[k] == Item(d.items[k], k, ItemState.Pending, 0, None, None, None, [], [], None, None, None, None)
  }

  /** A journal starts exactly with a sound definition that has been hashed as it is, and every item pending. */
  lemma FirstEventExactly(event: Event, q: Plan)
    ensures Apply(None, event) == Ok(q) <==> CreatedAs(event, q)
  {
    if event.data.Created? {
      DefinitionSoundExactly(event.data.input);
    }
    if CreatedAs(event, q) {
      assert q.items == FreshItems(event.data.input.items);
      forall k | 0 <= k < |q.items| ensures ItemValid(q.items[k], q.criteria) {
        assert ItemDefined(event.data.input.items[k], event.data.input.criteria);
      }
      forall i, j | 0 <= i < j < |q.items| ensures q.items[i].definition.id != q.items[j].definition.id {
      }
    } else if Apply(None, event) == Ok(q) {
      CreatedIsSound(event, q);
    }
  }

  lemma CreatedIsSound(event: Event, q: Plan)
    requires Apply(None, event) == Ok(q)
    ensures CreatedAs(event, q)
  {
    DefinitionSoundExactly(event.data.input);
  }

  // ---------- The final review ----------

  ghost predicate FinalIsFinal(plan: Plan) {
    plan.finalPrepared.Some? ==> plan.finalPrepared.value.scope.FinalScope?
  }

  lemma LeadsKeepsFinal(plan: Plan, event: Event, q: Plan)
    requires Leads(plan, event, q) && FinalIsFinal(plan)
    ensures FinalIsFinal(q)
  {
  }

  lemma {:induction false} FinalPreparedIsFinal(events: seq<Event>, n: nat)
    requires n <= |events| && After(events, n).Ok? && After(events, n).value.Some?
    ensures FinalIsFinal(After(events, n).value.value)
  {
    var before, q := After(events, n - 1).value, After(events, n).value.value;
    if before.None? {
      FirstEventExactly(events[n - 1], q);
    } else {
      FinalPreparedIsFinal(events, n - 1);
      assert Apply(before, events[n - 1]) == Ok(q);
      assert After(events[..n - 1], n - 1) == After(events, n - 1) by {
        PrefixReplays(events, n - 1, n - 1);
      }
      assert events[..n - 1][..n - 1] == events[..n - 1];
      NextEventExactly(events[..n - 1], events[n - 1], q);
      LeadsKeepsFinal(before.value, events[n - 1], q);
    }
  }

  lemma {:induction false} PrefixReplays(events: seq<Event>, n: nat, m: nat)
    requires m <= n <= |events|
    ensures After(events[..n], m) == After(events, m)
  {
    if m > 0 {
      PrefixReplays(events, n, m - 1);
    }
  }

  /**
   While a final review is prepared, the next recorded review is that one: an accepted one completes a plan under
   review, a blocked one blocks it, and any other sets it going again.
  */
  lemma FinalReviewDecides(events: seq<Event>, event: Event, q: Plan)
    requires After(events, |events|).Ok? && After(events, |events|).value.Some?
    requires After(events, |events|).value.value.finalPrepared.Some? && event.data.ReviewRecorded?
    ensures var plan := After(events, |events|).value.value;
      Apply(Some(plan), event) == Ok(q) ==>
        && event.data.preparedReviewId == plan.finalPrepared.value.preparedReviewId
        && q.finalPrepared.None? && q.lastReview == Some(event.data.decision) && q.items == plan.items
        && match event.data.decision.verdict
           case Accepted => plan.state in {PlanState.Reviewing, PlanState.Completed} && q.state == PlanState.Completed
           case Blocked => q.state == PlanState.Blocked
           case _ => q.state == PlanState.Active
  {
    NextEventExactly(events, event, q);
    FinalPreparedIsFinal(events, |events|);
  }
}
