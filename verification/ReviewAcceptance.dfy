/**
 Acceptance in a review plan is earned and then frozen: where an accepted item got its acceptance from,
 and which events can take it away.
*/
module ReviewAcceptance {
  import opened Wrappers
  import opened ReviewPlan

  /** An item is accepted exactly if it carries an accepted attempt; then its attempt is over. */
  predicate Settled(item: Item) {
    && (item.state.Accepted? <==> item.acceptedAttemptId.Some?)
    && (item.acceptedEvidenceRefs.Some? <==> item.acceptedAttemptId.Some?)
    && (item.acceptedInputDigest.Some? <==> item.acceptedAttemptId.Some?)
    && (item.state.Accepted? ==> item.currentAttempt.None?)
  }

  /** A prepared review is kept where its scope says. */
  predicate Scoped(item: Item) {
    item.prepared.Some? ==> item.prepared.value.scope == ItemScope(item.definition.id)
  }

  predicate FinalScoped(plan: Plan) {
    plan.finalPrepared.Some? ==> plan.finalPrepared.value.scope.FinalScope?
  }

  ghost predicate PlanSettled(plan: Plan) {
    && (forall k :: 0 <= k < |plan.items| ==> Settled(plan.items[k]) && Scoped(plan.items[k]))
    && FinalScoped(plan)
    && ItemsDiffer(plan.items)
  }

  predicate SameAcceptance(a: Item, b: Item) {
    && a.definition == b.definition && a.state.Accepted? && b.state.Accepted?
    && a.acceptedAttemptId == b.acceptedAttemptId
    && a.acceptedEvidenceRefs == b.acceptedEvidenceRefs
    && a.acceptedInputDigest == b.acceptedInputDigest
    && a.lastReview == b.lastReview
  }

  /** The acceptance of `after` comes from recording an accepted review that was prepared for it. */
  predicate AcceptedBy(after: Item, p: Prepared, data: EventData) {
    && data.ReviewRecorded? && data.preparedReviewId == p.preparedReviewId && data.decision.verdict.Accepted?
    && p.scope == ItemScope(after.definition.id)
    && after.acceptedAttemptId == p.itemAttemptId
    && after.acceptedEvidenceRefs == Some(p.evidenceRefs)
    && after.acceptedInputDigest == Some(p.reviewInputDigest)
    && after.lastReview == Some(data.decision)
  }

  /** What one event may do to the prepared review and the acceptance of an item. */
  ghost predicate ItemStep(data: EventData, before: Item, after: Item) {
    && after.definition.id == before.definition.id
    && Settled(after)
    && (after.prepared.None? || after.prepared == before.prepared
        || (data == ReviewPrepared(after.prepared.value) && after.prepared.value.scope == ItemScope(after.definition.id)))
    && (after.state.Accepted? ==>
          SameAcceptance(before, after) || (before.prepared.Some? && AcceptedBy(after, before.prepared.value, data)))
    && (before.state.Accepted? ==> SameAcceptance(before, after))
  }

  predicate Blank(item: Item) {
    Settled(item) && !item.state.Accepted? && item.prepared.None?
  }

  /** Where the item at position `k` comes from. */
  ghost predicate Origin(plan: Plan, data: EventData, next: Plan, k: nat)
    requires k < |next.items|
  {
    Blank(next.items[k]) || exists b :: 0 <= b < |plan.items| && ItemStep(data, plan.items[b], next.items[k])
  }

  /** Outside of revisions, items stay where they are and change step by step. */
  ghost predicate Stepwise(plan: Plan, data: EventData, next: Plan) {
    && FinalScoped(next)
    && |next.items| == |plan.items|
    && forall k :: 0 <= k < |plan.items| ==> ItemStep(data, plan.items[k], next.items[k])
  }

  lemma NothingChanged(plan: Plan, data: EventData, next: Plan)
    requires PlanSettled(plan) && next.items == plan.items && FinalScoped(next)
    ensures Stepwise(plan, data, next)
  {
  }

  lemma OneItemChanged(plan: Plan, data: EventData, next: Plan, item: Item)
    requires PlanSettled(plan) && HasItem(plan, item.definition.id) && next.items == WithItem(plan, item).items
    requires ItemStep(data, ItemOf(plan, item.definition.id), item) && FinalScoped(next)
    ensures Stepwise(plan, data, next)
  {
  }

  /** The first item with an id is the only one. */
  lemma OnlyPosition(plan: Plan, k: nat)
    requires ItemsDiffer(plan.items) && k < |plan.items|
    ensures HasItem(plan, plan.items[k].definition.id) && ItemOf(plan, plan.items[k].definition.id) == plan.items[k]
  {
  }

  lemma StartStep(plan: Plan, data: EventData, item: Item, attemptId: Id, number: int)
    requires PlanSettled(plan) && HasItem(plan, item.definition.id) && item == ItemOf(plan, item.definition.id)
    requires StartAttempt(plan, item, attemptId, number).Ok?
    ensures Stepwise(plan, data, StartAttempt(plan, item, attemptId, number).value)
  {
    var started := item.(currentAttempt := Some(Attempt(attemptId, number, Open, [])),
                         attemptCount := number, state := ItemState.Running, block := None);
    OneItemChanged(plan, data, StartAttempt(plan, item, attemptId, number).value, started);
  }

  lemma ToolStep(plan: Plan, data: EventData, item: Item, result: Option<string>, receipt: Option<string>)
    requires PlanSettled(plan) && HasItem(plan, item.definition.id) && item == ItemOf(plan, item.definition.id)
    requires item.currentAttempt.Some? && RecordTool(plan, item, result, receipt).Ok?
    ensures Stepwise(plan, data, RecordTool(plan, item, result, receipt).value)
  {
    var next := RecordTool(plan, item, result, receipt).value;
    OneItemChanged(plan, data, next, next.items[Position(plan.items, item.definition.id)]);
  }

  lemma AttemptStep(plan: Plan, data: EventData)
    requires PlanSettled(plan) && ApplyToAttempt(plan, data).Ok?
    ensures Stepwise(plan, data, ApplyToAttempt(plan, data).value)
  {
    var next := ApplyToAttempt(plan, data).value;
    match data
    case AttemptClosed(itemId, _, _) =>
      OneItemChanged(plan, data, next, ItemOf(plan, itemId).(currentAttempt := None));
    case ExecutionBound(itemId, _, taskRef) =>
      var item := ItemOf(plan, itemId);
      OneItemChanged(plan, data, next, item.(taskRefs := item.taskRefs + [taskRef]));
    case RootToolRecorded(itemId, _, result, receipt) => ToolStep(plan, data, ItemOf(plan, itemId), result, receipt);
    case _ => NothingChanged(plan, data, next);
  }

  lemma PrepareStep(plan: Plan, p: Prepared)
    requires PlanSettled(plan) && PrepareReview(plan, p).Ok?
    ensures Stepwise(plan, ReviewPrepared(p), PrepareReview(plan, p).value)
  {
    var next := PrepareReview(plan, p).value;
    match p.scope
    case ItemScope(itemId) => OneItemChanged(plan, ReviewPrepared(p), next, ItemOf(plan, itemId).(prepared := Some(p)));
    case FinalScope => NothingChanged(plan, ReviewPrepared(p), next);
  }

  lemma RequestStep(plan: Plan, data: EventData, p: Prepared)
    requires PlanSettled(plan) && RequestReview(plan, p).Ok?
    ensures Stepwise(plan, data, RequestReview(plan, p).value)
  {
    var next := RequestReview(plan, p).value;
    match p.scope
    case ItemScope(itemId) =>
      var item := ItemOf(plan, itemId);
      var requested := item.currentAttempt.value.(state := AttemptState.ReviewRequested);
      OneItemChanged(plan, data, next, item.(currentAttempt := Some(requested), state := ItemState.ReviewRequested));
    case FinalScope => NothingChanged(plan, data, next);
  }

  /** A prepared review found for an item is the one that item holds. */
  lemma FoundIsHeld(plan: Plan, preparedReviewId: Id, itemId: Id)
    requires PlanSettled(plan) && FindPrepared(plan, preparedReviewId).Some?
    requires FindPrepared(plan, preparedReviewId).value.scope == ItemScope(itemId)
    ensures HasItem(plan, itemId) && ItemOf(plan, itemId).prepared == FindPrepared(plan, preparedReviewId)
  {
    var found := FirstPrepared(plan.items, preparedReviewId);
    var i :| 0 <= i < |plan.items| && plan.items[i].prepared == found;
    assert Scoped(plan.items[i]);
    OnlyPosition(plan, i);
  }

  lemma RecordStep(plan: Plan, preparedReviewId: Id, requestId: Id, decision: Decision)
    requires PlanSettled(plan) && FindPrepared(plan, preparedReviewId).Some?
    requires RecordReview(plan, FindPrepared(plan, preparedReviewId).value, decision).Ok?
    ensures Stepwise(plan, ReviewRecorded(preparedReviewId, requestId, decision),
                     RecordReview(plan, FindPrepared(plan, preparedReviewId).value, decision).value)
  {
    var data := ReviewRecorded(preparedReviewId, requestId, decision);
    var p := FindPrepared(plan, preparedReviewId).value;
    var next := RecordReview(plan, p, decision).value;
    match p.scope
    case ItemScope(itemId) =>
      FoundIsHeld(plan, preparedReviewId, itemId);
      assert Settled(ItemOf(plan, itemId));
      OneItemChanged(plan, data, next, Reviewed(ItemOf(plan, itemId), p, decision));
    case FinalScope => NothingChanged(plan, data, next);
  }

  lemma ResolveStep(plan: Plan, blockId: Id)
    requires PlanSettled(plan) && ResolveBlock(plan, blockId).Ok?
    ensures Stepwise(plan, BlockResolved(blockId), ResolveBlock(plan, blockId).value)
  {
  }

  lemma ChangeStep(plan: Plan, state: PlanState, block: Option<Block>)
    requires PlanSettled(plan) && ChangeState(plan, state, block).Ok?
    ensures Stepwise(plan, StateChanged(state, block), ChangeState(plan, state, block).value)
  {
    var next := ChangeState(plan, state, block).value;
    forall k | 0 <= k < |plan.items| ensures ItemStep(StateChanged(state, block), plan.items[k], next.items[k]) {
      assert Settled(plan.items[k]);
    }
  }

  /**
   Setting an item to accepted by hand passes the transition table, but the projection it leaves is
   refused: there is no accepted evidence.
  */
  lemma AcceptanceByHandIsRefused(plan: Plan, event: Event)
    requires PlanSettled(plan) && event.data.ItemStateChanged? && event.data.itemState.Accepted?
    ensures Apply(Some(plan), event).Err?
  {
    if Update(plan, event).Ok? {
      var next := Update(plan, event).value;
      var at := Position(plan.items, event.data.itemId);
      assert Settled(plan.items[at]);
      assert !ItemValid(next.items[at], next.criteria);
    }
  }

  lemma ItemStateStep(plan: Plan, event: Event)
    requires PlanSettled(plan) && event.data.ItemStateChanged? && !event.data.itemState.Accepted?
    requires Update(plan, event).Ok?
    ensures Stepwise(plan, event.data, Update(plan, event).value)
  {
    var d := event.data;
    assert Settled(ItemOf(plan, d.itemId));
    OneItemChanged(plan, d, Update(plan, event).value, ItemOf(plan, d.itemId).(state := d.itemState, block := d.itemBlock));
  }

  /** Every accepted event that is not a revision changes items step by step. */
  lemma EventIsStepwise(plan: Plan, event: Event)
    requires PlanSettled(plan) && Apply(Some(plan), event).Ok? && !event.data.Revised?
    ensures Stepwise(plan, event.data, Apply(Some(plan), event).value)
  {
    match event.data
    case ItemStateChanged(_, state, _) =>
      if state.Accepted? {
        AcceptanceByHandIsRefused(plan, event);
      } else {
        ItemStateStep(plan, event);
      }
    case AttemptStarted(itemId, attemptId, number) => StartStep(plan, event.data, ItemOf(plan, itemId), attemptId, number);
    case ReviewPrepared(p) => PrepareStep(plan, p);
    case ReviewRequestedEvent(id) => RequestStep(plan, event.data, FindPrepared(plan, id).value);
    case ReviewRecorded(id, requestId, decision) => RecordStep(plan, id, requestId, decision);
    case NoProgressRecorded(_) => NothingChanged(plan, event.data, Apply(Some(plan), event).value);
    case BlockResolved(blockId) => ResolveStep(plan, blockId);
    case StateChanged(state, block) => ChangeStep(plan, state, block);
    case _ => AttemptStep(plan, event.data);
  }

  // ---------- Revisions ----------

  predicate Keeps(d: Definition, definition: ItemDefinition) {
    exists i :: 0 <= i < |d.items| && d.items[i] == definition
  }

  /** A revision that drops or redefines the item. */
  predicate Retires(event: Event, item: Item) {
    event.data.Revised? && !Keeps(event.data.input, item.definition)
  }

  /** After a revision, an item is blank or an accepted one carried over unchanged. */
  lemma RevisionOrigin(plan: Plan, event: Event, k: nat)
    requires PlanSettled(plan) && event.data.Revised? && Apply(Some(plan), event).Ok?
    requires k < |Apply(Some(plan), event).value.items|
    ensures Origin(plan, event.data, Apply(Some(plan), event).value, k)
  {
    var d := event.data.input;
    var next := Apply(Some(plan), event).value;
    assert next.items[k] == RevisedItem(plan, d.items[k], k);
    if HasItem(plan, d.items[k].id) {
      var b := Position(plan.items, d.items[k].id);
      assert Settled(plan.items[b]);
      if !Blank(next.items[k]) {
        assert ItemStep(event.data, plan.items[b], next.items[k]);
      }
    }
  }

  lemma RevisionKeeps(plan: Plan, event: Event, k: nat, i: nat)
    requires PlanSettled(plan) && event.data.Revised? && Apply(Some(plan), event).Ok?
    requires k < |plan.items| && plan.items[k].state.Accepted?
    requires i < |event.data.input.items| && event.data.input.items[i] == plan.items[k].definition
    ensures var next := Apply(Some(plan), event).value;
      HasItem(next, plan.items[k].definition.id)
      && SameAcceptance(plan.items[k], ItemOf(next, plan.items[k].definition.id))
  {
    var next := Apply(Some(plan), event).value;
    OnlyPosition(plan, k);
    assert next.items[i] == RevisedItem(plan, plan.items[k].definition, i);
    OnlyPosition(next, i);
  }

  lemma RevisionDrops(plan: Plan, event: Event, item: Item)
    requires PlanSettled(plan) && Retires(event, item) && Apply(Some(plan), event).Ok?
    ensures var next := Apply(Some(plan), event).value;
      HasItem(next, item.definition.id) ==> !SameAcceptance(item, ItemOf(next, item.definition.id))
  {
    var next := Apply(Some(plan), event).value;
    if HasItem(next, item.definition.id) {
      var i := Position(next.items, item.definition.id);
      assert next.items[i] == RevisedItem(plan, event.data.input.items[i], i);
    }
  }

  // ---------- One event ----------

  lemma EventOrigin(plan: Plan, event: Event, k: nat)
    requires PlanSettled(plan) && Apply(Some(plan), event).Ok? && k < |Apply(Some(plan), event).value.items|
    ensures Origin(plan, event.data, Apply(Some(plan), event).value, k)
  {
    if event.data.Revised? {
      RevisionOrigin(plan, event, k);
    } else {
      EventIsStepwise(plan, event);
      assert ItemStep(event.data, plan.items[k], Apply(Some(plan), event).value.items[k]);
    }
  }

  lemma EventKeepsSettled(plan: Plan, event: Event)
    requires PlanSettled(plan) && Apply(Some(plan), event).Ok?
    ensures PlanSettled(Apply(Some(plan), event).value)
  {
    var next := Apply(Some(plan), event).value;
    if !event.data.Revised? {
      EventIsStepwise(plan, event);
    }
    forall k | 0 <= k < |next.items| ensures Settled(next.items[k]) && Scoped(next.items[k]) {
      EventOrigin(plan, event, k);
      if !Blank(next.items[k]) {
        var b :| 0 <= b < |plan.items| && ItemStep(event.data, plan.items[b], next.items[k]);
        assert Scoped(plan.items[b]);
      }
    }
  }

  /**
   An accepted item keeps its acceptance, with its attempt, evidence, input and review, through every
   accepted event except exactly a revision that drops or redefines it.
  */
  lemma AcceptanceIsFrozen(plan: Plan, event: Event, k: nat)
    requires PlanSettled(plan) && Apply(Some(plan), event).Ok?
    requires k < |plan.items| && plan.items[k].state.Accepted?
    ensures var next, item := Apply(Some(plan), event).value, plan.items[k];
      (HasItem(next, item.definition.id) && SameAcceptance(item, ItemOf(next, item.definition.id))) <==> !Retires(event, item)
  {
    var next, item := Apply(Some(plan), event).value, plan.items[k];
    if Retires(event, item) {
      RevisionDrops(plan, event, item);
    } else if event.data.Revised? {
      var i :| 0 <= i < |event.data.input.items| && event.data.input.items[i] == item.definition;
      RevisionKeeps(plan, event, k, i);
    } else {
      EventIsStepwise(plan, event);
      assert ItemStep(event.data, item, next.items[k]);
      OnlyPosition(next, k);
    }
  }

  // ---------- Whole histories ----------

  /** Some earlier event prepared the review that the item holds. */
  ghost predicate PreparedBefore(events: seq<Event>, n: nat, p: Prepared)
    requires n <= |events|
  {
    exists i :: 0 <= i < n && events[i].data == ReviewPrepared(p)
  }

  /** A review of the accepted attempt was prepared, and later recorded with an accepted verdict. */
  ghost predicate EarnedBy(events: seq<Event>, n: nat, item: Item)
    requires n <= |events|
  {
    exists i, j :: 0 <= i < j < n && events[i].data.ReviewPrepared? && AcceptedBy(item, events[i].data.prepared, events[j].data)
  }

  ghost predicate Traced(events: seq<Event>, n: nat, item: Item)
    requires n <= |events|
  {
    && (item.prepared.Some? ==> PreparedBefore(events, n, item.prepared.value))
    && (item.state.Accepted? ==> EarnedBy(events, n, item))
  }

  lemma StepIsTraced(events: seq<Event>, n: nat, before: Item, after: Item)
    requires n < |events| && Traced(events, n, before) && ItemStep(events[n].data, before, after)
    ensures Traced(events, n + 1, after)
  {
    if after.prepared.Some? && after.prepared == before.prepared {
      var i :| 0 <= i < n && events[i].data == ReviewPrepared(before.prepared.value);
      assert 0 <= i < n + 1;
    }
    if after.state.Accepted? {
      if SameAcceptance(before, after) {
        var i, j :| 0 <= i < j < n && events[i].data.ReviewPrepared? && AcceptedBy(before, events[i].data.prepared, events[j].data);
        assert AcceptedBy(after, events[i].data.prepared, events[j].data);
      } else {
        var i :| 0 <= i < n && events[i].data == ReviewPrepared(before.prepared.value);
        assert AcceptedBy(after, events[i].data.prepared, events[n].data);
      }
    }
  }

  lemma OriginIsTraced(events: seq<Event>, n: nat, plan: Plan, next: Plan, k: nat)
    requires n < |events| && forall b :: 0 <= b < |plan.items| ==> Traced(events, n, plan.items[b])
    requires k < |next.items| && Origin(plan, events[n].data, next, k)
    ensures Traced(events, n + 1, next.items[k])
  {
    if !Blank(next.items[k]) {
      var b :| 0 <= b < |plan.items| && ItemStep(events[n].data, plan.items[b], next.items[k]);
      StepIsTraced(events, n, plan.items[b], next.items[k]);
    }
  }

  /**
   In every history, an item is accepted exactly if it carries an accepted attempt, and then a review of
   that attempt was prepared and recorded as accepted, with the evidence the item holds as accepted.
  */
  lemma {:induction false} AcceptanceIsEarned(events: seq<Event>, n: nat)
    requires n <= |events| && After(events, n).Ok? && After(events, n).value.Some?
    ensures var plan := After(events, n).value.value;
      PlanSettled(plan) && forall k :: 0 <= k < |plan.items| ==> Traced(events, n, plan.items[k])
  {
    var next := After(events, n).value.value;
    var event := events[n - 1];
    if !event.data.Created? {
      AcceptanceIsEarned(events, n - 1);
      var plan := After(events, n - 1).value.value;
      EventKeepsSettled(plan, event);
      forall k | 0 <= k < |next.items| ensures Traced(events, n, next.items[k]) {
        EventOrigin(plan, event, k);
        OriginIsTraced(events, n - 1, plan, next, k);
      }
    }
  }

  ghost predicate AcceptedIn(plan: Option<Plan>, item: Item) {
    && plan.Some? && HasItem(plan.value, item.definition.id)
    && SameAcceptance(item, ItemOf(plan.value, item.definition.id))
  }

  lemma AcceptanceLastsOnce(plan: Plan, event: Event, item: Item)
    requires PlanSettled(plan) && Apply(Some(plan), event).Ok? && AcceptedIn(Some(plan), item) && !Retires(event, item)
    ensures AcceptedIn(Some(Apply(Some(plan), event).value), item)
  {
    AcceptanceIsFrozen(plan, event, Position(plan.items, item.definition.id));
  }

  /** An acceptance lasts as long as every revision repeats the item's definition. */
  lemma {:induction false} AcceptanceLasts(plan: Plan, events: seq<Event>, i: nat, j: nat, item: Item)
    requires i <= j <= |events| && Replay(Some(plan), events, i, j).Ok?
    requires PlanSettled(plan) && AcceptedIn(Some(plan), item)
    requires forall k :: i <= k < j ==> !Retires(events[k], item)
    ensures var last := Replay(Some(plan), events, i, j).value;
      last.Some? && PlanSettled(last.value) && AcceptedIn(last, item)
    decreases j
  {
    if i < j {
      AcceptanceLasts(plan, events, i, j - 1, item);
      var before := Replay(Some(plan), events, i, j - 1).value.value;
      EventKeepsSettled(before, events[j - 1]);
      AcceptanceLastsOnce(before, events[j - 1], item);
    }
  }
}
