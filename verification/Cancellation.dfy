/**
 The tree along which cancellation spreads from a run to the runs it started.  Children are kept in
 the order in which they were linked, as the platform's sets iterate.
*/
module Cancellation {
  import opened Graphs
  import opened Wrappers

  type RunId = string

  datatype Reason =
    | UserAbort | DeadlineExceeded | BudgetExhausted | ParentCancelled | PluginFailure | RuntimeShutdown

  datatype TreeError = TreeCycle | MultipleParents

  ghost function ParentArcs(parents: map<RunId, RunId>): set<(RunId, RunId)> {
    set c | c in parents :: (c, parents[c])
  }

  ghost predicate IsDescendant(parents: map<RunId, RunId>, run: RunId, ancestor: RunId) {
    Reaches(ParentArcs(parents), run, ancestor)
  }

  function ListedUnder(children: map<RunId, seq<RunId>>, run: RunId): seq<RunId> {
    if run in children then children[run] else []
  }

  function Without(s: seq<RunId>, x: RunId): (r: seq<RunId>)
    requires Distinct(s)
    ensures Distinct(r) && forall y :: y in r <==> y in s && y != x
    ensures |r| <= |s|
  {
    if s == [] then []
    else
      assert s == [s[0]] + s[1..];
      if s[0] == x then s[1..]
      else
        var rest := Without(s[1..], x);
        assert forall i :: 0 <= i < |rest| ==> rest[i] in rest;
        [s[0]] + rest
  }

  /** Two walks from one vertex in which every vertex has at most one parent never diverge. */
  lemma {:induction false} OnlyOneWayUp(parents: map<RunId, RunId>, path: seq<RunId>, q: seq<RunId>)
    requires IsWalk(ParentArcs(parents), path) && path[|path| - 1] !in parents
    requires IsWalk(ParentArcs(parents), q) && q[0] == path[0]
    ensures |q| <= |path| && q[|q| - 1] == path[|q| - 1]
  {
    if |q| > 1 {
      SubWalk(ParentArcs(parents), q, 0, |q| - 1);
      OnlyOneWayUp(parents, path, q[0..|q| - 1]);
      assert (q[|q| - 2], q[|q| - 1]) in ParentArcs(parents);
      if |q| - 1 < |path| {
        assert (path[|q| - 2], path[|q| - 1]) in ParentArcs(parents);
      }
    }
  }

  lemma {:induction false} WalkIsInside(parents: map<RunId, RunId>, path: seq<RunId>)
    requires IsWalk(ParentArcs(parents), path)
    ensures Elements(path) <= parents.Keys + parents.Values + {path[0]}
  {
    forall i | 0 <= i < |path| ensures path[i] in parents.Keys + parents.Values + {path[0]} {
      if i > 0 {
        assert (path[i - 1], path[i]) in ParentArcs(parents);
      }
    }
  }

  lemma AcyclicWalkIsShort(parents: map<RunId, RunId>, path: seq<RunId>)
    requires Acyclic(ParentArcs(parents)) && IsWalk(ParentArcs(parents), path)
    ensures |path| <= |parents.Keys + parents.Values + {path[0]}|
  {
    WalkIsInside(parents, path);
    if |path| > |parents.Keys + parents.Values + {path[0]}| {
      var i, j := Pigeonhole(path, parents.Keys + parents.Values + {path[0]});
      RepeatIsCycle(ParentArcs(parents), path, i, j);
    }
  }

  /** If uncancelled runs have uncancelled parents, an uncancelled run has only uncancelled ancestors. */
  lemma UncancelledUpwards(parents: map<RunId, RunId>, cancelled: set<RunId>, run: RunId, ancestor: RunId)
    requires forall c :: c in parents && c !in cancelled ==> parents[c] !in cancelled
    requires IsDescendant(parents, run, ancestor) && run !in cancelled
    ensures ancestor !in cancelled
  {
    var p :| Joins(ParentArcs(parents), p, run, ancestor);
    var free := parents.Keys + parents.Values + {run} - cancelled;
    ReachesStaysIn(ParentArcs(parents), free, p);
  }

  /** The child lists are non-empty, free of repetitions, and list a run exactly under its parent. */
  ghost predicate Inverse(children: map<RunId, seq<RunId>>, parents: map<RunId, RunId>) {
    && (forall p :: p in children ==> children[p] != [])
    && (forall p :: p in children ==> Distinct(children[p]))
    && (forall p, c :: c in ListedUnder(children, p) <==> c in parents && parents[c] == p)
  }

  lemma LinkInverse(children: map<RunId, seq<RunId>>, parents: map<RunId, RunId>, parent: RunId, child: RunId)
    requires Inverse(children, parents) && child !in parents
    ensures Inverse(children[parent := ListedUnder(children, parent) + [child]], parents[child := parent])
  {
    var list := ListedUnder(children, parent);
    var more := children[parent := list + [child]];
    assert child !in list;
    forall p, c ensures c in ListedUnder(more, p) <==> c in parents[child := parent] && parents[child := parent][c] == p {
      assert c in ListedUnder(children, p) <==> c in parents && parents[c] == p;
    }
  }

  function Unlisted(children: map<RunId, seq<RunId>>, parent: RunId, siblings: seq<RunId>): map<RunId, seq<RunId>> {
    if |siblings| == 0 then children - {parent} else children[parent := siblings]
  }

  lemma UnlinkInverse(children: map<RunId, seq<RunId>>, parents: map<RunId, RunId>, parent: RunId, child: RunId,
                      siblings: seq<RunId>)
    requires Inverse(children, parents) && child in parents && parents[child] == parent
    requires Distinct(siblings) && forall y :: y in siblings <==> y in ListedUnder(children, parent) && y != child
    ensures Inverse(Unlisted(children, parent, siblings), parents - {child})
  {
    var fewer := Unlisted(children, parent, siblings);
    forall p, c ensures c in ListedUnder(fewer, p) <==> c in parents - {child} && (parents - {child})[c] == p {
      assert c in ListedUnder(children, p) <==> c in parents && parents[c] == p;
      if p == parent {
        assert c in ListedUnder(fewer, p) <==> c in siblings;
      }
    }
  }

  // ---------- One wave of cancellation ----------

  function Ids(out: seq<(RunId, Reason)>): (r: seq<RunId>)
    ensures |r| == |out| && forall i :: 0 <= i < |r| ==> r[i] == out[i].0
  {
    seq(|out|, i requires 0 <= i < |out| => out[i].0)
  }

  ghost predicate ParentEarlier(parents: map<RunId, RunId>, ids: seq<RunId>, i: nat)
    requires i < |ids|
  {
    ids[i] in parents && parents[ids[i]] in ids[..i]
  }

  /** The list of newly cancelled runs: distinct descendants, each after its parent. */
  ghost predicate Wave(parents: map<RunId, RunId>, before: map<RunId, Reason>, root: RunId, reason: Reason,
                       out: seq<(RunId, Reason)>) {
    && out != [] && out[0] == (root, reason)
    && Distinct(Ids(out))
    && (forall i :: 0 <= i < |out| ==> out[i].0 !in before && IsDescendant(parents, out[i].0, root))
    && (forall i :: 1 <= i < |out| ==> out[i].1 == ParentCancelled && ParentEarlier(parents, Ids(out), i))
  }

  /** The cancellations after a wave: all earlier ones, with their reasons, and those of the wave. */
  ghost predicate Recorded(before: map<RunId, Reason>, out: seq<(RunId, Reason)>, after: map<RunId, Reason>) {
    && (forall k :: k in after <==> k in before || k in Ids(out))
    && (forall k :: k in before ==> k in after && after[k] == before[k])
    && (forall i :: 0 <= i < |out| ==> out[i].0 in after && after[out[i].0] == out[i].1)
  }

  ghost predicate ChildrenCancelled(parents: map<RunId, RunId>, ids: seq<RunId>, n: nat, cancelled: map<RunId, Reason>)
    requires n <= |ids|
  {
    forall c :: c in parents && parents[c] in ids[..n] ==> c in cancelled
  }

  /** Once all children of the run at `index` are cancelled, one more run of the wave is done. */
  lemma OneMoreDone(parents: map<RunId, RunId>, out0: seq<(RunId, Reason)>, out: seq<(RunId, Reason)>, index: nat,
                    cancelled: map<RunId, Reason>)
    requires index < |out0| && out0 <= out
    requires ChildrenCancelled(parents, Ids(out0), index, cancelled)
    requires forall c :: c in parents && parents[c] == out0[index].0 ==> c in cancelled
    ensures ChildrenCancelled(parents, Ids(out), index + 1, cancelled)
  {
    forall c | c in parents && parents[c] in Ids(out)[..index + 1] ensures c in cancelled {
      var k :| 0 <= k <= index && Ids(out)[k] == parents[c];
      assert out[k] == out0[k];
      if k < index {
        assert Ids(out0)[..index][k] == parents[c];
      }
    }
  }

  /** The first `k` listed runs are cancelled. */
  ghost predicate FirstCancelled(list: seq<RunId>, k: nat, cancelled: map<RunId, Reason>)
    requires k <= |list|
  {
    k > 0 ==> list[k - 1] in cancelled && FirstCancelled(list, k - 1, cancelled)
  }

  lemma {:induction false} FirstStayCancelled(list: seq<RunId>, k: nat, was: map<RunId, Reason>, now: map<RunId, Reason>)
    requires k <= |list| && FirstCancelled(list, k, was) && was.Keys <= now.Keys
    ensures FirstCancelled(list, k, now)
  {
    if k > 0 {
      FirstStayCancelled(list, k - 1, was, now);
    }
  }

  lemma {:induction false} FirstCancelledAt(list: seq<RunId>, k: nat, cancelled: map<RunId, Reason>)
    requires k <= |list| && FirstCancelled(list, k, cancelled)
    ensures forall i :: 0 <= i < k ==> list[i] in cancelled
  {
    if k > 0 {
      FirstCancelledAt(list, k - 1, cancelled);
    }
  }

  lemma PrefixIds(out0: seq<(RunId, Reason)>, out: seq<(RunId, Reason)>, x: RunId)
    requires out0 <= out && x in Ids(out0)
    ensures x in Ids(out)
  {
    var k :| 0 <= k < |Ids(out0)| && Ids(out0)[k] == x;
    assert Ids(out)[k] == x;
  }

  lemma AllListed(children: map<RunId, seq<RunId>>, parents: map<RunId, RunId>, out: seq<(RunId, Reason)>, index: nat)
    requires Inverse(children, parents) && index < |out|
    ensures var list := ListedUnder(children, out[index].0);
      && (forall i :: 0 <= i < |list| ==> list[i] in parents && parents[list[i]] in Ids(out))
      && (forall c :: c in parents && parents[c] == out[index].0 ==> c in list)
  {
    var list := ListedUnder(children, out[index].0);
    assert Ids(out)[index] == out[index].0;
    forall i | 0 <= i < |list| ensures list[i] in parents && parents[list[i]] == out[index].0 {
      assert list[i] in list;
    }
  }

  lemma WaveStarts(parents: map<RunId, RunId>, before: map<RunId, Reason>, root: RunId, reason: Reason)
    requires root !in before
    ensures Wave(parents, before, root, reason, [(root, reason)])
    ensures Recorded(before, [(root, reason)], before[root := reason])
  {
    ReachesSelf(ParentArcs(parents), root);
    assert Ids([(root, reason)]) == [root];
  }

  lemma DescendantStep(parents: map<RunId, RunId>, c: RunId, root: RunId)
    requires c in parents && IsDescendant(parents, parents[c], root)
    ensures IsDescendant(parents, c, root)
  {
    var p :| Joins(ParentArcs(parents), p, parents[c], root);
    assert (c, parents[c]) in ParentArcs(parents);
    JoinWalks(ParentArcs(parents), [c], p);
    assert Joins(ParentArcs(parents), [c] + p, c, root);
  }

  lemma EarlierStays(parents: map<RunId, RunId>, ids: seq<RunId>, c: RunId, i: nat)
    requires i < |ids| && ParentEarlier(parents, ids, i)
    ensures ParentEarlier(parents, ids + [c], i)
  {
    assert (ids + [c])[..i] == ids[..i];
  }

  lemma WaveGrows(parents: map<RunId, RunId>, before: map<RunId, Reason>, root: RunId, reason: Reason,
                  out: seq<(RunId, Reason)>, c: RunId)
    requires Wave(parents, before, root, reason, out)
    requires c in parents && parents[c] in Ids(out) && c !in before && c !in Ids(out)
    ensures Wave(parents, before, root, reason, out + [(c, ParentCancelled)])
  {
    var more, ids := out + [(c, ParentCancelled)], Ids(out);
    assert Ids(more) == ids + [c];
    var k :| 0 <= k < |ids| && ids[k] == parents[c];
    assert out[k].0 == parents[c];
    DescendantStep(parents, c, root);
    forall i | 1 <= i < |more| ensures more[i].1 == ParentCancelled && ParentEarlier(parents, Ids(more), i) {
      if i < |out| {
        EarlierStays(parents, ids, c, i);
      } else {
        assert (ids + [c])[..i] == ids;
      }
    }
  }

  lemma RecordedGrows(before: map<RunId, Reason>, out: seq<(RunId, Reason)>, after: map<RunId, Reason>, c: RunId)
    requires Recorded(before, out, after) && c !in after
    ensures Recorded(before, out + [(c, ParentCancelled)], after[c := ParentCancelled])
  {
    var more := out + [(c, ParentCancelled)];
    assert Ids(more) == Ids(out) + [c];
    forall i | 0 <= i < |out| ensures out[i].0 in after && out[i].0 != c {
      assert Ids(out)[i] in Ids(out);
    }
  }

  lemma OneMoreChild(parents: map<RunId, RunId>, before: map<RunId, Reason>, root: RunId, reason: Reason,
                     out0: seq<(RunId, Reason)>, out: seq<(RunId, Reason)>, c: RunId, cancelled: map<RunId, Reason>)
    requires Wave(parents, before, root, reason, out) && Recorded(before, out, cancelled) && out0 <= out
    requires c in parents && parents[c] in Ids(out0) && c !in cancelled
    ensures Wave(parents, before, root, reason, out + [(c, ParentCancelled)])
    ensures Recorded(before, out + [(c, ParentCancelled)], cancelled[c := ParentCancelled])
  {
    PrefixIds(out0, out, parents[c]);
    WaveGrows(parents, before, root, reason, out, c);
    RecordedGrows(before, out, cancelled, c);
  }

  /** Distinct runs that all but the first have a parent are no more than the forest allows. */
  lemma WaveIsBounded(parents: map<RunId, RunId>, before: map<RunId, Reason>, root: RunId, reason: Reason,
                      out: seq<(RunId, Reason)>)
    requires Wave(parents, before, root, reason, out)
    ensures |out| <= |parents.Keys + {root}|
  {
    DistinctSize(Ids(out));
    forall i | 0 <= i < |out| ensures Ids(out)[i] in parents.Keys + {root} {
      if i > 0 {
        assert ParentEarlier(parents, Ids(out), i);
      }
    }
    SubsetSize(Elements(Ids(out)), parents.Keys + {root});
  }

  /** When every child of the wave is cancelled, the wave holds every newly cancelled descendant. */
  lemma WaveIsComplete(parents: map<RunId, RunId>, before: map<RunId, Reason>, root: RunId, reason: Reason,
                       out: seq<(RunId, Reason)>, after: map<RunId, Reason>)
    requires Wave(parents, before, root, reason, out) && Recorded(before, out, after)
    requires ChildrenCancelled(parents, Ids(out), |out|, after)
    requires forall c :: c in parents && c != root && parents[c] in before ==> c in before
    ensures forall c :: c in parents && parents[c] in after ==> c in after
    ensures forall d :: d in Ids(out) <==> d !in before && IsDescendant(parents, d, root)
  {
    assert Ids(out)[..|out|] == Ids(out);
    assert root == Ids(out)[0];
    forall c | c in parents && parents[c] in after ensures c in after {
    }
    forall d | d !in before && IsDescendant(parents, d, root) ensures d in Ids(out) {
      if d !in after {
        UncancelledUpwards(parents, after.Keys, d, root);
      }
    }
  }

  // ---------- The order of a wave ----------

  /** The run at `i` is listed at `place[i]` under the run at `from[i]`, and the list follows these pairs. */
  ghost predicate Levels(children: map<RunId, seq<RunId>>, ids: seq<RunId>, from: seq<nat>, place: seq<nat>) {
    && |from| == |ids| && |place| == |ids|
    && (forall i :: 1 <= i < |ids| ==> from[i] < i && IsListed(children, ids[from[i]], place[i], ids[i]))
    && (forall i, j :: 1 <= i < j < |ids| ==> from[i] < from[j] || (from[i] == from[j] && place[i] < place[j]))
  }

  ghost predicate IsListed(children: map<RunId, seq<RunId>>, parent: RunId, k: nat, child: RunId) {
    k < |ListedUnder(children, parent)| && ListedUnder(children, parent)[k] == child
  }

  /** Level by level: the children of an earlier run come before those of a later one, siblings as they were linked. */
  ghost predicate LevelByLevel(children: map<RunId, seq<RunId>>, ids: seq<RunId>) {
    exists from, place :: Levels(children, ids, from, place)
  }

  lemma LevelsGrow(children: map<RunId, seq<RunId>>, ids: seq<RunId>, from: seq<nat>, place: seq<nat>,
                   index: nat, k: nat, child: RunId)
    requires Levels(children, ids, from, place) && index < |ids| && IsListed(children, ids[index], k, child)
    requires forall i :: 1 <= i < |ids| ==> from[i] < index || (from[i] == index && place[i] < k)
    ensures Levels(children, ids + [child], from + [index], place + [k])
  {
    var more := ids + [child];
    forall i | 1 <= i < |more|
      ensures (from + [index])[i] < i && IsListed(children, more[(from + [index])[i]], (place + [k])[i], more[i])
    {
      if i < |ids| {
        assert IsListed(children, ids[from[i]], place[i], ids[i]);
      }
    }
  }

  /** In this order, with children of the run at `index` only from the first `k` of its list, and of later ones none. */
  ghost predicate OrderedUpTo(children: map<RunId, seq<RunId>>, out: seq<(RunId, Reason)>, from: seq<nat>, place: seq<nat>,
                              index: nat, k: nat) {
    && Levels(children, Ids(out), from, place)
    && forall i :: 1 <= i < |out| ==> from[i] < index || (from[i] == index && place[i] < k)
  }

  lemma OrderGrows(children: map<RunId, seq<RunId>>, was: seq<(RunId, Reason)>, out: seq<(RunId, Reason)>,
                   from: seq<nat>, place: seq<nat>, index: nat, k: nat, child: RunId)
    returns (from': seq<nat>, place': seq<nat>)
    requires OrderedUpTo(children, was, from, place, index, k) && index < |was|
    requires IsListed(children, was[index].0, k, child)
    requires out == was || out == was + [(child, ParentCancelled)]
    ensures OrderedUpTo(children, out, from', place', index, k + 1)
  {
    from', place' := from, place;
    if out != was {
      assert Ids(was)[index] == was[index].0 && Ids(out) == Ids(was) + [child];
      LevelsGrow(children, Ids(was), from, place, index, k, child);
      from', place' := from + [index], place + [k];
    }
  }

  class CancellationTree {
    var children: map<RunId, seq<RunId>>
    var parents: map<RunId, RunId>
    var cancelled: map<RunId, Reason>

    /** Parents form a forest and the child lists are its inverse. */
    ghost predicate IsForest()
      reads this
    {
      Acyclic(ParentArcs(parents)) && Inverse(children, parents)
    }

    /** Apart from `exempt`, no run is left running under a cancelled parent. */
    ghost predicate ClosedExcept(exempt: set<RunId>)
      reads this
    {
      forall c :: c in parents && c !in exempt && parents[c] in cancelled ==> c in cancelled
    }

    ghost predicate Valid()
      reads this
    {
      IsForest() && ClosedExcept({})
    }

    constructor ()
      ensures Valid() && parents == map[] && cancelled == map[]
    {
      children, parents, cancelled := map[], map[], map[];
      new;
      RankedIsAcyclic(ParentArcs(map[]), map[]);
    }

    function ParentFor(run: RunId): Option<RunId>
      reads this
    {
      if run in parents then Some(parents[run]) else None
    }

    /** Walks up from `parent`; it ends because a forest has no cycle to walk around. */
    method WouldCreateCycle(parent: RunId, child: RunId) returns (r: bool)
      requires IsForest()
      ensures r <==> IsDescendant(parents, parent, child)
    {
      var candidate := Some(parent);
      ghost var path := [parent];
      ghost var arcs := ParentArcs(parents);
      ghost var bound := |parents.Keys + parents.Values + {parent}|;
      AcyclicWalkIsShort(parents, path);
      while candidate.Some?
        invariant IsWalk(arcs, path) && path[0] == parent && |path| <= bound
        invariant candidate.Some? ==> candidate.value == path[|path| - 1]
        invariant candidate.None? ==> path[|path| - 1] !in parents
        invariant forall i :: 0 <= i < |path| - (if candidate.Some? then 1 else 0) ==> path[i] != child
        decreases candidate.Some?, bound - |path|
      {
        if candidate.value == child {
          assert Joins(arcs, path, parent, child);
          return true;
        }
        candidate := ParentFor(candidate.value);
        if candidate.Some? {
          JoinWalks(arcs, path, [candidate.value]);
          path := path + [candidate.value];
          AcyclicWalkIsShort(parents, path);
        }
      }
      forall q | Joins(arcs, q, parent, child) ensures false {
        OnlyOneWayUp(parents, path, q);
      }
      return false;
    }

    /**
     Cancels a run and, level by level, every descendant that is not cancelled yet.  The result lists
     exactly those runs, each once and after its parent; earlier reasons are kept.
    */
    method Cancel(run: RunId, reason: Reason) returns (out: seq<(RunId, Reason)>)
      requires IsForest() && ClosedExcept({run})
      modifies this`cancelled
      ensures Valid()
      ensures run in old(cancelled) ==> out == [] && cancelled == old(cancelled)
      ensures run !in old(cancelled) ==> Wave(parents, old(cancelled), run, reason, out)
      ensures Recorded(old(cancelled), out, cancelled)
      ensures forall d :: d in Ids(out) <==> d !in old(cancelled) && run !in old(cancelled) && IsDescendant(parents, d, run)
      ensures LevelByLevel(children, Ids(out))
    {
      if run in cancelled {
        assert Levels(children, Ids([]), [], []);
        return [];
      }
      ghost var before := cancelled;
      out := [(run, reason)];
      WaveStarts(parents, before, run, reason);
      cancelled := cancelled[run := reason];
      var index := 0;
      ghost var from: seq<nat>, place: seq<nat> := [0], [0];
      WaveIsBounded(parents, before, run, reason, out);
      while index < |out|
        invariant index <= |out| <= |parents.Keys + {run}|
        invariant Wave(parents, before, run, reason, out) && Recorded(before, out, cancelled)
        invariant ChildrenCancelled(parents, Ids(out), index, cancelled)
        invariant OrderedUpTo(children, out, from, place, index, 0)
        decreases |parents.Keys + {run}| - index
      {
        var list := ListedUnder(children, out[index].0);
        AllListed(children, parents, out, index);
        ghost var out0 := out;
        out, from, place := CancelChildren(before, run, reason, out, list, index, from, place);
        FirstCancelledAt(list, |list|, cancelled);
        OneMoreDone(parents, out0, out, index, cancelled);
        WaveIsBounded(parents, before, run, reason, out);
        index := index + 1;
      }
      WaveIsComplete(parents, before, run, reason, out, cancelled);
    }

    method CancelChildren(ghost before: map<RunId, Reason>, ghost run: RunId, ghost reason: Reason,
                          out0: seq<(RunId, Reason)>, list: seq<RunId>, ghost index: nat,
                          ghost from0: seq<nat>, ghost place0: seq<nat>)
      returns (out: seq<(RunId, Reason)>, ghost from: seq<nat>, ghost place: seq<nat>)
      requires forall i :: 0 <= i < |list| ==> list[i] in parents && parents[list[i]] in Ids(out0)
      requires Wave(parents, before, run, reason, out0) && Recorded(before, out0, cancelled)
      requires OrderedUpTo(children, out0, from0, place0, index, 0)
      requires index < |out0| && list == ListedUnder(children, out0[index].0)
      modifies this`cancelled
      ensures out0 <= out
      ensures OrderedUpTo(children, out, from, place, index, |list|)
      ensures Wave(parents, before, run, reason, out) && Recorded(before, out, cancelled)
      ensures old(cancelled).Keys <= cancelled.Keys
      ensures FirstCancelled(list, |list|, cancelled)
    {
      out, from, place := out0, from0, place0;
      for k := 0 to |list|
        invariant out0 <= out
        invariant Wave(parents, before, run, reason, out)
        invariant Recorded(before, out, cancelled)
        invariant old(cancelled).Keys <= cancelled.Keys
        invariant FirstCancelled(list, k, cancelled)
        invariant OrderedUpTo(children, out, from, place, index, k)
      {
        ghost var was, earlier := cancelled, out;
        var child := list[k];
        assert child in parents && parents[child] in Ids(out0);
        out := CancelChild(before, run, reason, out0, out, child);
        from, place := OrderGrows(children, earlier, out, from, place, index, k, child);
        FirstStayCancelled(list, k, was, cancelled);
        assert FirstCancelled(list, k + 1, cancelled);
      }
    }

    method CancelChild(ghost before: map<RunId, Reason>, ghost run: RunId, ghost reason: Reason,
                       ghost out0: seq<(RunId, Reason)>, out1: seq<(RunId, Reason)>, child: RunId)
      returns (out: seq<(RunId, Reason)>)
      requires child in parents && parents[child] in Ids(out0) && out0 <= out1
      requires Wave(parents, before, run, reason, out1) && Recorded(before, out1, cancelled)
      modifies this`cancelled
      ensures out == out1 || out == out1 + [(child, ParentCancelled)]
      ensures Wave(parents, before, run, reason, out) && Recorded(before, out, cancelled)
      ensures old(cancelled).Keys <= cancelled.Keys && child in cancelled
    {
      out := out1;
      if child !in cancelled {
        OneMoreChild(parents, before, run, reason, out0, out, child, cancelled);
        cancelled := cancelled[child := ParentCancelled];
        out := out + [(child, ParentCancelled)];
      }
    }

    /** Links a child to its only parent; the link is refused exactly if it would break the forest. */
    method Link(parent: RunId, child: RunId) returns (r: Result<(), TreeError>)
      requires Valid()
      modifies this
      ensures Valid()
      ensures r.Ok? <==> old((child in parents ==> parents[child] == parent) && !IsDescendant(parents, parent, child))
      ensures r.Err? ==> parents == old(parents) && children == old(children) && cancelled == old(cancelled)
      ensures r.Err? ==>
        (r.error == MultipleParents <==> parent != child && child in old(parents) && old(parents)[child] != parent)
      ensures r.Ok? ==> parents == old(parents)[child := parent]
      ensures r.Ok? && (parent !in old(cancelled) || child in old(cancelled)) ==> cancelled == old(cancelled)
      ensures forall k :: k in old(cancelled) ==> k in cancelled && cancelled[k] == old(cancelled)[k]
      ensures forall k :: k in cancelled && k !in old(cancelled) ==>
        parent in old(cancelled) && cancelled[k] == ParentCancelled && IsDescendant(parents, k, child)
    {
      ghost var arcs := ParentArcs(parents);
      if parent == child {
        ReachesSelf(arcs, parent);
        return Err(TreeCycle);
      }
      var existing := ParentFor(child);
      if existing.Some? && existing.value != parent {
        return Err(MultipleParents);
      }
      if existing == Some(parent) {
        LinkedIsAbove(parents, parent, child);
        assert parents == parents[child := parent];
        return Ok(());
      }
      var cycle := WouldCreateCycle(parent, child);
      if cycle {
        return Err(TreeCycle);
      }
      AddArc(arcs, child, parent);
      NewParentArc(parents, parent, child);
      LinkInverse(children, parents, parent, child);
      children := children[parent := ListedUnder(children, parent) + [child]];
      parents := parents[child := parent];
      if parent in cancelled && child !in cancelled {
        var _ := Cancel(child, ParentCancelled);
      }
      r := Ok(());
    }

    /** Removes a link; everything else, cancellations included, stays as it was. */
    method Unlink(parent: RunId, child: RunId) returns (removed: bool)
      requires Valid()
      modifies this`parents, this`children
      ensures Valid()
      ensures removed <==> old(child in parents && parents[child] == parent)
      ensures parents == if removed then old(parents) - {child} else old(parents)
      ensures !removed ==> children == old(children)
    {
      if ParentFor(child) != Some(parent) {
        return false;
      }
      FewerArcs(ParentArcs(parents), ParentArcs(parents - {child}));
      var siblings := Without(ListedUnder(children, parent), child);
      UnlinkInverse(children, parents, parent, child, siblings);
      parents := parents - {child};
      children := Unlisted(children, parent, siblings);
      removed := true;
    }
  }

  lemma NewParentArc(parents: map<RunId, RunId>, parent: RunId, child: RunId)
    requires child !in parents
    ensures ParentArcs(parents[child := parent]) == ParentArcs(parents) + {(child, parent)}
  {
    var more := parents[child := parent];
    forall a: (RunId, RunId) ensures a in ParentArcs(more) <==> a in ParentArcs(parents) + {(child, parent)} {
      assert a in ParentArcs(more) <==> a.0 in more && more[a.0] == a.1;
      assert a in ParentArcs(parents) <==> a.0 in parents && parents[a.0] == a.1;
    }
  }

  lemma AboveIsCyclic(parents: map<RunId, RunId>, parent: RunId, child: RunId)
    requires child in parents && parents[child] == parent && IsDescendant(parents, parent, child)
    ensures !Acyclic(ParentArcs(parents))
  {
    var p :| Joins(ParentArcs(parents), p, parent, child);
    assert (child, parent) in ParentArcs(parents);
    JoinWalks(ParentArcs(parents), [child], p);
    assert IsCycle(ParentArcs(parents), [child] + p);
  }

  /** In a forest no parent is a descendant of its child. */
  lemma LinkedIsAbove(parents: map<RunId, RunId>, parent: RunId, child: RunId)
    requires Acyclic(ParentArcs(parents)) && child in parents && parents[child] == parent
    ensures !IsDescendant(parents, parent, child)
  {
    if IsDescendant(parents, parent, child) {
      AboveIsCyclic(parents, parent, child);
    }
  }
}
