/**
 The depth-first dependency check that every reduced plan passes.  `done` is the ghost order in which
 visits finish; each step comes after everything it depends on.
*/
module PlanDependencies {
  import opened Graphs

  type StepId = string

  /** An arc leads from a step to one of its dependencies. */
  ghost function DependencyArcs(steps: map<StepId, seq<StepId>>): set<(StepId, StepId)> {
    set s, d | s in steps && d in steps[s] :: (s, d)
  }

  ghost predicate DependenciesExist(steps: map<StepId, seq<StepId>>) {
    forall s, d :: s in steps && d in steps[s] ==> d in steps
  }

  ghost predicate Sound(steps: map<StepId, seq<StepId>>) {
    DependenciesExist(steps) && Acyclic(DependencyArcs(steps))
  }

  /** Every finished step is known and all its dependencies finished before it. */
  ghost predicate InOrder(steps: map<StepId, seq<StepId>>, done: seq<StepId>) {
    forall i :: 0 <= i < |done| ==> done[i] in steps && DependsOn(steps[done[i]], done[..i])
  }

  ghost predicate DependsOn(dependencies: seq<StepId>, earlier: seq<StepId>) {
    forall d :: d in dependencies ==> d in earlier
  }

  lemma FinishStep(steps: map<StepId, seq<StepId>>, done: seq<StepId>, s: StepId)
    requires InOrder(steps, done) && s in steps && DependsOn(steps[s], done)
    ensures InOrder(steps, done + [s])
  {
    var more := done + [s];
    forall i | 0 <= i < |more| ensures more[i] in steps && DependsOn(steps[more[i]], more[..i]) {
      assert more[..i] == done[..i];
      if i < |done| {
        assert DependsOn(steps[done[i]], done[..i]);
      } else {
        assert done[..i] == done;
      }
    }
  }

  lemma InOrderDistinctIsSound(steps: map<StepId, seq<StepId>>, done: seq<StepId>)
    requires InOrder(steps, done) && Distinct(done) && forall s :: s in steps ==> s in done
    ensures Sound(steps)
  {
    var rank := map s | s in steps :: -(IndexOf(done, s) as int);
    forall a | a in DependencyArcs(steps) ensures a.0 in rank && a.1 in rank && rank[a.0] < rank[a.1] {
      var i := IndexOf(done, a.0);
      assert DependsOn(steps[done[i]], done[..i]);
      var j :| 0 <= j < i && done[..i][j] == a.1;
      assert done[j] == a.1;
    }
    RankedIsAcyclic(DependencyArcs(steps), rank);
    forall s, d | s in steps && d in steps[s] ensures d in steps {
      assert (s, d) in DependencyArcs(steps);
    }
  }

  ghost function IndexOf(done: seq<StepId>, s: StepId): (i: nat)
    requires s in done
    ensures i < |done| && done[i] == s
  {
    var i: nat :| i < |done| && done[i] == s;
    i
  }

  class DependencySearch {
    const steps: map<StepId, seq<StepId>>
    var visiting: set<StepId>
    var visited: set<StepId>
    ghost var done: seq<StepId>

    constructor (steps: map<StepId, seq<StepId>>)
      ensures this.steps == steps && Valid() && visiting == {}
    {
      this.steps := steps;
      visiting, visited, done := {}, {}, [];
    }

    ghost predicate Valid()
      reads this
    {
      && visited == Elements(done) && Distinct(done) && InOrder(steps, done)
      && visiting <= steps.Keys && visiting !! visited
    }

    /** `trail` is the chain of visits under way; each depends on the next, the last one on `id`. */
    ghost predicate Under(trail: seq<StepId>, id: StepId)
      reads this
    {
      && visiting == Elements(trail)
      && (trail != [] ==> IsWalk(DependencyArcs(steps), trail) && (trail[|trail| - 1], id) in DependencyArcs(steps))
    }

    lemma BackArc(trail: seq<StepId>, id: StepId)
      requires Under(trail, id) && id in visiting
      ensures !Sound(steps)
    {
      var k :| 0 <= k < |trail| && trail[k] == id;
      var arcs := DependencyArcs(steps);
      assert IsWalk(arcs, [id]);
      JoinWalks(arcs, trail, [id]);
      RepeatIsCycle(arcs, trail + [id], k, |trail|);
    }

    /** A visit succeeds, having visited the step and what it depends on, unless the steps are not sound. */
    method Visit(id: StepId, ghost trail: seq<StepId>) returns (ok: bool)
      requires Valid() && Under(trail, id)
      modifies this
      ensures !ok ==> !Sound(steps) || id !in steps
      ensures ok ==> Valid() && visiting == old(visiting) && id in visited && old(visited) <= visited
      decreases steps.Keys - visiting
    {
      if id in visited {
        return true;
      }
      if id in visiting {
        BackArc(trail, id);
        return false;
      }
      if id !in steps {
        return false;
      }
      visiting := visiting + {id};
      ghost var deeper := trail + [id];
      Deeper(trail, id);
      for k := 0 to |steps[id]|
        invariant Valid() && visiting == old(visiting) + {id} && old(visited) <= visited
        invariant forall j :: 0 <= j < k ==> steps[id][j] in visited
      {
        assert (id, steps[id][k]) in DependencyArcs(steps);
        if steps[id][k] !in steps {
          return false;
        }
        var entered := Visit(steps[id][k], deeper);
        if !entered {
          return false;
        }
      }
      FinishStep(steps, done, id);
      visiting := visiting - {id};
      visited := visited + {id};
      done := done + [id];
      ok := true;
    }

    lemma Deeper(trail: seq<StepId>, id: StepId)
      requires id in steps
      requires trail != [] ==> IsWalk(DependencyArcs(steps), trail) && (trail[|trail| - 1], id) in DependencyArcs(steps)
      ensures IsWalk(DependencyArcs(steps), trail + [id])
      ensures Elements(trail + [id]) == Elements(trail) + {id}
    {
      assert IsWalk(DependencyArcs(steps), [id]);
      if trail != [] {
        JoinWalks(DependencyArcs(steps), trail, [id]);
      } else {
        assert trail + [id] == [id];
      }
    }
  }

  /** The check succeeds exactly when every dependency is a step and no step depends on itself in any way. */
  method AssertPlanDependencies(steps: map<StepId, seq<StepId>>, ordered: seq<StepId>) returns (ok: bool)
    requires Elements(ordered) == steps.Keys
    ensures ok <==> Sound(steps)
  {
    var search := new DependencySearch(steps);
    for k := 0 to |ordered|
      invariant search.steps == steps && search.Valid() && search.visiting == {}
      invariant forall j :: 0 <= j < k ==> ordered[j] in search.visited
    {
      assert search.Under([], ordered[k]);
      assert ordered[k] in Elements(ordered);
      var entered := search.Visit(ordered[k], []);
      if !entered {
        return false;
      }
    }
    forall s | s in steps ensures s in search.done {
      assert s in Elements(ordered);
    }
    InOrderDistinctIsSound(steps, search.done);
    ok := true;
  }
}
