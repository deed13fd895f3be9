/**
 * The space the depth-first planner explores. Because a copied world model
 * keeps the cursor its parent's `next_action` had already advanced, a child
 * node is only offered actions that come later in the action list than the
 * one that produced it. A node of the search is therefore a list of strictly
 * increasing positions in the action list, and a plan exists within a depth
 * budget when one such list, not longer than the budget, leads to a state that
 * fulfils the goal.
 */
module SearchSpace {
  import opened World

  /**
   * `idx` is a path of the search started with the cursor at `from` over `n`
   * actions: at most `budget` positions, each in `[from, n)`, strictly
   * increasing.
   */
  predicate IsSearchPath(idx: seq<nat>, from: nat, n: nat, budget: nat) {
    && |idx| <= budget
    && (forall i :: 0 <= i < |idx| ==> from <= idx[i] < n)
    && (forall i, j :: 0 <= i < j < |idx| ==> idx[i] < idx[j])
  }

  /** The actions at the positions `idx`, in that order. */
  function Select<A>(actions: seq<A>, idx: seq<nat>): (p: seq<A>)
    requires forall i :: 0 <= i < |idx| ==> idx[i] < |actions|
    ensures |p| == |idx|
    ensures forall i :: 0 <= i < |idx| ==> p[i] == actions[idx[i]]
  {
    seq(|idx|, i requires 0 <= i < |idx| => actions[idx[i]])
  }

  /**
   * Reference definition of success: from state `s`, with the cursor at `from`
   * and `budget` further actions allowed, either the goal already holds, or
   * applying some later action `j` leads to a state from which a plan exists
   * with the cursor past `j` and one action fewer allowed.
   */
  ghost predicate PlanExists<S, A, G>(d: Domain<S, A, G>, goal: G, actions: seq<A>, s: S, from: nat, budget: nat)
    decreases budget
  {
    || d.fulfilled(goal, s)
    || (budget > 0 && exists j :: from <= j < |actions| && PlanExists(d, goal, actions, d.apply(s, actions[j]), j + 1, budget - 1))
  }

  /** Every child of `s` reached through a position in `[lo, hi)` has no plan within `budget`. */
  ghost predicate ChildrenExhausted<S, A, G>(d: Domain<S, A, G>, goal: G, actions: seq<A>, s: S, lo: nat, hi: nat, budget: nat) {
    forall j :: lo <= j < hi && j < |actions| ==> !PlanExists(d, goal, actions, d.apply(s, actions[j]), j + 1, budget)
  }

  /** Dropping the first position of a path leaves a path that starts after it, with one step fewer. */
  lemma PathTail(idx: seq<nat>, from: nat, n: nat, budget: nat)
    requires IsSearchPath(idx, from, n, budget) && idx != []
    ensures from <= idx[0] < n && budget > 0
    ensures IsSearchPath(idx[1..], idx[0] + 1, n, budget - 1)
  {
    forall i | 0 <= i < |idx[1..]|
      ensures idx[0] + 1 <= idx[1..][i]
    {
      assert idx[1..][i] == idx[i + 1];
    }
  }

  /** Putting a position in front of a path that starts after it gives a path with one step more. */
  lemma PathCons(j: nat, rest: seq<nat>, from: nat, n: nat, budget: nat)
    requires from <= j < n && budget > 0
    requires IsSearchPath(rest, j + 1, n, budget - 1)
    ensures IsSearchPath([j] + rest, from, n, budget)
  {
    var idx := [j] + rest;
    forall i | 0 < i < |idx|
      ensures idx[i] == rest[i - 1]
    {
    }
  }

  /** The actions selected by a path are its first action followed by the ones its tail selects. */
  lemma SelectCons<A>(actions: seq<A>, idx: seq<nat>)
    requires idx != [] && forall i :: 0 <= i < |idx| ==> idx[i] < |actions|
    ensures Select(actions, idx) == [actions[idx[0]]] + Select(actions, idx[1..])
  {
    assert Select(actions, idx)[1..] == Select(actions, idx[1..]);
  }

  /** Soundness of the reference definition: a path whose actions fulfil the goal shows that a plan exists. */
  lemma {:induction false} PathWitnessesPlan<S, A, G>(d: Domain<S, A, G>, goal: G, actions: seq<A>, s: S, from: nat, budget: nat, idx: seq<nat>)
    requires IsSearchPath(idx, from, |actions|, budget)
    requires d.fulfilled(goal, Run(d, s, Select(actions, idx)))
    ensures PlanExists(d, goal, actions, s, from, budget)
    decreases |idx|
  {
    if idx != [] {
      var j := idx[0];
      PathTail(idx, from, |actions|, budget);
      SelectCons(actions, idx);
      assert Run(d, s, Select(actions, idx)) == Run(d, d.apply(s, actions[j]), Select(actions, idx[1..]));
      PathWitnessesPlan(d, goal, actions, d.apply(s, actions[j]), j + 1, budget - 1, idx[1..]);
    }
  }

  /** Completeness of the reference definition: whenever a plan exists, some path's actions fulfil the goal. */
  lemma {:induction false} PlanHasPath<S, A, G>(d: Domain<S, A, G>, goal: G, actions: seq<A>, s: S, from: nat, budget: nat)
    returns (idx: seq<nat>)
    requires PlanExists(d, goal, actions, s, from, budget)
    ensures IsSearchPath(idx, from, |actions|, budget)
    ensures d.fulfilled(goal, Run(d, s, Select(actions, idx)))
    decreases budget
  {
    if d.fulfilled(goal, s) {
      idx := [];
    } else {
      var j :| from <= j < |actions| && PlanExists(d, goal, actions, d.apply(s, actions[j]), j + 1, budget - 1);
      var rest := PlanHasPath(d, goal, actions, d.apply(s, actions[j]), j + 1, budget - 1);
      idx := [j] + rest;
      PathCons(j, rest, from, |actions|, budget);
      assert idx[1..] == rest;
      SelectCons(actions, idx);
      assert Run(d, s, Select(actions, idx)) == Run(d, d.apply(s, actions[j]), Select(actions, rest));
    }
  }

  /** A plan exists exactly when some search path of the budget's length leads to a state that fulfils the goal. */
  lemma PlanExistsIff<S, A, G>(d: Domain<S, A, G>, goal: G, actions: seq<A>, s: S, from: nat, budget: nat)
    ensures PlanExists(d, goal, actions, s, from, budget) <==>
            exists idx :: IsSearchPath(idx, from, |actions|, budget) && d.fulfilled(goal, Run(d, s, Select(actions, idx)))
  {
    if PlanExists(d, goal, actions, s, from, budget) {
      var idx := PlanHasPath(d, goal, actions, s, from, budget);
    }
    if exists idx :: IsSearchPath(idx, from, |actions|, budget) && d.fulfilled(goal, Run(d, s, Select(actions, idx))) {
      var idx :| IsSearchPath(idx, from, |actions|, budget) && d.fulfilled(goal, Run(d, s, Select(actions, idx)));
      PathWitnessesPlan(d, goal, actions, s, from, budget, idx);
    }
  }

  /**
   * A node that does not fulfil the goal has no plan once the budget is spent
   * or every child from its first offered position to the end of the action
   * list is exhausted: this is what lets the search drop back a level.
   */
  lemma DeadNode<S, A, G>(d: Domain<S, A, G>, goal: G, actions: seq<A>, s: S, from: nat, hi: nat, budget: nat)
    requires !d.fulfilled(goal, s)
    requires budget == 0 || (hi >= |actions| && ChildrenExhausted(d, goal, actions, s, from, hi, budget - 1))
    ensures !PlanExists(d, goal, actions, s, from, budget)
  {
  }
}
