/**
 * The planner: goal selection by highest value, the naive first-action
 * planner, and the depth-bounded backtracking search that keeps one world
 * model snapshot, one action and one cumulative cost per depth level.
 */
module Planner {
  import opened Wrappers
  import opened World
  import opened SearchSpace
  import opened SearchStack

  // ---------------------------------------------------------------------------
  // Goal selection (Planner.choose_goal)
  // ---------------------------------------------------------------------------

  /**
   * Position `k` holds the goal `choose_goal` must pick: no goal has a larger
   * value, and every goal before it has a strictly smaller one.
   */
  predicate IsFirstMax<G>(goals: seq<G>, value: G -> int, k: int) {
    && 0 <= k < |goals|
    && (forall j :: 0 <= j < |goals| ==> value(goals[j]) <= value(goals[k]))
    && (forall j :: 0 <= j < k ==> value(goals[j]) < value(goals[k]))
  }

  /** The selection rule picks at most one position, so `choose_goal` is deterministic. */
  lemma FirstMaxUnique<G>(goals: seq<G>, value: G -> int, k1: int, k2: int)
    requires IsFirstMax(goals, value, k1) && IsFirstMax(goals, value, k2)
    ensures k1 == k2
  {
    assert value(goals[k1]) == value(goals[k2]);
  }

  /**
   * `choose_goal`: no goal for an empty list; otherwise a running best that is
   * replaced only by a strictly larger value, so the earliest goal of maximum
   * value wins.
   */
  method ChooseGoal<G>(goals: seq<G>, value: G -> int) returns (top: Option<G>)
    ensures top.None? <==> goals == []
    ensures top.Some? ==> exists k :: IsFirstMax(goals, value, k) && top.value == goals[k]
  {
    if goals == [] {
      return None;
    }
    var best := goals[0];
    ghost var k := 0;
    for i := 1 to |goals|
      invariant k < i && best == goals[k]
      invariant forall j :: 0 <= j < i ==> value(goals[j]) <= value(best)
      invariant forall j :: 0 <= j < k ==> value(goals[j]) < value(best)
    {
      if value(goals[i]) > value(best) {
        best := goals[i];
        k := i;
      }
    }
    assert IsFirstMax(goals, value, k);
    return Some(best);
  }

  // ---------------------------------------------------------------------------
  // The naive planner (SimplePlanner.make_plan)
  // ---------------------------------------------------------------------------

  /**
   * `SimplePlanner.make_plan`: the plan made of the first action alone, whatever
   * the goal; an empty action list, where the source fails on the index, gives
   * no plan.
   */
  function SimpleMakePlan<S, A, G>(m: WorldModel<S, A, G>): (plan: Option<seq<A>>)
    ensures plan.Some? <==> m.actions != []
    ensures plan.Some? ==> plan.value == [m.actions[0]]
  {
    if m.actions == [] then None else Some([m.actions[0]])
  }

  /**
   * The naive plan is one of the paths the depth-first search explores, so
   * whenever it happens to fulfil the goal, a plan exists within any positive
   * depth bound for a model whose cursor is at the start of its action list.
   */
  lemma SimplePlanIsSearched<S, A, G>(d: Domain<S, A, G>, m: WorldModel<S, A, G>, goal: G, maxDepth: nat)
    requires m.actions != [] && m.cursor == 0 && maxDepth >= 1
    requires d.fulfilled(goal, Run(d, m.state, SimpleMakePlan(m).value))
    ensures IsSearchPath([0], m.cursor, |m.actions|, maxDepth)
    ensures SimpleMakePlan(m).value == Select(m.actions, [0])
    ensures PlanExists(d, goal, m.actions, m.state, m.cursor, maxDepth)
  {
    PathWitnessesPlan(d, goal, m.actions, m.state, m.cursor, maxDepth, [0]);
  }

  // ---------------------------------------------------------------------------
  // Depth-first search (GoapPlanner.depth_first)
  // ---------------------------------------------------------------------------

  /**
   * A descent: `next_action` has advanced the top frame's cursor past the action
   * it offers. The advanced frame is stored back, a copy of it with the action
   * applied becomes the frame one level down, the action is recorded at this
   * depth and its cost is added to the cumulative cost one level down.
   */
  method Advance<S, A, G>(d: Domain<S, A, G>, model: WorldModel<S, A, G>,
                          frames: array<WorldModel<S, A, G>>, actionSeq: array<Option<A>>, costs: array<int>, depth: nat,
                          offered: (Option<A>, WorldModel<S, A, G>),
                          ghost fs: seq<WorldModel<S, A, G>>, ghost acts: seq<Option<A>>, ghost cs: seq<int>,
                          ghost path: seq<nat>, ghost steps: seq<A>)
    returns (depth': nat, ghost fs': seq<WorldModel<S, A, G>>, ghost acts': seq<Option<A>>, ghost cs': seq<int>,
             ghost path': seq<nat>, ghost steps': seq<A>)
    requires depth + 1 < frames.Length && depth < actionSeq.Length && depth + 1 < costs.Length
    requires frames[..] == fs && actionSeq[..] == acts && costs[..] == cs
    requires fs[depth].actions == model.actions
    requires offered == NextAction(fs[depth]) && offered.0.Some?
    modifies frames, actionSeq, costs
    ensures depth' == depth + 1
    ensures Descended(d, model, fs, acts, cs, depth, path, steps, fs', acts', cs', path', steps')
    ensures frames[..] == fs' && actionSeq[..] == acts' && costs[..] == cs'
  {
    var a := offered.0.value;
    frames[depth] := offered.1;
    frames[depth + 1] := ApplyAction(d, frames[depth], a);
    actionSeq[depth] := Some(a);
    costs[depth + 1] := costs[depth] + d.cost(a);
    fs', acts', cs' := frames[..], actionSeq[..], costs[..];
    path', steps' := path + [fs[depth].cursor], steps + [a];
    depth' := depth + 1;
  }

  /**
   * One iteration of the search after the goal test has failed. Below the depth
   * bound `next_action` is asked once; if it offers an action the search
   * descends, otherwise (and always at the bound) it drops back a level.
   */
  method Step<S, A, G>(d: Domain<S, A, G>, model: WorldModel<S, A, G>, maxDepth: nat,
                       frames: array<WorldModel<S, A, G>>, actionSeq: array<Option<A>>, costs: array<int>, depth: nat,
                       ghost fs: seq<WorldModel<S, A, G>>, ghost acts: seq<Option<A>>, ghost cs: seq<int>,
                       ghost path: seq<nat>, ghost steps: seq<A>)
    returns (depth': int, ghost fs': seq<WorldModel<S, A, G>>, ghost acts': seq<Option<A>>, ghost cs': seq<int>,
             ghost path': seq<nat>, ghost steps': seq<A>)
    requires depth <= maxDepth && |path| == depth && |steps| == depth
    requires frames.Length == maxDepth + 1 && actionSeq.Length == maxDepth && costs.Length == maxDepth + 1
    requires frames[..] == fs && actionSeq[..] == acts && costs[..] == cs
    requires fs[depth].actions == model.actions
    modifies frames, actionSeq, costs
    ensures depth' == (if depth < maxDepth && fs[depth].cursor < |model.actions| then depth + 1 else depth - 1)
    ensures depth' > depth ==> Descended(d, model, fs, acts, cs, depth, path, steps, fs', acts', cs', path', steps')
    ensures depth' < depth ==> DroppedBack(fs, acts, cs, depth, path, steps, fs', acts', cs', path', steps')
    ensures frames[..] == fs' && actionSeq[..] == acts' && costs[..] == cs'
  {
    // `next_action` is only asked below the depth bound; at the bound the search drops back
    var offered := if depth < maxDepth then NextAction(frames[depth]) else (None, frames[depth]);
    if offered.0.Some? {
      depth', fs', acts', cs', path', steps' := Advance(d, model, frames, actionSeq, costs, depth, offered, fs, acts, cs, path, steps);
    } else {
      fs', acts', cs' := fs, acts, cs;
      path', steps' := if depth > 0 then path[..depth - 1] else path, if depth > 0 then steps[..depth - 1] else steps;
      depth' := depth - 1;
    }
  }

  /** The actions recorded in the first `depth` slots of `actionSeq`, in order. */
  method RecordedPlan<A>(actionSeq: array<Option<A>>, depth: nat) returns (plan: seq<A>)
    requires depth <= actionSeq.Length
    requires forall i :: 0 <= i < depth ==> actionSeq[i].Some?
    ensures |plan| == depth
    ensures forall i :: 0 <= i < depth ==> actionSeq[i] == Some(plan[i])
  {
    plan := seq(depth, i requires 0 <= i < depth && actionSeq[i].Some? reads actionSeq => actionSeq[i].value);
  }

  /**
   * `depth_first`: iterative backtracking over per-depth arrays of snapshots,
   * actions and cumulative costs. At each depth the search succeeds when the
   * frame fulfils the goal; otherwise, below the depth bound, it takes the
   * frame's next untried action, applies it to a copy of the frame and
   * descends; when there is none, or the depth bound is reached, it drops
   * back a level. Falling below depth 0 means no plan.
   *
   * The search finds a plan exactly when one exists within the bound. On
   * success the result is the first `depth` recorded actions, which lead from
   * the caller's state to one that fulfils the goal, and the cumulative cost
   * `costs[depth]`; on failure the cost is 0.
   */
  method DepthFirst<S, A, G>(d: Domain<S, A, G>, model: WorldModel<S, A, G>, goal: G, maxDepth: nat)
    returns (plan: Option<seq<A>>, cost: int)
    ensures plan.Some? <==> PlanExists(d, goal, model.actions, model.state, model.cursor, maxDepth)
    ensures plan.Some? ==> |plan.value| <= maxDepth && d.fulfilled(goal, Run(d, model.state, plan.value))
    ensures plan.Some? ==> exists idx :: IsSearchPath(idx, model.cursor, |model.actions|, maxDepth) && plan.value == Select(model.actions, idx)
    ensures plan.Some? ==> cost == PlanCost(d, plan.value)
    ensures plan.None? ==> cost == 0
    ensures d.fulfilled(goal, model.state) ==> plan == Some([]) && cost == 0
    ensures (forall i :: 0 <= i < |model.actions| ==> d.cost(model.actions[i]) >= 0) ==> cost >= 0
  {
    var frames := new WorldModel<S, A, G>[maxDepth + 1](_ => model);
    var actionSeq := new Option<A>[maxDepth](_ => None);
    var costs := new int[maxDepth + 1](_ => 0);
    var depth := 0;
    // the three arrays as values, and the positions and actions taken on the current path
    ghost var fs, acts, cs := frames[..], actionSeq[..], costs[..];
    ghost var path: seq<nat> := [];
    ghost var steps: seq<A> := [];
    StackInit(d, goal, model, maxDepth, fs, acts, cs);

    while depth >= 0
      invariant -1 <= depth <= maxDepth
      invariant frames.Length == maxDepth + 1 && actionSeq.Length == maxDepth && costs.Length == maxDepth + 1
      invariant frames[..] == fs && actionSeq[..] == acts && costs[..] == cs
      invariant depth >= 0 ==> Stack(d, goal, model, maxDepth, fs, acts, cs, depth, path, steps)
      invariant depth == -1 ==> !PlanExists(d, goal, model.actions, model.state, model.cursor, maxDepth)
      invariant d.fulfilled(goal, model.state) ==> depth == 0
      decreases Work(fs[..depth + 1])
    {
      if d.fulfilled(goal, frames[depth].state) {
        StackSuccess(d, goal, model, maxDepth, fs, acts, cs, depth, path, steps);
        var recorded := RecordedPlan(actionSeq, depth);
        assert recorded == steps;
        return Some(recorded), costs[depth];
      }

      var depth';
      ghost var fs', acts', cs', path', steps';
      depth', fs', acts', cs', path', steps' := Step(d, model, maxDepth, frames, actionSeq, costs, depth, fs, acts, cs, path, steps);
      StackStep(d, goal, model, maxDepth, fs, acts, cs, depth, path, steps, depth', fs', acts', cs', path', steps');
      depth, fs, acts, cs, path, steps := depth', fs', acts', cs', path', steps';
    }
    plan, cost := None, 0;
  }

  // ---------------------------------------------------------------------------
  // GoapPlanner.plan_action
  // ---------------------------------------------------------------------------

  /**
   * `plan_action`: choose a goal from the planner's own model, then search from
   * `model` towards it. With no goal to pursue there is no plan.
   */
  method PlanAction<S, A, G>(d: Domain<S, A, G>, plannerModel: WorldModel<S, A, G>, model: WorldModel<S, A, G>, maxDepth: nat)
    returns (plan: Option<seq<A>>)
    ensures plannerModel.goals == [] ==> plan.None?
    ensures plan.Some? <==> exists k :: IsFirstMax(plannerModel.goals, d.value, k) &&
                             PlanExists(d, plannerModel.goals[k], model.actions, model.state, model.cursor, maxDepth)
    ensures plan.Some? ==> |plan.value| <= maxDepth &&
                           exists k :: IsFirstMax(plannerModel.goals, d.value, k) &&
                                       d.fulfilled(plannerModel.goals[k], Run(d, model.state, plan.value))
  {
    var currentGoal := ChooseGoal(plannerModel.goals, d.value);
    if currentGoal.None? {
      return None;
    }
    ghost var k :| IsFirstMax(plannerModel.goals, d.value, k) && currentGoal.value == plannerModel.goals[k];
    forall k' | IsFirstMax(plannerModel.goals, d.value, k') ensures k' == k {
      FirstMaxUnique(plannerModel.goals, d.value, k, k');
    }
    var cost;
    plan, cost := DepthFirst(d, model, currentGoal.value, maxDepth);
  }
}
