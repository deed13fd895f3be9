# Goal-oriented action planner

A model of the planning component of a goal-oriented AI toolkit
(`python/planner.py`). A planner owns a world model made of a state, a list of
goals and a list of actions.

- `choose_goal` picks the goal with the highest value. Ties go to the earliest
  goal, and an empty list gives no goal.
- The naive `SimplePlanner` always proposes the first action.
- `GoapPlanner.plan_action` chooses a goal and runs `depth_first`. This is an
  iterative, depth-bounded backtracking search. It keeps three per-depth
  arrays and moves up and down them with an explicit depth counter:
  - a world-model snapshot for each level;
  - the action taken at each level;
  - the cumulative cost at each level.

The world model, goals and actions are separate classes that this model does
not include. They enter through a small capability record, `World.Domain`,
with four total functions:

- applying an action to a state;
- testing whether a goal holds in a state;
- an action's cost;
- a goal's value.

A world-model snapshot is the value `World.WorldModel`. Besides the state and
the two lists, it carries the cursor that `next_action` uses to offer each
action once per search node, in list order. Copying a snapshot copies its
cursor. The source copies the frame after `next_action` has advanced it
(`python/planner.py:93-97`), so a child frame is only offered actions later
in the list than the one that produced it.

The search therefore explores lists of strictly increasing action positions
no longer than the depth bound. `SearchSpace.PlanExists` is the reference
definition of "a plan exists". `Planner.DepthFirst` is proved to find a plan
exactly when `PlanExists` holds. A plan it returns fulfils the goal, is no
longer than the bound, follows increasing positions, and comes with its
summed cost.

Modules:

- `Wrappers`: the `Option` datatype, standing for Python's `None`.
- `World`: the capability record, the snapshot, `next_action`,
  `apply_action`, running a plan and summing its cost.
- `SearchSpace`: search paths, the reference definition, and the lemmas that
  tie the two together.
- `SearchStack`: the loop invariant over the three arrays, how a descent and
  a drop back preserve it, and the termination measure.
- `Planner`: `choose_goal`, the naive planner, the search itself and
  `plan_action`.

`Planner.DepthFirst` keeps the source's shape: the three arrays, a
`while depth >= 0` loop, success checked first, then a descent or a drop
back. One iteration of the loop that does not succeed is the method
`Planner.Step`, and its descent is `Planner.Advance`.

Where the code cannot run as written, the model does what the code evidently
means. These are departures from the code:

- **Depth guard.** The code has no depth guard. At `depth == max_depth` an
  offered action would be written to `model_array[max_depth + 1]`, which is
  out of range (`python/planner.py:77, 97`). The model does not ask for an
  action at the depth bound; it drops back a level.
- **Size of `costs`.** `costs` has `max_depth` slots but is written at
  `current_depth + 1` (`python/planner.py:80, 102`). The model gives it
  `max_depth + 1` slots, one per snapshot.
- **Calling `get_cost`.** `next_action.get_cost` is referenced but never
  called (`python/planner.py:102`). The model adds the action's numeric cost,
  `d.cost(a)`.
- **Length of the plan.** On success the code returns the whole
  `action_sequence`, and entries past the current depth are stale or `None`
  (`python/planner.py:90`). The model returns the first `depth` entries,
  which are the plan that was actually followed. `DepthFirst` also returns
  `costs[depth]`, the plan's cumulative cost. The code computes this value
  but never returns it.
- **No goal.** `plan_action` passes the result of `choose_goal` to the
  search even when that result is `None` (`python/planner.py:68-69`). The
  model returns no plan when there is no goal.

## Model

| member | source | states |
|---|---|---|
| World.NextAction | python/planner.py:93-95 | An action is offered exactly when the cursor is inside the action list. The offer is the action at the cursor, and the snapshot's cursor moves past it. When nothing is offered the snapshot is unchanged. State, goals and actions never change. |
| World.ApplyAction | python/planner.py:97-99 | The copied snapshot has the action applied to its state. Its goals, actions and cursor are those of the frame it was copied from. |
| World.RunSnoc | python/planner.py:97-99 | Applying a plan extended by one action reaches the state that the shorter plan reaches, with that action applied. This is the descent step the snapshot array records. |
| World.PlanCostSnoc | python/planner.py:102 | Extending a plan by one action adds exactly that action's cost to the cumulative cost. |
| World.PlanCostPrefix | python/planner.py:102 | With non-negative action costs, every prefix of a plan costs between 0 and the whole plan's cost, so cumulative costs never decrease along the path. |
| SearchSpace.PathWitnessesPlan | python/planner.py:93-105 | Soundness of the reference definition: a search path whose actions lead to a state fulfilling the goal shows that a plan exists within the bound. |
| SearchSpace.PlanHasPath | python/planner.py:93-105 | Completeness of the reference definition: when a plan exists, there is a search path within the bound whose actions fulfil the goal. |
| SearchSpace.PlanExistsIff | python/planner.py:85-112 | A plan exists within the bound if and only if some strictly increasing list of positions, no longer than the bound, has actions that fulfil the goal. |
| SearchSpace.DeadNode | python/planner.py:107-109 | A node that does not fulfil the goal, whose budget is spent or whose children are all exhausted, has no plan. This is why dropping back a level is sound. |
| SearchStack.WorkDescend | python/planner.py:95-105 | A descent strictly decreases the work left on the stack. Together with a drop back, which removes a frame, this shows the loop terminates. |
| SearchStack.StackInit | python/planner.py:77-83 | The freshly allocated arrays, with the caller's model in slot 0 and cost 0, satisfy the loop invariant at depth 0 with an empty path. |
| SearchStack.StackPath | python/planner.py:85-105 | At every point of the loop, the positions taken form a search path and the recorded actions are the actions at those positions. |
| SearchStack.StackDescend | python/planner.py:93-105 | A descent, as `Descended` describes it, preserves the invariant one level deeper. In a descent the top frame's cursor advances past the offered position, the copy below has that action applied, the action is recorded, the cumulative cost grows by its cost, and the path grows by the position. |
| SearchStack.WorkDescended | python/planner.py:95-105 | A descent leaves the number of slots alone and strictly decreases the work left on the stack one level deeper. |
| SearchStack.StackBacktrack | python/planner.py:107-112 | At a frame that does not fulfil the goal and has no action left, or sits at the depth bound, the frame has no plan. A drop back, as `DroppedBack` describes it, leaves the arrays alone and shortens the path by one. It keeps the invariant one level up, and it strictly decreases the work left. Dropping back from depth 0 means no plan exists at all. |
| SearchStack.StackSuccess | python/planner.py:88-90 | When the top frame fulfils the goal, the recorded actions are a plan within the bound that fulfils the goal along a search path, and `costs[depth]` is that plan's summed cost. With non-negative action costs that cost is non-negative. |
| SearchStack.StackStep | python/planner.py:85-112 | One iteration at a frame that does not fulfil the goal. The new depth is one deeper when the frame is below the bound and has an untried action, and one shallower otherwise. Given the matching descent or drop back, the invariant holds at the new depth, or, below depth 0, no plan exists. The work left strictly decreases. |
| Planner.FirstMaxUnique | python/planner.py:30-34 | At most one position satisfies the selection rule (maximal value, every earlier value strictly smaller), so goal selection is deterministic. |
| Planner.ChooseGoal | python/planner.py:26-34 | No goal exactly when the goal list is empty. Otherwise the goal of maximal value, and the earliest of those when several tie, because a later goal replaces the running best only when its value is strictly greater. |
| Planner.SimpleMakePlan | python/planner.py:41-44 | The plan is exactly the first action of the list, whatever the goal. An empty action list gives no plan (the code fails on the index). |
| Planner.SimplePlanIsSearched | python/planner.py:41-44 | For a model whose cursor is at the start of its action list, the naive one-action plan is one of the depth-first search's paths. Whenever it fulfils the goal, a plan exists within any positive bound. |
| Planner.Advance | python/planner.py:93-105 | Given the action `next_action` offered and the advanced frame, the arrays are updated in place to exactly the descent `Descended` describes. The top slot gets the advanced frame, and the slot below gets its copy with the action applied. The action is recorded at this depth, and the cumulative cost one level down grows by its cost. The path grows by the offered position, and the depth grows by one. No other slot changes. |
| Planner.Step | python/planner.py:92-109 | One iteration that does not succeed, asking `next_action` once. Below the bound with an untried action it descends: the depth grows by one, and the arrays and path change exactly as `Descended` describes. Otherwise it drops back: the depth shrinks by one, the arrays are untouched, and the path loses its last position. |
| Planner.RecordedPlan | python/planner.py:88-90 | The plan returned on success has one action per level up to the current depth, and each is the action recorded in `action_sequence` at that level. |
| Planner.DepthFirst | python/planner.py:74-112 | A plan is found if and only if one exists within the bound. A found plan is no longer than the bound, fulfils the goal from the caller's state, takes strictly increasing positions of the action list, and comes with its summed cost. No plan always comes with cost 0. When the caller's state already fulfils the goal, the plan is empty and costs 0. With non-negative action costs the cost is non-negative. |
| Planner.PlanAction | python/planner.py:67-71 | No plan without goals. A plan is found if and only if one exists for the goal `choose_goal` selects. A found plan is within the bound and fulfils that goal. |

## Left out

- `GoapPlanner.make_plan`: not modelled. It repeats `plan_action` twenty times with `max_depth` set to the number of actions and prints the result. `Planner.PlanAction` covers the part that computes, for one call. The twenty calls are not identical: every call searches from the planner's own `self.model`, whose cursor the previous call left advanced (`python/planner.py:55, 78, 93`). The model does not follow that cursor from one call to the next.
- `Planner.make_plan`: not modelled, because it is an empty stub in the base class.
- The world model, goal and action classes: their source is not part of this model. Their behaviour enters as the capability record `World.Domain` and the cursor-based snapshot `World.WorldModel`.
- The cursor: how `next_action` remembers which actions it has tried is not shown. The model assumes the snapshot itself carries a cursor and that `copy.deepcopy` copies it along with the state.
- Planner.DepthFirst: the model does not state which of several plans the search returns first. It proves only that the returned plan is a valid one and that a plan is returned exactly when one exists.
- `Planner.DepthFirst`: the caller's model is passed by reference and advanced in place by `next_action` at depth 0. The model works on a value copy, so the caller does not see that cursor move afterwards.
- Number types: goal values and action costs are idealised as unbounded integers. The source's numbers are Python numbers, possibly floating point.
- Printing and type annotations are not modelled.
- `plan_action`'s default depth bound of 10 is not modelled. The bound is always an explicit natural-number parameter.
