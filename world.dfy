/** The conventional Some/None datatype, standing for Python's `Optional` / `None`. */
module Wrappers {
  datatype Option<+T> = None | Some(value: T)
}

/**
 * The planner's collaborators, which the planner only sees through a small
 * capability contract: a world model that can be copied, asked for its next
 * untried action and changed by applying an action, goals that can be tested
 * against a world model and that carry a priority value, and actions that carry
 * a cost.
 */
module World {
  import opened Wrappers

  /**
   * The capabilities of states `S`, actions `A` and goals `G`: applying an
   * action to a state (`Action.apply`), testing a goal (`Goal.is_fulfilled`),
   * an action's cost (`Action.get_cost`) and a goal's priority
   * (`Goal.get_value`). All of them are deterministic and free of side effects
   * on anything but the snapshot they are given.
   */
  datatype Domain<!S, !A, !G> = Domain(
    apply: (S, A) -> S,
    fulfilled: (G, S) -> bool,
    cost: A -> int,
    value: G -> int)

  /**
   * One world-model snapshot: the symbolic state, the goal list, the action
   * list and the position of the next action `next_action` offers. A snapshot
   * is a value, so copying it copies the cursor as well.
   */
  datatype WorldModel<S, A, G> = WorldModel(state: S, goals: seq<G>, actions: seq<A>, cursor: nat)

  /**
   * `next_action`: the next untried action in list order, if any, together with
   * the snapshot whose cursor has moved past it.
   */
  function NextAction<S, A, G>(m: WorldModel<S, A, G>): (r: (Option<A>, WorldModel<S, A, G>))
    ensures r.1.state == m.state && r.1.goals == m.goals && r.1.actions == m.actions
    ensures r.0.Some? <==> m.cursor < |m.actions|
    ensures r.0.Some? ==> r.0.value == m.actions[m.cursor] && r.1.cursor == m.cursor + 1
    ensures r.0.None? ==> r.1 == m
  {
    if m.cursor < |m.actions| then (Some(m.actions[m.cursor]), m.(cursor := m.cursor + 1))
    else (None, m)
  }

  /** `apply_action`: the snapshot with the action applied to its state; nothing else changes. */
  function ApplyAction<S, A, G>(d: Domain<S, A, G>, m: WorldModel<S, A, G>, a: A): (r: WorldModel<S, A, G>)
    ensures r.state == d.apply(m.state, a)
    ensures r.goals == m.goals && r.actions == m.actions && r.cursor == m.cursor
  {
    m.(state := d.apply(m.state, a))
  }

  /** The state reached by applying the actions of `p` to `s`, first to last. */
  function Run<S, A, G>(d: Domain<S, A, G>, s: S, p: seq<A>): (reached: S)
    decreases |p|
  {
    if p == [] then s else Run(d, d.apply(s, p[0]), p[1..])
  }

  /** The summed cost of the actions of `p`. */
  function PlanCost<S, A, G>(d: Domain<S, A, G>, p: seq<A>): (total: int)
    decreases |p|
  {
    if p == [] then 0 else d.cost(p[0]) + PlanCost(d, p[1..])
  }

  /** Appending one action to a plan applies that action to the state the plan reached. */
  lemma {:induction false} RunSnoc<S, A, G>(d: Domain<S, A, G>, s: S, p: seq<A>, a: A)
    ensures Run(d, s, p + [a]) == d.apply(Run(d, s, p), a)
    decreases |p|
  {
    if p != [] {
      assert (p + [a])[1..] == p[1..] + [a];
      RunSnoc(d, d.apply(s, p[0]), p[1..], a);
    }
  }

  /** Appending one action to a plan adds exactly that action's cost. */
  lemma {:induction false} PlanCostSnoc<S, A, G>(d: Domain<S, A, G>, p: seq<A>, a: A)
    ensures PlanCost(d, p + [a]) == PlanCost(d, p) + d.cost(a)
    decreases |p|
  {
    if p != [] {
      assert (p + [a])[1..] == p[1..] + [a];
      PlanCostSnoc(d, p[1..], a);
    }
  }

  /**
   * With non-negative action costs, the cumulative cost never decreases along
   * a plan: the cost of a prefix is at most the cost of the whole plan.
   */
  lemma {:induction false} PlanCostPrefix<S, A, G>(d: Domain<S, A, G>, p: seq<A>, k: nat)
    requires k <= |p|
    requires forall i :: 0 <= i < |p| ==> d.cost(p[i]) >= 0
    ensures 0 <= PlanCost(d, p[..k]) <= PlanCost(d, p)
    decreases |p|
  {
    if p != [] {
      PlanCostPrefix(d, p[1..], if k == 0 then 0 else k - 1);
      if k > 0 {
        assert p[..k][1..] == p[1..][..k - 1];
      }
    }
  }
}
