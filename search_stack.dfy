/**
 * The bookkeeping of `depth_first`'s explicit stack: what its three per-depth
 * arrays hold at every step of the loop, how a descent and a drop back change
 * that, and the measure that shows the loop ends.
 */
module SearchStack {
  import opened Wrappers
  import opened World
  import opened SearchSpace

  /** The number of nodes in a search tree whose root has `r` untried actions left. */
  ghost function TreeSize(r: nat): (n: nat)
    ensures n >= 1
  {
    if r == 0 then 1 else 2 * TreeSize(r - 1) + 1
  }

  /** How many actions `next_action` can still offer at this snapshot. */
  function Remaining<S, A, G>(m: WorldModel<S, A, G>): (r: nat)
    ensures r <= |m.actions|
    ensures r == 0 <==> m.cursor >= |m.actions|
  {
    if m.cursor < |m.actions| then |m.actions| - m.cursor else 0
  }

  /** The search work still ahead of a stack of frames: the sizes of the trees its frames have left to try. */
  ghost function Work<S, A, G>(frames: seq<WorldModel<S, A, G>>): (w: nat)
    ensures w >= |frames|
    decreases |frames|
  {
    if frames == [] then 0 else Work(frames[..|frames| - 1]) + TreeSize(Remaining(frames[|frames| - 1]))
  }

  /** The cursor a frame started with: the caller's cursor at depth 0, one past the parent's chosen position below. */
  function StartOf(cursor0: nat, path: seq<nat>, i: nat): (k: nat)
    requires i <= |path|
  {
    if i == 0 then cursor0 else path[i - 1] + 1
  }

  /**
   * Descending replaces the top frame by its advanced copy and pushes the
   * child, both with one fewer untried action; the work ahead shrinks by one.
   */
  lemma WorkDescend<S, A, G>(below: seq<WorldModel<S, A, G>>, advanced: WorldModel<S, A, G>, child: WorldModel<S, A, G>, top: WorldModel<S, A, G>)
    requires Remaining(top) > 0
    requires Remaining(advanced) == Remaining(top) - 1 && Remaining(child) == Remaining(top) - 1
    ensures Work(below + [advanced, child]) < Work(below + [top])
  {
    assert (below + [advanced, child])[..|below| + 1] == below + [advanced];
    assert (below + [advanced])[..|below|] == below;
    assert (below + [top])[..|below|] == below;
  }

  /**
   * The shape of the search stack at depth `depth`: snapshots `fs`, recorded
   * actions `acts` and cumulative costs `cs` as the three arrays hold them, with
   * the positions `path` and the actions `steps` taken on the current path.
   * Each frame below the top was left through the position just before its
   * cursor; positions are strictly later than their frame's start; all frames
   * share the caller's action list.
   */
  ghost predicate StackShape<S, A, G>(model: WorldModel<S, A, G>, maxDepth: nat, fs: seq<WorldModel<S, A, G>>,
                                      acts: seq<Option<A>>, cs: seq<int>, depth: nat, path: seq<nat>, steps: seq<A>)
  {
    && depth <= maxDepth
    && |fs| == maxDepth + 1 && |acts| == maxDepth && |cs| == maxDepth + 1
    && |path| == depth && |steps| == depth
    && (forall i :: 0 <= i < depth ==> model.cursor <= path[i] < |model.actions|)
    && (forall i, j :: 0 <= i < j < depth ==> path[i] < path[j])
    && (forall i :: 0 <= i < depth ==> steps[i] == model.actions[path[i]] && acts[i] == Some(steps[i]))
    && (forall i {:trigger fs[i]} :: 0 <= i < depth ==> fs[i].cursor == path[i] + 1)
    && StartOf(model.cursor, path, depth) <= fs[depth].cursor
    && (forall i :: 0 <= i <= depth ==> fs[i].actions == model.actions)
  }

  /**
   * Frame `i` holds the caller's state with the first `i` actions of the path
   * applied, and `cs[i]` is their summed cost; frame 0 is the caller's state.
   */
  ghost predicate StackStates<S, A, G>(d: Domain<S, A, G>, model: WorldModel<S, A, G>, fs: seq<WorldModel<S, A, G>>,
                                       cs: seq<int>, depth: nat, steps: seq<A>)
    requires depth < |fs| && depth < |cs| && depth == |steps|
  {
    && (forall i :: 0 <= i <= depth ==> fs[i].state == Run(d, model.state, steps[..i]))
    && (forall i :: 0 <= i <= depth ==> cs[i] == PlanCost(d, steps[..i]))
  }

  /**
   * What the search has ruled out: at every frame, the children reached through
   * the positions it has already tried, other than the one on the current path,
   * have no plan within the depth left below them.
   */
  ghost predicate StackExplored<S, A, G>(d: Domain<S, A, G>, goal: G, model: WorldModel<S, A, G>, maxDepth: nat,
                                         fs: seq<WorldModel<S, A, G>>, depth: nat, path: seq<nat>)
    requires depth <= maxDepth && depth < |fs| && depth == |path|
  {
    && (forall i {:trigger fs[i]} :: 0 <= i < depth ==>
          ChildrenExhausted(d, goal, model.actions, fs[i].state, StartOf(model.cursor, path, i), path[i], maxDepth - i - 1))
    && (depth < maxDepth ==>
          ChildrenExhausted(d, goal, model.actions, fs[depth].state, StartOf(model.cursor, path, depth), fs[depth].cursor, maxDepth - depth - 1))
  }

  /**
   * The loop invariant of `depth_first` at a depth of at least 0. The body is
   * bound to a name so that a caller proves and uses it as one fact rather
   * than clause by clause; the same holds for the two transitions below.
   */
  ghost predicate Stack<S, A, G>(d: Domain<S, A, G>, goal: G, model: WorldModel<S, A, G>, maxDepth: nat, fs: seq<WorldModel<S, A, G>>,
                                 acts: seq<Option<A>>, cs: seq<int>, depth: nat, path: seq<nat>, steps: seq<A>)
  {
    var holds := StackShape(model, maxDepth, fs, acts, cs, depth, path, steps) &&
                 StackStates(d, model, fs, cs, depth, steps) &&
                 StackExplored(d, goal, model, maxDepth, fs, depth, path);
    holds
  }

  /**
   * A descent from depth `depth`: `next_action` moves the top frame's cursor
   * past position `c`; the frame one level down becomes a copy of the advanced
   * frame with action `c` applied; the action is recorded at this depth and the
   * cost so far plus its cost one level down; the path grows by `c`. Nothing
   * else changes.
   */
  ghost predicate Descended<S, A, G>(d: Domain<S, A, G>, model: WorldModel<S, A, G>,
                                     fs: seq<WorldModel<S, A, G>>, acts: seq<Option<A>>, cs: seq<int>, depth: nat, path: seq<nat>, steps: seq<A>,
                                     fs': seq<WorldModel<S, A, G>>, acts': seq<Option<A>>, cs': seq<int>, path': seq<nat>, steps': seq<A>)
  {
    var holds :=
      && depth + 1 < |fs| && depth < |acts| && depth + 1 < |cs|
      && fs[depth].cursor < |model.actions|
      && var c := fs[depth].cursor;
         var advanced := fs[depth].(cursor := c + 1);
         && fs' == fs[depth := advanced][depth + 1 := ApplyAction(d, advanced, model.actions[c])]
         && acts' == acts[depth := Some(model.actions[c])]
         && cs' == cs[depth + 1 := cs[depth] + d.cost(model.actions[c])]
         && path' == path + [c]
         && steps' == steps + [model.actions[c]];
    holds
  }

  /**
   * A drop back from depth `depth`: the three arrays are left as they are and
   * the path loses its last position (below depth 0 there is no path left to
   * shorten).
   */
  ghost predicate DroppedBack<A, W>(fs: seq<W>, acts: seq<Option<A>>, cs: seq<int>, depth: nat, path: seq<nat>, steps: seq<A>,
                                    fs': seq<W>, acts': seq<Option<A>>, cs': seq<int>, path': seq<nat>, steps': seq<A>)
  {
    var holds :=
      && fs' == fs && acts' == acts && cs' == cs
      && (depth > 0 ==> depth <= |path| && depth <= |steps| && path' == path[..depth - 1] && steps' == steps[..depth - 1]);
    holds
  }

  /** The arrays as `depth_first` allocates them form a stack of depth 0. */
  lemma StackInit<S, A, G>(d: Domain<S, A, G>, goal: G, model: WorldModel<S, A, G>, maxDepth: nat,
                           fs: seq<WorldModel<S, A, G>>, acts: seq<Option<A>>, cs: seq<int>)
    requires |fs| == maxDepth + 1 && |acts| == maxDepth && |cs| == maxDepth + 1
    requires fs[0] == model && cs[0] == 0
    ensures Stack(d, goal, model, maxDepth, fs, acts, cs, 0, [], [])
  {
    var none: seq<A> := [];
    assert none[..0] == none;
  }

  /** A stack's positions are a search path, and the actions they select are the path's actions. */
  lemma StackPath<S, A, G>(model: WorldModel<S, A, G>, maxDepth: nat, fs: seq<WorldModel<S, A, G>>,
                           acts: seq<Option<A>>, cs: seq<int>, depth: nat, path: seq<nat>, steps: seq<A>)
    requires StackShape(model, maxDepth, fs, acts, cs, depth, path, steps)
    ensures IsSearchPath(path, model.cursor, |model.actions|, maxDepth)
    ensures steps == Select(model.actions, path)
  {
  }

  /** Descending keeps the stack's shape, with the top frame's position appended to the path. */
  lemma ShapeDescend<S, A, G>(model: WorldModel<S, A, G>, maxDepth: nat, fs: seq<WorldModel<S, A, G>>,
                              acts: seq<Option<A>>, cs: seq<int>, depth: nat, path: seq<nat>, steps: seq<A>,
                              advanced: WorldModel<S, A, G>, child: WorldModel<S, A, G>, cost: int)
    requires StackShape(model, maxDepth, fs, acts, cs, depth, path, steps)
    requires depth < maxDepth && fs[depth].cursor < |model.actions|
    requires advanced.cursor == child.cursor == fs[depth].cursor + 1
    requires advanced.actions == child.actions == model.actions
    ensures StackShape(model, maxDepth, fs[depth := advanced][depth + 1 := child], acts[depth := Some(model.actions[fs[depth].cursor])],
                       cs[depth + 1 := cost], depth + 1, path + [fs[depth].cursor], steps + [model.actions[fs[depth].cursor]])
  {
    var path' := path + [fs[depth].cursor];
    assert forall i :: 0 <= i <= depth ==> StartOf(model.cursor, path', i) == StartOf(model.cursor, path, i);
  }

  /** Descending keeps frame states and costs tied to the path, with one more action applied and paid for. */
  lemma StatesDescend<S, A, G>(d: Domain<S, A, G>, model: WorldModel<S, A, G>, fs: seq<WorldModel<S, A, G>>,
                               cs: seq<int>, depth: nat, steps: seq<A>, a: A, advanced: WorldModel<S, A, G>, child: WorldModel<S, A, G>)
    requires depth + 1 < |fs| && depth + 1 < |cs| && depth == |steps|
    requires StackStates(d, model, fs, cs, depth, steps)
    requires advanced.state == fs[depth].state && child.state == d.apply(fs[depth].state, a)
    ensures StackStates(d, model, fs[depth := advanced][depth + 1 := child], cs[depth + 1 := cs[depth] + d.cost(a)], depth + 1, steps + [a])
  {
    var steps' := steps + [a];
    RunSnoc(d, model.state, steps, a);
    PlanCostSnoc(d, steps, a);
    assert steps'[..depth + 1] == steps';
    assert steps == steps[..depth];
    assert forall i :: 0 <= i <= depth ==> steps'[..i] == steps[..i];
  }

  /**
   * Descending keeps what was ruled out: the old top's tried children become
   * those before the position now on the path, and the new top has tried none.
   */
  lemma ExploredDescend<S, A, G>(d: Domain<S, A, G>, goal: G, model: WorldModel<S, A, G>, maxDepth: nat,
                                 fs: seq<WorldModel<S, A, G>>, depth: nat, path: seq<nat>,
                                 advanced: WorldModel<S, A, G>, child: WorldModel<S, A, G>)
    requires depth < maxDepth && |fs| == maxDepth + 1 && depth == |path|
    requires StackExplored(d, goal, model, maxDepth, fs, depth, path)
    requires advanced.state == fs[depth].state && child.cursor == fs[depth].cursor + 1
    ensures StackExplored(d, goal, model, maxDepth, fs[depth := advanced][depth + 1 := child], depth + 1, path + [fs[depth].cursor])
  {
    var path' := path + [fs[depth].cursor];
    assert forall i :: 0 <= i <= depth ==> StartOf(model.cursor, path', i) == StartOf(model.cursor, path, i);
  }

  /**
   * A descent keeps the invariant one level deeper, and the work left shrinks:
   * the top frame's cursor has moved past the position it offered, the next
   * frame is a copy of the top frame with that action applied, and the action
   * and the cost so far plus its cost are recorded.
   */
  lemma StackDescend<S, A, G>(d: Domain<S, A, G>, goal: G, model: WorldModel<S, A, G>, maxDepth: nat,
                              fs: seq<WorldModel<S, A, G>>, acts: seq<Option<A>>, cs: seq<int>, depth: nat, path: seq<nat>, steps: seq<A>,
                              depth': nat, fs': seq<WorldModel<S, A, G>>, acts': seq<Option<A>>, cs': seq<int>, path': seq<nat>, steps': seq<A>)
    requires Stack(d, goal, model, maxDepth, fs, acts, cs, depth, path, steps) && depth < maxDepth
    requires depth' == depth + 1 && Descended(d, model, fs, acts, cs, depth, path, steps, fs', acts', cs', path', steps')
    ensures Stack(d, goal, model, maxDepth, fs', acts', cs', depth', path', steps')
  {
    var c := fs[depth].cursor;
    var a := model.actions[c];
    var advanced := fs[depth].(cursor := c + 1);
    var child := ApplyAction(d, advanced, a);
    assert fs' == fs[depth := advanced][depth + 1 := child] && acts' == acts[depth := Some(a)];
    assert cs' == cs[depth + 1 := cs[depth] + d.cost(a)] && path' == path + [c] && steps' == steps + [a];
    ShapeDescend(model, maxDepth, fs, acts, cs, depth, path, steps, advanced, child, cs[depth] + d.cost(a));
    StatesDescend(d, model, fs, cs, depth, steps, a, advanced, child);
    ExploredDescend(d, goal, model, maxDepth, fs, depth, path, advanced, child);
  }

  /** A descent leaves less work: the advanced top frame and the new frame below it both have one action fewer left. */
  lemma WorkDescended<S, A, G>(d: Domain<S, A, G>, model: WorldModel<S, A, G>,
                               fs: seq<WorldModel<S, A, G>>, acts: seq<Option<A>>, cs: seq<int>, depth: nat, path: seq<nat>, steps: seq<A>,
                               fs': seq<WorldModel<S, A, G>>, acts': seq<Option<A>>, cs': seq<int>, path': seq<nat>, steps': seq<A>)
    requires Descended(d, model, fs, acts, cs, depth, path, steps, fs', acts', cs', path', steps')
    requires fs[depth].actions == model.actions
    ensures |fs'| == |fs| && Work(fs'[..depth + 2]) < Work(fs[..depth + 1])
  {
    var c := fs[depth].cursor;
    var advanced := fs[depth].(cursor := c + 1);
    var child := ApplyAction(d, advanced, model.actions[c]);
    WorkDescend(fs[..depth], advanced, child, fs[depth]);
    assert fs[..depth + 1] == fs[..depth] + [fs[depth]];
    assert fs'[..depth + 2] == fs[..depth] + [advanced, child];
  }

  /** Dropping back a level keeps the stack's shape, with the path one shorter. */
  lemma ShapeBacktrack<S, A, G>(model: WorldModel<S, A, G>, maxDepth: nat, fs: seq<WorldModel<S, A, G>>,
                                acts: seq<Option<A>>, cs: seq<int>, depth: nat, path: seq<nat>, steps: seq<A>)
    requires StackShape(model, maxDepth, fs, acts, cs, depth, path, steps) && depth > 0
    ensures StackShape(model, maxDepth, fs, acts, cs, depth - 1, path[..depth - 1], steps[..depth - 1])
  {
    var p := depth - 1;
    assert forall i :: 0 <= i <= p ==> StartOf(model.cursor, path[..p], i) == StartOf(model.cursor, path, i);
  }

  /** Dropping back a level keeps frame states and costs tied to the shorter path. */
  lemma StatesBacktrack<S, A, G>(d: Domain<S, A, G>, model: WorldModel<S, A, G>, fs: seq<WorldModel<S, A, G>>,
                                 cs: seq<int>, depth: nat, steps: seq<A>)
    requires 0 < depth < |fs| && depth < |cs| && depth == |steps|
    requires StackStates(d, model, fs, cs, depth, steps)
    ensures StackStates(d, model, fs, cs, depth - 1, steps[..depth - 1])
  {
    var p := depth - 1;
    assert forall i :: 0 <= i <= p ==> steps[..p][..i] == steps[..i];
  }

  /** Dropping back from a child without a plan extends its parent's tried children by that child. */
  lemma ExploredBacktrack<S, A, G>(d: Domain<S, A, G>, goal: G, model: WorldModel<S, A, G>, maxDepth: nat,
                                   fs: seq<WorldModel<S, A, G>>, depth: nat, path: seq<nat>)
    requires 0 < depth <= maxDepth && |fs| == maxDepth + 1 && depth == |path|
    requires StackExplored(d, goal, model, maxDepth, fs, depth, path)
    requires fs[depth - 1].cursor == path[depth - 1] + 1 && path[depth - 1] < |model.actions|
    requires fs[depth].state == d.apply(fs[depth - 1].state, model.actions[path[depth - 1]])
    requires !PlanExists(d, goal, model.actions, fs[depth].state, path[depth - 1] + 1, maxDepth - depth)
    ensures StackExplored(d, goal, model, maxDepth, fs, depth - 1, path[..depth - 1])
  {
    var p := depth - 1;
    assert forall i :: 0 <= i <= p ==> StartOf(model.cursor, path[..p], i) == StartOf(model.cursor, path, i);
  }

  /**
   * The top frame does not fulfil the goal and has nothing left to try within
   * the bound, so it has no plan: below depth 0 that means the caller's model
   * has none, above it the parent has exhausted one more child and the stack is
   * one level shallower.
   */
  lemma StackBacktrack<S, A, G>(d: Domain<S, A, G>, goal: G, model: WorldModel<S, A, G>, maxDepth: nat,
                                fs: seq<WorldModel<S, A, G>>, acts: seq<Option<A>>, cs: seq<int>, depth: nat, path: seq<nat>, steps: seq<A>,
                                depth': int, fs': seq<WorldModel<S, A, G>>, acts': seq<Option<A>>, cs': seq<int>, path': seq<nat>, steps': seq<A>)
    requires Stack(d, goal, model, maxDepth, fs, acts, cs, depth, path, steps)
    requires !d.fulfilled(goal, fs[depth].state)
    requires depth == maxDepth || fs[depth].cursor >= |model.actions|
    requires depth' == depth - 1 && DroppedBack(fs, acts, cs, depth, path, steps, fs', acts', cs', path', steps')
    ensures depth' == -1 ==> !PlanExists(d, goal, model.actions, model.state, model.cursor, maxDepth)
    ensures depth' >= 0 ==> Stack(d, goal, model, maxDepth, fs', acts', cs', depth', path', steps')
    ensures |fs'| == |fs| && Work(fs'[..depth' + 1]) < Work(fs[..depth + 1])
  {
    assert fs[..depth + 1][..depth] == fs[..depth];
    DeadNode(d, goal, model.actions, fs[depth].state, StartOf(model.cursor, path, depth), fs[depth].cursor, maxDepth - depth);
    if depth == 0 {
      assert steps[..0] == [];
    } else {
      var p := depth - 1;
      assert steps[..depth] == steps[..p] + [steps[p]];
      RunSnoc(d, model.state, steps[..p], steps[p]);
      ShapeBacktrack(model, maxDepth, fs, acts, cs, depth, path, steps);
      StatesBacktrack(d, model, fs, cs, depth, steps);
      ExploredBacktrack(d, goal, model, maxDepth, fs, depth, path);
    }
  }

  /** A stack whose top frame fulfils the goal holds a plan: the path's actions, with their cost recorded at the top. */
  lemma StackSuccess<S, A, G>(d: Domain<S, A, G>, goal: G, model: WorldModel<S, A, G>, maxDepth: nat, fs: seq<WorldModel<S, A, G>>,
                              acts: seq<Option<A>>, cs: seq<int>, depth: nat, path: seq<nat>, steps: seq<A>)
    requires Stack(d, goal, model, maxDepth, fs, acts, cs, depth, path, steps)
    requires d.fulfilled(goal, fs[depth].state)
    ensures |steps| <= maxDepth && d.fulfilled(goal, Run(d, model.state, steps))
    ensures IsSearchPath(path, model.cursor, |model.actions|, maxDepth) && steps == Select(model.actions, path)
    ensures cs[depth] == PlanCost(d, steps)
    ensures PlanExists(d, goal, model.actions, model.state, model.cursor, maxDepth)
    ensures (forall i :: 0 <= i < |model.actions| ==> d.cost(model.actions[i]) >= 0) ==> cs[depth] >= 0
  {
    assert steps[..depth] == steps;
    if forall i :: 0 <= i < |model.actions| ==> d.cost(model.actions[i]) >= 0 {
      PlanCostPrefix(d, steps, depth);
    }
    StackPath(model, maxDepth, fs, acts, cs, depth, path, steps);
    PathWitnessesPlan(d, goal, model.actions, model.state, model.cursor, maxDepth, path);
  }

  /**
   * One iteration of the loop at a frame that does not fulfil the goal keeps the
   * invariant: a descent below the bound while an untried action is left, a drop
   * back otherwise. The work left shrinks, and falling below depth 0 means the
   * caller's model has no plan.
   */
  lemma StackStep<S, A, G>(d: Domain<S, A, G>, goal: G, model: WorldModel<S, A, G>, maxDepth: nat,
                           fs: seq<WorldModel<S, A, G>>, acts: seq<Option<A>>, cs: seq<int>, depth: nat, path: seq<nat>, steps: seq<A>,
                           depth': int, fs': seq<WorldModel<S, A, G>>, acts': seq<Option<A>>, cs': seq<int>, path': seq<nat>, steps': seq<A>)
    requires Stack(d, goal, model, maxDepth, fs, acts, cs, depth, path, steps)
    requires !d.fulfilled(goal, fs[depth].state)
    requires depth' == (if depth < maxDepth && fs[depth].cursor < |model.actions| then depth + 1 else depth - 1)
    requires depth' > depth ==> Descended(d, model, fs, acts, cs, depth, path, steps, fs', acts', cs', path', steps')
    requires depth' < depth ==> DroppedBack(fs, acts, cs, depth, path, steps, fs', acts', cs', path', steps')
    ensures depth' >= 0 ==> Stack(d, goal, model, maxDepth, fs', acts', cs', depth', path', steps')
    ensures depth' == -1 ==> !PlanExists(d, goal, model.actions, model.state, model.cursor, maxDepth)
    ensures |fs'| == |fs| && Work(fs'[..depth' + 1]) < Work(fs[..depth + 1])
  {
    if depth' > depth {
      StackDescend(d, goal, model, maxDepth, fs, acts, cs, depth, path, steps, depth', fs', acts', cs', path', steps');
      WorkDescended(d, model, fs, acts, cs, depth, path, steps, fs', acts', cs', path', steps');
    } else {
      StackBacktrack(d, goal, model, maxDepth, fs, acts, cs, depth, path, steps, depth', fs', acts', cs', path', steps');
    }
  }
}
