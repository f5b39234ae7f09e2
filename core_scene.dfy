/**
 * The scene of Src/CoreScene.cpp: an ordered list of top-level models, each
 * the root of a tree of child models, identified by integer ids.
 *
 * The model-level operations the scene delegates to (a model's own removal and
 * lookup among its children, its matrix, callback and collision passes) are
 * not part of this model's source. Removal and lookup are given the same
 * recursive scheme as the scene level; every other delegated call is recorded
 * in the scene's `calls` log, so that contracts can state which calls happen
 * and in which order.
 */
module CoreScene {
  import opened JsValues

  /** A model in the scene tree: its id and its children, in order. */
  datatype Node = Node(id: int, children: seq<Node>)

  /** Whether a model with `id` sits anywhere in the tree rooted at `n`, `n` included. */
  ghost predicate InTree(n: Node, id: int)
    decreases n
  {
    n.id == id || InForest(n.children, id)
  }

  /** Whether a model with `id` sits anywhere in the trees of `cs`. */
  ghost predicate InForest(cs: seq<Node>, id: int)
    decreases cs
  {
    exists i :: 0 <= i < |cs| && InTree(cs[i], id)
  }

  /** Whether `m` is the tree rooted at `n` or one of its subtrees. */
  ghost predicate SubtreeOf(m: Node, n: Node)
    decreases n
  {
    m == n || exists i :: 0 <= i < |n.children| && SubtreeOf(m, n.children[i])
  }

  /** The ids of every model in the tree rooted at `n`, with repetitions. */
  ghost function TreeIds(n: Node): multiset<int>
    decreases n
  {
    multiset{n.id} + ForestIds(n.children)
  }

  /** The ids of every model in the trees of `cs`, with repetitions. */
  ghost function ForestIds(cs: seq<Node>): multiset<int>
    decreases cs
  {
    if |cs| == 0 then multiset{} else ForestIds(cs[..|cs| - 1]) + TreeIds(cs[|cs| - 1])
  }

  /** The first direct child carrying `id`, or -1 (the first loop of RemoveModel). */
  function DirectIndex(cs: seq<Node>, id: int): (k: int)
    ensures -1 <= k < |cs|
    ensures k == -1 <==> forall j :: 0 <= j < |cs| ==> cs[j].id != id
    ensures k != -1 ==> cs[k].id == id && forall j :: 0 <= j < k ==> cs[j].id != id
  {
    DirectIndexFrom(cs, id, 0)
  }

  function DirectIndexFrom(cs: seq<Node>, id: int, i: nat): (k: int)
    requires i <= |cs|
    ensures k == -1 || i <= k < |cs|
    ensures k == -1 <==> forall j :: i <= j < |cs| ==> cs[j].id != id
    ensures k != -1 ==> cs[k].id == id && forall j :: i <= j < k ==> cs[j].id != id
    decreases |cs| - i
  {
    if i == |cs| then -1
    else if cs[i].id == id then i
    else DirectIndexFrom(cs, id, i + 1)
  }

  /**
   * Removal by id from the list `cs`: a direct child carrying `id` is removed
   * outright; only when there is none is the removal tried in each child's
   * own children, in order, stopping at the first that succeeds. Returns
   * whether something was removed, and the new list.
   */
  function RemoveIn(cs: seq<Node>, id: int): (r: (bool, seq<Node>))
    decreases cs, 1
  {
    var k := DirectIndex(cs, id);
    if k != -1 then (true, cs[..k] + cs[k + 1..]) else RemoveDeep(cs, id, 0)
  }

  /** The second loop of RemoveModel, from child `i` on. */
  function RemoveDeep(cs: seq<Node>, id: int, i: nat): (r: (bool, seq<Node>))
    requires i <= |cs|
    decreases cs, 0, |cs| - i
  {
    if i == |cs| then (false, cs)
    else
      var sub := RemoveIn(cs[i].children, id);
      if sub.0 then (true, cs[i := Node(cs[i].id, sub.1)]) else RemoveDeep(cs, id, i + 1)
  }

  /** A model's own lookup: the model itself when it carries `id`, otherwise a search of its children. */
  function FindInTree(n: Node, id: int): (r: Option<Node>)
    decreases n, 1
  {
    if n.id == id then Some(n) else FindIn(n.children, id)
  }

  /** Lookup by id in the list `cs`: the first child whose own lookup succeeds. */
  function FindIn(cs: seq<Node>, id: int): (r: Option<Node>)
    decreases cs, 0
  {
    FindFrom(cs, id, 0)
  }

  function FindFrom(cs: seq<Node>, id: int, i: nat): (r: Option<Node>)
    requires i <= |cs|
    decreases cs, 0, |cs| - i
  {
    if i == |cs| then None
    else
      var m := FindInTree(cs[i], id);
      if m.Some? then m else FindFrom(cs, id, i + 1)
  }

  // ---------------------------------------------------------------------------
  // What removal and lookup promise
  // ---------------------------------------------------------------------------

  /**
   * Removal succeeds exactly when the id is somewhere in the trees, and a
   * removal that fails leaves the list as it was.
   */
  lemma {:induction false} RemoveFindsExactly(cs: seq<Node>, id: int)
    ensures RemoveIn(cs, id).0 <==> InForest(cs, id)
    ensures !RemoveIn(cs, id).0 ==> RemoveIn(cs, id).1 == cs
    decreases cs, 1
  {
    var k := DirectIndex(cs, id);
    if k != -1 {
      assert InTree(cs[k], id);
    } else {
      RemoveDeepFindsExactly(cs, id, 0);
      if InForest(cs, id) {
        var j :| 0 <= j < |cs| && InTree(cs[j], id);
        assert InForest(cs[j].children, id);
      }
    }
  }

  lemma {:induction false} RemoveDeepFindsExactly(cs: seq<Node>, id: int, i: nat)
    requires i <= |cs|
    ensures RemoveDeep(cs, id, i).0 <==> exists j :: i <= j < |cs| && InForest(cs[j].children, id)
    ensures !RemoveDeep(cs, id, i).0 ==> RemoveDeep(cs, id, i).1 == cs
    decreases cs, 0, |cs| - i
  {
    if i < |cs| {
      RemoveFindsExactly(cs[i].children, id);
      RemoveDeepFindsExactly(cs, id, i + 1);
      if exists j :: i <= j < |cs| && InForest(cs[j].children, id) {
        var j :| i <= j < |cs| && InForest(cs[j].children, id);
        if j > i {
          assert exists j' :: i + 1 <= j' < |cs| && InForest(cs[j'].children, id);
        }
      }
    }
  }

  /** When the first direct child carrying `id` is at `k`, removal takes out exactly that child. */
  lemma RemoveDirectChild(cs: seq<Node>, id: int, k: int)
    requires 0 <= k < |cs| && cs[k].id == id
    requires forall j :: 0 <= j < k ==> cs[j].id != id
    ensures RemoveIn(cs, id) == (true, cs[..k] + cs[k + 1..])
  {
  }

  lemma {:induction false} ForestIdsAppend(a: seq<Node>, b: seq<Node>)
    ensures ForestIds(a + b) == ForestIds(a) + ForestIds(b)
    decreases |b|
  {
    if |b| == 0 {
      assert a + b == a;
    } else {
      var b' := b[..|b| - 1];
      assert (a + b)[..|a + b| - 1] == a + b';
      assert (a + b)[|a + b| - 1] == b[|b| - 1];
      assert b'[..|b'|] == b';
      ForestIdsAppend(a, b');
      assert b[..|b| - 1] == b';
    }
  }

  /** The ids of a list, split around the child at `k`. */
  lemma ForestIdsAround(cs: seq<Node>, k: nat)
    requires k < |cs|
    ensures ForestIds(cs) == ForestIds(cs[..k]) + TreeIds(cs[k]) + ForestIds(cs[k + 1..])
  {
    assert cs == cs[..k] + [cs[k]] + cs[k + 1..];
    ForestIdsAppend(cs[..k] + [cs[k]], cs[k + 1..]);
    ForestIdsAppend(cs[..k], [cs[k]]);
    assert [cs[k]][..0] == [];
  }

  /**
   * A successful removal detaches exactly one subtree, rooted at a model
   * carrying `id`: every id of the old trees is either still in the new list
   * or in that subtree, with multiplicities.
   */
  lemma {:induction false} RemoveDetachesOneSubtree(cs: seq<Node>, id: int)
    requires RemoveIn(cs, id).0
    ensures exists n: Node :: n.id == id && ForestIds(cs) == ForestIds(RemoveIn(cs, id).1) + TreeIds(n)
    decreases cs, 1
  {
    var k := DirectIndex(cs, id);
    if k != -1 {
      ForestIdsAround(cs, k);
      ForestIdsAppend(cs[..k], cs[k + 1..]);
      assert ForestIds(cs) == ForestIds(RemoveIn(cs, id).1) + TreeIds(cs[k]);
    } else {
      RemoveDeepDetaches(cs, id, 0);
    }
  }

  lemma {:induction false} RemoveDeepDetaches(cs: seq<Node>, id: int, i: nat)
    requires i <= |cs| && RemoveDeep(cs, id, i).0
    ensures exists n: Node :: n.id == id && ForestIds(cs) == ForestIds(RemoveDeep(cs, id, i).1) + TreeIds(n)
    decreases cs, 0, |cs| - i
  {
    var sub := RemoveIn(cs[i].children, id);
    if sub.0 {
      RemoveDetachesOneSubtree(cs[i].children, id);
      var n: Node :| n.id == id && ForestIds(cs[i].children) == ForestIds(sub.1) + TreeIds(n);
      var updated := Node(cs[i].id, sub.1);
      var cs' := cs[i := updated];
      ForestIdsAround(cs, i);
      ForestIdsAround(cs', i);
      assert cs'[..i] == cs[..i] && cs'[i + 1..] == cs[i + 1..];
      assert TreeIds(cs[i]) == TreeIds(updated) + TreeIds(n);
      assert ForestIds(cs) == ForestIds(cs') + TreeIds(n);
    } else {
      RemoveDeepDetaches(cs, id, i + 1);
    }
  }

  /**
   * Lookup succeeds exactly when the id is somewhere in the trees, and what
   * it finds carries the id and is a subtree of one of the children.
   */
  lemma {:induction false} FindFindsExactly(cs: seq<Node>, id: int)
    ensures FindIn(cs, id).Some? <==> InForest(cs, id)
    ensures FindIn(cs, id).Some? ==> FindIn(cs, id).value.id == id
    ensures FindIn(cs, id).Some? ==> exists i :: 0 <= i < |cs| && SubtreeOf(FindIn(cs, id).value, cs[i])
    decreases cs, 0
  {
    FindFromFindsExactly(cs, id, 0);
  }

  lemma {:induction false} FindInTreeFindsExactly(n: Node, id: int)
    ensures FindInTree(n, id).Some? <==> InTree(n, id)
    ensures FindInTree(n, id).Some? ==> FindInTree(n, id).value.id == id && SubtreeOf(FindInTree(n, id).value, n)
    decreases n, 1
  {
    if n.id != id {
      FindFindsExactly(n.children, id);
    }
  }

  lemma {:induction false} FindFromFindsExactly(cs: seq<Node>, id: int, i: nat)
    requires i <= |cs|
    ensures FindFrom(cs, id, i).Some? <==> exists j :: i <= j < |cs| && InTree(cs[j], id)
    ensures FindFrom(cs, id, i).Some? ==> FindFrom(cs, id, i).value.id == id
    ensures FindFrom(cs, id, i).Some? ==> exists j :: i <= j < |cs| && SubtreeOf(FindFrom(cs, id, i).value, cs[j])
    decreases cs, 0, |cs| - i
  {
    if i < |cs| {
      FindInTreeFindsExactly(cs[i], id);
      FindFromFindsExactly(cs, id, i + 1);
      if exists j :: i <= j < |cs| && InTree(cs[j], id) {
        var j :| i <= j < |cs| && InTree(cs[j], id);
        if j > i {
          assert exists j' :: i + 1 <= j' < |cs| && InTree(cs[j'], id);
        }
      }
    }
  }

  /** Lookup answers from the first child whose tree holds the id: no earlier child's tree holds it. */
  lemma {:induction false} FindTakesFirstChild(cs: seq<Node>, id: int, i: nat)
    requires i <= |cs| && FindFrom(cs, id, i).Some?
    ensures exists j :: i <= j < |cs| && FindFrom(cs, id, i) == FindInTree(cs[j], id)
                        && forall l :: i <= l < j ==> !InTree(cs[l], id)
    decreases |cs| - i
  {
    FindInTreeFindsExactly(cs[i], id);
    if FindInTree(cs[i], id).None? {
      FindTakesFirstChild(cs, id, i + 1);
    }
  }

  /** Removal and lookup agree on whether a model with the id is in the scene. */
  lemma RemoveAgreesWithFind(cs: seq<Node>, id: int)
    ensures RemoveIn(cs, id).0 <==> FindIn(cs, id).Some?
  {
    RemoveFindsExactly(cs, id);
    FindFindsExactly(cs, id);
  }

  // ---------------------------------------------------------------------------
  // The collision tick
  // ---------------------------------------------------------------------------

  /** The per-model passes the scene runs over its top-level models. */
  datatype Pass = ComputeMatrices | CallFrameCallbacks | CallGazeCallbacks | UpdateCollisionObjects | FinishCollisions

  /** A call the scene makes into a model or the physics world. */
  datatype Call =
    | Visit(pass: Pass, model: int)
    | StepSimulation(dt: real, maxSubSteps: nat, fixedTimeStep: real)
    | CollidedWith(model: int, other: int)
    | SceneSet(model: int, attached: bool)
    | StartCollisions(model: int)
    | StopCollisions(model: int)

  /** The fixed physics step, 1/60 of a second. */
  const TICK_TIME: real := 1.0 / 60.0

  /** The most fixed substeps the physics world may take in one step. */
  const MAX_SUB_STEPS: nat := 3

  /** The time the simulation advances by: a fixed step on the first tick, the elapsed time afterwards. */
  function StepTime(lastCollisionTick: real, now: real): real
  {
    if lastCollisionTick == 0.0 then TICK_TIME else now - lastCollisionTick
  }

  /** One pass over the top-level models, in order. */
  function Visits(pass: Pass, cs: seq<Node>): (r: seq<Call>)
    ensures |r| == |cs|
    ensures forall k :: 0 <= k < |cs| ==> r[k] == Visit(pass, cs[k].id)
  {
    seq(|cs|, k requires 0 <= k < |cs| => Visit(pass, cs[k].id))
  }

  /** The contact dispatch: each pair of colliding models is told of the contact in both directions. */
  function Contacts(pairs: seq<(int, int)>): (r: seq<Call>)
  {
    if |pairs| == 0 then []
    else
      var p := pairs[|pairs| - 1];
      Contacts(pairs[..|pairs| - 1]) + [CollidedWith(p.0, p.1), CollidedWith(p.1, p.0)]
  }

  /** The calls one collision tick makes. */
  function TickCalls(cs: seq<Node>, lastCollisionTick: real, now: real, pairs: seq<(int, int)>): seq<Call>
  {
    Visits(UpdateCollisionObjects, cs) + [StepSimulation(StepTime(lastCollisionTick, now), MAX_SUB_STEPS, TICK_TIME)]
      + Contacts(pairs) + Visits(FinishCollisions, cs)
  }

  /** Pair `k` yields the calls at `2k` (first model told of the second) and `2k + 1` (the reverse). */
  lemma {:induction false} ContactsInBothDirections(pairs: seq<(int, int)>)
    ensures |Contacts(pairs)| == 2 * |pairs|
    ensures forall k :: 0 <= k < |pairs| ==>
              Contacts(pairs)[2 * k] == CollidedWith(pairs[k].0, pairs[k].1) &&
              Contacts(pairs)[2 * k + 1] == CollidedWith(pairs[k].1, pairs[k].0)
  {
    if |pairs| > 0 {
      var front := pairs[..|pairs| - 1];
      ContactsInBothDirections(front);
      forall k | 0 <= k < |pairs|
        ensures Contacts(pairs)[2 * k] == CollidedWith(pairs[k].0, pairs[k].1)
        ensures Contacts(pairs)[2 * k + 1] == CollidedWith(pairs[k].1, pairs[k].0)
      {
        if k < |front| {
          assert pairs[k] == front[k];
        }
      }
    }
  }

  /** The phase a call belongs to within one tick. */
  function Phase(c: Call): nat
  {
    match c
    case Visit(UpdateCollisionObjects, _) => 0
    case StepSimulation(_, _, _) => 1
    case CollidedWith(_, _) => 2
    case _ => 3
  }

  lemma {:induction false} ContactsArePhaseTwo(pairs: seq<(int, int)>)
    ensures forall k :: 0 <= k < |Contacts(pairs)| ==> Phase(Contacts(pairs)[k]) == 2
  {
    if |pairs| > 0 {
      ContactsArePhaseTwo(pairs[..|pairs| - 1]);
    }
  }

  /**
   * Within a tick every update precedes the single physics step, which
   * precedes every contact call, which precede every finish call; each
   * top-level model is updated and finished exactly once.
   */
  lemma TickOrder(cs: seq<Node>, lastCollisionTick: real, now: real, pairs: seq<(int, int)>)
    ensures var t := TickCalls(cs, lastCollisionTick, now, pairs);
      && |t| == 2 * |cs| + 1 + 2 * |pairs|
      && (forall i, j :: 0 <= i < j < |t| ==> Phase(t[i]) <= Phase(t[j]))
      && (forall i :: 0 <= i < |t| ==> (t[i].StepSimulation? <==> i == |cs|))
      && t[|cs|] == StepSimulation(StepTime(lastCollisionTick, now), MAX_SUB_STEPS, TICK_TIME)
      && (forall k :: 0 <= k < |cs| ==>
            t[k] == Visit(UpdateCollisionObjects, cs[k].id) && t[|t| - |cs| + k] == Visit(FinishCollisions, cs[k].id))
  {
    var t := TickCalls(cs, lastCollisionTick, now, pairs);
    ContactsInBothDirections(pairs);
    ContactsArePhaseTwo(pairs);
    var c := Contacts(pairs);
    var n := |cs|;
    assert forall i :: 0 <= i < |t| ==> Phase(t[i]) == (if i < n then 0 else if i == n then 1 else if i <= n + |c| then 2 else 3) by {
      forall i | 0 <= i < |t|
        ensures Phase(t[i]) == (if i < n then 0 else if i == n then 1 else if i <= n + |c| then 2 else 3)
      {
        if n < i <= n + |c| {
          assert t[i] == c[i - n - 1];
        }
      }
    }
  }

  /** The step times of successive ticks at `times`, starting from `lastCollisionTick`. */
  function Steps(lastCollisionTick: real, times: seq<real>): (r: seq<real>)
    ensures |r| == |times|
    decreases |times|
  {
    if |times| == 0 then []
    else [StepTime(lastCollisionTick, times[0])] + Steps(times[0], times[1..])
  }

  function Sum(xs: seq<real>): real
  {
    if |xs| == 0 then 0.0 else xs[0] + Sum(xs[1..])
  }

  /**
   * Over ticks at nonzero times, the step times requested of the physics
   * world add up to the fixed first step plus the time elapsed between the
   * first and the last tick.
   */
  lemma SimulatedTime(times: seq<real>)
    requires |times| > 0 && forall k :: 0 <= k < |times| ==> times[k] != 0.0
    ensures Sum(Steps(0.0, times)) == TICK_TIME + times[|times| - 1] - times[0]
  {
    ElapsedSince(times[0], times[1..]);
  }

  /** After a tick at `last`, the step times requested by later ticks add up to the time elapsed since. */
  lemma {:induction false} ElapsedSince(last: real, times: seq<real>)
    requires last != 0.0 && forall k :: 0 <= k < |times| ==> times[k] != 0.0
    ensures Sum(Steps(last, times)) == (if |times| == 0 then 0.0 else times[|times| - 1] - last)
    decreases |times|
  {
    if |times| > 0 {
      ElapsedSince(times[0], times[1..]);
    }
  }

  // ---------------------------------------------------------------------------
  // The scene object
  // ---------------------------------------------------------------------------

  const WHITE: seq<real> := [1.0, 1.0, 1.0, 1.0]

  class Scene {
    /** The top-level models, in insertion order. */
    var children: seq<Node>
    var clearColor: Value
    var lastCollisionTick: real
    /** Every call made into a model or the physics world so far, in order. */
    var calls: seq<Call>

    /** A new scene: no models, a white clear colour, no collision tick yet. */
    constructor ()
      ensures children == [] && calls == []
      ensures clearColor == Vector(WHITE) && lastCollisionTick == 0.0
    {
      children := [];
      clearColor := Vector(WHITE);
      lastCollisionTick := 0.0;
      calls := [];
    }

    /** Removes the model with `id`: a direct child if one matches, otherwise the first match deeper down. */
    method RemoveModel(id: int) returns (found: bool)
      modifies this
      ensures (found, children) == RemoveIn(old(children), id)
      ensures calls == old(calls) && clearColor == old(clearColor) && lastCollisionTick == old(lastCollisionTick)
    {
      var idx := -1;
      var i := 0;
      while i < |children|
        invariant 0 <= i <= |children|
        invariant forall j :: 0 <= j < i ==> children[j].id != id
      {
        if children[i].id == id {
          idx := i;
          break;
        }
        i := i + 1;
      }
      if idx != -1 {
        RemoveDirectChild(children, id, idx);
        children := children[..idx] + children[idx + 1..];
        return true;
      }
      assert DirectIndex(children, id) == -1;
      i := 0;
      while i < |children|
        invariant 0 <= i <= |children| && children == old(children)
        invariant RemoveIn(children, id) == RemoveDeep(children, id, i)
      {
        var sub := RemoveIn(children[i].children, id);
        if sub.0 {
          children := children[i := Node(children[i].id, sub.1)];
          return true;
        }
        i := i + 1;
      }
      return false;
    }

    /** The model with `id`: the first top-level model whose own lookup finds it. */
    method ModelById(id: int) returns (r: Option<Node>)
      ensures r == FindIn(children, id)
    {
      var i := 0;
      while i < |children|
        invariant 0 <= i <= |children|
        invariant FindIn(children, id) == FindFrom(children, id, i)
      {
        var model := FindInTree(children[i], id);
        if model.Some? {
          return model;
        }
        i := i + 1;
      }
      return None;
    }

    /** Runs `pass` on each top-level model, in order. */
    method Broadcast(pass: Pass)
      modifies this
      ensures calls == old(calls) + Visits(pass, children)
      ensures children == old(children) && clearColor == old(clearColor) && lastCollisionTick == old(lastCollisionTick)
    {
      var i := 0;
      while i < |children|
        invariant 0 <= i <= |children|
        invariant calls == old(calls) + Visits(pass, children[..i])
        invariant children == old(children) && clearColor == old(clearColor) && lastCollisionTick == old(lastCollisionTick)
      {
        calls := calls + [Visit(pass, children[i].id)];
        i := i + 1;
        assert Visits(pass, children[..i]) == Visits(pass, children[..i - 1]) + [Visit(pass, children[i - 1].id)];
      }
      assert children[..i] == children;
    }

    /** Computes each top-level model's matrix, from the identity transform. */
    method ComputeMatrices()
      modifies this
      ensures calls == old(calls) + Visits(Pass.ComputeMatrices, children)
      ensures children == old(children) && clearColor == old(clearColor) && lastCollisionTick == old(lastCollisionTick)
    {
      Broadcast(Pass.ComputeMatrices);
    }

    method CallFrameCallbacks()
      modifies this
      ensures calls == old(calls) + Visits(Pass.CallFrameCallbacks, children)
      ensures children == old(children) && clearColor == old(clearColor) && lastCollisionTick == old(lastCollisionTick)
    {
      Broadcast(Pass.CallFrameCallbacks);
    }

    method CallGazeCallbacks()
      modifies this
      ensures calls == old(calls) + Visits(Pass.CallGazeCallbacks, children)
      ensures children == old(children) && clearColor == old(clearColor) && lastCollisionTick == old(lastCollisionTick)
    {
      Broadcast(Pass.CallGazeCallbacks);
    }

    /**
     * One collision tick at time `now`. `manifolds` are the pairs of model ids
     * the physics world reports in contact after the step; the source looks
     * both models up and dereferences them unchecked, so both must be in the
     * scene.
     */
    method PerformCollisionDetection(now: real, manifolds: seq<(int, int)>)
      requires forall k :: 0 <= k < |manifolds| ==>
                 FindIn(children, manifolds[k].0).Some? && FindIn(children, manifolds[k].1).Some?
      modifies this
      ensures calls == old(calls) + TickCalls(old(children), old(lastCollisionTick), now, manifolds)
      ensures lastCollisionTick == now
      ensures children == old(children) && clearColor == old(clearColor)
    {
      Broadcast(UpdateCollisionObjects);
      var dt;
      if lastCollisionTick == 0.0 {
        dt := TICK_TIME;
      } else {
        dt := now - lastCollisionTick;
      }
      calls := calls + [StepSimulation(dt, MAX_SUB_STEPS, TICK_TIME)];
      lastCollisionTick := now;
      ghost var afterStep := calls;
      var i := 0;
      while i < |manifolds|
        invariant 0 <= i <= |manifolds| && lastCollisionTick == now
        invariant children == old(children) && clearColor == old(clearColor)
        invariant calls == afterStep + Contacts(manifolds[..i])
      {
        var modelA := ModelById(manifolds[i].0);
        var modelB := ModelById(manifolds[i].1);
        FindFindsExactly(children, manifolds[i].0);
        FindFindsExactly(children, manifolds[i].1);
        calls := calls + [CollidedWith(modelA.value.id, modelB.value.id), CollidedWith(modelB.value.id, modelA.value.id)];
        i := i + 1;
        assert manifolds[..i][..i - 1] == manifolds[..i - 1];
      }
      assert manifolds[..i] == manifolds;
      Broadcast(FinishCollisions);
    }

    /**
     * scene.add(model): exactly one object argument, the model it wraps
     * looked up in `models`. Marks the model as in this scene, starts its
     * collisions and appends it to the top-level models.
     */
    method Add(args: seq<Value>, models: map<nat, Node>) returns (r: Status)
      requires |args| == 1 && args[0].IsObject() ==> args[0].Obj? && args[0].handle in models
      modifies this
      ensures |args| != 1 ==> r == Err(WrongArgumentCount(|args|, 1)) && children == old(children) && calls == old(calls)
      ensures |args| == 1 && !args[0].IsObject() ==>
                r == Err(Reported("Expected add to take a model argument")) && children == old(children) && calls == old(calls)
      ensures |args| == 1 && args[0].IsObject() ==>
                var m := models[args[0].handle];
                && r == Ok(())
                && children == old(children) + [m]
                && calls == old(calls) + [SceneSet(m.id, true), StartCollisions(m.id)]
      ensures clearColor == old(clearColor) && lastCollisionTick == old(lastCollisionTick)
    {
      if |args| != 1 {
        return Err(WrongArgumentCount(|args|, 1));
      }
      if !args[0].IsObject() {
        return Err(Reported("Expected add to take a model argument"));
      }
      var model := models[args[0].handle];
      calls := calls + [SceneSet(model.id, true)];
      calls := calls + [StartCollisions(model.id)];
      children := children + [model];
      return Ok(());
    }

    /**
     * scene.remove(model): the model is detached from the scene and its
     * collisions stopped before the search, so both happen even when the
     * model is not found and an error is reported.
     */
    method Remove(args: seq<Value>, models: map<nat, Node>) returns (r: Status)
      requires |args| == 1 && args[0].IsObject() ==> args[0].Obj? && args[0].handle in models
      modifies this
      ensures |args| != 1 ==> r == Err(WrongArgumentCount(|args|, 1)) && children == old(children) && calls == old(calls)
      ensures |args| == 1 && !args[0].IsObject() ==>
                r == Err(Reported("Expected remove to take a model argument")) && children == old(children) && calls == old(calls)
      ensures |args| == 1 && args[0].IsObject() ==>
                var m := models[args[0].handle];
                && calls == old(calls) + [SceneSet(m.id, false), StopCollisions(m.id)]
                && (RemoveIn(old(children), m.id).0 ==> r == Ok(()) && children == RemoveIn(old(children), m.id).1)
                && (!RemoveIn(old(children), m.id).0 ==> r == Err(Reported("Could not find model to remove")) && children == old(children))
      ensures clearColor == old(clearColor) && lastCollisionTick == old(lastCollisionTick)
    {
      if |args| != 1 {
        return Err(WrongArgumentCount(|args|, 1));
      }
      if !args[0].IsObject() {
        return Err(Reported("Expected remove to take a model argument"));
      }
      var model := models[args[0].handle];
      calls := calls + [SceneSet(model.id, false)];
      calls := calls + [StopCollisions(model.id)];
      var found := RemoveModel(model.id);
      RemoveFindsExactly(old(children), model.id);
      if !found {
        return Err(Reported("Could not find model to remove"));
      }
      return Ok(());
    }

    /** scene.setClearColor(color): exactly one object argument, which replaces the clear colour. */
    method SetClearColor(args: seq<Value>) returns (r: Status)
      modifies this
      ensures |args| != 1 ==> r == Err(WrongArgumentCount(|args|, 1)) && clearColor == old(clearColor)
      ensures |args| == 1 && !args[0].IsObject() ==>
                r == Err(Reported("Expected add to take a geometry argument")) && clearColor == old(clearColor)
      ensures |args| == 1 && args[0].IsObject() ==> r == Ok(()) && clearColor == args[0]
      ensures children == old(children) && calls == old(calls) && lastCollisionTick == old(lastCollisionTick)
    {
      if |args| != 1 {
        return Err(WrongArgumentCount(|args|, 1));
      }
      if !args[0].IsObject() {
        return Err(Reported("Expected add to take a geometry argument"));
      }
      clearColor := args[0];
      return Ok(());
    }
  }
}
