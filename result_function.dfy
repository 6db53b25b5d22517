/** `ResultFunction`, the concrete node of the test utilities: its worker loops
    forever, yielding on each step whatever its `condition` callback answers. The
    callback is code outside the model, so its answer on a tick is the input the
    worker observes during that tick's step. */
module ResultFunctionTest {
  import opened ArborTree
  import opened ArborNode
  import opened ArborOption

  /** The worker's only suspension point: the `yield` inside its endless loop.
      The worker keeps no other local state. */
  datatype Loop = InLoop

  /** What the `condition` callback does when called: it returns a result, or it
      throws (a null callback throws too). */
  datatype Answer = Returns(r: Result) | Throws

  /** The result an `Update` reports for a tick on which the callback answered `a`. */
  function Echo(a: Answer): (r: Result)
    ensures a.Returns? ==> r == a.r
    ensures a.Throws? ==> r == Failure
  {
    if a.Returns? then a.r else Failure
  }

  /** One step of the worker: it yields what the callback returned, or faults with
      the exception the callback threw. The loop never ends. */
  function WorkerStep(w: Loop, condition: Answer): (s: Step<Loop>)
    ensures s != End
    ensures condition.Returns? ==> s == Yield(condition.r, InLoop)
    ensures condition.Throws? ==> s == Fault
  {
    match condition
    case Returns(r) => Yield(r, InLoop)
    case Throws => Fault
  }

  /** A `ResultFunction` node, fresh from construction. */
  method NewResultFunction() returns (node: Node<Loop, Answer>)
    ensures fresh(node)
    ensures node.start == InLoop && node.step == WorkerStep
    ensures node.State() == NodeState(None, false, 0, 0, [])
  {
    node := new Node(InLoop, WorkerStep);
  }

  /** An `Update` on a tick where the callback returns gives exactly what it
      returned; the worker never ends, so the "did not exit properly" path is never
      taken and the only possible report is for an uninitialised node. */
  lemma UpdateEchoesCondition(self: object, n: NodeState<Loop>, t: TreeState, condition: Result)
    ensures UpdateSpec(self, InLoop, WorkerStep, n, t, Returns(condition)).result == condition
    ensures UpdateSpec(self, InLoop, WorkerStep, n, t, Returns(condition)).node.reports
            == n.reports + (if n.initted then [] else [NotInitted])
  {
  }

  /** An `Update` on a tick where the callback throws fails: the exception is
      reported together with the worker not exiting properly, the node is reset and
      its active slot cleared. */
  lemma UpdateOnThrowingCondition(self: object, n: NodeState<Loop>, t: TreeState)
    ensures var out := UpdateSpec(self, InLoop, WorkerStep, n, t, Throws);
            && out.result == Failure
            && out.node.reports == n.reports + (if n.initted then [] else [NotInitted]) + [Exception, WorkerDidNotExit]
            && out.node.cursor == None
            && out.tree.active == t.active + [null]
  {
  }

  /** After a terminal result the worker is discarded and the next `Update` starts
      a fresh one; as the worker keeps no state, that is indistinguishable from
      continuing the old one. */
  lemma RestartIsContinuation(self: object, n: NodeState<Loop>, t: TreeState, condition: Answer)
    ensures UpdateSpec(self, InLoop, WorkerStep, n.(cursor := None), t, condition)
            == UpdateSpec(self, InLoop, WorkerStep, n.(cursor := Some(InLoop)), t, condition)
  {
  }

  /** Over any number of ticks, the node's results are the callback's answers
      tick by tick, with Failure for every tick on which it threw. */
  lemma {:induction false} RunEchoesConditions(self: object, n: NodeState<Loop>, t: TreeState, conditions: seq<Answer>)
    ensures var results := Run(self, InLoop, WorkerStep, n, t, conditions).0;
            |results| == |conditions| && forall k :: 0 <= k < |conditions| ==> results[k] == Echo(conditions[k])
    decreases |conditions|
  {
    if conditions != [] {
      var first := UpdateSpec(self, InLoop, WorkerStep, n, t, conditions[0]);
      match conditions[0] {
        case Returns(r) => UpdateEchoesCondition(self, n, t, r);
        case Throws => UpdateOnThrowingCondition(self, n, t);
      }
      RunEchoesConditions(self, first.node, first.tree, conditions[1..]);
      var rest := Run(self, InLoop, WorkerStep, first.node, first.tree, conditions[1..]).0;
      assert Run(self, InLoop, WorkerStep, n, t, conditions).0 == [first.result] + rest;
    }
  }

  /** A callback answering Working, Working, Success, Working: the node works twice,
      succeeds, then auto-resets and starts working again. The active slots of the
      two Working ticks and the restarted one still hold the node; the slot of the
      Success tick was cleared. */
  method ResultFunctionScenario() returns (results: seq<Result>, live: seq<bool>)
    ensures results == [Working, Working, Success, Working]
    ensures live == [true, true, false, true]
  {
    var tree := new Tree();
    var node := NewResultFunction();
    node.Init();
    var r0 := node.Update(tree, Returns(Working));
    var r1 := node.Update(tree, Returns(Working));
    var r2 := node.Update(tree, Returns(Success));
    var r3 := node.Update(tree, Returns(Working));
    results := [r0, r1, r2, r3];
    live := [tree.active[0] != null, tree.active[1] != null, tree.active[2] != null, tree.active[3] != null];
  }

  /** A callback that returns Working and then throws: the first `Update` works,
      the second fails instead of propagating the exception, and the third starts a
      fresh worker. The node's slot is cleared only on the failing tick. */
  method ThrowingConditionScenario() returns (results: seq<Result>, live: seq<bool>)
    ensures results == [Working, Failure, Working]
    ensures live == [true, false, true]
  {
    var tree := new Tree();
    var node := NewResultFunction();
    node.Init();
    var r0 := node.Update(tree, Returns(Working));
    var r1 := node.Update(tree, Throws);
    var r2 := node.Update(tree, Returns(Working));
    results := [r0, r1, r2];
    live := [tree.active[0] != null, tree.active[1] != null, tree.active[2] != null];
  }
}
