/** The node execution protocol: one `Update` drives a node's worker by one step
    inside the tree context, maps the step to a tri-state `Result`, and resets the
    node when its run is over. The worker, a lazily resumed sequence of results in
    the original, is an explicit cursor `W` advanced by a step function. */
module ArborNode {
  import opened ArborTree
  import opened ArborOption

  datatype Result = Success | Working | Failure

  /** What advancing the worker by one step gives: a yielded result together with
      the worker's new position, the end of the sequence (no further value), or a
      fault raised by the worker's logic. */
  datatype Step<W> = Yield(result: Result, next: W) | End | Fault

  /** Diagnostics a node reports; reporting never interrupts execution. */
  datatype Report = InittedTwice | NotInitted | Exception | WorkerDidNotExit

  /** The node's own execution state. `cursor` is the worker in flight (None when
      no worker has been started since the last reset); the two counters record how
      often the `InitFields` and `ResetFields` hooks ran. */
  datatype NodeState<W> = NodeState(
    cursor: Option<W>,
    initted: bool,
    initFieldsRuns: nat,
    resetFieldsRuns: nat,
    reports: seq<Report>)

  /** What one `Update` produces: its result, the node and tree afterwards, and the
      call stack as the worker saw it while it stepped. */
  datatype Ticked<W> = Ticked(result: Result, node: NodeState<W>, tree: TreeState, stepStack: seq<object>)

  /** The reports a node is owed for an `Update` whose worker step was `s`. */
  function StepReports<W>(s: Step<W>): (reports: seq<Report>)
  {
    match s
    case Yield(_, _) => []
    case End => [WorkerDidNotExit]
    case Fault => [Exception, WorkerDidNotExit]
  }

  /** `Init`: runs the `InitFields` hook and marks the node initialised; a repeated
      call is reported but otherwise proceeds the same way. */
  function InitSpec<W>(n: NodeState<W>): (m: NodeState<W>)
    ensures m.initted
    ensures m.initFieldsRuns == n.initFieldsRuns + 1
    ensures m.reports == n.reports + (if n.initted then [InittedTwice] else [])
    ensures m.cursor == n.cursor && m.resetFieldsRuns == n.resetFieldsRuns
  {
    var reported := if n.initted then n.(reports := n.reports + [InittedTwice]) else n;
    reported.(initFieldsRuns := n.initFieldsRuns + 1, initted := true)
  }

  /** `Reset`: with no worker in flight nothing happens; otherwise the worker is
      discarded and the `ResetFields` hook runs once. */
  function ResetSpec<W>(n: NodeState<W>): (m: NodeState<W>)
    ensures m.cursor == None
    ensures n.cursor == None ==> m == n
    ensures n.cursor != None ==> m.resetFieldsRuns == n.resetFieldsRuns + 1
    ensures m.initted == n.initted && m.initFieldsRuns == n.initFieldsRuns && m.reports == n.reports
  {
    if n.cursor == None then n
    else n.(cursor := None, resetFieldsRuns := n.resetFieldsRuns + 1)
  }

  /** The worker position a step starts from: the one in flight, or a freshly
      created worker when none is. */
  function Resume<W>(start: W, cursor: Option<W>): (w: W)
  {
    if cursor.Some? then cursor.value else start
  }

  /** `Update` of node `self` (initial worker position `start`, step function
      `step`) in tree context `t`, where `world` stands for whatever the worker
      observes of code outside the model during this step. */
  function UpdateSpec<W, I>(self: object, start: W, step: (W, I) -> Step<W>, n: NodeState<W>, t: TreeState, world: I): (out: Ticked<W>)
    // the node is on top of the stack while its worker steps, and popped afterwards
    ensures out.stepStack == t.stack + [self]
    ensures out.tree.stack == t.stack
    // one new active slot at index |t.active|, holding the node exactly while it is Working
    ensures |out.tree.active| == |t.active| + 1
    ensures out.tree.active[..|t.active|] == t.active
    ensures out.tree.active[|t.active|] == (if out.result == Working then self else null)
    // the result is what the worker yielded; a worker that ended or faulted fails
    ensures match step(Resume(start, n.cursor), world)
            case Yield(r, next) => out.result == r && (r == Working ==> out.node.cursor == Some(next))
            case _ => out.result == Failure
    // a node stays in flight exactly while Working; otherwise it has been reset
    ensures out.result == Working ==> out.node.cursor != None && out.node.resetFieldsRuns == n.resetFieldsRuns
    ensures out.result != Working ==> out.node.cursor == None && out.node.resetFieldsRuns == n.resetFieldsRuns + 1
    ensures out.node.initted == n.initted && out.node.initFieldsRuns == n.initFieldsRuns
    ensures out.node.reports == n.reports + (if n.initted then [] else [NotInitted])
                                          + StepReports(step(Resume(start, n.cursor), world))
  {
    var checked := if n.initted then n else n.(reports := n.reports + [NotInitted]);
    var pushed := TreeState(t.stack + [self], t.active + [self]);
    var activeIndex := |t.active|;
    var w := Resume(start, n.cursor);
    var s := step(w, world);
    var stepped := match s
      case Yield(_, next) => checked.(cursor := Some(next))
      case End => checked.(cursor := Some(w))
      case Fault => checked.(cursor := Some(w), reports := checked.reports + [Exception]);
    var popped := pushed.(stack := pushed.stack[..|pushed.stack| - 1]);
    if !s.Yield? then
      var failed := stepped.(reports := stepped.reports + [WorkerDidNotExit]);
      Ticked(Failure, ResetSpec(failed), popped.(active := popped.active[activeIndex := null]), pushed.stack)
    else if s.result != Working then
      Ticked(s.result, ResetSpec(stepped), popped.(active := popped.active[activeIndex := null]), pushed.stack)
    else
      Ticked(Working, stepped, popped, pushed.stack)
  }

  /** Consecutive `Update` calls of one node in one tree context, one per element
      of `worlds`: the results in order and the final node and tree. */
  function Run<W, I>(self: object, start: W, step: (W, I) -> Step<W>, n: NodeState<W>, t: TreeState, worlds: seq<I>)
    : (out: (seq<Result>, NodeState<W>, TreeState))
    ensures |out.0| == |worlds|
    ensures out.2.stack == t.stack
    ensures |out.2.active| == |t.active| + |worlds|
    ensures out.2.active[..|t.active|] == t.active
    ensures forall k :: 0 <= k < |worlds| ==>
              out.2.active[|t.active| + k] == (if out.0[k] == Working then self else null)
    ensures out.1.cursor != None <==> if worlds == [] then n.cursor != None else out.0[|worlds| - 1] == Working
    // the ResetFields hook runs once per tick that ended a run, and Init is never replayed
    ensures out.1.resetFieldsRuns == n.resetFieldsRuns + Terminals(out.0)
    ensures out.1.initted == n.initted && out.1.initFieldsRuns == n.initFieldsRuns
    decreases |worlds|
  {
    if worlds == [] then ([], n, t)
    else
      var first := UpdateSpec(self, start, step, n, t, worlds[0]);
      var rest := Run(self, start, step, first.node, first.tree, worlds[1..]);
      assert rest.2.active[..|t.active|] == rest.2.active[..|first.tree.active|][..|t.active|];
      assert ([first.result] + rest.0)[1..] == rest.0;
      ([first.result] + rest.0, rest.1, rest.2)
  }

  /** How many of the results `rs` end a run (Success or Failure). */
  function Terminals(rs: seq<Result>): (count: nat)
  {
    if rs == [] then 0 else (if rs[0] == Working then 0 else 1) + Terminals(rs[1..])
  }

  /** Attaching callback `d` to event `key` of an event table that may not exist yet. */
  function AttachEvent<K, D>(table: Option<map<K, seq<D>>>, key: K, d: D): (r: map<K, seq<D>>)
    ensures key in r && r[key] == EventsOf(table, key) + [d]
    ensures r.Keys == TableOf(table).Keys + {key}
    ensures forall k :: k in TableOf(table) && k != key ==> r[k] == TableOf(table)[k]
  {
    var m := TableOf(table);
    var actions := if key in m then m[key] else [];
    m[key := actions + [d]]
  }

  /** Attaching value `v` to property `key` of a property table that may not exist yet. */
  function AttachProperty<K, V>(table: Option<map<K, V>>, key: K, v: V): (r: map<K, V>)
    ensures key in r && r[key] == v
    ensures r.Keys == TableOf(table).Keys + {key}
    ensures forall k :: k in TableOf(table) && k != key ==> r[k] == TableOf(table)[k]
  {
    TableOf(table)[key := v]
  }

  /** A table that was never created reads as empty. */
  function TableOf<K, V>(table: Option<map<K, V>>): (m: map<K, V>)
  {
    if table.Some? then table.value else map[]
  }

  /** The callbacks attached to `key`, in attachment order. */
  function EventsOf<K, D>(table: Option<map<K, seq<D>>>, key: K): (events: seq<D>)
  {
    var m := TableOf(table);
    if key in m then m[key] else []
  }

  /** A second `Reset` changes nothing: the hook runs at most once per run. */
  lemma ResetIdempotent<W>(n: NodeState<W>)
    ensures ResetSpec(ResetSpec(n)) == ResetSpec(n)
    ensures ResetSpec(n).resetFieldsRuns <= n.resetFieldsRuns + 1
  {
  }

  /** A repeated `Init` is reported once, runs the hook a second time and leaves
      the node initialised. */
  lemma InitTwice<W>(n: NodeState<W>)
    requires !n.initted
    ensures InitSpec(InitSpec(n)).initted
    ensures InitSpec(InitSpec(n)).initFieldsRuns == n.initFieldsRuns + 2
    ensures InitSpec(InitSpec(n)).reports == n.reports + [InittedTwice]
  {
  }

  /** Event callbacks accumulate in attachment order, and attaching never loses one. */
  lemma AttachEventInOrder<K, D>(table: Option<map<K, seq<D>>>, key: K, d1: D, d2: D)
    ensures EventsOf(Some(AttachEvent(Some(AttachEvent(table, key, d1)), key, d2)), key)
            == EventsOf(table, key) + [d1, d2]
  {
  }

  /** The last value attached to a property wins. */
  lemma AttachPropertyLastWins<K, V>(table: Option<map<K, V>>, key: K, v1: V, v2: V)
    ensures AttachProperty(Some(AttachProperty(table, key, v1)), key, v2) == AttachProperty(table, key, v2)
  {
  }

  /** Two nodes with the same worker in flight behave alike from here on, whatever
      their initialisation history, whichever objects they are and whichever tree
      contexts they run in: the results and the workers left in flight agree, and
      the same object in the same tree context also leaves the same tree context
      behind. This is what lets a node restored from its record, a new object,
      resume where the recorded one stopped. */
  lemma {:induction false} RunDependsOnlyOnCursor<W, I>(start: W, step: (W, I) -> Step<W>,
                                                       self1: object, n1: NodeState<W>, t1: TreeState,
                                                       self2: object, n2: NodeState<W>, t2: TreeState, worlds: seq<I>)
    requires n1.cursor == n2.cursor
    ensures Run(self1, start, step, n1, t1, worlds).0 == Run(self2, start, step, n2, t2, worlds).0
    ensures Run(self1, start, step, n1, t1, worlds).1.cursor == Run(self2, start, step, n2, t2, worlds).1.cursor
    ensures self1 == self2 && t1 == t2 ==> Run(self1, start, step, n1, t1, worlds).2 == Run(self2, start, step, n2, t2, worlds).2
    decreases |worlds|
  {
    if worlds != [] {
      var first1 := UpdateSpec(self1, start, step, n1, t1, worlds[0]);
      var first2 := UpdateSpec(self2, start, step, n2, t2, worlds[0]);
      RunDependsOnlyOnCursor(start, step, self1, first1.node, first1.tree, self2, first2.node, first2.tree, worlds[1..]);
    }
  }

  /** What a node's record holds: the worker in flight and the two attachment tables. */
  datatype Snapshot<W> = Snapshot(cursor: Option<W>, eventActions: Option<map<object, seq<object?>>>, properties: Option<map<object, object?>>)

  /** A node whose worker is the cursor `start` advanced by `step`, with `I` the
      type of what the worker observes outside the model during one step. */
  class Node<W, I> {
    const start: W
    const step: (W, I) -> Step<W>

    var cursor: Option<W>
    var eventActions: Option<map<object, seq<object?>>>
    var properties: Option<map<object, object?>>
    var initted: bool

    ghost var initFieldsRuns: nat
    ghost var resetFieldsRuns: nat
    ghost var reports: seq<Report>
    /** The tree's call stack as the worker last saw it while stepping. */
    ghost var stackDuringStep: seq<object>

    ghost function State(): NodeState<W>
      reads this
    {
      NodeState(cursor, initted, initFieldsRuns, resetFieldsRuns, reports)
    }

    /** A node as the construction system hands it over: not initialised, no worker
        in flight, no attachments. */
    constructor (start: W, step: (W, I) -> Step<W>)
      ensures this.start == start && this.step == step
      ensures State() == NodeState(None, false, 0, 0, [])
      ensures eventActions == None && properties == None
    {
      this.start := start;
      this.step := step;
      cursor := None;
      eventActions := None;
      properties := None;
      initted := false;
      initFieldsRuns := 0;
      resetFieldsRuns := 0;
      reports := [];
      stackDuringStep := [];
    }

    method Init()
      modifies this
      ensures State() == InitSpec(old(State()))
      ensures eventActions == old(eventActions) && properties == old(properties)
      ensures stackDuringStep == old(stackDuringStep)
    {
      if initted {
        reports := reports + [InittedTwice];
      }
      InitFields();
      initted := true;
    }

    /** The `InitFields` hook; its body is empty, so only the call is recorded. */
    method InitFields()
      modifies this
      ensures initFieldsRuns == old(initFieldsRuns) + 1
      ensures cursor == old(cursor) && initted == old(initted) && reports == old(reports)
      ensures resetFieldsRuns == old(resetFieldsRuns) && stackDuringStep == old(stackDuringStep)
      ensures eventActions == old(eventActions) && properties == old(properties)
    {
      initFieldsRuns := initFieldsRuns + 1;
    }

    method Update(tree: Tree, world: I) returns (r: Result)
      modifies this, tree
      ensures var out := UpdateSpec(this, start, step, old(State()), old(tree.State()), world);
              r == out.result && State() == out.node && tree.State() == out.tree
              && stackDuringStep == out.stepStack
      ensures eventActions == old(eventActions) && properties == old(properties)
    {
      if !initted {
        reports := reports + [NotInitted];
      }

      tree.stack := tree.stack + [this];

      // the node's slot in the active list, in call order
      var activeIndex := |tree.active|;
      tree.active := tree.active + [this];

      var moved: bool;
      if cursor == None {
        cursor := Some(start);
      }
      var s := step(cursor.value, world);
      stackDuringStep := tree.stack;
      match s {
        case Yield(_, next) =>
          cursor := Some(next);
          moved := true;
        case End =>
          moved := false;
        case Fault =>
          reports := reports + [Exception];
          moved := false;
      }
      tree.stack := tree.stack[..|tree.stack| - 1];

      if !moved {
        reports := reports + [WorkerDidNotExit];
        Reset();
        tree.active := tree.active[activeIndex := null];
        return Failure;
      }

      var result := s.result;
      if result != Working {
        Reset();
        tree.active := tree.active[activeIndex := null];
      }
      return result;
    }

    method EventAttach(key: object, callback: object?)
      modifies this
      ensures eventActions == Some(AttachEvent(old(eventActions), key, callback))
      ensures State() == old(State()) && properties == old(properties)
      ensures stackDuringStep == old(stackDuringStep)
    {
      if eventActions == None {
        eventActions := Some(map[]);
      }
      var table: map<object, seq<object?>> := eventActions.value;
      ghost var created := table;
      var actions: seq<object?>;
      if key in table {
        actions := table[key];
      } else {
        actions := [];
        table := table[key := actions];
      }
      assert table[key := actions + [callback]] == created[key := actions + [callback]];
      eventActions := Some(table[key := actions + [callback]]);
    }

    method PropertyAttach(key: object, data: object?)
      modifies this
      ensures properties == Some(AttachProperty(old(properties), key, data))
      ensures State() == old(State()) && eventActions == old(eventActions)
      ensures stackDuringStep == old(stackDuringStep)
    {
      if properties == None {
        properties := Some(map[]);
      }
      properties := Some(properties.value[key := data]);
    }

    method Reset()
      modifies this
      ensures State() == ResetSpec(old(State()))
      ensures eventActions == old(eventActions) && properties == old(properties)
      ensures stackDuringStep == old(stackDuringStep)
    {
      // already done, nothing to discard
      if cursor == None {
        return;
      }
      cursor := None;
      ResetFields();
    }

    /** The `ResetFields` hook; its body is empty, so only the call is recorded. */
    method ResetFields()
      modifies this
      ensures resetFieldsRuns == old(resetFieldsRuns) + 1
      ensures cursor == old(cursor) && initted == old(initted) && reports == old(reports)
      ensures initFieldsRuns == old(initFieldsRuns) && stackDuringStep == old(stackDuringStep)
      ensures eventActions == old(eventActions) && properties == old(properties)
    {
      resetFieldsRuns := resetFieldsRuns + 1;
    }

    /** The state a node's record captures. */
    function Capture(): (snap: Snapshot<W>)
      reads this
      ensures snap.cursor == cursor && snap.eventActions == eventActions && snap.properties == properties
    {
      Snapshot(cursor, eventActions, properties)
    }

    /** Reading a node back from its record: the recorded state replaces the live
        one, and the node counts as initialised without `Init` being run. */
    method Restore(snap: Snapshot<W>)
      modifies this
      ensures Capture() == snap && initted
      ensures initFieldsRuns == old(initFieldsRuns) && resetFieldsRuns == old(resetFieldsRuns)
      ensures reports == old(reports) && stackDuringStep == old(stackDuringStep)
    {
      cursor := snap.cursor;
      eventActions := snap.eventActions;
      properties := snap.properties;
      initted := true;
    }
  }
}
