# Arbor node execution core, modelled in Dafny

This project models the execution core of the Arbor behaviour-tree engine.

- **Node update protocol.** A node's `Update` does one tick of work. It pushes the node
  onto the tree's call stack. It appends the node to the tree's list of active nodes.
  It advances the node's worker by one step, starting the worker first if none is in
  flight. It pops the stack. The step then decides the tick's `Result`:
  - A worker that yields `Working` keeps its position and its active slot.
  - A worker that yields `Success` or `Failure` is reset, and its active slot is cleared.
  - A worker that ends or faults counts as `Failure`. The node is reset and its slot is cleared.
- **Node lifecycle.** `Init` marks a node initialised; `Reset` discards the worker in
  flight. Nodes also carry two lazily created attachment tables: event callbacks, which
  only grow by appending, and properties, which overwrite.
- **Blackboard parameters.** These are value handles naming a blackboard slot by scope
  (`"tree"`, `"global"` or caller-chosen) and key. Their accessors hand that identifier,
  unchanged, to a tree.
- **`ResultFunction`.** This is the test node whose worker loops forever, yielding
  whatever its condition callback answers.

How the model is built:

- **The worker** is an explicit cursor of type `W`. A step function `(W, I) -> Step<W>`
  advances it and answers `Yield(result, next)`, `End` or `Fault`, where `Fault` stands
  for an exception thrown by the worker. `I` is what the worker observes of code outside
  the model during one step. For `ResultFunction`, that is the condition callback's
  answer on that tick: it returns a result, or it throws (as a null callback does).
- **The tree context** is an explicit `Tree` object holding `stack` and `active`.
- **Pure and imperative layers.** Each operation has a pure specification function on
  values (`InitSpec`, `ResetSpec`, `UpdateSpec`, `AttachEvent`, `AttachProperty`). The
  class `Node` implements the same operations imperatively and is proved equal to those
  functions. `Run` chains `UpdateSpec` over several ticks. The properties are proved
  about these functions.
- **Hooks and diagnostics.** `InitFields` and `ResetFields` have empty bodies in the
  original, so the model only counts how often each runs, in ghost fields. Diagnostics
  are a ghost list of `Report`s.

Files: `option.dfy` (Option), `tree.dfy` (tree context), `node.dfy` (node protocol),
`blackboard_parameter.dfy` (blackboard parameters), `result_function.dfy` (`ResultFunction`).

A repeated `Init` reports an error and still reruns `InitFields` and sets the flag
(src/Node.cs:23-30); `InitSpec` and `InitTwice` model this.

## Model

| member | source | states |
|---|---|---|
| ArborNode.InitSpec | src/Node.cs:21-31 | Init always leaves the node initialised and runs InitFields exactly once. It reports an error only when the node was already initialised. The worker in flight is untouched. |
| ArborNode.InitTwice | src/Node.cs:21-31 | A second Init on a fresh node leaves it initialised. InitFields has run twice, and exactly one "initted multiple times" report was made. |
| ArborNode.ResetSpec | src/Node.cs:126-136 | After Reset no worker is in flight. With no worker in flight the node is unchanged and ResetFields does not run. Otherwise ResetFields runs exactly once. |
| ArborNode.ResetIdempotent | src/Node.cs:126-136 | A second Reset changes nothing, so ResetFields runs at most once per run. |
| ArborNode.UpdateSpec | src/Node.cs:33-96 | The worker steps with the node on top of the stack, and afterwards the stack is as before. The active list grows by one slot at the old length; earlier slots are untouched. That slot holds the node exactly when the result is Working. A yielded value is the result. End and Fault give Failure. The worker stays in flight (at its new position) exactly when Working. Otherwise ResetFields has run once. Reports: "not initted" when Update runs before Init, an exception report on Fault, and "did not exit properly" on End or Fault. |
| ArborNode.Run | src/Node.cs:33-96 | Over n consecutive Updates: n results, and the stack unchanged. The active list has n new slots, and slot k holds the node exactly when result k is Working. A worker is left in flight exactly when the last result is Working. ResetFields runs once per Success or Failure result. Init is never replayed. |
| ArborNode.RunDependsOnlyOnCursor | src/Node.cs:141-152 | Two nodes with the same worker in flight give the same results and leave the same worker in flight over any sequence of ticks. This holds whatever their initialisation history, even when they are different objects in different tree contexts. The same object in the same tree context also leaves the same tree context. So a node restored from a record into a new object resumes exactly as the recorded node would have. |
| ArborNode.AttachEvent | src/Node.cs:98-112 | The callback is appended to the end of its key's list; a missing table or list counts as empty. The keys are the old keys plus this one, and every other key's list is unchanged. |
| ArborNode.AttachEventInOrder | src/Node.cs:105-111 | Two attachments to one key append both callbacks, in attachment order, after those already there. |
| ArborNode.AttachProperty | src/Node.cs:114-122 | The key now maps to the new value; a missing table counts as empty. The keys are the old keys plus this one, and every other key keeps its value. |
| ArborNode.AttachPropertyLastWins | src/Node.cs:121 | Attaching twice to one key is the same as attaching only the second value. |
| ArborNode.Node.constructor | src/Node.cs:13-19 | A new node is not initialised and has no worker in flight, no attachment tables, and no hook runs or reports. |
| ArborNode.Node.Init | src/Node.cs:21-31 | The node's state becomes InitSpec of the old state; its attachments are unchanged. |
| ArborNode.Node.InitFields | src/Node.cs:138 | The empty hook: one more recorded run, nothing else changes. |
| ArborNode.Node.Update | src/Node.cs:33-96 | Returns the result of UpdateSpec of the old node and tree state. The new node state, the tree's stack and active list, and the stack the worker saw are exactly those of UpdateSpec. The attachments are unchanged. |
| ArborNode.Node.EventAttach | src/Node.cs:98-112 | The event table becomes AttachEvent of the old, possibly missing, table; nothing else changes. |
| ArborNode.Node.PropertyAttach | src/Node.cs:114-122 | The property table becomes AttachProperty of the old, possibly missing, table; nothing else changes. |
| ArborNode.Node.Reset | src/Node.cs:126-136 | The node's state becomes ResetSpec of the old state; its attachments are unchanged. |
| ArborNode.Node.ResetFields | src/Node.cs:139 | The empty hook: one more recorded run, nothing else changes. |
| ArborNode.Node.Capture | src/Node.cs:141-145 | A node's record holds exactly its worker in flight and its two attachment tables. |
| ArborNode.Node.Restore | src/Node.cs:141-152 | Reading a record replaces the worker and the tables with the recorded ones. It marks the node initialised without running InitFields. |
| Blackboard.Tree | src/BlackboardParameter.cs:20-23 | The parameter names key id in the "tree" scope. |
| Blackboard.Global | src/BlackboardParameter.cs:24-27 | The parameter names key id in the "global" scope. |
| Blackboard.Specific | src/BlackboardParameter.cs:28-31 | The parameter names key itemid in the caller's scope bbid. |
| Blackboard.SpecificCoversNamedScopes | src/BlackboardParameter.cs:20-31 | Specific("tree", k) equals Tree(k), and Specific("global", k) equals Global(k). |
| Blackboard.ParametersEqualByScopeAndKey | src/BlackboardParameter.cs:16-31 | Two parameters are equal exactly when their scopes and keys are equal (both directions). |
| Blackboard.TreeAndGlobalAreDistinct | src/BlackboardParameter.cs:20-27 | A tree-scope parameter never equals a global-scope one, whatever the keys. |
| Blackboard.Get | src/BlackboardParameter.cs:33-36 | Forwards a BlackboardGet of the parameter's own identifier to the current tree. |
| Blackboard.Set | src/BlackboardParameter.cs:38-41 | Forwards a BlackboardSet of the parameter's own identifier and the given value to the current tree. |
| Blackboard.Register | src/BlackboardParameter.cs:43-46 | Forwards a Register of the parameter's own identifier to the current tree. |
| Blackboard.RegisterWith | src/BlackboardParameter.cs:48-51 | Forwards a Register of the parameter's own identifier to the given tree. |
| Blackboard.AccessorsForwardIdentifier | src/BlackboardParameter.cs:33-51 | All four accessors hand on the same identifier, the parameter's. RegisterWith makes the same call as Register, to another tree. |
| Blackboard.RecordIdentifier | src/BlackboardParameter.cs:9-13 | An identifier's record holds its bb value under the name "bb" and its id value under the name "id". |
| Blackboard.ReadIdentifier | src/BlackboardParameter.cs:9-13 | Reading a record back gives an identifier exactly when both named fields are present. |
| Blackboard.RecordRoundTrip | src/BlackboardParameter.cs:9-13 | Reading an identifier's record gives the identifier back. |
| Blackboard.RecordParameter | src/BlackboardParameter.cs:53-56 | A parameter is recorded as its identifier, so its record reads back as that identifier. |
| Blackboard.RecordDeterminesParameter | src/BlackboardParameter.cs:53-56 | A parameter is recorded as its identifier, so two parameters have equal records exactly when they are equal. |
| ResultFunctionTest.WorkerStep | test/Util.cs:18-24 | A step of the endless loop never ends. It yields what the condition returned, or faults when the condition throws. |
| ResultFunctionTest.Echo | test/Util.cs:22 | The result a tick reports is what the condition returned, or Failure when it threw. |
| ResultFunctionTest.NewResultFunction | test/Util.cs:12-15 | A fresh ResultFunction node: its worker is the endless loop, and it starts uninitialised with no worker in flight. |
| ResultFunctionTest.UpdateEchoesCondition | test/Util.cs:20-23 | On a tick where the condition returns, Update returns exactly that value. It does not take the "did not exit properly" path, and its only possible report is for an uninitialised node. |
| ResultFunctionTest.UpdateOnThrowingCondition | src/Node.cs:55-77 | On a tick where the condition throws, Update returns Failure. It reports the exception and the worker not exiting properly, resets the node and clears its active slot. |
| ResultFunctionTest.RestartIsContinuation | test/Util.cs:18-24 | Starting a fresh worker after a terminal result behaves exactly as continuing the old one would. |
| ResultFunctionTest.RunEchoesConditions | test/Util.cs:18-24 | Over any sequence of ticks, each result is what the condition returned on that tick, or Failure where it threw. |
| ResultFunctionTest.ResultFunctionScenario | test/Util.cs:7-24 | Answers Working, Working, Success, Working give Updates returning Working, Working, Success, Working. The node auto-resets and restarts. The Success tick's active slot is cleared and the others still hold the node. |
| ResultFunctionTest.ThrowingConditionScenario | src/Node.cs:47-77 | A condition that returns Working and then throws gives Working, then Failure instead of an exception. The next Update starts a fresh worker and works again. Only the failing tick's active slot is cleared. |

## Left out

- The ambient `Tree.Current` cell: the tree is passed to `Update` explicitly.
- `Tree` beyond its stack and active list. `Tree.cs` is not part of this model, and neither is its blackboard storage: scope resolution, typed registration, type checks, defaults. An accessor is therefore modelled as the call it forwards, not as the value read or stored. Tree's constructor is assumed to start both lists empty.
- Workers that update child nodes during their step, as composite nodes do. The step is a pure function, so it cannot push onto the stack or add active slots. "The stack is restored" and "exactly one new active slot" hold for such stack- and list-neutral steps.
- A fault while creating the worker (`Worker().GetEnumerator()`). In the model, creating a worker never fails. In C#, an iterator method runs no code at creation.
- Faults inside `Reset` and overrides of the virtual `Reset`, `InitFields` and `ResetFields`. The base hooks are empty and cannot throw, so the guarded `Reset` calls always complete.
- `Dbg.Err` and `Dbg.Ex`: modelled only as a ghost list of report kinds, without message text.
- .NET exceptions and `IEnumerator` mechanics: replaced by the `End` and `Fault` step outcomes.
- Event and property keys, callbacks and property data: opaque objects compared by identity. Keys are non-null; callbacks and property data may be null, as `List.Add` and the dictionary indexer accept null. The delegates' behaviour is not modelled.
- The Dec record/replay substrate. An identifier's record is modelled as a list of name/value pairs standing for the recorder's named fields (`RecordIdentifier`, `ReadIdentifier`). Of a node's record, the model keeps what it holds (`Capture`) and the effect of reading it back (`Restore`). The recorder's actual serialised format is left out.
- `ResultFunction`'s `condition` field and its private constructor for Dec: the callback is code outside the model, so what it does on each tick (returns a result or throws) is an input of `Update`. Its own `Record` override is left out.
- The type parameter `T` of `BlackboardParameter<T>`: it only selects the tree's typed storage, which is not modelled.
