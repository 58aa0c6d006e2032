# Chained activation and behaviour loop, modelled in Dafny

This project models the two composite behaviours of the training runtime's
`Runtime/Behaviors` package that schedule their children themselves:

- **Chained activation** (`BehaviorActivationChain`). Its activating process
  walks a snapshot of the child list in order. For each slot it does this:
  - it makes the slot `Current`;
  - it skips a null slot;
  - it activates the child;
  - it marks the child to fast-forward at once when the child is optional
    and the mode skips its kind;
  - it suspends, one tick at a time, while that child is still Activating.

  `FastForward` drains the rest of the chain synchronously. `End` clears
  `Current`.
- **Behaviour loop** (`BehaviorLoop`). Its activating stage is one iterating
  pass over the children. Its active process owns a single inner iterating
  process and reruns it pass after pass. In each pass it:
  - drains the inner `Update`, passing each inner suspension on;
  - ends the inner process;
  - starts it again.

  A counter caps the loop at 100000 passes. `FastForward` fast-forwards the
  inner process once and ends it once. The constructors set the `Name` and
  `IsBlocking` defaults.

Modules:

| module | file | contents |
|---|---|---|
| `Lifecycle` | lifecycle.dfy | child identities and kinds, the lifecycle `Stage`, the world of all children's lifecycles, `Activate` and `MarkToFastForward`, the mode |
| `Enumerators` | enumerators.dfy | the list enumerator that `GetChildren().GetEnumerator()` yields, and the `TryNext` both classes share |
| `ChainEvents` | chain_events.dfy | the log of actions on children, and the reference logs of a pass (`PassEvents`) and of a fast-forward (`ForwardAll`) |
| `Chain` | chain.dfy | the chain's data, constructors and process, with `Update` as the step function `MoveNext` and `FastForward` as a loop |
| `ChainRun` | chain_run.dfy | whole passes of the chain driven tick by tick, and the invariant tying a pass to its snapshot |
| `Loop` | loop.dfy | the loop's data, constructors and iterating process |
| `LoopActive` | loop_active.dfy | the loop's active process; its `Update` is the step function `MoveNext`, checked against a pass-by-pass reference of the calls it makes |
| `LoopRun` | loop_run.dfy | whole runs of the active `Update`: termination, pass counting, End-before-Start |

How the model represents the runtime:

- **Coroutines.** Each `IEnumerator Update()` coroutine becomes a pure step
  function `MoveNext(phase, state, …)`, called once per scheduler tick. The
  phase says where the coroutine is suspended.
- **Children's lifecycles.** `LifeCycle` is not part of this model. A
  child's lifecycle is a `Life(stage, fastForwarded)` held in a `World` map
  keyed by child identity.
- **Activate and MarkToFastForward.** `Activate` succeeds only from Inactive
  and enters Activating. `MarkToFastForward` sets the flag and finishes the
  transition in progress at once.
- **Changes between ticks.** Between ticks the environment hands the chain a
  new world, which is how other code moves children out of Activating.
- **The mode.** `IMode.CheckIfSkipped` is an uninterpreted function from a
  child's kind to `bool`.
- **The loop's inner pass.** The loop's per-child work lives in
  `EntityIteratingProcess`, which is not part of this model. The active
  process is modelled by the calls it makes on its inner process
  (`InnerCall`). How many times the inner `Update` suspends in pass `k` is a
  parameter, `passes(k)`.

Three behaviours of the code that a reader might expect to be otherwise:

- **The loop is bounded.** The active loop reads as endless, with the
  counter only a guard against a runaway loop. In fact `Update` returns
  normally after 100000 passes (BehaviorLoop.cs:113-129). The model keeps
  that bound (`LoopActive.MaxRounds`) and proves that `Update` finishes
  provided every inner pass does.
- **The loop reuses its inner process.** No fresh inner process is built on
  `Start`. The inner process is built once, in the `ActiveProcess`
  constructor (BehaviorLoop.cs:97-102). `Start` and every pass boundary only
  restart that one instance.
- **Fast-forwarding twice is not a no-op.** `Current` still holds the last
  child after a fast-forward, so a second call handles that child again: it
  activates it again if it is Inactive by then, and marks it again.
  `Chain.FastForward` states that, afterwards, `Current` is the last pending
  slot and the enumerator is exhausted.

## Model

| member | source | states |
|---|---|---|
| Lifecycle.Activate | Runtime/Behaviors/BehaviorActivationChain.cs:68 | activation succeeds exactly when the child is Inactive and leaves it Activating with its flag kept; otherwise it fails naming the child and its stage; no other child changes |
| Lifecycle.MarkToFastForward | Runtime/Behaviors/BehaviorActivationChain.cs:72 | afterwards the child is flagged and between transitions; a child that was Activating or Active is Active; no other child changes |
| Enumerators.GetEnumerator | Runtime/Behaviors/BehaviorActivationChain.cs:51 | a new enumerator over the list, positioned before its first element, with the whole list still to hand out |
| Enumerators.TryNext | Runtime/Behaviors/BehaviorActivationChain.cs:114-126 | a slot is found exactly when some remain; then it is the first remaining one and the cursor drops it; otherwise the result is null and the cursor is unchanged; a null enumerator stays null |
| Enumerators.PullInOrder | Runtime/Behaviors/BehaviorActivationChain.cs:114-126 | repeated calls hand out the remaining slots one by one in list order, and nothing once they run out |
| Enumerators.PullLeavesRest | Runtime/Behaviors/BehaviorLoop.cs:80-92 | after n calls the enumerator holds exactly the slots they did not hand out |
| ChainEvents.PassVisitsEverySlotInOrder | Runtime/Behaviors/BehaviorActivationChain.cs:59-66 | a pass makes every slot, null ones included, `Current` exactly once, in list order |
| ChainEvents.PassActivatesEveryChildOnce | Runtime/Behaviors/BehaviorActivationChain.cs:61-68 | a pass activates every non-null child exactly once, in list order, and never a null slot |
| ChainEvents.PassFastForwardsExactlySkipped | Runtime/Behaviors/BehaviorActivationChain.cs:68-73 | a pass marks to fast-forward exactly the optional children whose kind the mode skips, once each, in list order |
| ChainEvents.ForwardOne | Runtime/Behaviors/BehaviorActivationChain.cs:95-104 | fast-forwarding a child activates it iff it was Inactive (and then it is the one child activated), makes it `Current` once, marks it once, and leaves it flagged and Active, or Inactive when it was Deactivating; others are untouched |
| ChainEvents.ForwardAllFailsOnNull | Runtime/Behaviors/BehaviorActivationChain.cs:93-97 | fast-forwarding fails exactly when a pending slot is null, and then with a null dereference |
| ChainEvents.BeforeNullShape | Runtime/Behaviors/BehaviorActivationChain.cs:93-95 | the slots handled before a null dereference are a prefix of the pending slots without a null slot, and the slot after them is null |
| ChainEvents.ForwardUntilNullHandlesPrefix | Runtime/Behaviors/BehaviorActivationChain.cs:93-105 | where fast-forwarding stops at a null slot, it has done exactly what fast-forwarding the slots before that one does |
| ChainEvents.ForwardAllMarksEveryChild | Runtime/Behaviors/BehaviorActivationChain.cs:93-105 | fast-forwarding the pending slots makes each `Current` once in order, marks every child once in order, leaves each one flagged and between transitions, and touches no other child |
| ChainEvents.ForwardAllActivatesInactive | Runtime/Behaviors/BehaviorActivationChain.cs:93-105 | over a list with no repeated child, fast-forwarding activates exactly the children that were Inactive, in list order |
| ChainEvents.ForwardAllLeavesActive | Runtime/Behaviors/BehaviorActivationChain.cs:95-104 | over a list with no repeated child, fast-forwarding leaves every child Active, except that a child that was Deactivating ends Inactive |
| Chain.New | Runtime/Behaviors/BehaviorActivationChain.cs:133-137 | the list is copied, the label defaults to "Chained Activation", `Current` starts null |
| Chain.NewEmpty | Runtime/Behaviors/BehaviorActivationChain.cs:129-131 | no children, the default label, `Current` null |
| Chain.GetActivatingProcess | Runtime/Behaviors/BehaviorActivationChain.cs:140-143 | a new process whose enumerator is null, so `TryNext` finds nothing |
| Chain.Start | Runtime/Behaviors/BehaviorActivationChain.cs:49-52 | the process captures an enumerator over a snapshot of the current child list, whatever it held before |
| Chain.End | Runtime/Behaviors/BehaviorActivationChain.cs:83-86 | `Current` is null afterwards; the list and label are unchanged |
| Chain.Arrive | Runtime/Behaviors/BehaviorActivationChain.cs:68-73 | reaching a child succeeds iff it is Inactive; afterwards it is still Activating iff it is not skipped, and it is flagged iff skipped or already flagged; other children are untouched |
| Chain.SlotEventsMatchArrive | Runtime/Behaviors/BehaviorActivationChain.cs:68-78 | the actions logged for a reached child match the world change: it is logged as activated and went from Inactive to another stage, and it is logged as marked exactly when it did not stay Activating, so the pass does not wait on it |
| Chain.Advance | Runtime/Behaviors/BehaviorActivationChain.cs:59-79 | the loop body run until it suspends or the enumerator is exhausted: it consumes a prefix of the remaining slots, logs their reference actions, leaves `Current` on the last of them, and suspends only on a non-skipped child that is still Activating |
| Chain.MoveNext | Runtime/Behaviors/BehaviorActivationChain.cs:55-80 | each suspension is on a child still Activating; while that child stays Activating a resume changes nothing; the pass finishes only with the enumerator exhausted; a finished pass stays finished |
| Chain.UpdateResetsCurrent | Runtime/Behaviors/BehaviorActivationChain.cs:57 | the first step of `Update` does not depend on the `Current` it finds, and leaves `Current` null when it hands out no slot |
| Chain.FastForward | Runtime/Behaviors/BehaviorActivationChain.cs:89-106 | handles `Current` first, then every remaining slot in order, with the reference log and world of `ForwardAll`; fails exactly when a pending slot is null, and then reports the log and world of fast-forwarding the slots before it; otherwise ends with the enumerator exhausted and `Current` on the last pending slot |
| ChainRun.Drive | Runtime/Behaviors/BehaviorActivationChain.cs:55-80 | driven tick by tick, the pass suspends once per tick it is waiting, always on a child still Activating, and never on a skipped child it has just reached |
| ChainRun.StepKeepsConsistent | Runtime/Behaviors/BehaviorActivationChain.cs:59-79 | every step keeps the pass consistent with its snapshot: the enumerator's position, `Current` and the log agree |
| ChainRun.ConsistentMeans | Runtime/Behaviors/BehaviorActivationChain.cs:59-73 | a consistent pass has done a prefix of the snapshot's reference log, waits with `Current` on the child it waits for, and once finished has done all of it |
| Chain.AdvanceSucceeds | Runtime/Behaviors/BehaviorActivationChain.cs:59-79 | the loop body never fails when every pending child is Inactive and no child appears in two pending slots, and the slots still pending afterwards keep that property |
| Chain.AdvanceFailsOnReachedChild | Runtime/Behaviors/BehaviorActivationChain.cs:59-68 | when the loop body fails, it is on `Activate` of a pending child outside Inactive: that child was already out of Inactive when the body began, or it appears in two pending slots; the error names that child |
| Chain.AdvanceWaitsOnFirstUnskipped | Runtime/Behaviors/BehaviorActivationChain.cs:59-79 | the loop body stops at the first reached child the mode does not skip: every other child it reached is skipped, and the one it waits on is the last it reached |
| Chain.AdvanceBlocksOnce | Runtime/Behaviors/BehaviorActivationChain.cs:68-78 | a stretch that ends waiting has activated exactly one child the mode does not skip; one that ends the pass has activated none |
| Chain.AdvanceArrivesInTurn | Runtime/Behaviors/BehaviorActivationChain.cs:59-73 | the lifecycles after a stretch are exactly those of activating, and marking when skipped, each reached child in turn, in list order |
| Chain.AdvanceFrame | Runtime/Behaviors/BehaviorActivationChain.cs:59-73 | a stretch changes the lifecycle of no child except those it reached |
| ChainRun.MoveNextSucceeds | Runtime/Behaviors/BehaviorActivationChain.cs:55-80 | a step of `Update` over fresh pending children never fails and leaves the pending children fresh |
| ChainRun.DriveSucceeds | Runtime/Behaviors/BehaviorActivationChain.cs:55-80 | driving `Update` over fresh pending children never fails while the rest of the program leaves the children not yet reached alone between ticks |
| ChainRun.PassSucceeds | Runtime/Behaviors/BehaviorActivationChain.cs:49-80 | a pass started over distinct children that are all Inactive does not fail, provided the rest of the program leaves the children not yet reached alone |
| ChainRun.MoveNextWaitsOnFirstUnskipped | Runtime/Behaviors/BehaviorActivationChain.cs:55-80 | one step of `Update` reaches skipped children only, except the child it suspends on; it activates one non-skipped child when it moves on and suspends, none otherwise |
| ChainRun.DriveWaitsOnEveryUnskipped | Runtime/Behaviors/BehaviorActivationChain.cs:55-80 | over a whole run, there are at least as many suspensions as activated children the mode does not skip |
| ChainRun.PassFollowsSnapshot | Runtime/Behaviors/BehaviorActivationChain.cs:49-80 | a pass follows the list as it was at `Start`, even when the list is edited between `Start` and the first resume (later resumes never read the list): every slot `Current` once in order, every child activated once in order, exactly the skipped children marked |
| ChainRun.UpdateWithoutStart | Runtime/Behaviors/BehaviorActivationChain.cs:114-119 | without `Start` the pass ends on its first step, with no suspension, no child touched and `Current` null |
| Loop.New | Runtime/Behaviors/BehaviorLoop.cs:149-154 | the list is copied, the label defaults to "Loop", the loop is blocking, `Current` starts null |
| Loop.NewWithBlocking | Runtime/Behaviors/BehaviorLoop.cs:156-159 | the same as the other constructor except that the blocking flag is the one given |
| Loop.NewEmpty | Runtime/Behaviors/BehaviorLoop.cs:145-147 | no children, label "Loop", blocking |
| Loop.GetActivatingProcess | Runtime/Behaviors/BehaviorLoop.cs:162-165 | the activating stage is a single new iterating process, not yet started |
| Loop.Start | Runtime/Behaviors/BehaviorLoop.cs:61-65 | a fresh enumerator over a fresh copy of the children, whatever the process held before |
| Loop.ShouldActivateCurrent | Runtime/Behaviors/BehaviorLoop.cs:68-71 | the loop always agrees to activate the child it reaches |
| Loop.ShouldDeactivateCurrent | Runtime/Behaviors/BehaviorLoop.cs:74-77 | the loop always agrees to deactivate the child it reaches |
| Loop.TryNext | Runtime/Behaviors/BehaviorLoop.cs:80-92 | false with a null slot when the enumerator is null or exhausted, and the process unchanged; otherwise the next child in list order |
| Loop.PassRestartsAtFirstChild | Runtime/Behaviors/BehaviorLoop.cs:61-65 | after any `Start`, the pass hands out the children from the first one on, in list order |
| LoopActive.GetActiveProcess | Runtime/Behaviors/BehaviorLoop.cs:168-171 | a new active process whose inner process is created once, unstarted |
| LoopActive.Start | Runtime/Behaviors/BehaviorLoop.cs:105-108 | starts the inner process once and does nothing else; it then holds the whole child list |
| LoopActive.End | Runtime/Behaviors/BehaviorLoop.cs:133-135 | changes nothing and makes no call on the inner process: in particular the inner `End` is not called |
| LoopActive.FastForward | Runtime/Behaviors/BehaviorLoop.cs:138-142 | calls the inner `FastForward` once and then the inner `End` once, never restarts or updates the inner process, and keeps the same inner process in place |
| LoopActive.Continue | Runtime/Behaviors/BehaviorLoop.cs:115-129 | inside a pass the same inner process stays in place (it is neither replaced nor restarted) and one more inner suspension is passed on; at a pass end the inner process is started afresh over the children |
| LoopActive.ContinueFollowsReference | Runtime/Behaviors/BehaviorLoop.cs:115-129 | from inside a pass, the calls made are exactly the next ones due in the pass-by-pass reference |
| LoopActive.ContinueCountsDown | Runtime/Behaviors/BehaviorLoop.cs:119-122 | from inside a pass, one pending inner suspension is passed on, or none was left |
| LoopActive.MoveNext | Runtime/Behaviors/BehaviorLoop.cs:111-130 | a resume never returns to the unstarted phase; a finished `Update` stays finished without touching the inner process |
| LoopActive.MoveNextFollowsReference | Runtime/Behaviors/BehaviorLoop.cs:111-130 | every call a resume makes on the inner process is the next one due in the reference |
| LoopActive.MoveNextCountsDown | Runtime/Behaviors/BehaviorLoop.cs:119-122 | each resume passes on exactly one pending inner suspension, or finishes |
| LoopRun.Drive | Runtime/Behaviors/BehaviorLoop.cs:111-130 | driven for a number of ticks, `Update` suspends once per tick while it has not finished |
| LoopRun.DriveFollowsReference | Runtime/Behaviors/BehaviorLoop.cs:111-130 | a run makes exactly a prefix of the reference calls, in order |
| LoopRun.DriveCountsDown | Runtime/Behaviors/BehaviorLoop.cs:119-122 | every suspension of a run passes on one that was pending |
| LoopRun.UpdateTerminates | Runtime/Behaviors/BehaviorLoop.cs:113-129 | provided every inner pass finishes, `Update` finishes, after exactly as many suspensions as the inner passes have together, having made every call of all 100000 passes |
| LoopRun.EmptyPassesFinishAtOnce | Runtime/Behaviors/BehaviorLoop.cs:113-129 | when no inner pass suspends, the first resume runs all passes and finishes |
| LoopRun.UpdateRunsMaxRounds | Runtime/Behaviors/BehaviorLoop.cs:113-128 | a full `Update` calls the inner `Update`, `End` and `Start` exactly 100000 times each |
| LoopRun.RunEndsBeforeRestart | Runtime/Behaviors/BehaviorLoop.cs:124-126 | in any run, every call to the inner `Start` comes right after a call to its `End` |

## Left out

- `LifeCycle`, `Process<T>` and `EntityIteratingProcess<T>` are not part of this model.
  - The lifecycle is reduced to `Activate` and `MarkToFastForward` as described above.
  - The inner pass of the loop is reduced to a call log, with a per-pass suspension count supplied as a parameter.
  - Deactivation and the lifecycle's listeners are not modelled.
- `GetDeactivatingProcess` and `GetConfigurator` of both classes are not modelled. Their processes and configurators (`ParallelDeactivatingProcess`, `StopEntityIteratingProcess`, `ParallelConfigurator`, `SequenceConfigurator`) are not part of this model.
- The editor menu items and the serializer tests: they hold no scheduling logic.
- Attributes, serialization and reflection, and the `DisplayName`/`ListOf` metadata are not modelled.
- A null `Mode`, and a `Mode` replaced in the middle of a pass, are not modelled: the mode is one fixed function per call.
- Chain.FastForward: a null pending slot is a null dereference in the code. It is modelled as the error `NullReference`, together with the log and world left by the slots before it. No rule for skipping null slots is invented, although `Update` skips them. The `Current` and enumerator left behind by the failure are not returned.
- Chain.Advance: on a failed activation the model returns only the error. The actions logged and the world changes made before the failure are discarded. When it fails and when it succeeds are stated by `AdvanceFailsOnReachedChild` and `AdvanceSucceeds`, which between them do not cover a list with a repeated child that the body suspends on before reaching it a second time.
- ChainEvents.ForwardAllActivatesInactive and ChainEvents.ForwardAllLeavesActive are stated for lists with no repeated child only. With a repeated child, its second slot meets the stage the first slot left behind, as `ForwardOne` states for each slot.
- ChainRun.PassFollowsSnapshot: a run that fails says nothing beyond the failure itself; `PassSucceeds` states when a run does not fail.
- Chain.GetChildren and Loop.GetChildren carry no contract: the copy is a value, so later edits of the list cannot reach it, and that is what `PassFollowsSnapshot` states.
- LoopActive.Start: the base-class part of the inner `Start` is recorded as one call, without modelling what it does.
- LoopActive.Continue: the inner `Update` is modelled only by how often it suspends in each pass. What it does to the children is not modelled. The inner process's own state, such as its enumerator position, is not tracked either: "the same inner process stays in place" means only that this class neither replaces nor restarts it, while the inner `Update` does move its enumerator on.
- LoopActive.FastForward: "keeps the same inner process" means the same instance, neither replaced nor restarted; the inner `FastForward` and `End` do change that instance's own state, which is not tracked.
- LoopRun.UpdateTerminates: the number of suspensions in each inner pass is taken to be finite. An inner pass whose child stays Activating suspends forever, and then so does the loop; the 100000 cap bounds passes, not suspensions within a pass.
- LoopRun.EmptyPassesFinishAtOnce: that an inner pass over no children never suspends is an assumption about the inner process, which is not part of this model; the lemma starts from "no inner pass suspends".
- The blocking contract is not modelled: a step must not complete before one full pass when `IsBlocking` is set. It is enforced by code outside these two classes; only the flag's value is modelled.
