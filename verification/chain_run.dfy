/** Whole passes of the chain's `Update`: the scheduler calls `MoveNext`
    once per tick, and between ticks the rest of the program may change any
    child's lifecycle. A pass is followed tick by tick with `Drive`, and
    `Consistent` is the invariant relating where the pass stands to the
    snapshot it was started over. */
module ChainRun {
  import opened Lifecycle
  import opened Enumerators
  import opened ChainEvents
  import opened Chain

  /** The outcome of driving `Update` for a number of ticks: where it
      stands, the state, everything done to the children, and how many
      times it suspended. */
  datatype Run = Run(phase: Phase, state: State, events: seq<Event>, suspensions: nat)

  /** Calls `MoveNext`, and after each suspension hands the next tick's
      world back before calling it again, until the pass ends, fails, or the
      ticks run out. */
  function Drive(phase: Phase, s: State, mode: Mode, ticks: seq<World>): (r: Result<Run>)
    decreases |ticks|
    ensures r.Ok? && r.value.phase.WaitingOn? ==> r.value.suspensions == |ticks| + 1
    ensures r.Ok? && !r.value.phase.WaitingOn? ==> r.value.suspensions <= |ticks|
    ensures r.Ok? && r.value.phase.WaitingOn? ==>
              LifeOf(r.value.state.world, r.value.phase.child.id).stage == Activating
    ensures r.Ok? && r.value.phase.WaitingOn? && r.value.phase != phase ==>
              !IsSkipped(mode, r.value.phase.child)
  {
    var m := MoveNext(phase, s, mode);
    if m.Err? then Err(m.error)
    else if m.value.phase.WaitingOn? && |ticks| > 0 then
      var rest := Drive(m.value.phase, m.value.state.(world := ticks[0]), mode, ticks[1..]);
      if rest.Err? then rest
      else Ok(Run(rest.value.phase, rest.value.state, m.value.events + rest.value.events, rest.value.suspensions + 1))
    else
      Ok(Run(m.value.phase, m.value.state, m.value.events, if m.value.phase.WaitingOn? then 1 else 0))
  }

  /** How far a pass over `snapshot` has got: the enumerator has handed
      out the first `Done(s, snapshot)` slots, and `Current` is the last of
      them once the pass has run. */
  ghost predicate Positioned(phase: Phase, s: State, snapshot: seq<Slot>)
  {
    var rest := Remaining(s.process.enumerator);
    var k := |snapshot| - |rest|;
    && 0 <= k && rest == snapshot[k..]
    && (phase.Unstarted? ==> k == 0)
    && (phase.Finished? ==> rest == [])
    && (phase.WaitingOn? ==> k > 0 && snapshot[k - 1] == Some(phase.child))
    && (!phase.Unstarted? ==> s.data.current == (if k == 0 then None else snapshot[k - 1]))
  }

  /** A pass over `snapshot` that has logged `trace` so far: its position is
      consistent, and the log is the reference log of the slots handed out. */
  ghost predicate Consistent(phase: Phase, s: State, snapshot: seq<Slot>, trace: seq<Event>, mode: Mode)
  {
    && Positioned(phase, s, snapshot)
    && trace == PassEvents(snapshot[..|snapshot| - |Remaining(s.process.enumerator)|], mode)
  }

  lemma SuffixSlices(snapshot: seq<Slot>, k: nat, n: nat, rest: seq<Slot>)
    requires k + n <= |snapshot| && rest == snapshot[k..]
    ensures rest[..n] == snapshot[k..k + n] && rest[n..] == snapshot[k + n..]
    ensures snapshot[..k + n] == snapshot[..k] + snapshot[k..k + n]
    ensures n > 0 ==> rest[n - 1] == snapshot[k + n - 1]
  {
  }

  /** A stretch of the loop body moves the position on consistently. */
  lemma AdvancedKeepsPosition(s: State, st: Step, snapshot: seq<Slot>, mode: Mode)
    requires var rest := Remaining(s.process.enumerator);
             var k := |snapshot| - |rest|;
             && 0 <= k && rest == snapshot[k..]
             && s.data.current == (if k == 0 then None else snapshot[k - 1])
    requires Advanced(s, st, mode)
    ensures Positioned(st.phase, st.state, snapshot)
  {
    var rest := Remaining(s.process.enumerator);
    PositionAdvances(snapshot, rest, Remaining(st.state.process.enumerator));
  }

  /** Handing out the slots from `rest` down to `after` leaves `after` a
      suffix of the snapshot, whose last handed-out slot is the last one
      taken from `rest`. */
  lemma PositionAdvances(snapshot: seq<Slot>, rest: seq<Slot>, after: seq<Slot>)
    requires |rest| <= |snapshot| && rest == snapshot[|snapshot| - |rest|..]
    requires |after| <= |rest| && after == rest[|rest| - |after|..]
    ensures after == snapshot[|snapshot| - |after|..]
    ensures |after| < |rest| ==> rest[|rest| - |after| - 1] == snapshot[|snapshot| - |after| - 1]
  {
    SuffixSlices(snapshot, |snapshot| - |rest|, |rest| - |after|, rest);
  }

  /** A stretch of the loop body logs the reference actions of the slots it
      consumed. */
  lemma AdvancedKeepsLog(s: State, st: Step, snapshot: seq<Slot>, trace: seq<Event>, mode: Mode)
    requires var rest := Remaining(s.process.enumerator);
             var k := |snapshot| - |rest|;
             && 0 <= k && rest == snapshot[k..]
             && trace == PassEvents(snapshot[..k], mode)
    requires Advanced(s, st, mode)
    ensures trace + st.events == PassEvents(snapshot[..|snapshot| - |Remaining(st.state.process.enumerator)|], mode)
  {
    var rest := Remaining(s.process.enumerator);
    LogAdvances(snapshot, rest, Remaining(st.state.process.enumerator), trace, st.events, mode);
  }

  /** Logging the slots from `rest` down to `after` extends the log of the
      slots before `rest` to the log of the slots before `after`. */
  lemma LogAdvances(snapshot: seq<Slot>, rest: seq<Slot>, after: seq<Slot>,
                    trace: seq<Event>, events: seq<Event>, mode: Mode)
    requires |rest| <= |snapshot| && rest == snapshot[|snapshot| - |rest|..]
    requires trace == PassEvents(snapshot[..|snapshot| - |rest|], mode)
    requires |after| <= |rest| && after == rest[|rest| - |after|..]
    requires events == PassEvents(rest[..|rest| - |after|], mode)
    ensures trace + events == PassEvents(snapshot[..|snapshot| - |after|], mode)
  {
    var k := |snapshot| - |rest|;
    var n := |rest| - |after|;
    SuffixSlices(snapshot, k, n, rest);
    PassEventsAppend(snapshot[..k], snapshot[k..k + n], mode);
  }

  /** A stretch of the loop body, run from a position reached consistently,
      leaves the pass consistent. */
  lemma AdvancedKeepsConsistent(s: State, st: Step, snapshot: seq<Slot>, trace: seq<Event>, mode: Mode)
    requires var rest := Remaining(s.process.enumerator);
             var k := |snapshot| - |rest|;
             && 0 <= k && rest == snapshot[k..]
             && trace == PassEvents(snapshot[..k], mode)
             && s.data.current == (if k == 0 then None else snapshot[k - 1])
    requires Advanced(s, st, mode)
    ensures Consistent(st.phase, st.state, snapshot, trace + st.events, mode)
  {
    AdvancedKeepsPosition(s, st, snapshot, mode);
    AdvancedKeepsLog(s, st, snapshot, trace, mode);
  }

  /** Every `MoveNext` keeps a pass consistent with its snapshot, whatever
      the world it is resumed in. */
  lemma StepKeepsConsistent(phase: Phase, s: State, snapshot: seq<Slot>, trace: seq<Event>, mode: Mode)
    requires Consistent(phase, s, snapshot, trace, mode)
    requires MoveNext(phase, s, mode).Ok?
    ensures var st := MoveNext(phase, s, mode).value;
            Consistent(st.phase, st.state, snapshot, trace + st.events, mode)
  {
    match phase
    case Unstarted =>
      FirstStepKeepsConsistent(s, snapshot, trace, mode);
    case WaitingOn(c) =>
      if LifeOf(s.world, c.id).stage == Activating {
        StepWithoutMoveKeepsConsistent(phase, s, snapshot, trace, mode);
      } else {
        ResumeKeepsConsistent(c, s, snapshot, trace, mode);
      }
    case Finished =>
      StepWithoutMoveKeepsConsistent(phase, s, snapshot, trace, mode);
  }

  /** Advancing from the child a pass waited on, as `MoveNext` does once
      that child is no longer Activating, keeps the pass consistent. */
  lemma ResumeKeepsConsistent(c: Child, s: State, snapshot: seq<Slot>, trace: seq<Event>, mode: Mode)
    requires Consistent(WaitingOn(c), s, snapshot, trace, mode)
    ensures var r := Advance(s, mode);
            r.Ok? ==> Consistent(r.value.phase, r.value.state, snapshot, trace + r.value.events, mode)
  {
    var r := Advance(s, mode);
    if r.Ok? {
      WaitingThenAdvancedKeepsConsistent(c, s, r.value, snapshot, trace, mode);
    }
  }

  /** A stretch of the loop body run from a consistent wait keeps the pass
      consistent. */
  lemma WaitingThenAdvancedKeepsConsistent(c: Child, s: State, st: Step, snapshot: seq<Slot>,
                                           trace: seq<Event>, mode: Mode)
    requires Consistent(WaitingOn(c), s, snapshot, trace, mode)
    requires Advanced(s, st, mode)
    ensures Consistent(st.phase, st.state, snapshot, trace + st.events, mode)
  {
    WaitingPosition(c, s, snapshot, trace, mode);
    AdvancedKeepsConsistent(s, st, snapshot, trace, mode);
  }

  /** A pass waiting consistently on a child has handed out a prefix of
      the snapshot, logged its reference actions, and holds its last slot
      in `Current`. */
  lemma WaitingPosition(c: Child, s: State, snapshot: seq<Slot>, trace: seq<Event>, mode: Mode)
    requires Consistent(WaitingOn(c), s, snapshot, trace, mode)
    ensures var rest := Remaining(s.process.enumerator);
            var k := |snapshot| - |rest|;
            && 0 <= k && rest == snapshot[k..]
            && trace == PassEvents(snapshot[..k], mode)
            && s.data.current == (if k == 0 then None else snapshot[k - 1])
  {
    var rest := Remaining(s.process.enumerator);
    var k := |snapshot| - |rest|;
    assert Positioned(WaitingOn(c), s, snapshot);
    assert rest == snapshot[k..] && s.data.current == snapshot[k - 1];
  }

  /** A `MoveNext` that stays where it is (still waiting, or finished) keeps
      a pass consistent. */
  lemma StepWithoutMoveKeepsConsistent(phase: Phase, s: State, snapshot: seq<Slot>, trace: seq<Event>, mode: Mode)
    requires Consistent(phase, s, snapshot, trace, mode)
    requires MoveNext(phase, s, mode) == Ok(Step(phase, s, []))
    ensures var st := MoveNext(phase, s, mode).value;
            Consistent(st.phase, st.state, snapshot, trace + st.events, mode)
  {
    assert trace + [] == trace;
  }

  /** The first `MoveNext` of a pass keeps it consistent. */
  lemma FirstStepKeepsConsistent(s: State, snapshot: seq<Slot>, trace: seq<Event>, mode: Mode)
    requires Consistent(Unstarted, s, snapshot, trace, mode)
    requires MoveNext(Unstarted, s, mode).Ok?
    ensures var st := MoveNext(Unstarted, s, mode).value;
            Consistent(st.phase, st.state, snapshot, trace + st.events, mode)
  {
    var s' := s.(data := s.data.(current := None));
    assert Remaining(s'.process.enumerator) == Remaining(s.process.enumerator);
    AdvancedKeepsConsistent(s', MoveNext(Unstarted, s, mode).value, snapshot, trace, mode);
  }

  /** Whether a pass is consistent does not depend on the children's
      lifecycles, which the scheduler may change between ticks. */
  lemma ConsistentIgnoresWorld(phase: Phase, s: State, w: World, snapshot: seq<Slot>, trace: seq<Event>, mode: Mode)
    requires Consistent(phase, s, snapshot, trace, mode)
    ensures Consistent(phase, s.(world := w), snapshot, trace, mode)
  {
    assert s.(world := w).process == s.process && s.(world := w).data == s.data;
  }

  /** One round of `Drive`: a step, then either the rest of the drive
      from the next tick's world or nothing more. */
  lemma DriveUnfolds(phase: Phase, s: State, mode: Mode, ticks: seq<World>)
    requires Drive(phase, s, mode, ticks).Ok?
    ensures MoveNext(phase, s, mode).Ok?
    ensures var st := MoveNext(phase, s, mode).value;
            var whole := Drive(phase, s, mode, ticks).value;
            if st.phase.WaitingOn? && |ticks| > 0 then
              var inner := Drive(st.phase, st.state.(world := ticks[0]), mode, ticks[1..]);
              && inner.Ok?
              && whole.phase == inner.value.phase && whole.state == inner.value.state
              && whole.events == st.events + inner.value.events
            else
              whole.phase == st.phase && whole.state == st.state && whole.events == st.events
  {
  }

  lemma ConsistentRegroup(phase: Phase, s: State, snapshot: seq<Slot>, trace: seq<Event>, e1: seq<Event>,
                          e2: seq<Event>, mode: Mode)
    requires Consistent(phase, s, snapshot, trace + e1 + e2, mode)
    ensures Consistent(phase, s, snapshot, trace + (e1 + e2), mode)
  {
    assert trace + e1 + e2 == trace + (e1 + e2);
  }

  /** Driving a consistent pass for any number of ticks keeps it consistent. */
  lemma {:induction false} DriveKeepsConsistent(phase: Phase, s: State, snapshot: seq<Slot>, trace: seq<Event>,
                                                mode: Mode, ticks: seq<World>)
    requires Consistent(phase, s, snapshot, trace, mode)
    requires Drive(phase, s, mode, ticks).Ok?
    ensures var run := Drive(phase, s, mode, ticks).value;
            Consistent(run.phase, run.state, snapshot, trace + run.events, mode)
    decreases |ticks|
  {
    DriveUnfolds(phase, s, mode, ticks);
    var st := MoveNext(phase, s, mode).value;
    StepKeepsConsistent(phase, s, snapshot, trace, mode);
    if st.phase.WaitingOn? && |ticks| > 0 {
      var s' := st.state.(world := ticks[0]);
      ConsistentIgnoresWorld(st.phase, st.state, ticks[0], snapshot, trace + st.events, mode);
      DriveKeepsConsistent(st.phase, s', snapshot, trace + st.events, mode, ticks[1..]);
      var run := Drive(st.phase, s', mode, ticks[1..]).value;
      ConsistentRegroup(run.phase, run.state, snapshot, trace, st.events, run.events, mode);
    }
  }

  /** What a consistent pass has done: a prefix of the reference log; the
      whole of it once finished, which makes every slot `Current` once in
      list order, activates every non-null child exactly once in list order
      and marks exactly the skipped children to fast-forward. */
  lemma ConsistentMeans(phase: Phase, s: State, snapshot: seq<Slot>, trace: seq<Event>, mode: Mode)
    requires Consistent(phase, s, snapshot, trace, mode)
    ensures trace <= PassEvents(snapshot, mode)
    ensures phase.WaitingOn? ==> s.data.current == Some(phase.child)
    ensures phase.Finished? ==>
              && trace == PassEvents(snapshot, mode)
              && VisitedIn(trace) == snapshot
              && ActivatedIn(trace) == Children(snapshot)
              && MarkedIn(trace) == SkippedChildren(Children(snapshot), mode)
  {
    var k := |snapshot| - |Remaining(s.process.enumerator)|;
    PassEventsPrefix(snapshot, k, mode);
    if phase.Finished? {
      assert snapshot[..k] == snapshot;
      PassVisitsEverySlotInOrder(snapshot, mode);
      PassActivatesEveryChildOnce(snapshot, mode);
      PassFastForwardsExactlySkipped(snapshot, mode);
    }
  }

  /** A pass started over a snapshot of the children and driven for any
      ticks follows that snapshot, even when the child list was edited
      between `Start` and the first resume (`running` may differ from
      `started`; later resumes never read the list): what it has done is a
      prefix of the snapshot's reference log; while it waits, `Current` is
      the child it waits on and that child is Activating; once it has
      finished it has done the whole reference log, so every slot became
      `Current` once in list order, every non-null child was activated
      exactly once in list order, and exactly the skipped children were
      marked to fast-forward. */
  lemma PassFollowsSnapshot(p: IteratingProcess, started: ChainData, running: ChainData, w: World,
                            mode: Mode, ticks: seq<World>)
    requires Drive(Unstarted, State(Start(p, started), running, w), mode, ticks).Ok?
    ensures var run := Drive(Unstarted, State(Start(p, started), running, w), mode, ticks).value;
            && run.events <= PassEvents(started.behaviors, mode)
            && (run.phase.WaitingOn? ==>
                  && run.state.data.current == Some(run.phase.child)
                  && LifeOf(run.state.world, run.phase.child.id).stage == Activating)
            && (run.phase.Finished? ==>
                  && run.events == PassEvents(started.behaviors, mode)
                  && VisitedIn(run.events) == started.behaviors
                  && ActivatedIn(run.events) == Children(started.behaviors)
                  && MarkedIn(run.events) == SkippedChildren(Children(started.behaviors), mode))
  {
    var snapshot := started.behaviors;
    var s := State(Start(p, started), running, w);
    assert snapshot[..0] == [];
    assert Consistent(Unstarted, s, snapshot, [], mode);
    DriveKeepsConsistent(Unstarted, s, snapshot, [], mode, ticks);
    var run := Drive(Unstarted, s, mode, ticks).value;
    assert [] + run.events == run.events;
    ConsistentMeans(run.phase, run.state, snapshot, run.events, mode);
  }

  /** A step of the pass over fresh pending children never fails, and
      leaves the children still pending fresh. */
  lemma MoveNextSucceeds(phase: Phase, s: State, mode: Mode)
    requires Fresh(Remaining(s.process.enumerator), s.world)
    ensures MoveNext(phase, s, mode).Ok?
    ensures var st := MoveNext(phase, s, mode).value;
            Fresh(Remaining(st.state.process.enumerator), st.state.world)
  {
    match phase
    case Unstarted =>
      AdvanceSucceeds(s.(data := s.data.(current := None)), mode);
    case WaitingOn(c) =>
      if LifeOf(s.world, c.id).stage != Activating {
        AdvanceSucceeds(s, mode);
      }
    case Finished =>
  }

  /** Between ticks the rest of the program leaves alone every child that
      the pass has not handed out yet: each tick's world gives those
      children the lifecycle the previous step left them in. */
  ghost predicate LeavesPendingAlone(phase: Phase, s: State, mode: Mode, ticks: seq<World>)
    decreases |ticks|
  {
    var m := MoveNext(phase, s, mode);
    m.Ok? && m.value.phase.WaitingOn? && |ticks| > 0 ==>
      var st := m.value.state;
      && (forall id :: id in Ids(Remaining(st.process.enumerator)) ==> LifeOf(ticks[0], id) == LifeOf(st.world, id))
      && LeavesPendingAlone(m.value.phase, st.(world := ticks[0]), mode, ticks[1..])
  }

  /** A fresh tick world for the children still pending. */
  lemma FreshAcrossTick(rem: seq<Slot>, w: World, tick: World)
    requires Fresh(rem, w)
    requires forall id :: id in Ids(rem) ==> LifeOf(tick, id) == LifeOf(w, id)
    ensures Fresh(rem, tick)
  {
    forall i | 0 <= i < |rem| && rem[i].Some?
      ensures LifeOf(tick, rem[i].value.id).stage == Inactive
    {
      assert rem[i].value.id in Ids(rem);
    }
  }

  /** Driving a pass whose pending children are fresh, while the rest of
      the program leaves them alone, never fails. */
  lemma {:induction false} DriveSucceeds(phase: Phase, s: State, mode: Mode, ticks: seq<World>)
    requires Fresh(Remaining(s.process.enumerator), s.world)
    requires LeavesPendingAlone(phase, s, mode, ticks)
    ensures Drive(phase, s, mode, ticks).Ok?
    decreases |ticks|
  {
    MoveNextSucceeds(phase, s, mode);
    var m := MoveNext(phase, s, mode).value;
    if m.phase.WaitingOn? && |ticks| > 0 {
      var rem := Remaining(m.state.process.enumerator);
      FreshAcrossTick(rem, m.state.world, ticks[0]);
      DriveSucceeds(m.phase, m.state.(world := ticks[0]), mode, ticks[1..]);
    }
  }

  /** A pass started over a list of distinct children that are all
      Inactive does not fail, as long as the rest of the program leaves the
      children it has not reached alone; `PassFollowsSnapshot` then says
      what it does. */
  lemma PassSucceeds(p: IteratingProcess, started: ChainData, running: ChainData, w: World,
                     mode: Mode, ticks: seq<World>)
    requires Fresh(started.behaviors, w)
    requires LeavesPendingAlone(Unstarted, State(Start(p, started), running, w), mode, ticks)
    ensures Drive(Unstarted, State(Start(p, started), running, w), mode, ticks).Ok?
  {
    DriveSucceeds(Unstarted, State(Start(p, started), running, w), mode, ticks);
  }

  /** One `MoveNext` waits on the first child it reaches that the mode
      does not skip: every other child it reaches is skipped, and among the
      children it activates exactly one is not skipped when it suspends
      after moving on, none otherwise. */
  lemma MoveNextWaitsOnFirstUnskipped(phase: Phase, s: State, mode: Mode)
    requires MoveNext(phase, s, mode).Ok?
    ensures var before := Remaining(s.process.enumerator);
            var st := MoveNext(phase, s, mode).value;
            ReachedSkipped(before, |before| - |Remaining(st.state.process.enumerator)|, st.phase.WaitingOn?, mode)
    ensures var st := MoveNext(phase, s, mode).value;
            Blocking(st.events, mode) == (if st.phase.WaitingOn? && st.events != [] then 1 else 0)
  {
    match phase
    case Unstarted =>
      var s0 := s.(data := s.data.(current := None));
      AdvanceWaitsOnFirstUnskipped(s0, mode);
      AdvanceBlocksOnce(s0, mode);
    case WaitingOn(c) =>
      if LifeOf(s.world, c.id).stage != Activating {
        AdvanceWaitsOnFirstUnskipped(s, mode);
        AdvanceBlocksOnce(s, mode);
      }
    case Finished =>
  }

  /** Over a whole run, every child activated that the mode does not skip
      cost the pass a suspension of its own. */
  lemma {:induction false} DriveWaitsOnEveryUnskipped(phase: Phase, s: State, mode: Mode, ticks: seq<World>)
    requires Drive(phase, s, mode, ticks).Ok?
    ensures var run := Drive(phase, s, mode, ticks).value;
            Blocking(run.events, mode) <= run.suspensions
    decreases |ticks|
  {
    MoveNextWaitsOnFirstUnskipped(phase, s, mode);
    var m := MoveNext(phase, s, mode).value;
    if m.phase.WaitingOn? && |ticks| > 0 {
      var s' := m.state.(world := ticks[0]);
      DriveWaitsOnEveryUnskipped(m.phase, s', mode, ticks[1..]);
      BlockingAppend(m.events, Drive(m.phase, s', mode, ticks[1..]).value.events, mode);
    }
  }

  /** Without `Start` the enumerator is null: `Update` ends on its first
      step, with no suspension, no child touched and `Current` cleared. */
  lemma UpdateWithoutStart(d: ChainData, w: World, mode: Mode, ticks: seq<World>)
    ensures var r := Drive(Unstarted, State(GetActivatingProcess(d), d, w), mode, ticks);
            && r.Ok? && r.value.phase.Finished?
            && r.value.events == [] && r.value.suspensions == 0
            && r.value.state.data.current == None && r.value.state.world == w
  {
  }
}
