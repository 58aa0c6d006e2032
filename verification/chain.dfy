/** Chained activation (`BehaviorActivationChain`): a behaviour that
    activates its children one after the other, waiting for each to leave
    Activating before it moves on. Its activating process is modelled here;
    the coroutine `Update` becomes the step function `MoveNext`, one call
    per scheduler tick. */
module Chain {
  import opened Lifecycle
  import opened Enumerators
  import opened ChainEvents

  const DefaultName := "Chained Activation"

  /** The behaviour's data: the child list, the `Current` cursor and the
      label. `Mode` is passed to the operations that read it. */
  datatype ChainData = ChainData(behaviors: seq<Slot>, current: Slot, name: string)

  /** The constructor: the list is copied and `Current` starts null. */
  function New(behaviors: seq<Slot>, name: string := DefaultName): (d: ChainData)
    ensures d.behaviors == behaviors && d.name == name && d.current == None
  {
    ChainData(behaviors, None, name)
  }

  /** The parameterless constructor: no children, the default label. */
  function NewEmpty(): (d: ChainData)
    ensures d.behaviors == [] && d.name == "Chained Activation" && d.current == None
  {
    New([])
  }

  /** `EntityData.GetChildren`: a copy of the list. Being a value, the copy
      cannot be affected by later edits of `behaviors`. */
  function GetChildren(d: ChainData): seq<Slot>
  {
    d.behaviors
  }

  /** The activating process; its only private state is the enumerator. */
  datatype IteratingProcess = IteratingProcess(enumerator: Cursor)

  /** `GetActivatingProcess`: a fresh process whose enumerator is still null. */
  function GetActivatingProcess(d: ChainData): (p: IteratingProcess)
    ensures p.enumerator.None?
    ensures !TryNext(p.enumerator).found
  {
    IteratingProcess(None)
  }

  /** `Start`: captures an enumerator over a snapshot of the children, at
      the first child, whatever the process held before. */
  function Start(p: IteratingProcess, d: ChainData): (r: IteratingProcess)
    ensures Remaining(r.enumerator) == d.behaviors
    ensures r.enumerator.Some? && r.enumerator.value.items == d.behaviors
  {
    IteratingProcess(GetEnumerator(GetChildren(d)))
  }

  /** `End`: clears `Current` and nothing else. */
  function End(d: ChainData): (r: ChainData)
    ensures r.current == None
    ensures r.behaviors == d.behaviors && r.name == d.name
  {
    d.(current := None)
  }

  // ---------------------------------------------------------------------
  // Update as a step function

  /** Where the `Update` coroutine stands: not yet run, suspended waiting on
      a child that was still Activating, or run to its end. */
  datatype Phase = Unstarted | WaitingOn(child: Child) | Finished

  /** Everything a step reads and writes. */
  datatype State = State(process: IteratingProcess, data: ChainData, world: World)

  /** The result of one `MoveNext`: the new phase (suspended exactly when it
      is `WaitingOn`), the new state, and what was done to the children. */
  datatype Step = Step(phase: Phase, state: State, events: seq<Event>)

  function Consumed(before: seq<Slot>, after: seq<Slot>): int
  {
    |before| - |after|
  }

  /** What a stretch of the loop body promises: it consumed some `n` slots
      of the enumerator and logged exactly their reference actions; it ends
      only with the enumerator exhausted and suspends only on the child it
      handed out last, while that child is Activating; `Current` is the last
      slot handed out; nothing else in the data changes. */
  predicate Advanced(s: State, st: Step, mode: Mode)
  {
    var before := Remaining(s.process.enumerator);
    var after := Remaining(st.state.process.enumerator);
    var n := Consumed(before, after);
    && 0 <= n && after == before[n..]
    && st.events == PassEvents(before[..n], mode)
    && !st.phase.Unstarted?
    && (st.phase.Finished? ==> after == [])
    && (st.phase.WaitingOn? ==>
          n > 0 && before[n - 1] == Some(st.phase.child)
          && LifeOf(st.state.world, st.phase.child.id).stage == Activating)
    && st.state.data.current == (if n == 0 then s.data.current else before[n - 1])
    && st.state.data.behaviors == s.data.behaviors
    && st.state.data.name == s.data.name
    && (st.state.process.enumerator.Some? <==> s.process.enumerator.Some?)
  }

  /** What the pass does on reaching a child: activate it, and mark it to
      fast-forward at once when it is optional and the mode skips its kind.
      Activation fails unless the child is Inactive. Afterwards the child is
      still Activating exactly when it was not skipped, so a skipped child
      never holds the pass up. */
  function Arrive(w: World, c: Child, mode: Mode): (r: Result<World>)
    ensures r.Ok? <==> LifeOf(w, c.id).stage == Inactive
    ensures r.Err? ==> r.error == InvalidTransition(c.id, LifeOf(w, c.id).stage)
    ensures r.Ok? ==> (LifeOf(r.value, c.id).stage == Activating <==> !IsSkipped(mode, c))
    ensures r.Ok? ==> LifeOf(r.value, c.id).fastForwarded == (IsSkipped(mode, c) || LifeOf(w, c.id).fastForwarded)
    ensures r.Ok? ==> forall id :: id != c.id ==> LifeOf(r.value, id) == LifeOf(w, id)
  {
    match Activate(w, c)
    case Err(e) => Err(e)
    case Ok(w1) => Ok(if IsSkipped(mode, c) then MarkToFastForward(w1, c) else w1)
  }

  /** What the log says about a child the pass reaches matches what
      `Arrive` did to it: the child is logged as activated, was Inactive and
      no longer is, and it is logged as marked to fast-forward exactly when
      it did not stay Activating. */
  lemma SlotEventsMatchArrive(w: World, c: Child, mode: Mode)
    requires Arrive(w, c, mode).Ok?
    ensures var w2 := Arrive(w, c, mode).value;
            && ActivatedIn(SlotEvents(Some(c), mode)) == [c]
            && LifeOf(w, c.id).stage == Inactive && LifeOf(w2, c.id).stage != Inactive
            && (MarkedIn(SlotEvents(Some(c), mode)) == [c] <==> LifeOf(w2, c.id).stage != Activating)
            && (MarkedIn(SlotEvents(Some(c), mode)) == [] <==> LifeOf(w2, c.id).stage == Activating)
  {
    SlotEventsFiltered(Some(c), mode);
    var w1 := Activate(w, c).value;
    assert LifeOf(w1, c.id).stage == Activating;
  }

  /** The reference for what a stretch of the pass does to the children:
      `Arrive` applied in turn to each child among the first `n` slots,
      null slots skipped. */
  function ArriveFirst(slots: seq<Slot>, n: nat, w: World, mode: Mode): Result<World>
  {
    if n == 0 || slots == [] then Ok(w)
    else
      match slots[0]
      case None => ArriveFirst(slots[1..], n - 1, w, mode)
      case Some(c) =>
        match Arrive(w, c, mode)
        case Err(e) => Err(e)
        case Ok(w2) => ArriveFirst(slots[1..], n - 1, w2, mode)
  }

  /** The body of the outer `while (TryNext(...))` loop, run synchronously
      from the current enumerator position until the pass suspends on a
      child still Activating or the enumerator is exhausted. An `Activate`
      on a child that is not Inactive fails and ends the pass. */
  function Advance(s: State, mode: Mode): (r: Result<Step>)
    decreases |Remaining(s.process.enumerator)|
    ensures r.Ok? ==> Advanced(s, r.value, mode)
    ensures r.Ok? && r.value.phase.WaitingOn? ==> !IsSkipped(mode, r.value.phase.child)
    ensures r.Err? ==> r.error.InvalidTransition?
  {
    var next := TryNext(s.process.enumerator);
    if !next.found then
      Ok(Step(Finished, s.(process := IteratingProcess(next.cursor)), []))
    else
      var s1 := s.(process := IteratingProcess(next.cursor), data := s.data.(current := next.entity));
      match next.entity
      case None =>
        var rest := Advance(s1, mode);
        if rest.Err? then rest
        else
          AdvancedPrepend(s, s1, next.entity, mode, rest.value);
          Ok(rest.value.(events := SlotEvents(next.entity, mode) + rest.value.events))
      case Some(c) =>
        match Arrive(s1.world, c, mode)
        case Err(e) => Err(e)
        case Ok(w2) =>
          var s2 := s1.(world := w2);
          if LifeOf(w2, c.id).stage == Activating then
            var st := Step(WaitingOn(c), s2, SlotEvents(next.entity, mode));
            AdvancedStop(s, s2, c, mode);
            Ok(st)
          else
            var rest := Advance(s2, mode);
            if rest.Err? then rest
            else
              AdvancedPrepend(s, s2, next.entity, mode, rest.value);
              Ok(rest.value.(events := SlotEvents(next.entity, mode) + rest.value.events))
  }

  /** Handing out one slot and then advancing from there is advancing. */
  lemma AdvancedPrepend(s: State, s1: State, head: Slot, mode: Mode, st: Step)
    requires |Remaining(s.process.enumerator)| > 0
    requires head == Remaining(s.process.enumerator)[0]
    requires Remaining(s1.process.enumerator) == Remaining(s.process.enumerator)[1..]
    requires s1.process.enumerator.Some? <==> s.process.enumerator.Some?
    requires s1.data == s.data.(current := head)
    requires Advanced(s1, st, mode)
    ensures Advanced(s, st.(events := SlotEvents(head, mode) + st.events), mode)
  {
    PrependSlices(Remaining(s.process.enumerator), Remaining(st.state.process.enumerator), mode);
  }

  /** Consuming the head of `before` and then some of the rest down to
      `after` is consuming from `before` down to `after`. */
  lemma PrependSlices(before: seq<Slot>, after: seq<Slot>, mode: Mode)
    requires |before| > 0 && |after| <= |before| - 1
    requires after == before[1..][|before| - 1 - |after|..]
    ensures after == before[|before| - |after|..]
    ensures PassEvents(before[..|before| - |after|], mode)
            == SlotEvents(before[0], mode) + PassEvents(before[1..][..|before| - 1 - |after|], mode)
    ensures |before| - 1 - |after| > 0 ==> before[1..][|before| - 2 - |after|] == before[|before| - |after| - 1]
  {
    var n := |before| - |after|;
    var n1 := n - 1;
    assert before[..n][0] == before[0] && before[..n][1..] == before[1..][..n1];
  }

  /** Handing out one child and suspending on it is advancing. */
  lemma AdvancedStop(s: State, s2: State, c: Child, mode: Mode)
    requires |Remaining(s.process.enumerator)| > 0
    requires Some(c) == Remaining(s.process.enumerator)[0]
    requires Remaining(s2.process.enumerator) == Remaining(s.process.enumerator)[1..]
    requires s2.process.enumerator.Some? <==> s.process.enumerator.Some?
    requires s2.data == s.data.(current := Some(c))
    requires LifeOf(s2.world, c.id).stage == Activating
    ensures Advanced(s, Step(WaitingOn(c), s2, SlotEvents(Some(c), mode)), mode)
  {
    var before := Remaining(s.process.enumerator);
    assert before[..1] == [Some(c)];
    assert PassEvents(before[..1], mode) == SlotEvents(Some(c), mode) + PassEvents([], mode);
  }

  /** When a pass can run without failing: every pending child is still
      Inactive, and no child appears in two pending slots. */
  ghost predicate Fresh(rem: seq<Slot>, w: World)
  {
    && (forall i :: 0 <= i < |rem| && rem[i].Some? ==> LifeOf(w, rem[i].value.id).stage == Inactive)
    && Distinct(rem)
  }

  /** A child that appears in two pending slots. */
  ghost predicate Repeated(rem: seq<Slot>, id: ChildId)
  {
    exists i, j :: 0 <= i < j < |rem| && rem[i].Some? && rem[j].Some? && rem[i].value.id == id && rem[j].value.id == id
  }

  /** Handing out the head slot keeps the rest fresh, whatever happens to
      the head child. */
  lemma FreshTail(rem: seq<Slot>, w: World, w': World)
    requires Fresh(rem, w) && rem != []
    requires forall id :: (rem[0].None? || id != rem[0].value.id) ==> LifeOf(w', id) == LifeOf(w, id)
    ensures Fresh(rem[1..], w')
  {
    forall i | 0 <= i < |rem| - 1 && rem[1..][i].Some?
      ensures LifeOf(w', rem[1..][i].value.id).stage == Inactive
    {
      assert rem[1..][i] == rem[i + 1];
    }
  }

  /** A pass over fresh children never fails: each one is Inactive when
      reached, since reaching an earlier one changes only that one. The
      slots still pending afterwards are fresh as well. */
  lemma {:induction false} AdvanceSucceeds(s: State, mode: Mode)
    requires Fresh(Remaining(s.process.enumerator), s.world)
    ensures Advance(s, mode).Ok?
    ensures var st := Advance(s, mode).value;
            Fresh(Remaining(st.state.process.enumerator), st.state.world)
    decreases |Remaining(s.process.enumerator)|
  {
    var rem := Remaining(s.process.enumerator);
    var next := TryNext(s.process.enumerator);
    if next.found {
      var s1 := s.(process := IteratingProcess(next.cursor), data := s.data.(current := next.entity));
      if next.entity.None? {
        FreshTail(rem, s.world, s1.world);
        AdvanceSucceeds(s1, mode);
      } else {
        var c := next.entity.value;
        assert rem[0] == Some(c);
        var w2 := Arrive(s1.world, c, mode).value;
        FreshTail(rem, s.world, w2);
        if LifeOf(w2, c.id).stage != Activating {
          AdvanceSucceeds(s1.(world := w2), mode);
        }
      }
    }
  }

  /** What the pending slots beyond the head say about the whole list. */
  lemma ShiftedIds(rem: seq<Slot>, id: ChildId)
    requires rem != []
    ensures id in Ids(rem[1..]) ==> id in Ids(rem)
    ensures Repeated(rem[1..], id) ==> Repeated(rem, id)
    ensures id in Ids(rem[1..]) && rem[0].Some? && rem[0].value.id == id ==> Repeated(rem, id)
  {
    if id in Ids(rem[1..]) {
      var k :| 0 <= k < |rem[1..]| && rem[1..][k].Some? && rem[1..][k].value.id == id;
      assert rem[k + 1] == rem[1..][k];
      if rem[0].Some? && rem[0].value.id == id {
        assert 0 < k + 1 < |rem| && rem[0].Some? && rem[k + 1].Some?;
      }
    }
    if Repeated(rem[1..], id) {
      var i, j :| 0 <= i < j < |rem[1..]| && rem[1..][i].Some? && rem[1..][j].Some?
                  && rem[1..][i].value.id == id && rem[1..][j].value.id == id;
      assert rem[i + 1] == rem[1..][i] && rem[j + 1] == rem[1..][j];
    }
  }

  /** A pass fails only on a pending child that was already out of
      Inactive when the pass began, or that appears in two pending slots
      and so is reached a second time; the error names that child and a
      stage other than Inactive. */
  lemma {:induction false} AdvanceFailsOnReachedChild(s: State, mode: Mode)
    requires Advance(s, mode).Err?
    ensures var e := Advance(s, mode).error;
            var rem := Remaining(s.process.enumerator);
            && e.InvalidTransition? && e.from != Inactive && e.child in Ids(rem)
            && (LifeOf(s.world, e.child).stage != Inactive || Repeated(rem, e.child))
    decreases |Remaining(s.process.enumerator)|
  {
    var rem := Remaining(s.process.enumerator);
    var next := TryNext(s.process.enumerator);
    var e := Advance(s, mode).error;
    var s1 := s.(process := IteratingProcess(next.cursor), data := s.data.(current := next.entity));
    if next.entity.None? {
      AdvanceFailsOnReachedChild(s1, mode);
      ShiftedIds(rem, e.child);
    } else {
      var c := next.entity.value;
      assert rem[0] == Some(c);
      if Arrive(s1.world, c, mode).Err? {
        assert e.child == c.id;
      } else {
        var w2 := Arrive(s1.world, c, mode).value;
        AdvanceFailsOnReachedChild(s1.(world := w2), mode);
        ShiftedIds(rem, e.child);
      }
    }
  }

  /** The loop body does not stop at the slot it hands out first (a null
      slot, or a child that is not left Activating): it goes on from the
      state `s2` reached after that slot, whose pending slots are the rest. */
  lemma AdvanceContinues(s: State, s2: State, mode: Mode)
    requires TryNext(s.process.enumerator).found
    requires var next := TryNext(s.process.enumerator);
             var s1 := s.(process := IteratingProcess(next.cursor), data := s.data.(current := next.entity));
             if next.entity.None? then s2 == s1
             else Arrive(s1.world, next.entity.value, mode) == Ok(s2.world) && s2 == s1.(world := s2.world)
                  && LifeOf(s2.world, next.entity.value.id).stage != Activating
    requires Advance(s, mode).Ok?
    ensures Remaining(s2.process.enumerator) == Remaining(s.process.enumerator)[1..]
    ensures Advance(s2, mode).Ok?
    ensures Advance(s2, mode).value.state == Advance(s, mode).value.state
    ensures Advance(s2, mode).value.phase == Advance(s, mode).value.phase
    ensures Advance(s, mode).value.events
            == SlotEvents(Remaining(s.process.enumerator)[0], mode) + Advance(s2, mode).value.events
  {
  }

  /** Of the first `n` slots of `before`, every child is one the mode
      skips, except the last one when the pass waits on it. */
  ghost predicate ReachedSkipped(before: seq<Slot>, n: nat, waiting: bool, mode: Mode)
  {
    n <= |before| &&
    forall i :: 0 <= i < n && before[i].Some? && !(waiting && i == n - 1) ==> IsSkipped(mode, before[i].value)
  }

  /** A skipped head in front of slots that satisfy `ReachedSkipped`. */
  lemma ReachedSkippedCons(before: seq<Slot>, n: nat, waiting: bool, mode: Mode)
    requires 0 < n && before != []
    requires before[0].Some? ==> IsSkipped(mode, before[0].value)
    requires ReachedSkipped(before[1..], n - 1, waiting, mode)
    ensures ReachedSkipped(before, n, waiting, mode)
  {
    forall i | 0 < i < n && before[i].Some? && !(waiting && i == n - 1)
      ensures IsSkipped(mode, before[i].value)
    {
      assert before[i] == before[1..][i - 1];
    }
  }

  /** The pass waits on the first child it reaches that the mode does not
      skip: every other child the loop body reached is skipped, and the one
      it suspends on, if any, is the last it reached. */
  lemma {:induction false} AdvanceWaitsOnFirstUnskipped(s: State, mode: Mode)
    requires Advance(s, mode).Ok?
    ensures var before := Remaining(s.process.enumerator);
            var st := Advance(s, mode).value;
            ReachedSkipped(before, |before| - |Remaining(st.state.process.enumerator)|, st.phase.WaitingOn?, mode)
    decreases |Remaining(s.process.enumerator)|
  {
    var before := Remaining(s.process.enumerator);
    var st := Advance(s, mode).value;
    var n := |before| - |Remaining(st.state.process.enumerator)|;
    var next := TryNext(s.process.enumerator);
    if next.found {
      var s1 := s.(process := IteratingProcess(next.cursor), data := s.data.(current := next.entity));
      var s2 := s1;
      if next.entity.Some? {
        var c := next.entity.value;
        s2 := s1.(world := Arrive(s1.world, c, mode).value);
        if LifeOf(s2.world, c.id).stage == Activating {
          assert n == 1 && st.phase.WaitingOn?;
          return;
        }
        assert IsSkipped(mode, c);
      }
      AdvanceWaitsOnFirstUnskipped(s2, mode);
      var r := Advance(s2, mode).value;
      assert r.phase == st.phase && r.state == st.state;
      ReachedSkippedCons(before, n, st.phase.WaitingOn?, mode);
    } else {
      assert n == 0;
    }
  }

  /** Counted on the log: a stretch of the loop body that ends waiting has
      activated exactly one child the mode does not skip, and one that ends
      the pass has activated none. */
  lemma {:induction false} AdvanceBlocksOnce(s: State, mode: Mode)
    requires Advance(s, mode).Ok?
    ensures var st := Advance(s, mode).value;
            Blocking(st.events, mode) == (if st.phase.WaitingOn? then 1 else 0)
    decreases |Remaining(s.process.enumerator)|
  {
    var st := Advance(s, mode).value;
    var next := TryNext(s.process.enumerator);
    if next.found {
      var s1 := s.(process := IteratingProcess(next.cursor), data := s.data.(current := next.entity));
      SlotEventsBlocking(next.entity, mode);
      var s2 := s1;
      if next.entity.Some? {
        var c := next.entity.value;
        s2 := s1.(world := Arrive(s1.world, c, mode).value);
        if LifeOf(s2.world, c.id).stage == Activating {
          return;
        }
      }
      AdvanceBlocksOnce(s2, mode);
      BlockingAppend(SlotEvents(next.entity, mode), Advance(s2, mode).value.events, mode);
    } else {
      assert Blocking(st.events, mode) == Blocking([], mode);
    }
  }

  /** The children's lifecycles after a stretch of the loop body are
      `Arrive` applied in turn to each child it reached. */
  lemma {:induction false} AdvanceArrivesInTurn(s: State, mode: Mode)
    requires Advance(s, mode).Ok?
    ensures var before := Remaining(s.process.enumerator);
            var st := Advance(s, mode).value;
            ArriveFirst(before, |before| - |Remaining(st.state.process.enumerator)|, s.world, mode) == Ok(st.state.world)
    decreases |Remaining(s.process.enumerator)|
  {
    var next := TryNext(s.process.enumerator);
    if next.found {
      var s1 := s.(process := IteratingProcess(next.cursor), data := s.data.(current := next.entity));
      var s2 := s1;
      if next.entity.Some? {
        var c := next.entity.value;
        s2 := s1.(world := Arrive(s1.world, c, mode).value);
        if LifeOf(s2.world, c.id).stage == Activating {
          var before := Remaining(s.process.enumerator);
          assert Advance(s, mode) == Ok(Step(WaitingOn(c), s2, SlotEvents(next.entity, mode)));
          assert before[0] == Some(c) && Remaining(s2.process.enumerator) == before[1..];
          assert ArriveFirst(before[1..], 0, s2.world, mode) == Ok(s2.world);
          return;
        }
      }
      AdvanceContinues(s, s2, mode);
      AdvanceArrivesInTurn(s2, mode);
      var before := Remaining(s.process.enumerator);
      var after := Remaining(Advance(s, mode).value.state.process.enumerator);
      var n := |before| - |after|;
      assert n > 0 && before != [] && before[0] == next.entity;
      assert ArriveFirst(before, n, s.world, mode) == ArriveFirst(before[1..], n - 1, s2.world, mode);
    } else {
      assert Advance(s, mode) == Ok(Step(Finished, s.(process := IteratingProcess(next.cursor)), []));
    }
  }

  /** Applying `Arrive` to the first `n` slots changes only the children in
      those slots. */
  lemma {:induction false} ArriveFirstFrame(slots: seq<Slot>, n: nat, w: World, mode: Mode)
    requires ArriveFirst(slots, n, w, mode).Ok?
    ensures forall id :: (forall i :: 0 <= i < n && i < |slots| && slots[i].Some? ==> slots[i].value.id != id) ==>
              LifeOf(ArriveFirst(slots, n, w, mode).value, id) == LifeOf(w, id)
    decreases n
  {
    if n > 0 && slots != [] {
      var w1 := if slots[0].None? then w else Arrive(w, slots[0].value, mode).value;
      ArriveFirstFrame(slots[1..], n - 1, w1, mode);
      forall id | forall i :: 0 <= i < n && i < |slots| && slots[i].Some? ==> slots[i].value.id != id
        ensures LifeOf(ArriveFirst(slots, n, w, mode).value, id) == LifeOf(w, id)
      {
        forall i | 0 <= i < n - 1 && i < |slots[1..]| && slots[1..][i].Some?
          ensures slots[1..][i].value.id != id
        {
          assert slots[1..][i] == slots[i + 1];
        }
      }
    }
  }

  /** A stretch of the loop body changes only the children it reached:
      every other child, pending or not in the list at all, keeps its
      lifecycle. */
  lemma AdvanceFrame(s: State, mode: Mode)
    requires Advance(s, mode).Ok?
    ensures var before := Remaining(s.process.enumerator);
            var st := Advance(s, mode).value;
            var n := |before| - |Remaining(st.state.process.enumerator)|;
            forall id :: (forall i :: 0 <= i < n && before[i].Some? ==> before[i].value.id != id) ==>
              LifeOf(st.state.world, id) == LifeOf(s.world, id)
  {
    var before := Remaining(s.process.enumerator);
    var st := Advance(s, mode).value;
    var n := |before| - |Remaining(st.state.process.enumerator)|;
    AdvanceArrivesInTurn(s, mode);
    ArriveFirstFrame(before, n, s.world, mode);
  }

  /** One `MoveNext` of the `Update` coroutine. On its first call it clears
      `Current` before looking at any child; on a later call it stays
      suspended while the child it waits on is still Activating. */
  function MoveNext(phase: Phase, s: State, mode: Mode): (r: Result<Step>)
    ensures r.Ok? ==> !r.value.phase.Unstarted?
    ensures r.Ok? && r.value.phase.WaitingOn? ==>
              LifeOf(r.value.state.world, r.value.phase.child.id).stage == Activating
    ensures r.Ok? && r.value.phase.WaitingOn? && r.value.phase != phase ==>
              !IsSkipped(mode, r.value.phase.child)
    ensures r.Ok? && r.value.phase.Finished? && !phase.Finished? ==>
              Remaining(r.value.state.process.enumerator) == []
    ensures phase.WaitingOn? && LifeOf(s.world, phase.child.id).stage == Activating ==>
              r == Ok(Step(phase, s, []))
    ensures phase.Finished? ==> r == Ok(Step(Finished, s, []))
    ensures phase.Unstarted? && Remaining(s.process.enumerator) == [] ==>
              r == Ok(Step(Finished, s.(data := s.data.(current := None)), []))
  {
    match phase
    case Unstarted =>
      Advance(s.(data := s.data.(current := None)), mode)
    case WaitingOn(c) =>
      if LifeOf(s.world, c.id).stage == Activating then Ok(Step(phase, s, []))
      else Advance(s, mode)
    case Finished =>
      Ok(Step(Finished, s, []))
  }

  /** `Update` clears `Current` before it looks at any slot: the first step
      does not depend on the `Current` it finds, and when it hands out no
      slot at all it leaves `Current` unset. */
  lemma UpdateResetsCurrent(s: State, stale: Slot, mode: Mode)
    ensures MoveNext(Unstarted, s.(data := s.data.(current := stale)), mode) == MoveNext(Unstarted, s, mode)
    ensures var r := MoveNext(Unstarted, s, mode);
            r.Ok? && r.value.events == [] ==> r.value.state.data.current == None
  {
    var s' := s.(data := s.data.(current := stale));
    assert s'.(data := s'.data.(current := None)) == s.(data := s.data.(current := None));
  }

  // ---------------------------------------------------------------------
  // FastForward

  /** The work still to do, preceded by the events already logged. */
  function After(done: seq<Event>, rest: Result<Forwarded>): (r: Result<Forwarded>)
    ensures done == [] ==> r == rest
    ensures rest.Err? ==> r == rest
  {
    match rest
    case Err(e) => Err(e)
    case Ok(g) => assert [] + g.events == g.events; Ok(Forwarded(done + g.events, g.world))
  }

  /** Fast-forwarding a list whose head is a child is fast-forwarding that
      child and then the rest. */
  lemma ForwardAllStep(done: seq<Event>, slots: seq<Slot>, w: World)
    requires slots != [] && slots[0].Some?
    ensures var f := ForwardOne(slots[0].value, w);
            After(done, ForwardAll(slots, w)) == After(done + f.events, ForwardAll(slots[1..], f.world))
  {
    var f := ForwardOne(slots[0].value, w);
    var rest := ForwardAll(slots[1..], f.world);
    assert ForwardAll(slots, w) == After(f.events, rest);
    if rest.Ok? {
      var g := rest.value;
      assert done + (f.events + g.events) == (done + f.events) + g.events;
    }
  }

  /** The events already logged, followed by what fast-forwarding the rest
      logs until it stops. */
  function Then(done: seq<Event>, rest: Forwarded): Forwarded
  {
    Forwarded(done + rest.events, rest.world)
  }

  /** Stopping at the first null slot, a list whose head is a child is
      fast-forwarded by handling that child and then the rest. */
  lemma ForwardUntilNullStep(done: seq<Event>, slots: seq<Slot>, w: World)
    requires slots != [] && slots[0].Some?
    ensures var f := ForwardOne(slots[0].value, w);
            Then(done, ForwardUntilNull(slots, w)) == Then(done + f.events, ForwardUntilNull(slots[1..], f.world))
  {
    var f := ForwardOne(slots[0].value, w);
    var g := ForwardUntilNull(slots[1..], f.world);
    assert ForwardUntilNull(slots, w) == Forwarded(f.events + g.events, g.world);
    assert done + (f.events + g.events) == (done + f.events) + g.events;
  }

  /** The slots `FastForward` has to handle: `Current` when it is set,
      then what the enumerator has not yet handed out. */
  function Pending(s: State): seq<Slot>
  {
    (if s.data.current.Some? then [s.data.current] else []) + Remaining(s.process.enumerator)
  }

  /** Where `FastForward` stands after handling the first `done` of the
      `all` pending slots: `current`, if set, and the enumerator hold the
      rest; the events and world are what fast-forwarding those `done`
      slots gave. */
  ghost predicate Forwarding(s: State, all: seq<Slot>, done: nat, current: Slot, enumerator: Cursor,
                             data: ChainData, world: World, events: seq<Event>)
  {
    && all == Pending(s)
    && data.behaviors == s.data.behaviors && data.name == s.data.name
    && done <= |all|
    && (if current.Some? then [current] else []) + Remaining(enumerator) == all[done..]
    && data.current == (if done == 0 then s.data.current else all[done - 1])
    && After(events, ForwardAll(all[done..], world)) == ForwardAll(all, s.world)
    && Then(events, ForwardUntilNull(all[done..], world)) == ForwardUntilNull(all, s.world)
  }

  lemma ForwardingStarts(s: State)
    ensures Forwarding(s, Pending(s), 0, s.data.current, s.process.enumerator, s.data, s.world, [])
  {
    assert Pending(s)[0..] == Pending(s);
  }

  /** Handling the child in `current` moves on by one slot. */
  lemma ForwardingHandles(s: State, all: seq<Slot>, done: nat, current: Slot, enumerator: Cursor,
                          data: ChainData, world: World, events: seq<Event>, f: Forwarded)
    requires Forwarding(s, all, done, current, enumerator, data, world, events)
    requires current.Some? && f == ForwardOne(current.value, world)
    ensures Forwarding(s, all, done + 1, None, enumerator, data.(current := current), f.world, events + f.events)
  {
    ForwardingHandlesPosition(all, done, current, Remaining(enumerator));
    ForwardingHandlesLog(all[done..], all[done + 1..], current.value, world, events, f,
                         ForwardAll(all, s.world), ForwardUntilNull(all, s.world));
    var none: Slot := None;
    assert (if none.Some? then [none] else []) + Remaining(enumerator) == all[done + 1..];
    assert data.(current := current).current == all[done + 1 - 1];
  }

  /** The position half of `ForwardingHandles`: the slot in `current` is
      the next one still to do, and the enumerator holds those after it. */
  lemma ForwardingHandlesPosition(all: seq<Slot>, done: nat, current: Slot, remaining: seq<Slot>)
    requires done <= |all| && [current] + remaining == all[done..]
    ensures done < |all| && all[done] == current && remaining == all[done + 1..]
    ensures all[done..] != [] && all[done..][0] == current && all[done..][1..] == all[done + 1..]
  {
    assert all[done..][0] == ([current] + remaining)[0];
    assert all[done..][1..] == ([current] + remaining)[1..];
  }

  /** The log and world half of `ForwardingHandles`: handling the child at
      the head of the slots still to do keeps both reference runs on
      track. */
  lemma ForwardingHandlesLog(rest: seq<Slot>, tail: seq<Slot>, c: Child, world: World, events: seq<Event>,
                             f: Forwarded, all: Result<Forwarded>, untilNull: Forwarded)
    requires rest != [] && rest[0] == Some(c) && tail == rest[1..]
    requires f == ForwardOne(c, world)
    requires After(events, ForwardAll(rest, world)) == all
    requires Then(events, ForwardUntilNull(rest, world)) == untilNull
    ensures After(events + f.events, ForwardAll(tail, f.world)) == all
    ensures Then(events + f.events, ForwardUntilNull(tail, f.world)) == untilNull
  {
    ForwardAllStep(events, rest, world);
    ForwardUntilNullStep(events, rest, world);
  }

  /** With `current` unset, a child that the enumerator hands out next
      becomes `current`. */
  lemma ForwardingPullsChild(s: State, all: seq<Slot>, done: nat, enumerator: Cursor,
                             data: ChainData, world: World, events: seq<Event>)
    requires Forwarding(s, all, done, None, enumerator, data, world, events)
    requires TryNext(enumerator).found && TryNext(enumerator).entity.Some?
    ensures Forwarding(s, all, done, TryNext(enumerator).entity, TryNext(enumerator).cursor, data, world, events)
  {
  }

  /** With `current` unset, a null slot that the enumerator hands out next
      makes the whole fast-forward fail, after the slots before it have
      been handled. */
  lemma ForwardingPullsNull(s: State, all: seq<Slot>, done: nat, enumerator: Cursor,
                            data: ChainData, world: World, events: seq<Event>)
    requires Forwarding(s, all, done, None, enumerator, data, world, events)
    requires TryNext(enumerator).found && TryNext(enumerator).entity.None?
    ensures ForwardAll(all, s.world) == Err(NullReference)
    ensures ForwardUntilNull(all, s.world) == Forwarded(events, world)
  {
    assert all[done..][0] == None;
    assert events + [] == events;
  }

  /** With `current` unset and the enumerator exhausted, every pending slot
      has been handled. */
  lemma ForwardingExhausted(s: State, all: seq<Slot>, done: nat, enumerator: Cursor,
                            data: ChainData, world: World, events: seq<Event>)
    requires Forwarding(s, all, done, None, enumerator, data, world, events)
    requires !TryNext(enumerator).found
    ensures done == |all|
    ensures ForwardAll(all, s.world) == Ok(Forwarded(events, world))
    ensures ForwardUntilNull(all, s.world) == Forwarded(events, world)
  {
    assert Remaining(enumerator) == [];
    assert all[done..] == [];
    assert ForwardAll([], world) == Ok(Forwarded([], world));
    assert events + [] == events;
  }

  /** Once every pending slot has been handled, `Current` is the last of
      them, or unchanged (and so unset) when there were none. */
  lemma ForwardingEndsOnLast(s: State, all: seq<Slot>, done: nat, data: ChainData)
    requires all == Pending(s) && done == |all|
    requires data.current == (if done == 0 then s.data.current else all[done - 1])
    ensures data.current == (if all == [] then None else all[|all| - 1])
  {
  }

  /** `FastForward`: the current child first, then every remaining slot in
      order, each activated if still Inactive and then marked to
      fast-forward, without ever suspending. Reaching a null slot is a null
      dereference; the children before it keep what was done to them, and
      `events` and `world` report it. */
  method FastForward(s: State) returns (r: Result<State>, events: seq<Event>, world: World)
    ensures ForwardAll(BeforeNull(Pending(s)), s.world) == Ok(Forwarded(events, world))
    ensures r.Err? <==> None in Pending(s)
    ensures r.Ok? ==> r.value.world == world
    ensures ForwardAll(Pending(s), s.world).Err? ==> r == Err(ForwardAll(Pending(s), s.world).error)
    ensures ForwardAll(Pending(s), s.world).Ok? ==>
              && r.Ok?
              && events == ForwardAll(Pending(s), s.world).value.events
              && r.value.world == ForwardAll(Pending(s), s.world).value.world
    ensures r.Ok? ==>
              && Remaining(r.value.process.enumerator) == []
              && !TryNext(r.value.process.enumerator).found
              && r.value.data.current == (if Pending(s) == [] then None else Pending(s)[|Pending(s)| - 1])
              && r.value.data.behaviors == s.data.behaviors && r.value.data.name == s.data.name
  {
    ghost var all := Pending(s);
    ghost var done: nat := 0;
    var current := s.data.current;
    var enumerator := s.process.enumerator;
    var data := s.data;
    world := s.world;
    events := [];
    ForwardingStarts(s);
    while true
      invariant Forwarding(s, all, done, current, enumerator, data, world, events)
      decreases |all| - done, if current.None? then 1 else 0
    {
      if current.Some? {
        var f := ForwardOne(current.value, world);
        ForwardingHandles(s, all, done, current, enumerator, data, world, events, f);
        data := data.(current := current);
        events := events + f.events;
        world := f.world;
        current := None;
        done := done + 1;
      } else {
        var next := TryNext(enumerator);
        if !next.found {
          ForwardingExhausted(s, all, done, enumerator, data, world, events);
          ForwardingEndsOnLast(s, all, done, data);
          ForwardUntilNullHandlesPrefix(all, s.world);
          ForwardAllFailsOnNull(all, s.world);
          r := Ok(State(IteratingProcess(next.cursor), data, world));
          return;
        }
        if next.entity.None? {
          ForwardingPullsNull(s, all, done, enumerator, data, world, events);
          ForwardUntilNullHandlesPrefix(all, s.world);
          ForwardAllFailsOnNull(all, s.world);
          return Err(NullReference), events, world;
        }
        ForwardingPullsChild(s, all, done, enumerator, data, world, events);
        current := next.entity;
        enumerator := next.cursor;
      }
    }
  }
}
