/** The loop's active process (`BehaviorLoop.ActiveProcess`): it owns one
    inner iterating process and, in its `Update` coroutine, runs that process
    pass after pass, ending it and starting it again between passes, for at
    most `MaxRounds` passes.

    What the inner process does with the children during a pass belongs to
    a base class outside this model. Its effect here is recorded as the
    sequence of calls the active process makes on it (`InnerCall`), and the
    number of times the inner `Update` suspends in pass `k` is a parameter,
    `passes(k)`, supplied by the environment. */
module LoopActive {
  import opened Lifecycle
  import Enumerators
  import Loop

  /** The guard against an endless loop: the number of passes `Update` runs. */
  const MaxRounds: nat := 100000

  /** A call the active process makes on its inner process;
      `CallMoveNext(moved)` is one resume of the inner `Update` enumerator
      and whether it reported another suspension. */
  datatype InnerCall = CallStart | CallUpdate | CallMoveNext(moved: bool) | CallEnd | CallFastForward

  /** How many times the inner `Update` suspends in each pass. */
  type Passes = nat -> nat

  /** The active process holds its one inner process. `inner` is that
      process as this class last set it, in its constructor or by `Start`;
      the base-class calls that move the inner enumerator on (its `Update`,
      `FastForward` and `End`) appear only in the call log, so `inner`
      staying equal means the inner process was neither replaced nor
      restarted. */
  datatype ActiveProcess = ActiveProcess(inner: Loop.IteratingProcess)

  /** `GetActiveProcess`: a fresh active process, whose inner process is
      created in its constructor and not yet started. */
  function GetActiveProcess(d: Loop.LoopData): (a: ActiveProcess)
    ensures a.inner.enumerator.None?
    ensures Enumerators.Remaining(a.inner.enumerator) == []
  {
    ActiveProcess(Loop.IteratingProcess(None))
  }

  /** The active process after a call, and the calls it made on the inner
      process. */
  datatype Called = Called(active: ActiveProcess, calls: seq<InnerCall>)

  /** `Start`: starts the inner process, and does nothing else. */
  function Start(a: ActiveProcess, d: Loop.LoopData): (r: Called)
    ensures r.calls == [CallStart]
    ensures Enumerators.Remaining(r.active.inner.enumerator) == d.behaviors
  {
    Called(a.(inner := Loop.Start(a.inner, d)), [CallStart])
  }

  /** `End`: does nothing; in particular the inner process is not ended. */
  function End(a: ActiveProcess, d: Loop.LoopData): (r: (Called, Loop.LoopData))
    ensures r.0.active == a && r.1 == d
    ensures r.0.calls == []
  {
    (Called(a, []), d)
  }

  /** How many times `x` occurs in `s`. */
  function Count(s: seq<InnerCall>, x: InnerCall): nat
  {
    if s == [] then 0 else (if s[0] == x then 1 else 0) + Count(s[1..], x)
  }

  /** `FastForward`: fast-forwards the inner process once and then ends it
      once, without starting it again or replacing it. */
  function FastForward(a: ActiveProcess): (r: Called)
    ensures Count(r.calls, CallFastForward) == 1 && Count(r.calls, CallEnd) == 1
    ensures |r.calls| == 2 && r.calls[0] == CallFastForward
    ensures CallStart !in r.calls && CallUpdate !in r.calls
    ensures r.active == a
  {
    Called(a, [CallFastForward, CallEnd])
  }

  // ---------------------------------------------------------------------
  // The `Update` coroutine

  /** Where `Update` stands: not yet resumed; suspended in pass `round` after
      passing on the `forwarded`-th suspension of the inner `Update`; or
      finished. */
  datatype Phase = NotStarted | Draining(round: nat, forwarded: nat) | Done

  predicate ValidPhase(phase: Phase, passes: Passes)
  {
    phase.Draining? ==> phase.round < MaxRounds && 1 <= phase.forwarded <= passes(phase.round)
  }

  /** One resume of `Update`: the phase it suspends in or finishes with, the
      active process afterwards, and the calls made on the inner process. */
  datatype Step = Step(phase: Phase, active: ActiveProcess, calls: seq<InnerCall>)

  // The reference: the calls the whole of `Update` makes, written pass by
  // pass, independently of the coroutine's control flow.

  /** `n` resumes of the inner enumerator that each report a suspension. */
  function Moves(n: nat): seq<InnerCall>
  {
    if n == 0 then [] else [CallMoveNext(true)] + Moves(n - 1)
  }

  /** What ends a pass: the inner enumerator reports it is finished, and the
      inner process is ended and started again. */
  const Restart: seq<InnerCall> := [CallMoveNext(false), CallEnd, CallStart]

  /** Pass `k` in full. */
  function PassCalls(k: nat, passes: Passes): seq<InnerCall>
  {
    [CallUpdate] + Moves(passes(k)) + Restart
  }

  /** Passes `k` up to the last one. */
  function RoundsFrom(k: nat, passes: Passes): seq<InnerCall>
    decreases MaxRounds - k
  {
    if k >= MaxRounds then [] else PassCalls(k, passes) + RoundsFrom(k + 1, passes)
  }

  /** Inner suspensions in passes `k` up to the last one. */
  function SumFrom(k: nat, passes: Passes): nat
    decreases MaxRounds - k
  {
    if k >= MaxRounds then 0 else passes(k) + SumFrom(k + 1, passes)
  }

  /** The calls `Update` has still to make from `phase` on. */
  function Rest(phase: Phase, passes: Passes): seq<InnerCall>
    requires ValidPhase(phase, passes)
  {
    match phase
    case NotStarted => RoundsFrom(0, passes)
    case Draining(k, f) => Moves(passes(k) - f) + Restart + RoundsFrom(k + 1, passes)
    case Done => []
  }

  /** The suspensions `Update` has still to pass on from `phase` on. */
  function Pending(phase: Phase, passes: Passes): nat
    requires ValidPhase(phase, passes)
  {
    match phase
    case NotStarted => SumFrom(0, passes)
    case Draining(k, f) => passes(k) - f + SumFrom(k + 1, passes)
    case Done => 0
  }

  /** The calls of passes `k` onward are pass `k` followed by the rest. */
  lemma RoundsFromUnfold(k: nat, passes: Passes)
    requires k < MaxRounds
    ensures RoundsFrom(k, passes) == [CallUpdate] + (Moves(passes(k)) + Restart + RoundsFrom(k + 1, passes))
    ensures SumFrom(k, passes) == passes(k) + SumFrom(k + 1, passes)
  {
    var m := Moves(passes(k));
    var t := RoundsFrom(k + 1, passes);
    assert RoundsFrom(k, passes) == ([CallUpdate] + m + Restart) + t;
    assert ([CallUpdate] + m + Restart) + t == [CallUpdate] + (m + Restart + t);
  }

  function Suspends(phase: Phase): nat
  {
    if phase.Draining? then 1 else 0
  }

  /** The coroutine inside pass `k`, `f` inner suspensions already passed on:
      resume the inner enumerator; suspend if it suspended, otherwise end and
      restart the inner process and go on with the next pass, if any. The
      inner process is left as it was while the pass goes on, and is started
      afresh over the children once it ends. */
  function Continue(k: nat, f: nat, a: ActiveProcess, d: Loop.LoopData, passes: Passes): (r: Step)
    requires k < MaxRounds && f <= passes(k)
    ensures ValidPhase(r.phase, passes) && !r.phase.NotStarted?
    ensures r.phase.Draining? ==> r.phase.round >= k
    ensures r.phase.Draining? && r.phase.round == k ==> r.active == a && r.phase.forwarded == f + 1
    ensures !(r.phase.Draining? && r.phase.round == k) ==> Enumerators.Remaining(r.active.inner.enumerator) == d.behaviors
    decreases MaxRounds - k, passes(k) - f
  {
    if f < passes(k) then
      Step(Draining(k, f + 1), a, [CallMoveNext(true)])
    else
      var started := a.(inner := Loop.Start(a.inner, d));
      if k + 1 < MaxRounds then
        var next := Continue(k + 1, 0, started, d, passes);
        Step(next.phase, next.active, Restart + ([CallUpdate] + next.calls))
      else
        Step(Done, started, Restart)
  }

  /** Passing on one more inner suspension leaves the rest of the pass due. */
  lemma DrainStep(k: nat, f: nat, passes: Passes)
    requires k < MaxRounds && f < passes(k)
    ensures [CallMoveNext(true)] + Rest(Draining(k, f + 1), passes)
            == Moves(passes(k) - f) + Restart + RoundsFrom(k + 1, passes)
  {
    var m := Moves(passes(k) - (f + 1));
    var t := RoundsFrom(k + 1, passes);
    assert Moves(passes(k) - f) == [CallMoveNext(true)] + m;
    assert [CallMoveNext(true)] + (m + Restart + t) == ([CallMoveNext(true)] + m) + Restart + t;
  }

  /** Ending pass `k` and entering pass `k + 1` leaves pass `k + 1` and the
      later ones due. */
  lemma PassBoundary(k: nat, calls: seq<InnerCall>, rest: seq<InnerCall>, passes: Passes)
    requires k + 1 < MaxRounds
    requires calls + rest == Moves(passes(k + 1) - 0) + Restart + RoundsFrom(k + 1 + 1, passes)
    ensures (Restart + ([CallUpdate] + calls)) + rest == Restart + RoundsFrom(k + 1, passes)
  {
    RoundsFromUnfold(k + 1, passes);
    assert (Restart + ([CallUpdate] + calls)) + rest == Restart + ([CallUpdate] + (calls + rest));
  }

  /** From inside pass `k`, the calls `Continue` makes are the next ones
      due. */
  lemma {:induction false} ContinueFollowsReference(k: nat, f: nat, a: ActiveProcess, d: Loop.LoopData, passes: Passes)
    requires k < MaxRounds && f <= passes(k)
    ensures var r := Continue(k, f, a, d, passes);
            r.calls + Rest(r.phase, passes) == Moves(passes(k) - f) + Restart + RoundsFrom(k + 1, passes)
    decreases MaxRounds - k, passes(k) - f + 1
  {
    if f < passes(k) {
      DrainStep(k, f, passes);
    } else {
      PassEndFollowsReference(k, a, d, passes);
      assert Moves(passes(k) - f) + Restart == Restart;
    }
  }

  /** At the end of pass `k`, the calls `Continue` makes are the next ones
      due. */
  lemma {:induction false} PassEndFollowsReference(k: nat, a: ActiveProcess, d: Loop.LoopData, passes: Passes)
    requires k < MaxRounds
    ensures var r := Continue(k, passes(k), a, d, passes);
            r.calls + Rest(r.phase, passes) == Restart + RoundsFrom(k + 1, passes)
    decreases MaxRounds - k, 0
  {
    var r := Continue(k, passes(k), a, d, passes);
    var started := a.(inner := Loop.Start(a.inner, d));
    if k + 1 < MaxRounds {
      var next := Continue(k + 1, 0, started, d, passes);
      assert r.phase == next.phase && r.calls == Restart + ([CallUpdate] + next.calls);
      ContinueFollowsReference(k + 1, 0, started, d, passes);
      PassBoundary(k, next.calls, Rest(next.phase, passes), passes);
    } else {
      assert r.phase == Done && r.calls == Restart;
    }
  }

  /** From inside pass `k`, `Continue` passes on one of the suspensions still
      pending, unless it finishes, in which case none was pending. */
  lemma {:induction false} ContinueCountsDown(k: nat, f: nat, a: ActiveProcess, d: Loop.LoopData, passes: Passes)
    requires k < MaxRounds && f <= passes(k)
    ensures var r := Continue(k, f, a, d, passes);
            Pending(r.phase, passes) + Suspends(r.phase) == passes(k) - f + SumFrom(k + 1, passes)
    decreases MaxRounds - k, passes(k) - f
  {
    if f == passes(k) {
      var started := a.(inner := Loop.Start(a.inner, d));
      if k + 1 < MaxRounds {
        ContinueCountsDown(k + 1, 0, started, d, passes);
        RoundsFromUnfold(k + 1, passes);
      }
    }
  }

  /** Entering pass `k` with a call to the inner `Update` and going on from
      its start makes pass `k` and all later ones due. */
  lemma PassFromItsStart(k: nat, a: ActiveProcess, d: Loop.LoopData, passes: Passes)
    requires k < MaxRounds
    ensures var s := Continue(k, 0, a, d, passes);
            && [CallUpdate] + s.calls + Rest(s.phase, passes) == RoundsFrom(k, passes)
            && Pending(s.phase, passes) + Suspends(s.phase) == SumFrom(k, passes)
  {
    var s := Continue(k, 0, a, d, passes);
    ContinueFollowsReference(k, 0, a, d, passes);
    ContinueCountsDown(k, 0, a, d, passes);
    RoundsFromUnfold(k, passes);
    assert [CallUpdate] + s.calls + Rest(s.phase, passes) == [CallUpdate] + (s.calls + Rest(s.phase, passes));
  }

  /** One resume of `Update`: it never goes back to the not-started phase,
      and a finished `Update` stays finished without touching the inner
      process. */
  function MoveNext(phase: Phase, a: ActiveProcess, d: Loop.LoopData, passes: Passes): (r: Step)
    requires ValidPhase(phase, passes)
    ensures ValidPhase(r.phase, passes) && !r.phase.NotStarted?
    ensures phase.Done? ==> r == Step(Done, a, [])
  {
    match phase
    case NotStarted =>
      var s := Continue(0, 0, a, d, passes);
      Step(s.phase, s.active, [CallUpdate] + s.calls)
    case Draining(k, f) => Continue(k, f, a, d, passes)
    case Done => Step(Done, a, [])
  }

  /** The first resume of `Update` makes the first calls due. */
  lemma FirstResumeFollowsReference(a: ActiveProcess, d: Loop.LoopData, passes: Passes)
    ensures var r := MoveNext(NotStarted, a, d, passes);
            r.calls + Rest(r.phase, passes) == RoundsFrom(0, passes)
  {
    var r := MoveNext(NotStarted, a, d, passes);
    var s := Continue(0, 0, a, d, passes);
    PassFromItsStart(0, a, d, passes);
    assert r.phase == s.phase && r.calls == [CallUpdate] + s.calls;
  }

  /** The first resume of `Update` passes on the first pending suspension,
      or finishes. */
  lemma FirstResumeCountsDown(a: ActiveProcess, d: Loop.LoopData, passes: Passes)
    ensures var r := MoveNext(NotStarted, a, d, passes);
            Pending(r.phase, passes) + Suspends(r.phase) == SumFrom(0, passes)
  {
    var r := MoveNext(NotStarted, a, d, passes);
    var s := Continue(0, 0, a, d, passes);
    PassFromItsStart(0, a, d, passes);
    assert r.phase == s.phase;
  }

  /** Every call a resume of `Update` makes is the next one due. */
  lemma MoveNextFollowsReference(phase: Phase, a: ActiveProcess, d: Loop.LoopData, passes: Passes)
    requires ValidPhase(phase, passes)
    ensures var r := MoveNext(phase, a, d, passes);
            r.calls + Rest(r.phase, passes) == Rest(phase, passes)
  {
    match phase
    case NotStarted =>
      FirstResumeFollowsReference(a, d, passes);
    case Draining(k, f) =>
      ContinueFollowsReference(k, f, a, d, passes);
    case Done =>
  }

  /** A resume of `Update` passes on exactly one of the pending suspensions,
      or finishes. */
  lemma MoveNextCountsDown(phase: Phase, a: ActiveProcess, d: Loop.LoopData, passes: Passes)
    requires ValidPhase(phase, passes)
    ensures var r := MoveNext(phase, a, d, passes);
            Pending(r.phase, passes) + Suspends(r.phase) == Pending(phase, passes)
  {
    match phase
    case NotStarted =>
      FirstResumeCountsDown(a, d, passes);
    case Draining(k, f) =>
      ContinueCountsDown(k, f, a, d, passes);
    case Done =>
  }
}
