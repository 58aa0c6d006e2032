/** Whole runs of the loop's active process: `Update` driven resume after
    resume, and what the call log of a run says about the inner process. */
module LoopRun {
  import Loop
  import opened LoopActive

  /** Where a run of `Update` stopped, the active process then, every call
      made on the inner process so far, and how many times `Update`
      suspended. */
  datatype Run = Run(phase: Phase, active: ActiveProcess, calls: seq<InnerCall>, suspensions: nat)

  /** Resumes `Update` from `phase`, and resumes it again up to `ticks` more
      times for as long as it keeps suspending. */
  function Drive(phase: Phase, a: ActiveProcess, d: Loop.LoopData, passes: Passes, ticks: nat): (r: Run)
    requires ValidPhase(phase, passes)
    ensures ValidPhase(r.phase, passes) && !r.phase.NotStarted?
    ensures r.phase.Draining? ==> r.suspensions == ticks + 1
    ensures r.phase.Done? ==> r.suspensions <= ticks
    decreases ticks
  {
    var s := MoveNext(phase, a, d, passes);
    if s.phase.Draining? && ticks > 0 then
      var rest := Drive(s.phase, s.active, d, passes, ticks - 1);
      Run(rest.phase, rest.active, s.calls + rest.calls, rest.suspensions + 1)
    else
      Run(s.phase, s.active, s.calls, Suspends(s.phase))
  }

  /** A run makes exactly the calls that were due, in order. */
  lemma {:induction false} DriveFollowsReference(phase: Phase, a: ActiveProcess, d: Loop.LoopData, passes: Passes, ticks: nat)
    requires ValidPhase(phase, passes)
    ensures var r := Drive(phase, a, d, passes, ticks);
            r.calls + Rest(r.phase, passes) == Rest(phase, passes)
    decreases ticks
  {
    var s := MoveNext(phase, a, d, passes);
    MoveNextFollowsReference(phase, a, d, passes);
    if s.phase.Draining? && ticks > 0 {
      var rest := Drive(s.phase, s.active, d, passes, ticks - 1);
      DriveFollowsReference(s.phase, s.active, d, passes, ticks - 1);
      var r := Drive(phase, a, d, passes, ticks);
      assert r.calls == s.calls + rest.calls && r.phase == rest.phase;
      Regroup(s.calls, rest.calls, Rest(rest.phase, passes));
    }
  }

  lemma Regroup(s: seq<InnerCall>, t: seq<InnerCall>, u: seq<InnerCall>)
    ensures (s + t) + u == s + (t + u)
  {
  }

  /** Every suspension a run passes on was pending. */
  lemma {:induction false} DriveCountsDown(phase: Phase, a: ActiveProcess, d: Loop.LoopData, passes: Passes, ticks: nat)
    requires ValidPhase(phase, passes)
    ensures var r := Drive(phase, a, d, passes, ticks);
            Pending(r.phase, passes) + r.suspensions == Pending(phase, passes)
    decreases ticks
  {
    var s := MoveNext(phase, a, d, passes);
    MoveNextCountsDown(phase, a, d, passes);
    if s.phase.Draining? && ticks > 0 {
      DriveCountsDown(s.phase, s.active, d, passes, ticks - 1);
    }
  }

  /** `Update` always terminates: resumed once more than there are inner
      suspensions in all passes, it finishes, having passed on every one of
      them and made the calls of all `MaxRounds` passes. */
  lemma UpdateTerminates(a: ActiveProcess, d: Loop.LoopData, passes: Passes)
    ensures var r := Drive(NotStarted, a, d, passes, SumFrom(0, passes));
            && r.phase.Done?
            && r.suspensions == SumFrom(0, passes)
            && r.calls == RoundsFrom(0, passes)
  {
    DriveFollowsReference(NotStarted, a, d, passes, SumFrom(0, passes));
    DriveCountsDown(NotStarted, a, d, passes, SumFrom(0, passes));
  }

  /** No inner suspensions in any pass. */
  lemma {:induction false} NoSuspensionsFrom(k: nat, passes: Passes)
    requires forall j :: passes(j) == 0
    ensures SumFrom(k, passes) == 0
    decreases MaxRounds - k
  {
    if k < MaxRounds {
      NoSuspensionsFrom(k + 1, passes);
    }
  }

  /** When the inner `Update` never suspends, as with an empty child list,
      the first resume of `Update` runs all `MaxRounds` passes and finishes
      without suspending. */
  lemma EmptyPassesFinishAtOnce(a: ActiveProcess, d: Loop.LoopData, passes: Passes)
    requires forall j :: passes(j) == 0
    ensures var r := MoveNext(NotStarted, a, d, passes);
            r.phase.Done? && r.calls == RoundsFrom(0, passes)
  {
    NoSuspensionsFrom(0, passes);
    FirstResumeFollowsReference(a, d, passes);
    FirstResumeCountsDown(a, d, passes);
  }

  // ---------------------------------------------------------------------
  // What the calls of a full run say

  lemma {:induction false} CountAppend(s: seq<InnerCall>, t: seq<InnerCall>, x: InnerCall)
    ensures Count(s + t, x) == Count(s, x) + Count(t, x)
    decreases |s|
  {
    if s != [] {
      assert (s + t)[0] == s[0];
      assert (s + t)[1..] == s[1..] + t;
      CountAppend(s[1..], t, x);
    } else {
      assert s + t == t;
    }
  }

  lemma {:induction false} MovesShape(n: nat)
    ensures |Moves(n)| == n
    ensures forall i :: 0 <= i < n ==> Moves(n)[i] == CallMoveNext(true)
  {
    if n > 0 {
      MovesShape(n - 1);
      assert Moves(n) == [CallMoveNext(true)] + Moves(n - 1);
    }
  }

  lemma {:induction false} CountMoves(n: nat, x: InnerCall)
    requires x != CallMoveNext(true)
    ensures Count(Moves(n), x) == 0
  {
    if n > 0 {
      CountMoves(n - 1, x);
      assert Moves(n)[1..] == Moves(n - 1);
    }
  }

  /** One pass calls the inner `Update`, `End` and `Start` once each. */
  lemma PassCallsOnce(k: nat, passes: Passes, x: InnerCall)
    requires x == CallUpdate || x == CallEnd || x == CallStart
    ensures Count(PassCalls(k, passes), x) == 1
  {
    CountAppend([CallUpdate] + Moves(passes(k)), Restart, x);
    CountAppend([CallUpdate], Moves(passes(k)), x);
    CountMoves(passes(k), x);
    assert Restart[1..][1..][1..] == [];
  }

  /** Passes `k` onward call the inner `Update`, `End` and `Start` once per
      pass. */
  lemma {:induction false} RoundsCallOncePerPass(k: nat, passes: Passes, x: InnerCall)
    requires x == CallUpdate || x == CallEnd || x == CallStart
    ensures Count(RoundsFrom(k, passes), x) == if k < MaxRounds then MaxRounds - k else 0
    decreases MaxRounds - k
  {
    if k < MaxRounds {
      RoundsCallOncePerPass(k + 1, passes, x);
      CountAppend(PassCalls(k, passes), RoundsFrom(k + 1, passes), x);
      PassCallsOnce(k, passes, x);
    }
  }

  /** A full `Update` runs exactly `MaxRounds` passes: it calls the inner
      `Update`, `End` and `Start` `MaxRounds` times each. */
  lemma UpdateRunsMaxRounds(passes: Passes)
    ensures Count(Rest(NotStarted, passes), CallUpdate) == MaxRounds
    ensures Count(Rest(NotStarted, passes), CallEnd) == MaxRounds
    ensures Count(Rest(NotStarted, passes), CallStart) == MaxRounds
  {
    RoundsCallOncePerPass(0, passes, CallUpdate);
    RoundsCallOncePerPass(0, passes, CallEnd);
    RoundsCallOncePerPass(0, passes, CallStart);
  }

  /** Every `Start` in `t` comes right after an `End`. */
  predicate EndedBeforeRestart(t: seq<InnerCall>)
  {
    forall i :: 0 <= i < |t| && t[i] == CallStart ==> 0 < i && t[i - 1] == CallEnd
  }

  lemma EndedBeforeRestartAppend(s: seq<InnerCall>, t: seq<InnerCall>)
    requires EndedBeforeRestart(s) && EndedBeforeRestart(t)
    ensures EndedBeforeRestart(s + t)
  {
    forall i | 0 <= i < |s + t| && (s + t)[i] == CallStart
      ensures 0 < i && (s + t)[i - 1] == CallEnd
    {
      if i < |s| {
        assert s[i] == CallStart;
      } else {
        assert t[i - |s|] == CallStart;
        assert (s + t)[i - 1] == t[i - |s| - 1];
      }
    }
  }

  lemma {:induction false} RoundsEndBeforeRestart(k: nat, passes: Passes)
    ensures EndedBeforeRestart(RoundsFrom(k, passes))
    decreases MaxRounds - k
  {
    if k < MaxRounds {
      MovesShape(passes(k));
      EndedBeforeRestartAppend([CallUpdate], Moves(passes(k)));
      EndedBeforeRestartAppend([CallUpdate] + Moves(passes(k)), Restart);
      RoundsEndBeforeRestart(k + 1, passes);
      EndedBeforeRestartAppend(PassCalls(k, passes), RoundsFrom(k + 1, passes));
    }
  }

  /** Between passes the inner process is always ended before it is started
      again: in any run of `Update`, every call to the inner `Start` comes
      right after a call to its `End`. */
  lemma RunEndsBeforeRestart(a: ActiveProcess, d: Loop.LoopData, passes: Passes, ticks: nat)
    ensures EndedBeforeRestart(Drive(NotStarted, a, d, passes, ticks).calls)
  {
    var r := Drive(NotStarted, a, d, passes, ticks);
    DriveFollowsReference(NotStarted, a, d, passes, ticks);
    RoundsEndBeforeRestart(0, passes);
    assert r.calls == RoundsFrom(0, passes)[..|r.calls|];
    forall i | 0 <= i < |r.calls| && r.calls[i] == CallStart
      ensures 0 < i && r.calls[i - 1] == CallEnd
    {
      assert RoundsFrom(0, passes)[i] == CallStart;
    }
  }
}
