/** Runs from a new resource that show what the scan protocol does not promise. */
module ScanWitnesses {
  import opened Wrappers
  import opened Cron
  import opened Grading
  import opened SecurityScan
  import opened ScanController
  import opened ScanReconciler
  import opened ScanPasses
  import opened ScanRuns
  import opened ScanHistory

  // ---- Plain resources: a target, and nothing else that could make a scan due ------

  function PlainSpec(limit: Option<nat>): ScanSpec {
    ScanSpec(true, NoSchedule, true, false, false, [], false, None, limit)
  }

  function NewStatus(): Status {
    Status(-1, map[], None, None, None, None, "", [], multiset{}, None, 0)
  }

  const PASS: Step := BeginStep(_ => Absent, false, true, true)
  const FAIL: Step := FinishStep(Transient(CLIError), false, true)

  function New(): World {
    World(0, 1, Some(0), PlainSpec(None), "", NewStatus(), None, None, {}, {}, {})
  }

  /** A resource visited and scanned once, then edited. */
  ghost function Edited(): World {
    Next(Next(Next(Next(New(), PASS), PASS), FinishStep(Success([]), true, true)), EditSpec(PlainSpec(None)))
  }

  /** Visited, with no pass in flight. */
  ghost predicate Settled(w: World) {
    w.spec == PlainSpec(w.spec.backoffLimit) && w.running.None? && w.status.conditions != map[] && w.status.activeWaivers == multiset{}
  }

  function PlainInputs(w: World): Inputs {
    Inputs(w.generation, w.requestedAt, [], None, multiset{})
  }

  /** One attempt of a plain resource that something is due for, with no lost write. */
  lemma PlainAttempt(w: World, outcome: Outcome)
    requires Settled(w) && DueCheck(w.status, PlainInputs(w)).Some? && !Gated(w.status, PlainInputs(w))
    ensures var trigger := DueCheck(w.status, PlainInputs(w)).value;
            var snap := Snapshot(w.now, PlainInputs(w));
            var after := Next(Next(w, PASS), FinishStep(outcome, outcome.Success?, true));
            && after.status == Finish(Stored(w).(status := OpenedFor(w.status, trigger, snap)), None, snap, outcome, w.now)
            && after == w.(status := after.status, report := after.report,
                           succeeded := w.succeeded + if outcome.Success? then {w.generation} else {},
                           rejected := w.rejected + if outcome.Permanent? then {w.generation} else {})
  {
    PlainOpens(w);
  }

  lemma PlainOpens(w: World)
    requires Settled(w) && DueCheck(w.status, PlainInputs(w)).Some? && !Gated(w.status, PlainInputs(w))
    ensures var trigger := DueCheck(w.status, PlainInputs(w)).value;
            var snap := Snapshot(w.now, PlainInputs(w));
            var st := OpenedFor(w.status, trigger, snap);
            Next(w, PASS) == w.(status := st, running := Some(Running(Stored(w).(status := st), None, snap, trigger)))
  {
    var snap := Snapshot(w.now, PlainInputs(w));
    var trigger := DueCheck(w.status, snap.inputs).value;
    assert Observed(Stored(w), None, PASS.reader, w.now) == Some(snap);
    assert Begin(Stored(w), false, PASS.reader, w.now) == Opened(OpenedFor(w.status, trigger, snap), None, snap, trigger);
  }

  lemma EditedIsDue()
    ensures var w := Edited();
            && Settled(w) && w.generation == 2 && w.succeeded == {1} && !IsStalled(w.status)
            && w.status.observedGeneration == 1 && w.status.lastSuccessfulTime.Some? && w.status.failed == 0
            && w.requestedAt == "" && w.status.lastHandledScanRequest == ""
  {
    FirstPass();
    FirstSuccess(New().(status := FirstVisited(NewStatus())));
  }

  lemma FirstPass()
    ensures Next(New(), PASS) == New().(status := FirstVisited(NewStatus()))
  {
    assert Begin(Stored(New()), false, PASS.reader, 0) == Left(FirstVisited(NewStatus()), false);
  }

  lemma FirstSuccess(w: World)
    requires w == New().(status := FirstVisited(NewStatus()))
    ensures var v := Next(Next(w, PASS), FinishStep(Success([]), true, true));
            && Settled(v) && v.generation == 1 && v.succeeded == {1} && !IsStalled(v.status)
            && v.status.observedGeneration == 1 && v.status.lastSuccessfulTime.Some? && v.status.failed == 0
            && v.requestedAt == "" && v.status.lastHandledScanRequest == "" && v.spec == PlainSpec(None)
  {
    assert ReadyCond in w.status.conditions;
    PlainAttempt(w, Success([]));
    var v := Next(Next(w, PASS), FinishStep(Success([]), true, true));
    assert ReadyCond in v.status.conditions;
  }

  lemma RunsAttempt(w: World, steps: seq<Step>, outcome: Outcome) returns (more: seq<Step>)
    ensures Run(w, more) == Next(Next(Run(w, steps), PASS), FinishStep(outcome, outcome.Success?, true))
  {
    RunAppend(w, steps, PASS);
    RunAppend(w, steps + [PASS], FinishStep(outcome, outcome.Success?, true));
    more := steps + [PASS] + [FinishStep(outcome, outcome.Success?, true)];
  }

  /** Rejecting that generation's config observes it. */
  lemma Rejected(w: World) returns (w': World)
    requires w == Edited()
    ensures w' == Next(Next(Next(w, PASS), FinishStep(Permanent(InvalidTarget), false, true)), Annotate("now"))
    ensures Settled(w') && w'.generation == 2 && w'.succeeded == {1} && w'.requestedAt == "now" && w'.spec.backoffLimit.None?
    ensures w'.status.observedGeneration == 2 && IsStalledFor(w'.status, Invalid(InvalidTarget))
    ensures w'.status.lastSuccessfulTime.Some? && w'.status.lastHandledScanRequest == "" && w'.status.failed == 0
  {
    EditedIsDue();
    PlainAttempt(w, Permanent(InvalidTarget));
    var w2 := Next(Next(w, PASS), FinishStep(Permanent(InvalidTarget), false, true));
    assert ReadyCond in w2.status.conditions;
    w' := Next(w2, Annotate("now"));
  }

  /** One requested attempt that then fails transiently lifts the stall. */
  lemma RejectedThenRetried(w: World) returns (w': World, steps: seq<Step>)
    requires w == Edited()
    ensures w' == Run(w, steps)
    ensures Settled(w') && w'.generation == 2 && w'.succeeded == {1} && w'.requestedAt == ""
    ensures w'.status.observedGeneration == 2 && !IsStalled(w'.status) && w'.status.lastSuccessfulTime.Some?
  {
    var w3 := Rejected(w);
    w' := Retried(w3);
    steps := RunsAttempt(w, [], Permanent(InvalidTarget));
    RunAppend(w, steps, Annotate("now"));
    steps := RunsAttempt(w, steps + [Annotate("now")], Transient(CLIError));
    RunAppend(w, steps, Annotate(""));
    steps := steps + [Annotate("")];
  }

  lemma Retried(w: World) returns (w': World)
    requires Settled(w) && w.generation == 2 && w.succeeded == {1} && w.requestedAt == "now" && w.spec.backoffLimit.None?
    requires w.status.observedGeneration == 2 && IsStalledFor(w.status, Invalid(InvalidTarget))
    requires w.status.lastSuccessfulTime.Some? && w.status.lastHandledScanRequest == "" && w.status.failed == 0
    ensures w' == Next(Next(Next(w, PASS), FAIL), Annotate(""))
    ensures Settled(w') && w'.generation == 2 && w'.succeeded == {1} && w'.requestedAt == ""
    ensures w'.status.observedGeneration == 2 && !IsStalled(w'.status) && w'.status.lastSuccessfulTime.Some?
  {
    assert "now" != "" by { assert |"now"| == 3; }
    PlainAttempt(w, Transient(CLIError));
    var v := Next(Next(w, PASS), FAIL);
    assert ReadyCond in v.status.conditions;
    w' := Next(v, Annotate(""));
  }

  lemma EditedByRun() returns (steps: seq<Step>)
    ensures Run(New(), steps) == Edited()
  {
    RunAppend(New(), [], PASS);
    steps := RunsAttempt(New(), [] + [PASS], Success([]));
    RunAppend(New(), steps, EditSpec(PlainSpec(None)));
    steps := steps + [EditSpec(PlainSpec(None))];
  }

  /** That way is open: a run that ends Ready for generation 2, of which no scan succeeded. */
  lemma IdleCanBeUnearned() returns (w: World, steps: seq<Step>)
    ensures Init(w)
    ensures var v := Run(w, steps);
            IsReady(v.status) && v.status.observedGeneration == v.generation == 2 && 2 !in v.succeeded
  {
    w := New();
    var first := EditedByRun();
    var v, second := RejectedThenRetried(Edited());
    RunJoins(w, first, second);
    RunAppend(w, first + second, PASS);
    steps := first + second + [PASS];
    assert Observed(Stored(v), None, PASS.reader, v.now) == Some(Snapshot(v.now, PlainInputs(v)));
    var idled := Next(v, PASS);
    assert idled.status == ScannedAt(ClosedIfOpen(v.status, v.now), 2);
  }

  // ---- Inputs tried twice ------------------------------------------------------------

  /** Stalled on its limit before any success, with its last attempt finished. */
  ghost predicate Exhausted(w: World) {
    && Settled(w) && w.status.lastSuccessfulTime.None? && IsStalledFor(w.status, BackoffLimitExceeded)
    && w.status.lastScan.Some? && !IsOpen(w.status)
  }

  /** A request, and an attempt for it that fails. */
  function Requested(value: string): seq<Step> {
    [Annotate(value), PASS, FAIL]
  }

  lemma RequestFails(w: World, value: string)
    requires Exhausted(w) && w.status.lastScan.value.inputs != PlainInputs(w.(requestedAt := value))
    ensures var v := Run(w, Requested(value));
            Exhausted(v) && v.generation == w.generation && v.status.lastScan.value.inputs == PlainInputs(w.(requestedAt := value))
  {
    RunOfThree(w, Requested(value));
    PlainAttempt(w.(requestedAt := value), Transient(CLIError));
  }

  function Limited(): World {
    New().(spec := PlainSpec(Some(1)))
  }

  /** A plain resource with limit 1 that was never scanned and failed so often. */
  ghost predicate FailedSoFar(w: World, failed: nat) {
    && Settled(w) && w.spec == PlainSpec(Some(1)) && w.generation == 1 && w.requestedAt == ""
    && w.status.lastSuccessfulTime.None? && w.status.failed == failed && !IsOpen(w.status)
  }

  lemma Visited()
    ensures Init(Limited())
    ensures var v := Run(Limited(), [PASS]); FailedSoFar(v, 0) && !IsStalled(v.status)
  {
    var w := Limited();
    assert [PASS] == [] + [PASS];
    RunAppend(w, [], PASS);
    assert Begin(Stored(w), false, PASS.reader, w.now) == Left(FirstVisited(NewStatus()), false);
    assert ReadyCond in FirstVisited(NewStatus()).conditions;
  }

  /** The first failure retries, and the second exceeds the limit. */
  lemma FailsAgain(w: World, failed: nat)
    requires FailedSoFar(w, failed) && failed <= 1 && !IsStalled(w.status)
    ensures var v := Next(Next(w, PASS), FAIL);
            && FailedSoFar(v, failed + 1) && (if failed == 0 then !IsStalled(v.status) else Exhausted(v))
            && (failed == 1 ==> v.status.lastScan.value.inputs == PlainInputs(v))
  {
    PlainAttempt(w, Transient(CLIError));
    var v := Next(Next(w, PASS), FAIL);
    assert ReadyCond in v.status.conditions;
  }

  lemma Stalls() returns (steps: seq<Step>)
    ensures var v := Run(Limited(), steps);
            Exhausted(v) && v.generation == 1 && v.requestedAt == "" && v.status.lastScan.value.inputs == PlainInputs(v)
  {
    var w := Limited();
    Visited();
    FailsAgain(Run(w, [PASS]), 0);
    steps := RunsAttempt(w, [PASS], Transient(CLIError));
    FailsAgain(Run(w, steps), 1);
    steps := RunsAttempt(w, steps, Transient(CLIError));
  }

  /**
   A run from a new resource with limit 1: stalled, it makes a finished attempt for
   request "a" and one for request "b", and then opens another with the inputs of the first.
   */
  lemma InputsTriedTwice() returns (w: World, steps: seq<Step>, more: seq<Step>)
    ensures Init(w)
    ensures var a := Run(w, steps); Exhausted(a)
    ensures var b := Run(Run(w, steps), more);
            && Exhausted(b) && Opens(b, PASS)
            && InputsOf(b, PASS) == Run(w, steps).status.lastScan.value.inputs
            && b.status.lastScan.value.inputs != InputsOf(b, PASS)
  {
    w := Limited();
    Visited();
    var stalling := Stalls();
    var v := Run(w, stalling);
    assert "a" != "" && "b" != "a" by { assert "a"[0] != "b"[0]; }
    RequestFails(v, "a");
    steps := stalling + Requested("a");
    RunJoins(w, stalling, Requested("a"));
    var a := Run(w, steps);
    RequestFails(a, "b");
    more := Requested("b") + [Annotate("a")];
    RunAppend(a, Requested("b"), Annotate("a"));
    var b := Run(a, more);
    OpensIff(Stored(b), false, PASS.reader, b.now);
    assert Observed(Stored(b), None, PASS.reader, b.now) == Some(Snapshot(b.now, PlainInputs(b)));
  }

  /** An attempt opened for request "b" and interrupted. */
  function Interrupting(): seq<Step> {
    [Annotate("b"), PASS, Crash, Annotate("")]
  }

  lemma InterruptedOpens(w: World)
    requires Exhausted(w) && w.requestedAt == "" && w.status.lastScan.value.inputs == PlainInputs(w)
    ensures var v := Run(w, Interrupting());
            && v.running.None? && IsOpen(v.status) && Settled(v) && v.status.lastSuccessfulTime.None?
            && IsStalledFor(v.status, BackoffLimitExceeded) && PlainInputs(v) == PlainInputs(w)
  {
    var asked := w.(requestedAt := "b");
    assert "b" != "" by { assert |"b"| == 1; }
    assert Observed(Stored(asked), None, PASS.reader, w.now) == Some(Snapshot(w.now, PlainInputs(asked)));
    OpensIff(Stored(asked), false, PASS.reader, w.now);
    OpenedFacts(Stored(asked), false, PASS.reader, w.now);
    var b := Begin(Stored(asked), false, PASS.reader, w.now);
    OpeningKeepsWatermarks(w.status, b.trigger, b.snap);
    assert Next(Next(asked, PASS), Crash) == asked.(status := b.status);
    RunOfThree(w, Interrupting()[..3]);
    RunAppend(w, Interrupting()[..3], Annotate(""));
    assert Interrupting()[..3] + [Annotate("")] == Interrupting();
  }

  /**
   A run from a new resource with limit 1: stalled, with its last attempt finished, it
   opens one that is interrupted, and then finishes one for the inputs of the last finished.
   */
  lemma InterruptedRepeats() returns (w: World, steps: seq<Step>)
    ensures Init(w)
    ensures var a := Run(w, steps);
            var b := Run(a, Interrupting());
            var c := Next(Next(b, PASS), FAIL);
            && Exhausted(a) && Opens(b, PASS) && Exhausted(c)
            && c.status.lastScan.value.inputs == a.status.lastScan.value.inputs
  {
    w := Limited();
    Visited();
    steps := Stalls();
    var a := Run(w, steps);
    InterruptedOpens(a);
    var b := Run(a, Interrupting());
    OpensIff(Stored(b), false, PASS.reader, b.now);
    assert Observed(Stored(b), None, PASS.reader, b.now) == Some(Snapshot(b.now, PlainInputs(b)));
    PlainAttempt(b, Transient(CLIError));
  }

  // ---- Woken late ---------------------------------------------------------------------

  const WAIVED := ScanPolicy(None, [Ignored("id", Some(12 * SECOND))])

  /** A new resource whose only waiver expires after twelve seconds. */
  function WithWaiver(): World {
    New().(spec := PlainSpec(None).(policy := Some(WAIVED)))
  }

  lemma WaiverIsFirst()
    ensures FirstCause(Some(WAIVED), None, 0, 12 * SECOND)
  {
    assert WAIVED.ignore[0] in WAIVED.ignore;
    assert IsWait(Some(WAIVED), None, 0, 0, 12 * SECOND);
  }

  /** The visited resource opens its first attempt at once. */
  lemma WaiverAttempt(w: World)
    requires w == Next(WithWaiver(), PASS)
    ensures var r := Next(w, PASS).running;
            && r.Some? && r.value.o.spec == w.spec && r.value.schedule == None && r.value.snap.start == 0
            && r.value.o.status.failed == 0 && !IsStalled(r.value.o.status)
  {
    assert w == WithWaiver().(status := FirstVisited(NewStatus()));
    assert ReadyCond in w.status.conditions;
    OpensIff(Stored(w), false, PASS.reader, w.now);
    var b := Begin(Stored(w), false, PASS.reader, w.now);
    OpenedFacts(Stored(w), false, PASS.reader, w.now);
    OpeningKeepsWatermarks(w.status, b.trigger, b.snap);
  }

  /**
   A run from a new resource whose first attempt fails after ten seconds: a waiver
   expires after twelve, and the pass asks to be woken after fifteen.
   */
  lemma WokenLate() returns (w: World, steps: seq<Step>)
    ensures Init(w)
    ensures var v := Run(w, steps);
            && v.now == 10 * SECOND && v.running.Some?
            && var r := v.running.value;
               && FirstCause(r.o.spec.policy, r.schedule, r.snap.start, 12 * SECOND)
               && forall requeue :: FinishWakes(r.o, r.schedule, r.snap, Transient(CLIError), v.now, requeue) ==>
                    requeue == Some(5 * SECOND)
  {
    w := WithWaiver();
    steps := [PASS, PASS, Tick(10 * SECOND)];
    RunOfThree(w, steps);
    WaiverAttempt(Next(w, PASS));
    WaiverIsFirst();
    var r := Next(Next(w, PASS), PASS).running.value;
    forall requeue | FinishWakes(r.o, r.schedule, r.snap, Transient(CLIError), 10 * SECOND, requeue)
      ensures requeue == Some(5 * SECOND)
    {
      FirstWait(r.o.spec.policy, r.schedule, r.snap.start, RetryAfter(r.o), requeue, 12 * SECOND);
    }
  }
}
