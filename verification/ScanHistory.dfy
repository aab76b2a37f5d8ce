/** What whole runs of the scan protocol guarantee. */
module ScanHistory {
  import opened Wrappers
  import opened Cron
  import opened Grading
  import opened SecurityScan
  import opened ScanController
  import opened ScanReconciler
  import opened ScanPasses
  import opened ScanRuns

  // ---- Conditions and reports --------------------------------------------------

  /** After the first visit every condition exists, a stall shows on all three standard ones, and Ready rests on a success. */
  lemma ConditionsStayCoherent(w: World, steps: seq<Step>)
    requires Init(w)
    ensures var st := Run(w, steps).status; st.conditions == map[] || Coherent(st)
  {
    RunKeepsInv(w, steps);
  }

  /** A recorded success at t implies a stored report completed at t or later, through every crash and lost write. */
  lemma ReportBacksSuccess(w: World, steps: seq<Step>)
    requires Init(w)
    ensures var v := Run(w, steps);
            v.status.lastSuccessfulTime.Some? ==>
              v.report.Some? && v.status.lastSuccessfulTime.value <= v.report.value <= v.now
  {
    RunKeepsInv(w, steps);
  }

  function CompliantOf(st: Status): Option<Condition> {
    if CompliantCond in st.conditions then Some(st.conditions[CompliantCond]) else None
  }

  /** The verdict moves only on the first visit, on a recorded success, or on entering the backoff stall. */
  lemma CompliantMoves(w: World, s: Step)
    requires Inv(w) && w.status.conditions != map[]
    requires CompliantOf(Next(w, s).status) != CompliantOf(w.status)
    ensures s.FinishStep? && s.lastWrite && w.running.Some?
    ensures || s.outcome.Success?
            || (s.outcome.Transient? && !IsStalledFor(w.status, BackoffLimitExceeded) &&
                IsStalledFor(Next(w, s).status, BackoffLimitExceeded))
  {
    if s.BeginStep? && w.running.None? {
      BeginKeepsCompliant(Stored(w), s.allow, s.reader, w.now);
    } else if s.FinishStep? && w.running.Some? && !s.outcome.Success? {
      var r := w.running.value;
      FailureMovesCompliant(r.o, r.schedule, r.snap, s.outcome, w.now);
    }
  }

  lemma FailureMovesCompliant(o: ScanObject, schedule: Option<Schedule>, snap: Snapshot, outcome: Outcome, end: Time)
    requires !outcome.Success?
    ensures var st := Finish(o, schedule, snap, outcome, end);
            CompliantOf(st) == CompliantOf(o.status) ||
            (outcome.Transient? && !IsStalledFor(o.status, BackoffLimitExceeded) && IsStalledFor(st, BackoffLimitExceeded))
  {
  }

  lemma BeginKeepsCompliant(o: ScanObject, allow: bool, reader: Reads, now: Time)
    requires o.status.conditions != map[]
    ensures match Begin(o, allow, reader, now)
            case Unread => true
            case Left(st, _) => CompliantOf(st) == CompliantOf(o.status)
            case Opened(st, _, _, _) => CompliantOf(st) == CompliantOf(o.status)
  {
    var b := Begin(o, allow, reader, now);
    if b.Left? {
      LeftCases(o, allow, reader, now);
    } else if b.Opened? {
      OpenedFacts(o, allow, reader, now);
    }
  }

  // ---- Watermarks --------------------------------------------------------------

  lemma BeginKeepsWatermarks(o: ScanObject, allow: bool, reader: Reads, now: Time)
    ensures match Begin(o, allow, reader, now)
            case Unread => true
            case Left(st, _) => SameWatermarks(st, o.status)
            case Opened(st, _, _, _) => SameWatermarks(st, o.status)
  {
    var b := Begin(o, allow, reader, now);
    if b.Left? {
      LeftCases(o, allow, reader, now);
    } else if b.Opened? {
      OpenedFacts(o, allow, reader, now);
      OpeningKeepsWatermarks(o.status, b.trigger, b.snap);
    }
  }

  lemma FailureKeepsWatermarks(o: ScanObject, schedule: Option<Schedule>, snap: Snapshot, outcome: Outcome, end: Time)
    requires !outcome.Success?
    ensures SameWatermarks(Finish(o, schedule, snap, outcome, end), o.status)
  {
  }

  ghost predicate RecordsSuccess(w: World, s: Step) {
    Finishes(s) && w.running.Some? && s.outcome.Success? && s.lastWrite
  }

  /** Only a recorded success moves a watermark: not an opened attempt, a crash, a lost write, or a failure. */
  lemma OnlySuccessMovesWatermarks(w: World, s: Step)
    requires Inv(w)
    ensures RecordsSuccess(w, s) || SameWatermarks(Next(w, s).status, w.status)
  {
    if s.BeginStep? && w.running.None? {
      BeginKeepsWatermarks(Stored(w), s.allow, s.reader, w.now);
    } else if s.FinishStep? && w.running.Some? && !s.outcome.Success? {
      var r := w.running.value;
      FailureKeepsWatermarks(r.o, r.schedule, r.snap, s.outcome, w.now);
    }
  }

  /** The step stores no status, or only that of an attempt it opens: every way a pass can be cut off short of its final write. */
  ghost predicate StoresNoEnd(w: World, s: Step) {
    match s
    case FinishStep(_, _, lastWrite) => !lastWrite || w.running.None?
    case BeginStep(_, _, _, lastWrite) =>
      w.running.Some? || !lastWrite || !Begin(Stored(w), s.allow, s.reader, w.now).Left?
    case _ => true
  }

  lemma LossStays(w: World, s: Step, was: Status)
    requires Lost(was, w.status) && StoresNoEnd(w, s)
    ensures Lost(was, Next(w, s).status)
  {
    if s.BeginStep? && w.running.None? && Begin(Stored(w), s.allow, s.reader, w.now).Opened? {
      var b := Begin(Stored(w), s.allow, s.reader, w.now);
      OpenedFacts(Stored(w), s.allow, s.reader, w.now);
      OpeningLoses(was, w.status, b.trigger, b.snap);
    }
  }

  lemma {:induction false} LossStaysInRun(w: World, steps: seq<Step>, was: Status)
    requires Lost(was, w.status)
    requires forall i :: 0 <= i < |steps| ==> StoresNoEnd(Run(w, steps[..i]), steps[i])
    ensures Lost(was, Run(w, steps).status)
  {
    if steps != [] {
      var n := |steps| - 1;
      forall i | 0 <= i < n ensures StoresNoEnd(Run(w, steps[..n][..i]), steps[..n][i]) {
        assert steps[..n][..i] == steps[..i];
      }
      LossStaysInRun(w, steps[..n], was);
      LossStays(Run(w, steps[..n]), steps[n], was);
    }
  }

  /** A run that ends in the generation it began with has edited nothing. */
  lemma {:induction false} SameGenerationSameSpec(w: World, steps: seq<Step>)
    ensures var v := Run(w, steps);
            && v.generation >= w.generation && v.creation == w.creation
            && (v.generation == w.generation ==> v.spec == w.spec)
  {
    if steps != [] {
      SameGenerationSameSpec(w, steps[..|steps| - 1]);
    }
  }

  /** An opened attempt is not lost yet, and knows what it was opened with. */
  lemma OpensForTrigger(w: World, begin: Step, w1: World)
    requires w1 == Next(w, begin) && w.running.None? && begin.BeginStep? && w1.running.Some?
    ensures var r := w1.running.value;
            && Lost(w.status, w1.status) && w1.generation == w.generation && w1.spec == w.spec && w1.creation == w.creation
            && DueCheck(w.status, r.snap.inputs) == Some(r.trigger) && !w.spec.suspend
            && r.snap.inputs.generation == w.generation && r.snap.inputs.requestedAt == w.requestedAt
  {
    var b := Begin(Stored(w), begin.allow, begin.reader, w.now);
    OpenedFacts(Stored(w), begin.allow, begin.reader, w.now);
    OpeningLoses(w.status, w.status, b.trigger, b.snap);
  }

  lemma StartsAgain(w: World, v: World, again: Step, r: Running)
    requires Lost(w.status, v.status) && v.creation == w.creation && (v.generation == w.generation ==> v.spec == w.spec)
    requires DueCheck(w.status, r.snap.inputs) == Some(r.trigger) && !w.spec.suspend
    requires r.snap.inputs.generation == w.generation && r.snap.inputs.requestedAt == w.requestedAt
    requires again.BeginStep? && Validate(v.spec, again.allow, v.now).Valid?
    requires Observed(Stored(v), ScheduleOf(v.spec), again.reader, v.now) == Some(Snapshot(v.now, r.snap.inputs))
    ensures var b := Begin(Stored(v), again.allow, again.reader, v.now); b.Opened? && b.trigger == r.trigger
  {
    assert Stored(v) == Stored(w).(status := v.status, requestedAt := r.snap.inputs.requestedAt);
    LostRestarts(Stored(w), v.status, again.allow, again.reader, v.now, r.snap);
  }

  /**
   A pass cut off between its writes, by a crash or a lost final write, leaves no
   trace on the watermarks; and whatever comes after it short of a stored end
   (time, crashes, failed reads, further attempts cut off, edits), once the same
   inputs are observed a scan starts for the same trigger.
   */
  lemma CrashLosesNothing(w: World, begin: Step, between: seq<Step>, again: Step)
    requires Inv(w) && w.running.None? && begin.BeginStep? && Next(w, begin).running.Some?
    requires forall i :: 0 <= i < |between| ==> StoresNoEnd(Run(Next(w, begin), between[..i]), between[i])
    requires again.BeginStep?
    requires var v := Run(Next(w, begin), between);
             && v.running.None?
             && Validate(v.spec, again.allow, v.now).Valid?
             && Observed(Stored(v), ScheduleOf(v.spec), again.reader, v.now).Some?
             && Observed(Stored(v), ScheduleOf(v.spec), again.reader, v.now).value.inputs
                == Next(w, begin).running.value.snap.inputs
    ensures var v := Run(Next(w, begin), between);
            var b := Begin(Stored(v), again.allow, again.reader, v.now);
            && SameWatermarks(v.status, w.status)
            && v.status.observedGeneration == w.status.observedGeneration
            && b.Opened? && b.trigger == Next(w, begin).running.value.trigger
  {
    var w1 := Next(w, begin);
    var v := Run(w1, between);
    OpensForTrigger(w, begin, w1);
    LossStaysInRun(w1, between, w.status);
    SameGenerationSameSpec(w1, between);
    StartsAgain(w, v, again, w1.running.value);
  }

  /** In every step, the schedule watermark moves strictly forwards and stays at or before the success that set it. */
  lemma ScheduleWatermarkForward(w: World, s: Step)
    requires Inv(w)
    ensures var was, now := w.status.lastScheduleTime, Next(w, s).status.lastScheduleTime;
            was.Some? && now.Some? && was != now ==> was.value < now.value <= w.now
    ensures var next := Next(w, s).status.nextScheduleTime;
            RecordsSuccess(w, s) && next.Some? ==> w.now < next.value
  {
    OnlySuccessMovesWatermarks(w, s);
    if RecordsSuccess(w, s) {
      var r := w.running.value;
      ScheduleWatermarkOrder(r.o, r.schedule, r.snap, s.outcome.vulnerabilities, w.now);
    }
  }

  // ---- Every slot is accounted for once ----------------------------------------

  /** The completion times of the successes a run records. */
  ghost function Completions(w: World, steps: seq<Step>): seq<Time> {
    if steps == [] then []
    else
      var before, s := Run(w, steps[..|steps| - 1]), steps[|steps| - 1];
      Completions(w, steps[..|steps| - 1]) +
      if RecordsSuccess(before, s) then [before.now] else []
  }

  ghost predicate KeepsSchedule(s: Step, schedule: Schedule) {
    s.EditSpec? ==> ScheduleOf(s.spec) == Some(schedule)
  }

  /** The schedule is s, for the stored spec and for the pass in flight, and the watermark is set. */
  ghost predicate OnSchedule(w: World, s: Schedule, mark: Time) {
    && ScheduleOf(w.spec) == Some(s)
    && (w.running.Some? ==> w.running.value.schedule == Some(s))
    && w.status.lastScheduleTime == Some(mark)
  }

  lemma WatermarkStep(w: World, step: Step, s: Schedule, mark: Time)
    requires Inv(w) && OnSchedule(w, s, mark) && KeepsSchedule(step, s)
    ensures OnSchedule(Next(w, step), s,
                       if !RecordsSuccess(w, step) then mark
                       else match LatestSlot(s, mark, w.now) case None => mark case Some(t) => t)
  {
    OnlySuccessMovesWatermarks(w, step);
    if step.BeginStep? && w.running.None? {
      if Begin(Stored(w), step.allow, step.reader, w.now).Opened? {
        OpenedFacts(Stored(w), step.allow, step.reader, w.now);
      }
    } else if RecordsSuccess(w, step) {
      CommitIsOneMark(w.running.value, s, step.outcome.vulnerabilities, w.now);
    }
  }

  /** The watermark of a resource whose schedule does not change is the fold of its completions. */
  lemma {:induction false} WatermarkFollowsCompletions(w: World, steps: seq<Step>, s: Schedule, mark: Time)
    requires Inv(w) && OnSchedule(w, s, mark)
    requires forall i :: 0 <= i < |steps| ==> KeepsSchedule(steps[i], s)
    ensures OnSchedule(Run(w, steps), s, MarkAfter(s, mark, Completions(w, steps)))
  {
    if steps != [] {
      var n := |steps| - 1;
      var before, cs := Run(w, steps[..n]), Completions(w, steps[..n]);
      WatermarkFollowsCompletions(w, steps[..n], s, mark);
      RunKeepsInv(w, steps[..n]);
      WatermarkStep(before, steps[n], s, MarkAfter(s, mark, cs));
      MarkOneMore(s, mark, cs, before.now);
      assert Completions(w, steps) == if RecordsSuccess(before, steps[n]) then cs + [before.now] else cs;
    }
  }

  lemma CommitIsOneMark(r: Running, s: Schedule, vs: seq<Vulnerability>, end: Time)
    requires r.schedule == Some(s) && Started(r.o, r.schedule, r.snap, end) && r.o.status.lastScheduleTime.Some?
    ensures var mark := r.o.status.lastScheduleTime.value;
            Committed(r.o, r.schedule, r.snap, vs, end).lastScheduleTime ==
            Some(match LatestSlot(s, mark, end) case None => mark case Some(t) => t)
    ensures var mark := r.o.status.lastScheduleTime.value;
            r.trigger != SpecTrigger && LatestSlot(s, mark, end).Some? ==>
              Missed(r.o, r.schedule, r.snap, r.trigger, Success(vs), end) == Skipped(s, mark, LatestSlot(s, mark, end).value)
  {
    CoveredIsLast(r.o, s, r.snap, end);
  }

  /** Over any run with one schedule and no capped search, the slots covered and skipped are all slots between the marks. */
  lemma RunAccountsEverySlot(w: World, steps: seq<Step>, s: Schedule, mark: Time)
    requires Inv(w) && OnSchedule(w, s, mark)
    requires forall i :: 0 <= i < |steps| ==> KeepsSchedule(steps[i], s)
    requires Uncapped(s, mark, Completions(w, steps))
    ensures var last := Run(w, steps).status.lastScheduleTime;
            last.Some? && Accounted(s, mark, Completions(w, steps)) == |SlotsIn(s, mark, last.value)|
  {
    WatermarkFollowsCompletions(w, steps, s, mark);
    EverySlotAccountedOnce(s, mark, Completions(w, steps));
  }

  // ---- Whether idling is earned ------------------------------------------------

  ghost predicate IdlesReady(w: World, allow: bool, reader: Reads) {
    var o := Stored(w);
    && Begin(o, allow, reader, w.now).Left? && Begin(o, allow, reader, w.now).wakes
    && !DueAt(o, reader, w.now) && !IsStalled(w.status)
  }

  /** A pass marks a generation Ready only if a scan of it succeeded, or an input of it was once rejected. */
  lemma IdleIsEarned(w: World, steps: seq<Step>, allow: bool, reader: Reads)
    requires Init(w) && Run(w, steps).running.None? && IdlesReady(Run(w, steps), allow, reader)
    ensures var v := Run(w, steps); v.generation in v.succeeded || v.generation in v.rejected
  {
    RunKeepsInv(w, steps);
    var v := Run(w, steps);
    IdleBegin(Stored(v), allow, reader, v.now);
  }

  /** The resource is not stalled, its generation reads as observed, and no scan of that generation succeeded. */
  ghost predicate Unearned(w: World) {
    && w.status.conditions != map[] && !w.spec.suspend && !IsStalled(w.status)
    && w.status.observedGeneration == w.generation && w.generation !in w.succeeded
  }

  /** The one way there: a recorded transient failure of a generation stalled on a rejected input. */
  lemma OnlyATransientFailureUnearns(w: World, s: Step)
    requires Inv(w) && !Unearned(w)
    ensures Unearned(Next(w, s)) <==>
            && s.FinishStep? && s.outcome.Transient? && s.lastWrite && w.running.Some?
            && IsStalled(w.status) && w.status.conditions[StalledCond].reason.Invalid?
            && w.status.observedGeneration == w.generation && w.generation !in w.succeeded && !w.spec.suspend
            && var limit := BackoffLimit(w.running.value.o.spec);
               !(limit > 0 && w.status.failed + 1 > limit)
  {
    if s.BeginStep? && w.running.None? {
      BeginNeverUnearns(w, s);
    } else if s.FinishStep? && w.running.Some? && Finishes(s) {
      FinishUnearnsIff(w, s);
    }
  }

  lemma FinishUnearnsIff(w: World, s: Step)
    requires Inv(w) && !Unearned(w) && s.FinishStep? && w.running.Some? && Finishes(s)
    ensures Unearned(NextFinish(w, w.running.value, s)) <==>
            && s.outcome.Transient? && s.lastWrite
            && IsStalled(w.status) && w.status.conditions[StalledCond].reason.Invalid?
            && w.status.observedGeneration == w.generation && w.generation !in w.succeeded && !w.spec.suspend
            && var limit := BackoffLimit(w.running.value.o.spec);
               !(limit > 0 && w.status.failed + 1 > limit)
  {
  }

  lemma BeginNeverUnearns(w: World, s: Step)
    requires Inv(w) && !Unearned(w) && s.BeginStep? && w.running.None?
    ensures !Unearned(NextBegin(w, s))
  {
    var o := Stored(w);
    var b := Begin(o, s.allow, s.reader, w.now);
    if b.Left? {
      LeftCases(o, s.allow, s.reader, w.now);
    } else if b.Opened? {
      OpenedFacts(o, s.allow, s.reader, w.now);
      OpeningKeepsWatermarks(o.status, b.trigger, b.snap);
    }
  }

  // ---- The gate of an exhausted resource ---------------------------------------------

  ghost predicate Opens(w: World, s: Step) {
    s.BeginStep? && w.running.None? && Begin(Stored(w), s.allow, s.reader, w.now).Opened?
  }

  /** The step stores an attempt it opens: with its first write, or with the last when the first was lost. */
  ghost predicate StoresAttempt(w: World, s: Step) {
    Opens(w, s) && (s.firstWrite || s.lastWrite)
  }

  /** The step stores the end of the attempt in flight. */
  ghost predicate StoresEnd(w: World, s: Step) {
    Finishes(s) && w.running.Some? && s.lastWrite
  }

  /** The pass may scan: visited, not suspended, with valid inputs that could be read, and something due. */
  ghost predicate Ready(w: World, s: Step)
    requires s.BeginStep?
  {
    && w.status.conditions != map[] && !w.spec.suspend && Validate(w.spec, s.allow, w.now).Valid?
    && Observed(Stored(w), ScheduleOf(w.spec), s.reader, w.now).Some?
    && DueCheck(w.status, InputsOf(w, s)).Some?
  }

  ghost function InputsOf(w: World, s: Step): Inputs
    requires s.BeginStep? && Observed(Stored(w), ScheduleOf(w.spec), s.reader, w.now).Some?
  {
    Observed(Stored(w), ScheduleOf(w.spec), s.reader, w.now).value.inputs
  }

  /** A resource stalled on its limit scans again exactly when its last attempt was interrupted, or was for other inputs. */
  lemma StalledGate(w: World, s: Step)
    requires w.running.None? && s.BeginStep? && Ready(w, s)
    requires IsStalledFor(w.status, BackoffLimitExceeded) && w.status.lastScan.Some?
    ensures Opens(w, s) <==> IsOpen(w.status) || InputsOf(w, s) != w.status.lastScan.value.inputs
  {
    OpensIff(Stored(w), s.allow, s.reader, w.now);
  }

  /** Inputs of an earlier attempt are scanned again exactly when the last attempt since then was interrupted, or was for others. */
  lemma TriedInputsAgain(first: World, steps: seq<Step>, s: Step)
    requires first.status.lastScan.Some? && s.BeginStep?
    requires var v := Run(first, steps);
             && v.running.None? && Ready(v, s) && IsStalledFor(v.status, BackoffLimitExceeded) && v.status.lastScan.Some?
             && InputsOf(v, s) == first.status.lastScan.value.inputs
    ensures var v := Run(first, steps);
            Opens(v, s) <==> IsOpen(v.status) || v.status.lastScan.value.inputs != first.status.lastScan.value.inputs
  {
    StalledGate(Run(first, steps), s);
  }

  lemma RunStep(w: World, steps: seq<Step>, i: nat)
    requires i < |steps|
    ensures Run(w, steps[..i + 1]) == Next(Run(w, steps[..i]), steps[i])
  {
    assert steps[..i + 1][..i] == steps[..i];
  }

  lemma AttemptStays(w: World, s: Step)
    requires w.running.None? && !IsOpen(w.status) && !StoresAttempt(w, s)
    ensures var v := Next(w, s); v.running.None? && v.status.lastScan == w.status.lastScan
  {
    if s.BeginStep? && Begin(Stored(w), s.allow, s.reader, w.now).Left? {
      LeftCases(Stored(w), s.allow, s.reader, w.now);
    }
  }

  /** No step from a up to b stores an attempt. */
  ghost predicate NoneStored(w: World, steps: seq<Step>, a: nat, b: nat)
    requires b <= |steps|
  {
    forall m :: a <= m < b ==> !StoresAttempt(Run(w, steps[..m]), steps[m])
  }

  lemma NoneStoredBefore(w: World, steps: seq<Step>, a: nat, b: nat)
    requires a < b <= |steps| && NoneStored(w, steps, a, b)
    ensures NoneStored(w, steps, a, b - 1) && !StoresAttempt(Run(w, steps[..b - 1]), steps[b - 1])
  {
  }

  /** From a finished attempt, the last attempt stays as it is up to the first step that stores another. */
  lemma {:induction false} LastAttemptStays(w: World, steps: seq<Step>, a: nat, b: nat)
    requires a <= b <= |steps| && Run(w, steps[..a]).running.None? && !IsOpen(Run(w, steps[..a]).status)
    requires NoneStored(w, steps, a, b)
    ensures var v := Run(w, steps[..b]);
            v.running.None? && v.status.lastScan == Run(w, steps[..a]).status.lastScan
    decreases b
  {
    if a < b {
      NoneStoredBefore(w, steps, a, b);
      LastAttemptStays(w, steps, a, b - 1);
      RunStep(w, steps, b - 1);
      AttemptStays(Run(w, steps[..b - 1]), steps[b - 1]);
    }
  }

  /** An attempt that is in flight after a step, and was not before it, was opened by the step. */
  lemma OpenedNow(w: World, s: Step)
    requires Next(w, s).running.Some? && Next(w, s).running != w.running
    ensures Opens(w, s) && s.firstWrite
    ensures Begin(Stored(w), s.allow, s.reader, w.now).snap == Next(w, s).running.value.snap
  {
  }

  /** The step that opened the attempt in flight. */
  lemma {:induction false} OpenedAt(w: World, steps: seq<Step>, a: nat, b: nat) returns (o: nat)
    requires a <= b <= |steps| && Run(w, steps[..a]).running.None? && Run(w, steps[..b]).running.Some?
    ensures a <= o < b && Opens(Run(w, steps[..o]), steps[o]) && steps[o].firstWrite
    ensures Begin(Stored(Run(w, steps[..o])), steps[o].allow, steps[o].reader, Run(w, steps[..o]).now).snap
            == Run(w, steps[..b]).running.value.snap
    decreases b
  {
    RunStep(w, steps, b - 1);
    if Run(w, steps[..b - 1]).running == Run(w, steps[..b]).running {
      o := OpenedAt(w, steps, a, b - 1);
    } else {
      o := b - 1;
      OpenedNow(Run(w, steps[..o]), steps[o]);
    }
  }

  /** Two attempts stored as finished one after the other, the resource stalled on its limit from the one to the other. */
  ghost predicate FinishedInARow(w: World, steps: seq<Step>, i: nat, j: nat) {
    && i < j < |steps| && StoresEnd(Run(w, steps[..i]), steps[i]) && StoresEnd(Run(w, steps[..j]), steps[j])
    && (forall m :: i < m < j ==> !StoresEnd(Run(w, steps[..m]), steps[m]))
    && (forall m :: i < m <= j ==> IsStalledFor(Run(w, steps[..m]).status, BackoffLimitExceeded))
  }

  ghost function InputsAt(w: World, steps: seq<Step>, i: nat): Inputs
    requires i < |steps| && StoresEnd(Run(w, steps[..i]), steps[i])
  {
    Run(w, steps[..i]).running.value.snap.inputs
  }

  lemma FinishStores(w: World, s: Step)
    requires Inv(w) && StoresEnd(w, s)
    ensures var v := Next(w, s);
            && v.running.None? && v.status.lastScan.Some? && !IsOpen(v.status)
            && v.status.lastScan.value.inputs == w.running.value.snap.inputs
  {
    var r := w.running.value;
    FinishCloses(r.o, r.schedule, r.snap, s.outcome, w.now);
  }

  lemma FinishLeaves(w: World, steps: seq<Step>, i: nat)
    requires Inv(w) && i < |steps| && StoresEnd(Run(w, steps[..i]), steps[i])
    ensures var v := Run(w, steps[..i + 1]);
            && v.running.None? && v.status.lastScan.Some? && !IsOpen(v.status)
            && v.status.lastScan.value.inputs == InputsAt(w, steps, i)
  {
    RunStep(w, steps, i);
    RunKeepsInv(w, steps[..i]);
    FinishStores(Run(w, steps[..i]), steps[i]);
  }

  /**
   In any run: of two attempts finished in a row on exhausted retries for equal
   inputs, the second was opened after another was opened, at k, and interrupted.
   */
  lemma EqualInputsMeanInterrupted(w: World, steps: seq<Step>, i: nat, j: nat) returns (k: nat, o: nat)
    requires Inv(w) && FinishedInARow(w, steps, i, j) && InputsAt(w, steps, i) == InputsAt(w, steps, j)
    ensures i < k < o < j
    ensures StoresAttempt(Run(w, steps[..k]), steps[k])
    ensures var v := Run(w, steps[..o]);
            Opens(v, steps[o]) &&
            Begin(Stored(v), steps[o].allow, steps[o].reader, v.now).snap == Run(w, steps[..j]).running.value.snap
  {
    FinishLeaves(w, steps, i);
    o := OpenedAt(w, steps, i + 1, j);
    var v := Run(w, steps[..o]);
    OpenedFacts(Stored(v), steps[o].allow, steps[o].reader, v.now);
    if NoneStored(w, steps, i + 1, o) {
      LastAttemptStays(w, steps, i + 1, o);
      assert Gated(v.status, InputsAt(w, steps, j));
      assert false;
    }
    k :| i + 1 <= k < o && StoresAttempt(Run(w, steps[..k]), steps[k]);
  }
}
