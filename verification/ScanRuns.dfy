/**
 The scan protocol over whole runs. The world holds what the API server stores,
 the clock, and the pass in flight, if any; steps of the environment interleave
 with the two halves of a pass, either of which a crash or a lost write can cut off.
 */
module ScanRuns {
  import opened Wrappers
  import opened Cron
  import opened Grading
  import opened SecurityScan
  import opened ScanController
  import opened ScanReconciler
  import opened ScanPasses

  /** A pass between its two writes: the resource as it read it, with the status it wrote. */
  datatype Running = Running(o: ScanObject, schedule: Option<Schedule>, snap: Snapshot, trigger: ScanTrigger)

  /** The last three fields are history: the generations whose scan was recorded as succeeded, rejected, or suspended. */
  datatype World = World(
    now: Time, generation: int, creation: Option<Time>, spec: ScanSpec, requestedAt: string,
    status: Status, report: Option<Time>, running: Option<Running>,
    succeeded: set<int>, rejected: set<int>, suspended: set<int>)

  datatype Step =
    | Tick(elapsed: nat)
    | EditSpec(spec: ScanSpec)
    | Annotate(value: string)
    | BeginStep(reader: Reads, allow: bool, firstWrite: bool, lastWrite: bool)
    | FinishStep(outcome: Outcome, stored: bool, lastWrite: bool)
    | Crash

  function Stored(w: World): ScanObject {
    ScanObject(w.generation, w.creation, w.spec, w.requestedAt, w.status)
  }

  ghost function NextBegin(w: World, s: Step): World
    requires s.BeginStep?
  {
    match Begin(Stored(w), s.allow, s.reader, w.now)
    case Unread => w
    case Left(st, _) =>
      if !s.lastWrite then w
      else
        w.(status := st,
           suspended := w.suspended + if w.status.conditions != map[] && w.spec.suspend then {w.generation} else {},
           rejected := w.rejected + if w.status.conditions != map[] && !w.spec.suspend && Validate(w.spec, s.allow, w.now).NotValid?
                                    then {w.generation} else {})
    case Opened(st, schedule, snap, trigger) =>
      if s.firstWrite then w.(status := st, running := Some(Running(Stored(w).(status := st), schedule, snap, trigger)))
      else if s.lastWrite then w.(status := st)
      else w
  }

  ghost function NextFinish(w: World, r: Running, s: Step): World
    requires s.FinishStep?
  {
    var recorded := if s.lastWrite then {r.o.generation} else {};
    w.(running := None,
       status := if s.lastWrite then Finish(r.o, r.schedule, r.snap, s.outcome, w.now) else w.status,
       report := if s.stored then Some(w.now) else w.report,
       succeeded := w.succeeded + if s.outcome.Success? then recorded else {},
       rejected := w.rejected + if s.outcome.Permanent? then recorded else {})
  }

  /** A success needs a stored report. */
  predicate Finishes(s: Step) {
    s.FinishStep? && (s.outcome.Success? ==> s.stored)
  }

  /** A step that is not enabled leaves the world as it is. */
  ghost function Next(w: World, s: Step): World {
    match s
    case Tick(d) => w.(now := w.now + d)
    case EditSpec(spec) => w.(spec := spec, generation := w.generation + 1)
    case Annotate(value) => w.(requestedAt := value)
    case BeginStep(_, _, _, _) => if w.running.Some? then w else NextBegin(w, s)
    case FinishStep(_, _, _) => if w.running.None? || !Finishes(s) then w else NextFinish(w, w.running.value, s)
    case Crash => w.(running := None)
  }

  ghost function Run(w: World, steps: seq<Step>): World {
    if steps == [] then w else Next(Run(w, steps[..|steps| - 1]), steps[|steps| - 1])
  }

  lemma RunAppend(w: World, steps: seq<Step>, s: Step)
    ensures Run(w, steps + [s]) == Next(Run(w, steps), s)
  {
  }

  lemma {:induction false} RunJoins(w: World, a: seq<Step>, b: seq<Step>)
    ensures Run(w, a + b) == Run(Run(w, a), b)
  {
    if b == [] {
      assert a + b == a;
    } else {
      var n := |b| - 1;
      RunJoins(w, a, b[..n]);
      assert (a + b)[..|a + b| - 1] == a + b[..n];
    }
  }

  ghost predicate Init(w: World) {
    && w.running.None? && w.generation >= 1
    && w.status.conditions == map[] && w.status.observedGeneration < 1
    && w.status.lastScan.None? && w.status.lastSuccessfulTime.None? && w.status.lastScheduleTime.None?
    && (w.report.Some? ==> w.report.value <= w.now)
    && w.succeeded == {} && w.rejected == {} && w.suspended == {}
  }

  ghost function PassSteps(io: PassIO): seq<Step>
    requires io.now <= io.end
  {
    [BeginStep(io.reader, io.allowCustomConfig, io.firstWrite, io.lastWrite),
     Tick(io.end - io.now),
     FinishStep(OutcomeOf(io.run), ReportStored(io.run), io.lastWrite)]
  }

  lemma RunOfThree(w: World, steps: seq<Step>)
    requires |steps| == 3
    ensures Run(w, steps) == Next(Next(Next(w, steps[0]), steps[1]), steps[2])
  {
    assert steps[..2][..1] == steps[..1] && steps[..1][..0] == [];
    assert Run(w, steps[..1]) == Next(w, steps[0]);
    assert Run(w, steps[..2]) == Next(Run(w, steps[..1]), steps[1]);
  }

  lemma HalvesAreThePass(w: World, io: PassIO, begin: Step, finish: Step)
    requires w.running.None? && io.now == w.now
    requires begin == BeginStep(io.reader, io.allowCustomConfig, io.firstWrite, io.lastWrite)
    requires finish == FinishStep(OutcomeOf(io.run), ReportStored(io.run), io.lastWrite)
    ensures var w1 := NextBegin(w, begin);
            var after := if w1.running.None? then w1 else NextFinish(w1.(now := io.end), w1.running.value, finish);
            var pass := Pass(Stored(w), w.status, w.report, io);
            after.status == pass.stored && after.report == pass.report && after.running.None?
  {
  }

  /** The uninterrupted steps of a pass store exactly what Reconcile stores. */
  lemma StepsAreThePass(w: World, io: PassIO)
    requires w.running.None? && io.now == w.now && io.now <= io.end
    ensures var after := Run(w, PassSteps(io));
            var pass := Pass(Stored(w), w.status, w.report, io);
            after.status == pass.stored && after.report == pass.report && after.running.None?
  {
    var steps := PassSteps(io);
    RunOfThree(w, steps);
    HalvesAreThePass(w, io, steps[0], steps[2]);
    var w1 := NextBegin(w, steps[0]);
    assert w1.now == w.now;
    assert Next(w1, steps[1]) == w1.(now := io.end);
  }

  // ---- Invariants on the stored status -----------------------------------------

  ghost predicate AllConditions(st: Status) {
    st.conditions.Keys == {ReadyCond, ReconcilingCond, StalledCond, CompliantCond}
  }

  /** Stalled comes with Ready and Reconciling both false, all for one reason; Ready rests on a success. */
  ghost predicate Coherent(st: Status) {
    && AllConditions(st)
    && (IsStalled(st) ==>
          && st.conditions[ReadyCond] == Condition(CondFalse, st.conditions[StalledCond].reason)
          && st.conditions[ReconcilingCond] == Condition(CondFalse, st.conditions[StalledCond].reason)
          && (st.conditions[StalledCond].reason.Invalid? || st.conditions[StalledCond].reason == BackoffLimitExceeded))
    && (IsReady(st) ==> st.lastSuccessfulTime.Some?)
  }

  ghost predicate StatusInv(st: Status) {
    && (if st.conditions == map[] then st.lastScan.None? && st.lastSuccessfulTime.None? else Coherent(st))
    && (st.lastScheduleTime.Some? ==> st.lastSuccessfulTime.Some? && st.lastScheduleTime.value <= st.lastSuccessfulTime.value)
  }

  /** A recorded success is never newer than the clock, nor than the stored report. */
  ghost predicate ReportInv(w: World) {
    && (w.report.Some? ==> w.report.value <= w.now)
    && (w.status.lastSuccessfulTime.Some? ==>
          w.report.Some? && w.status.lastSuccessfulTime.value <= w.report.value)
  }

  ghost predicate RunningInv(w: World) {
    w.running.Some? ==>
      var r := w.running.value;
      && r.o.status == w.status && w.status.conditions != map[] && IsOpen(w.status)
      && w.status.lastScan.value.inputs == r.snap.inputs
      && Started(r.o, r.schedule, r.snap, w.now)
      && r.schedule == ScheduleOf(r.o.spec)
      && r.o.generation <= w.generation && (r.o.generation == w.generation ==> r.o.spec == w.spec)
      && !r.o.spec.suspend
  }

  /** Who recorded the observed generation: a success, a rejection, a suspension, or the exhausted retries it is stalled on. */
  ghost predicate GenerationInv(w: World) {
    var g := w.status.observedGeneration;
    && w.generation >= 1 && g <= w.generation
    && (w.status.conditions == map[] ==> g < 1)
    && (g < 1 || g in w.succeeded || g in w.rejected || g in w.suspended || IsStalledFor(w.status, BackoffLimitExceeded))
    && (forall h :: h in w.suspended ==> h <= w.generation)
    && (w.generation in w.suspended ==> w.spec.suspend)
  }

  ghost predicate Inv(w: World) {
    StatusInv(w.status) && ReportInv(w) && RunningInv(w) && GenerationInv(w)
  }

  // ---- The invariants hold in every run ----------------------------------------

  lemma ClosingKeepsStatus(st: Status, at: Time, result: ScanResult)
    requires StatusInv(st) && st.conditions != map[]
    ensures var after := Closed(st, at, result);
            StatusInv(after) && after.conditions == st.conditions && SameTimes(after, st)
  {
  }

  lemma FirstVisitKeepsStatus(st: Status)
    requires StatusInv(st) && st.conditions == map[]
    ensures StatusInv(FirstVisited(st)) && SameTimes(FirstVisited(st), st)
  {
  }

  lemma SuspendingKeepsStatus(st: Status, generation: int)
    requires StatusInv(st) && st.conditions != map[]
    ensures var after := SuspendedAt(st, generation); StatusInv(after) && after.conditions != map[] && SameTimes(after, st)
  {
  }

  lemma StallingKeepsStatus(st: Status, generation: int, reason: Reason)
    requires StatusInv(st) && st.conditions != map[]
    requires reason.Invalid? || reason == BackoffLimitExceeded
    ensures var after := StalledAt(st, generation, reason); StatusInv(after) && after.conditions != map[] && SameTimes(after, st)
  {
  }

  lemma RetryingKeepsStatus(st: Status, reason: Reason)
    requires StatusInv(st) && st.conditions != map[]
    ensures var after := RetryingFor(st, reason); StatusInv(after) && after.conditions != map[] && SameTimes(after, st)
  {
  }

  lemma OpeningKeepsStatus(st: Status, trigger: ScanTrigger, snap: Snapshot)
    requires StatusInv(st) && st.conditions != map[]
    ensures var after := OpenedFor(st, trigger, snap); StatusInv(after) && SameTimes(after, st)
  {
  }

  /** The ways a pass leaves without a scan, by what it writes. */
  lemma LeftCases(o: ScanObject, allow: bool, reader: Reads, now: Time)
    requires Begin(o, allow, reader, now).Left?
    ensures var st := Begin(o, allow, reader, now).status;
            var closed := ClosedIfOpen(o.status, now);
            if o.status.conditions == map[] then st == FirstVisited(o.status)
            else if o.spec.suspend then st == Unscheduled(SuspendedAt(closed, o.generation))
            else match Validate(o.spec, allow, now)
              case NotValid(reason) => st == Unscheduled(StalledAt(closed, o.generation, Invalid(reason)))
              case Valid(_) =>
                || st == o.status
                || (st == Idled(o.status, o.generation, now) && o.status.lastSuccessfulTime.Some? &&
                    o.status.observedGeneration == o.generation)
  {
  }

  lemma IdlingKeepsStatus(st: Status, generation: int, now: Time)
    requires StatusInv(st) && st.conditions != map[] && st.lastSuccessfulTime.Some?
    ensures StatusInv(Idled(st, generation, now)) && SameTimes(Idled(st, generation, now), st)
  {
  }

  lemma LeavingKeepsStatus(o: ScanObject, allow: bool, reader: Reads, now: Time)
    requires StatusInv(o.status) && Begin(o, allow, reader, now).Left?
    ensures var st := Begin(o, allow, reader, now).status; StatusInv(st) && SameTimes(st, o.status)
  {
    LeftCases(o, allow, reader, now);
    if o.status.conditions == map[] {
      FirstVisitKeepsStatus(o.status);
    } else {
      ClosingKeepsStatus(o.status, now, Failed);
      var closed := ClosedIfOpen(o.status, now);
      if o.spec.suspend {
        SuspendingKeepsStatus(closed, o.generation);
      } else {
        match Validate(o.spec, allow, now)
        case NotValid(reason) =>
          StallingKeepsStatus(closed, o.generation, Invalid(reason));
        case Valid(_) =>
          if o.status.lastSuccessfulTime.Some? {
            IdlingKeepsStatus(o.status, o.generation, now);
          }
      }
    }
  }

  lemma BeginKeepsStatus(o: ScanObject, allow: bool, reader: Reads, now: Time)
    requires StatusInv(o.status)
    ensures match Begin(o, allow, reader, now)
            case Unread => true
            case Left(st, _) => StatusInv(st) && SameTimes(st, o.status)
            case Opened(st, _, _, _) => StatusInv(st) && SameTimes(st, o.status)
  {
    var b := Begin(o, allow, reader, now);
    if b.Left? {
      LeavingKeepsStatus(o, allow, reader, now);
    } else if b.Opened? {
      OpenedFacts(o, allow, reader, now);
      OpeningKeepsStatus(o.status, b.trigger, b.snap);
    }
  }

  lemma CommittingKeepsStatus(o: ScanObject, schedule: Option<Schedule>, snap: Snapshot, vs: seq<Vulnerability>, end: Time)
    requires StatusInv(o.status) && o.status.conditions != map[]
    requires Started(o, schedule, snap, end) && (o.status.lastSuccessfulTime.Some? ==> o.status.lastSuccessfulTime.value <= end)
    ensures var st := Committed(o, schedule, snap, vs, end);
            StatusInv(st) && st.conditions != map[] && st.lastSuccessfulTime == Some(end)
  {
  }

  lemma ComplianceKeepsStatus(st: Status, c: CondStatus, reason: Reason)
    requires StatusInv(st) && st.conditions != map[]
    ensures var after := With(st, CompliantCond, c, reason); StatusInv(after) && after.conditions != map[] && SameTimes(after, st)
  {
  }

  lemma CountingKeepsStatus(st: Status)
    requires StatusInv(st)
    ensures var after := st.(failed := st.failed + 1);
            StatusInv(after) && after.conditions == st.conditions && SameTimes(after, st)
  {
  }

  lemma FailingKeepsStatus(o: ScanObject, fail: FailReason, end: Time)
    requires StatusInv(o.status) && o.status.conditions != map[]
    ensures var st := FailedOnce(o, fail, end); StatusInv(st) && st.conditions != map[] && SameTimes(st, o.status)
  {
    var counted := o.status.(failed := o.status.failed + 1);
    CountingKeepsStatus(o.status);
    ClosingKeepsStatus(counted, end, Failed);
    var st := Closed(counted, end, Failed);
    if IsStalledFor(st, BackoffLimitExceeded) {
    } else if BackoffLimit(o.spec) > 0 && st.failed > BackoffLimit(o.spec) {
      StallingKeepsStatus(st, o.generation, BackoffLimitExceeded);
      ComplianceKeepsStatus(StalledAt(st, o.generation, BackoffLimitExceeded), CondUnknown, ReportStale);
    } else {
      RetryingKeepsStatus(st, Failing(fail));
    }
  }

  lemma FinishKeepsStatus(o: ScanObject, schedule: Option<Schedule>, snap: Snapshot, outcome: Outcome, end: Time)
    requires StatusInv(o.status) && o.status.conditions != map[]
    requires Started(o, schedule, snap, end) && (o.status.lastSuccessfulTime.Some? ==> o.status.lastSuccessfulTime.value <= end)
    ensures var st := Finish(o, schedule, snap, outcome, end);
            && StatusInv(st) && st.conditions != map[]
            && (if outcome.Success? then st.lastSuccessfulTime == Some(end) else SameTimes(st, o.status))
  {
    match outcome
    case Permanent(reason) =>
      ClosingKeepsStatus(o.status, end, Failed);
      StallingKeepsStatus(Closed(o.status, end, Failed), o.generation, Invalid(reason));
    case Transient(fail) =>
      FailingKeepsStatus(o, fail, end);
    case Success(vs) =>
      CommittingKeepsStatus(o, schedule, snap, vs, end);
  }

  lemma FinishKeepsGeneration(o: ScanObject, schedule: Option<Schedule>, snap: Snapshot, outcome: Outcome, end: Time)
    ensures var st := Finish(o, schedule, snap, outcome, end);
            var g := st.observedGeneration;
            if outcome.Transient? then
              || (g == o.generation && IsStalledFor(st, BackoffLimitExceeded))
              || (g == o.status.observedGeneration &&
                  (IsStalledFor(st, BackoffLimitExceeded) <==> IsStalledFor(o.status, BackoffLimitExceeded)))
            else g == o.generation
  {
  }

  lemma LeavingKeepsGeneration(w: World, s: Step)
    requires Inv(w) && s.BeginStep? && w.running.None? && Begin(Stored(w), s.allow, s.reader, w.now).Left?
    ensures GenerationInv(NextBegin(w, s))
  {
    LeftCases(Stored(w), s.allow, s.reader, w.now);
  }

  lemma BeginKeepsGeneration(w: World, s: Step)
    requires Inv(w) && s.BeginStep? && w.running.None?
    ensures GenerationInv(NextBegin(w, s))
  {
    var b := Begin(Stored(w), s.allow, s.reader, w.now);
    if b.Left? {
      LeavingKeepsGeneration(w, s);
    } else if b.Opened? {
      OpenedFacts(Stored(w), s.allow, s.reader, w.now);
      OpeningKeepsWatermarks(w.status, b.trigger, b.snap);
    }
  }

  lemma BeginKeepsInv(w: World, s: Step)
    requires Inv(w) && s.BeginStep? && w.running.None?
    ensures Inv(NextBegin(w, s))
  {
    BeginKeepsStatus(Stored(w), s.allow, s.reader, w.now);
    BeginKeepsGeneration(w, s);
    BeginKeepsRunning(w, s);
  }

  lemma BeginKeepsRunning(w: World, s: Step)
    requires Inv(w) && s.BeginStep? && w.running.None?
    ensures RunningInv(NextBegin(w, s))
  {
    if Begin(Stored(w), s.allow, s.reader, w.now).Opened? {
      OpenedFacts(Stored(w), s.allow, s.reader, w.now);
      var b := Begin(Stored(w), s.allow, s.reader, w.now);
      OpeningKeepsWatermarks(w.status, b.trigger, b.snap);
    }
  }

  lemma FinishKeepsInv(w: World, s: Step)
    requires Inv(w) && Finishes(s) && w.running.Some?
    ensures Inv(NextFinish(w, w.running.value, s))
  {
    var r := w.running.value;
    FinishKeepsStatus(r.o, r.schedule, r.snap, s.outcome, w.now);
    FinishKeepsGeneration(r.o, r.schedule, r.snap, s.outcome, w.now);
  }

  lemma NextKeepsInv(w: World, s: Step)
    requires Inv(w)
    ensures Inv(Next(w, s))
  {
    match s
    case Tick(_) =>
    case EditSpec(_) =>
    case Annotate(_) =>
    case Crash =>
    case BeginStep(_, _, _, _) =>
      if w.running.None? {
        BeginKeepsInv(w, s);
      }
    case FinishStep(_, _, _) =>
      if w.running.Some? && Finishes(s) {
        FinishKeepsInv(w, s);
      }
  }

  /** Every state of every run satisfies the invariants. */
  lemma {:induction false} RunKeepsInv(w: World, steps: seq<Step>)
    requires Inv(w) || Init(w)
    ensures Inv(Run(w, steps))
  {
    if steps != [] {
      RunKeepsInv(w, steps[..|steps| - 1]);
      NextKeepsInv(Run(w, steps[..|steps| - 1]), steps[|steps| - 1]);
    }
  }
}
