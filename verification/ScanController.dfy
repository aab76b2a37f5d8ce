/**
 The scan reconcile pass. The functions say what a pass does to the status it
 read, in two halves with the first status write between them; Reconcile is the
 pass itself, working in place on the resource and writing the stored status.
 */
module ScanController {
  import opened Wrappers
  import opened Cron
  import opened Grading
  import opened SecurityScan

  // ---- What a pass observes ----------------------------------------------------

  /** The reads of one trigger: not found, found, or failed. */
  datatype Read = Absent | Present(uid: string, revision: string) | ReadFailed

  type Reads = TriggerRef -> Read

  datatype Snapshot = Snapshot(start: Time, inputs: Inputs)

  datatype Validation = Valid(schedule: Option<Schedule>) | NotValid(reason: InvalidReason)

  function Validate(spec: ScanSpec, allowCustomConfig: bool, now: Time): Validation {
    if !spec.zoneKnown then NotValid(InvalidTimeZone)
    else if spec.schedule.Malformed? then NotValid(InvalidSchedule)
    else if spec.schedule.Parsed? && spec.schedule.schedule.next(now).None? then NotValid(InvalidSchedule)
    else if !spec.hasTarget && !spec.hasConfig then NotValid(InvalidTarget)
    else if spec.hasConfig && !allowCustomConfig then NotValid(InvalidTarget)
    else if spec.hasConfig && !spec.hasEnvName then NotValid(InvalidTarget)
    else Valid(ScheduleOf(spec))
  }

  function ScheduleOf(spec: ScanSpec): Option<Schedule> {
    match spec.schedule
    case Parsed(s) => Some(s)
    case _ => None
  }

  /** The triggers that exist, in spec order; None when a read failed. */
  function Observe(refs: seq<TriggerRef>, reader: Reads): Option<seq<ObservedTrigger>> {
    if refs == [] then Some([])
    else
      var n := |refs| - 1;
      match Observe(refs[..n], reader)
      case None => None
      case Some(seen) =>
        if refs[n].kind == OtherKind then Some(seen)
        else match reader(refs[n])
          case ReadFailed => None
          case Absent => Some(seen)
          case Present(uid, rev) => Some(seen + [ObservedTrigger(refs[n].kind, refs[n].name, uid, rev)])
  }

  /** The point the schedule is evaluated from. */
  function Anchor(st: Status, creation: Option<Time>, now: Time): Time {
    match st.lastScheduleTime
    case Some(t) => t
    case None =>
      match (creation, st.lastSuccessfulTime)
      case (Some(c), Some(t)) => Max(c, t)
      case (Some(c), None) => c
      case (None, Some(t)) => t
      case (None, None) => now
  }

  ghost function SlotOf(o: ScanObject, schedule: Option<Schedule>, now: Time): Option<Time> {
    match schedule
    case None => None
    case Some(s) => LatestSlot(s, Anchor(o.status, o.creation, now), now)
  }

  /** Everything that can make a scan due, observed at one time. */
  ghost function Observed(o: ScanObject, schedule: Option<Schedule>, reader: Reads, now: Time): Option<Snapshot> {
    match Observe(o.spec.triggers, reader)
    case None => None
    case Some(triggers) =>
      Some(Snapshot(now, Inputs(o.generation, o.requestedAt, triggers,
                                SlotOf(o, schedule, now), ActiveWaivers(o.spec.policy, now))))
  }

  // ---- What is due -------------------------------------------------------------

  function Recorded(recorded: seq<ObservedTrigger>, kind: TriggerKind, name: string): Option<ObservedTrigger> {
    if recorded == [] then None
    else if recorded[0].kind == kind && recorded[0].name == name then Some(recorded[0])
    else Recorded(recorded[1..], kind, name)
  }

  predicate IsPending(o: ObservedTrigger, recorded: seq<ObservedTrigger>) {
    var r := Recorded(recorded, o.kind, o.name);
    r.None? || r.value.uid != o.uid || r.value.revision != o.revision
  }

  /** What the scan is due for, and None when nothing is pending. */
  function DueCheck(st: Status, inputs: Inputs): Option<ScanTrigger> {
    if st.lastSuccessfulTime.None? || inputs.generation != st.observedGeneration then Some(SpecTrigger)
    else if inputs.requestedAt != "" && inputs.requestedAt != st.lastHandledScanRequest then Some(ManualTrigger)
    else if exists i :: 0 <= i < |inputs.triggers| && IsPending(inputs.triggers[i], st.triggers) then Some(ApplyTrigger)
    else if inputs.slot.Some? && (st.lastScheduleTime.None? || inputs.slot.value > st.lastScheduleTime.value) then Some(ScheduleTrigger)
    else if inputs.waivers != st.activeWaivers then Some(PolicyTrigger)
    else None
  }

  /** One finished attempt per distinct set of inputs once retries are exhausted. */
  predicate Gated(st: Status, inputs: Inputs) {
    && IsStalledFor(st, BackoffLimitExceeded)
    && st.lastScan.Some? && st.lastScan.value.completion.Some?
    && st.lastScan.value.inputs == inputs
  }

  // ---- When to wake ------------------------------------------------------------

  /** The waits that compete: the next slot, each coming waiver expiry, and the retry delay. */
  ghost predicate IsWait(policy: Option<ScanPolicy>, schedule: Option<Schedule>, now: Time, retry: int, d: int) {
    || (schedule.Some? && schedule.value.next(now) == Some(now + d))
    || (policy.Some? && exists w :: w in policy.value.ignore && w.expiration == Some(now + d) && d > 0)
    || (retry > 0 && d == retry)
  }

  /** The requeue delay is the least wait, at least a second, and absent exactly when there is no wait. */
  ghost predicate Wakes(policy: Option<ScanPolicy>, schedule: Option<Schedule>, now: Time, retry: int, requeue: Option<int>) {
    match requeue
    case None => forall d :: !IsWait(policy, schedule, now, retry, d)
    case Some(r) =>
      exists d :: IsWait(policy, schedule, now, retry, d) && r == Max(d, SECOND) &&
                  forall e :: IsWait(policy, schedule, now, retry, e) ==> d <= e
  }

  // ---- The first half of a pass ------------------------------------------------

  datatype Begun =
    | Left(status: Status, wakes: bool)               // returned without a scan; wakes says whether wake set the delay
    | Unread                                          // a trigger read failed
    | Opened(status: Status, schedule: Option<Schedule>, snap: Snapshot, trigger: ScanTrigger)

  function Unscheduled(st: Status): Status {
    st.(nextScheduleTime := None)
  }

  function Idled(st: Status, generation: int, now: Time): Status {
    var st := ClosedIfOpen(st, now);
    if IsStalled(st) then st else ScannedAt(st, generation)
  }

  function OpenedFor(st: Status, trigger: ScanTrigger, snap: Snapshot): Status {
    var started := st.(lastScan := Some(Attempt(trigger, snap.start, None, None, snap.inputs)));
    if !IsStalled(started) && (started.lastSuccessfulTime.None? || trigger == SpecTrigger) then ScanningSince(started)
    else started
  }

  ghost function Begin(o: ScanObject, allowCustomConfig: bool, reader: Reads, now: Time): Begun {
    var st := o.status;
    if st.conditions == map[] then Left(FirstVisited(st), false)
    else if o.spec.suspend then Left(Unscheduled(SuspendedAt(ClosedIfOpen(st, now), o.generation)), false)
    else match Validate(o.spec, allowCustomConfig, now)
      case NotValid(reason) =>
        Left(Unscheduled(StalledAt(ClosedIfOpen(st, now), o.generation, Invalid(reason))), false)
      case Valid(schedule) =>
        match Observed(o, schedule, reader, now)
        case None => Unread
        case Some(snap) =>
          match DueCheck(st, snap.inputs)
          case None => Left(Idled(st, o.generation, now), true)
          case Some(trigger) =>
            if Gated(st, snap.inputs) then Left(st, true)
            else Opened(OpenedFor(st, trigger, snap), schedule, snap, trigger)
  }

  // ---- The second half ---------------------------------------------------------

  datatype ScanInputs = InputsRejected(reason: InvalidReason) | InputsFailed | InputsRead(token: bool)

  datatype Target = Target(error: bool, vulnerabilities: seq<Vulnerability>)

  datatype CliReport = NoReport | Report(targets: seq<Target>, failures: bool)

  /** What the inputs, the working directory, the client, the login, the CLI and the report store answered. */
  datatype ScanRun = ScanRun(inputs: ScanInputs, workingDir: bool, client: bool, login: bool, scan: CliReport, stored: bool)

  datatype Outcome = Permanent(reason: InvalidReason) | Transient(fail: FailReason) | Success(vulnerabilities: seq<Vulnerability>)

  /** How the scan itself ends, before its report is stored; a success then waits for the store. */
  function Answered(run: ScanRun): Outcome {
    match run.inputs
    case InputsRejected(reason) => Permanent(reason)
    case InputsFailed => Transient(ReadingInputs)
    case InputsRead(token) =>
      if !run.workingDir then Transient(ReadingInputs)
      else if !run.client then Transient(CLIError)
      else if token && !run.login then Transient(LoginFailed)
      else match run.scan
        case NoReport => Transient(CLIError)
        case Report(targets, failures) =>
          if |targets| == 0 then Transient(ScanFailed)
          else if |targets| > 1 then Permanent(InvalidTarget)
          else if failures || targets[0].error then Transient(ScanFailed)
          else Success(targets[0].vulnerabilities)
  }

  function OutcomeOf(run: ScanRun): Outcome {
    if Answered(run).Success? && !run.stored then Transient(StoringReport) else Answered(run)
  }

  /** The pass got as far as storing a report, and the store took it. */
  predicate ReportStored(run: ScanRun) {
    Answered(run).Success? && run.stored
  }

  function FailedOnce(o: ScanObject, fail: FailReason, end: Time): Status {
    var st := Closed(o.status.(failed := o.status.failed + 1), end, Failed);
    var limit := BackoffLimit(o.spec);
    if IsStalledFor(st, BackoffLimitExceeded) then st
    else if limit > 0 && st.failed > limit then
      With(StalledAt(st, o.generation, BackoffLimitExceeded), CompliantCond, CondUnknown, ReportStale)
    else RetryingFor(st, Failing(fail))
  }

  /** The retry component of the delay after a failure; 0 when the pass does not retry. */
  function RetryAfter(o: ScanObject): int {
    var failed := o.status.failed + 1;
    var limit := BackoffLimit(o.spec);
    if IsStalledFor(o.status, BackoffLimitExceeded) || (limit > 0 && failed > limit) then 0
    else failed * 5 * SECOND
  }

  function VerdictStatus(v: Verdict): CondStatus {
    match v
    case NoThreshold => CondUnknown
    case WithinPolicy => CondTrue
    case Violated => CondFalse
  }

  /** The slot a success covers: one that passed while the scan ran, or else the one it started for. */
  ghost function CoveredSlot(o: ScanObject, schedule: Option<Schedule>, snap: Snapshot, end: Time): Option<Time> {
    match schedule
    case None => snap.inputs.slot
    case Some(s) =>
      var covered := LatestSlot(s, Anchor(o.status, o.creation, snap.start), end);
      if covered.Some? then covered else snap.inputs.slot
  }

  /** Every watermark moves to the snapshot in one status. */
  ghost function Watermarked(o: ScanObject, schedule: Option<Schedule>, snap: Snapshot, end: Time): Status {
    var st := o.status;
    var slot := CoveredSlot(o, schedule, snap, end);
    st.(lastHandledScanRequest := snap.inputs.requestedAt,
        triggers := snap.inputs.triggers,
        activeWaivers := snap.inputs.waivers,
        lastScheduleTime := if schedule.None? then None else if slot.Some? then slot else st.lastScheduleTime,
        lastSuccessfulTime := Some(end))
  }

  ghost function Committed(o: ScanObject, schedule: Option<Schedule>, snap: Snapshot,
                           vulnerabilities: seq<Vulnerability>, end: Time): Status {
    var marked := Watermarked(o, schedule, snap, end);
    var policy, waivers := o.spec.policy, snap.inputs.waivers;
    var verdict := VerdictOf(Findings(vulnerabilities, policy, waivers), policy);
    var st := Closed(marked, end, Succeeded)
      .(nextScheduleTime := NextSchedule(schedule, Anchor(marked, o.creation, snap.start)),
        summary := Some(Grading.Graded(vulnerabilities, policy, waivers)));
    With(ScannedAt(st, o.generation), CompliantCond, VerdictStatus(verdict), PolicyVerdict(verdict))
  }

  function NextSchedule(schedule: Option<Schedule>, from: Time): Option<Time> {
    match schedule
    case None => None
    case Some(s) => s.next(from)
  }

  ghost function Finish(o: ScanObject, schedule: Option<Schedule>, snap: Snapshot, outcome: Outcome, end: Time): Status {
    match outcome
    case Permanent(reason) => StalledAt(Closed(o.status, end, Failed), o.generation, Invalid(reason))
    case Transient(fail) => FailedOnce(o, fail, end)
    case Success(vulnerabilities) => Committed(o, schedule, snap, vulnerabilities, end)
  }

  /** The requeue delay a finished pass may answer. */
  ghost predicate FinishWakes(o: ScanObject, schedule: Option<Schedule>, snap: Snapshot, outcome: Outcome, end: Time,
                              requeue: Option<int>) {
    match outcome
    case Permanent(_) => Wakes(o.spec.policy, schedule, snap.start, 0, requeue)
    case Transient(_) => Wakes(o.spec.policy, schedule, snap.start, RetryAfter(o), requeue)
    case Success(_) =>
      if snap.inputs.waivers != ActiveWaivers(o.spec.policy, end) then requeue == Some(SECOND)
      else Wakes(o.spec.policy, schedule, end, 0, requeue)
  }

  /** The slots a routine catch-up reports as missed. */
  ghost function Missed(o: ScanObject, schedule: Option<Schedule>, snap: Snapshot, trigger: ScanTrigger, outcome: Outcome, end: Time): nat {
    var slot := CoveredSlot(o, schedule, snap, end);
    if outcome.Success? && trigger != SpecTrigger && o.status.lastScheduleTime.Some? && slot.Some? && schedule.Some?
    then Skipped(schedule.value, o.status.lastScheduleTime.value, slot.value)
    else 0
  }
}
