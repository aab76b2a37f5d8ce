/**
 The AtlasSecurityScan resource: its spec, its durable status, and the methods
 that move its conditions. Each method is proved against a function on status
 values; the controller's properties are proved about those functions.
 */
module SecurityScan {
  import opened Wrappers
  import opened Cron
  import opened Grading

  datatype TriggerKind = SchemaKind | MigrationKind | OtherKind

  datatype TriggerRef = TriggerRef(kind: TriggerKind, name: string)

  datatype ObservedTrigger = ObservedTrigger(kind: TriggerKind, name: string, uid: string, revision: string)

  /** spec.schedule as the parser sees it: absent, rejected, or parsed in its time zone. */
  datatype ScheduleField = NoSchedule | Malformed | Parsed(schedule: Schedule)

  datatype ScanSpec = ScanSpec(
    zoneKnown: bool,
    schedule: ScheduleField,
    hasTarget: bool,
    hasConfig: bool,
    hasEnvName: bool,
    triggers: seq<TriggerRef>,
    suspend: bool,
    policy: Option<ScanPolicy>,
    backoffLimit: Option<nat>)

  datatype ScanTrigger = SpecTrigger | ManualTrigger | ApplyTrigger | ScheduleTrigger | PolicyTrigger

  datatype ScanResult = Succeeded | Failed

  /** Failures retrying cannot fix. */
  datatype InvalidReason = InvalidSchedule | InvalidTimeZone | InvalidTarget

  /** Failures that are retried. */
  datatype FailReason = ScanFailed | LoginFailed | CLIError | ReadingInputs | StoringReport

  datatype Reason =
    | Reconciling | Scanning | Scanned | Retrying | Suspended | BackoffLimitExceeded
    | Invalid(invalid: InvalidReason)
    | Failing(fail: FailReason)
    | NotScanned | ReportStale | PolicyVerdict(verdict: Verdict)

  datatype CondType = ReadyCond | ReconcilingCond | StalledCond | CompliantCond

  datatype CondStatus = CondTrue | CondFalse | CondUnknown

  datatype Condition = Condition(status: CondStatus, reason: Reason)

  /** What the inputs hash distinguishes: everything observed except the time of observation. */
  datatype Inputs = Inputs(generation: int, requestedAt: string, triggers: seq<ObservedTrigger>,
                           slot: Option<Time>, waivers: multiset<string>)

  datatype Attempt = Attempt(trigger: ScanTrigger, start: Time, completion: Option<Time>,
                             result: Option<ScanResult>, inputs: Inputs)

  datatype Status = Status(
    observedGeneration: int,
    conditions: map<CondType, Condition>,
    lastScan: Option<Attempt>,
    lastSuccessfulTime: Option<Time>,
    lastScheduleTime: Option<Time>,
    nextScheduleTime: Option<Time>,
    lastHandledScanRequest: string,
    triggers: seq<ObservedTrigger>,
    activeWaivers: multiset<string>,
    summary: Option<Summary>,
    failed: nat)

  /** A resource as one read of it returns it. */
  datatype ScanObject = ScanObject(generation: int, creation: Option<Time>, spec: ScanSpec,
                                   requestedAt: string, status: Status)

  function BackoffLimit(spec: ScanSpec): nat {
    if spec.backoffLimit.Some? then spec.backoffLimit.value else 20
  }

  predicate IsStalled(st: Status) {
    StalledCond in st.conditions && st.conditions[StalledCond].status == CondTrue
  }

  predicate IsStalledFor(st: Status, reason: Reason) {
    IsStalled(st) && st.conditions[StalledCond].reason == reason
  }

  predicate IsReady(st: Status) {
    ReadyCond in st.conditions && st.conditions[ReadyCond].status == CondTrue
  }

  // ---- The condition writers as functions on status ----------------------------

  function With(st: Status, t: CondType, status: CondStatus, reason: Reason): Status {
    st.(conditions := st.conditions[t := Condition(status, reason)])
  }

  function WithTriple(st: Status, ready: CondStatus, reason: Reason, reconciling: CondStatus, stalled: CondStatus): Status {
    With(With(With(st, ReadyCond, ready, reason), ReconcilingCond, reconciling, reason), StalledCond, stalled, reason)
  }

  function FirstVisited(st: Status): Status {
    With(WithTriple(st, CondUnknown, Reconciling, CondTrue, CondFalse), CompliantCond, CondUnknown, NotScanned)
  }

  function ScanningSince(st: Status): Status {
    var st := if st.lastSuccessfulTime.None? then With(st, ReadyCond, CondUnknown, Scanning) else st;
    With(With(st, ReconcilingCond, CondTrue, Scanning), StalledCond, CondFalse, Scanning)
  }

  function ScannedAt(st: Status, generation: int): Status {
    WithTriple(st, CondTrue, Scanned, CondFalse, CondFalse).(observedGeneration := generation, failed := 0)
  }

  function RetryingFor(st: Status, reason: Reason): Status {
    With(With(With(st, ReadyCond, CondFalse, reason), ReconcilingCond, CondTrue, Retrying), StalledCond, CondFalse, Retrying)
  }

  function StalledAt(st: Status, generation: int, reason: Reason): Status {
    WithTriple(st, CondFalse, reason, CondFalse, CondTrue).(observedGeneration := generation)
  }

  function SuspendedAt(st: Status, generation: int): Status {
    var st := if ReadyCond in st.conditions then st else With(st, ReadyCond, CondUnknown, Suspended);
    With(With(st, ReconcilingCond, CondFalse, Suspended), StalledCond, CondFalse, Suspended)
    .(observedGeneration := generation)
  }

  function Closed(st: Status, at: Time, result: ScanResult): Status {
    match st.lastScan
    case None => st
    case Some(a) => st.(lastScan := Some(a.(completion := Some(at), result := Some(result))))
  }

  predicate IsOpen(st: Status) {
    st.lastScan.Some? && st.lastScan.value.completion.None?
  }

  function ClosedIfOpen(st: Status, at: Time): Status {
    if IsOpen(st) then Closed(st, at, Failed) else st
  }

  // ---- The resource in memory --------------------------------------------------

  class AtlasSecurityScan {
    const generation: int
    const creation: Option<Time>
    const spec: ScanSpec
    const requestedAt: string
    var status: Status

    constructor (o: ScanObject)
      ensures Value() == o
    {
      generation, creation, spec, requestedAt := o.generation, o.creation, o.spec, o.requestedAt;
      status := o.status;
    }

    function Value(): ScanObject
      reads this
    {
      ScanObject(generation, creation, spec, requestedAt, status)
    }

    method SetCondition(t: CondType, s: CondStatus, reason: Reason)
      modifies this
      ensures status == With(old(status), t, s, reason)
    {
      status := status.(conditions := status.conditions[t := Condition(s, reason)]);
    }

    method SetConditions(ready: CondStatus, reason: Reason, reconciling: bool)
      modifies this
      ensures status == WithTriple(old(status), ready, reason, if reconciling then CondTrue else CondFalse, CondFalse)
    {
      SetCondition(ReadyCond, ready, reason);
      SetCondition(ReconcilingCond, if reconciling then CondTrue else CondFalse, reason);
      SetCondition(StalledCond, CondFalse, reason);
    }

    method SetFirstVisit()
      modifies this
      ensures status == FirstVisited(old(status))
    {
      SetConditions(CondUnknown, Reconciling, true);
      SetCondition(CompliantCond, CondUnknown, NotScanned);
    }

    method SetScanning()
      modifies this
      ensures status == ScanningSince(old(status))
    {
      if status.lastSuccessfulTime.None? {
        SetCondition(ReadyCond, CondUnknown, Scanning);
      }
      SetCondition(ReconcilingCond, CondTrue, Scanning);
      SetCondition(StalledCond, CondFalse, Scanning);
    }

    method SetScanned()
      modifies this
      ensures status == ScannedAt(old(status), generation)
    {
      status := status.(observedGeneration := generation);
      SetConditions(CondTrue, Scanned, false);
      status := status.(failed := 0);
    }

    method SetIdle()
      modifies this
      ensures status == ScannedAt(old(status), generation)
    {
      SetScanned();
    }

    method SetRetrying(reason: Reason)
      modifies this
      ensures status == RetryingFor(old(status), reason)
    {
      SetCondition(ReadyCond, CondFalse, reason);
      SetCondition(ReconcilingCond, CondTrue, Retrying);
      SetCondition(StalledCond, CondFalse, Retrying);
    }

    method SetStalled(reason: Reason)
      modifies this
      ensures status == StalledAt(old(status), generation, reason)
    {
      SetCondition(ReadyCond, CondFalse, reason);
      SetCondition(ReconcilingCond, CondFalse, reason);
      SetCondition(StalledCond, CondTrue, reason);
      status := status.(observedGeneration := generation);
    }

    method SetSuspended()
      modifies this
      ensures status == SuspendedAt(old(status), generation)
    {
      if ReadyCond !in status.conditions {
        SetCondition(ReadyCond, CondUnknown, Suspended);
      }
      SetCondition(ReconcilingCond, CondFalse, Suspended);
      SetCondition(StalledCond, CondFalse, Suspended);
      status := status.(observedGeneration := generation);
    }

    method CloseAttempt(at: Time, result: ScanResult)
      modifies this
      ensures status == Closed(old(status), at, result)
    {
      if status.lastScan.Some? {
        var a := status.lastScan.value;
        status := status.(lastScan := Some(a.(completion := Some(at), result := Some(result))));
      }
    }

    method CloseOpenAttempt(at: Time)
      modifies this
      ensures status == ClosedIfOpen(old(status), at)
    {
      if status.lastScan.Some? && status.lastScan.value.completion.None? {
        CloseAttempt(at, Failed);
      }
    }
  }
}
