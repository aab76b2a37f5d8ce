/**
 One run of an AtlasDriftCheck: the steps of a check, the conditions each way
 out leaves, and the events a change of the conditions raises.
 */
module DriftCheck {
  import opened Wrappers
  import opened Cron

  const MINUTE: int := 60 * SECOND
  const DEFAULT_INTERVAL: int := 5 * MINUTE
  const TRANSIENT_RETRY: int := MINUTE
  const BUSY_RETRY: int := 30 * SECOND

  datatype CondType = ReadyCond | ReconcilingCond | StalledCond | DriftedCond

  datatype CondStatus = CondTrue | CondFalse | CondUnknown

  datatype Reason =
    | Checked | NoDrift | DriftDetected | TargetNotReady | Suspended
    | CheckFailed | TargetNotFound | NoMigrationHistory

  /** Condition messages; the ones built from a report by what they are built from. */
  datatype Message = NoDriftAt(version: string) | DriftIn(version: string, summary: Option<Counted>) | Paused | TargetBusy | Text(text: string)

  datatype Counted = Counted(total: int, extra: int, missing: int, modified: int, types: map<string, int>)

  datatype Condition = Condition(status: CondStatus, reason: Reason, message: Message, observedGeneration: int)

  datatype Report = Report(drifted: bool, version: string, mode: string, fingerprint: string, summary: Option<Counted>)

  datatype Action = ReportOnly | Fail

  datatype Spec = Spec(suspend: bool, interval: int, onDrift: Action)

  datatype Status = Status(
    observedGeneration: int,
    conditions: map<CondType, Condition>,
    version: string,
    fingerprint: string,
    mode: string,
    summary: Option<Counted>,
    lastCheckTime: Option<Time>)

  // ---- The setters as functions on status ------------------------------------------

  function With(st: Status, t: CondType, status: CondStatus, reason: Reason, message: Message, generation: int): Status {
    st.(conditions := st.conditions[t := Condition(status, reason, message, generation)])
  }

  function Bool(b: bool): CondStatus {
    if b then CondTrue else CondFalse
  }

  function Reported(st: Status, generation: int, rep: Report, now: Time): Status {
    st.(observedGeneration := generation,
        version := rep.version, mode := rep.mode, lastCheckTime := Some(now),
        fingerprint := if rep.drifted then rep.fingerprint else "",
        summary := if rep.drifted then rep.summary else None)
  }

  function Outcome(st: Status, generation: int, reason: Reason, message: Message, stalled: bool): Status {
    With(With(With(st, ReadyCond, Bool(!stalled), reason, message, generation),
              ReconcilingCond, CondFalse, reason, message, generation),
         StalledCond, Bool(stalled), reason, message, generation)
  }

  function CheckedBy(st: Status, generation: int, rep: Report, now: Time): Status {
    With(Outcome(Reported(st, generation, rep, now), generation, Checked, NoDriftAt(rep.version), false),
         DriftedCond, CondFalse, NoDrift, NoDriftAt(rep.version), generation)
  }

  function DriftedBy(st: Status, generation: int, rep: Report, action: Action, now: Time): Status {
    var message := DriftIn(rep.version, rep.summary);
    var seen := With(Reported(st, generation, rep, now), DriftedCond, CondTrue, DriftDetected, message, generation);
    if action == Fail then Outcome(seen, generation, DriftDetected, message, true)
    else Outcome(seen, generation, Checked, message, false)
  }

  function FailedFor(st: Status, generation: int, reason: Reason, message: Message, lasting: bool): Status {
    With(With(With(With(st.(observedGeneration := generation),
                        ReadyCond, CondFalse, reason, message, generation),
                   ReconcilingCond, Bool(!lasting), reason, message, generation),
              StalledCond, Bool(lasting), reason, message, generation),
         DriftedCond, CondUnknown, reason, message, generation)
  }

  function BusyAt(st: Status, generation: int): Status {
    With(st.(observedGeneration := generation), ReconcilingCond, CondTrue, TargetNotReady, TargetBusy, generation)
  }

  function SuspendedAt(st: Status, generation: int): Status {
    With(st.(observedGeneration := generation), ReconcilingCond, CondFalse, Suspended, Paused, generation)
  }

  // ---- One run -----------------------------------------------------------------------

  /** What a failed command's error says. */
  datatype CommandError = CommandError(timedOut: bool, locked: bool, requiresLogin: bool, noHistory: bool, lasting: bool, text: string)

  datatype Target = NotFound(text: string) | Unreadable(text: string) | Applying | Loaded

  datatype DataRead = TransientData(text: string) | LastingData(text: string)
                    | DataFor(hasRemoteDir: bool, hasConfigRepo: bool, hasDevURL: bool, noDevText: string)

  datatype WhoAmI = LoggedIn | LoginRequired(text: string) | WhoAmIError(text: string)

  datatype Answer = Errored(error: CommandError) | Reports(reports: seq<Report>, countText: string)

  /** What the cluster and the CLI answer during a run; Some is the error of a step. */
  datatype IO = IO(target: Target, data: DataRead, workingDir: Option<string>, client: Option<string>,
                   login: Option<string>, whoAmI: WhoAmI, answer: Answer, now: Time)

  datatype Ending = Completed(report: Report) | Busy | Locked | Lasting(reason: Reason, text: string) | Passing(text: string)

  const TIMED_OUT := "the drift check timed out: "

  /** A timeout comes before anything the error's text says, and a held lock before the lasting errors. */
  function Classified(e: CommandError): Ending {
    if e.timedOut then Passing(TIMED_OUT + e.text)
    else if e.locked then Locked
    else if e.requiresLogin then Lasting(CheckFailed, e.text)
    else if e.noHistory then Lasting(NoMigrationHistory, e.text)
    else if e.lasting then Lasting(CheckFailed, e.text)
    else Passing(e.text)
  }

  function Ended(io: IO): Ending {
    match io.target
    case NotFound(text) => Lasting(TargetNotFound, text)
    case Unreadable(text) => Passing(text)
    case Applying => Busy
    case Loaded =>
      match io.data
      case TransientData(text) => Passing(text)
      case LastingData(text) => Lasting(CheckFailed, text)
      case DataFor(remote, repo, dev, text) =>
        if !remote && !repo && !dev then Lasting(CheckFailed, text)
        else if io.workingDir.Some? then Passing(io.workingDir.value)
        else if io.client.Some? then Passing(io.client.value)
        else if io.login.Some? then Passing(io.login.value)
        else
          match io.whoAmI
          case LoginRequired(t) => Lasting(CheckFailed, t)
          case WhoAmIError(t) => Passing(t)
          case LoggedIn =>
            match io.answer
            case Errored(e) => Classified(e)
            case Reports(reports, t) => if |reports| == 1 then Completed(reports[0]) else Lasting(CheckFailed, t)
  }

  datatype Event = DriftDetectedEvent | DriftChangedEvent | DriftResolvedEvent | CheckFailedEvent

  predicate Is(st: Status, t: CondType, status: CondStatus) {
    t in st.conditions && st.conditions[t].status == status
  }

  function DriftEvents(was: Status, now: Status): seq<Event> {
    if !Is(was, DriftedCond, CondTrue) && Is(now, DriftedCond, CondTrue) then [DriftDetectedEvent]
    else if Is(was, DriftedCond, CondTrue) && Is(now, DriftedCond, CondTrue) && was.fingerprint != now.fingerprint then [DriftChangedEvent]
    else if Is(was, DriftedCond, CondTrue) && Is(now, DriftedCond, CondFalse) then [DriftResolvedEvent]
    else []
  }

  /** The status reports a failure other than drift itself. */
  predicate ReportsFailure(st: Status) {
    Is(st, ReadyCond, CondFalse) && st.conditions[ReadyCond].reason != DriftDetected
  }

  predicate SameFailure(was: Status, now: Status)
    requires ReportsFailure(now)
  {
    && Is(was, ReadyCond, CondFalse)
    && was.conditions[ReadyCond].reason == now.conditions[ReadyCond].reason
    && was.conditions[ReadyCond].message == now.conditions[ReadyCond].message
  }

  function FailureEvents(was: Status, now: Status): seq<Event> {
    if ReportsFailure(now) && !SameFailure(was, now) then [CheckFailedEvent] else []
  }

  function Interval(spec: Spec): int {
    if spec.interval == 0 then DEFAULT_INTERVAL else spec.interval
  }

  function After(st: Status, generation: int, spec: Spec, io: IO): Status {
    if spec.suspend then SuspendedAt(st, generation)
    else match Ended(io) {
      case Completed(rep) =>
        if rep.drifted then DriftedBy(st, generation, rep, spec.onDrift, io.now) else CheckedBy(st, generation, rep, io.now)
      case Busy => BusyAt(st, generation)
      case Locked => st
      case Lasting(reason, text) => FailedFor(st, generation, reason, Text(text), true)
      case Passing(text) => FailedFor(st, generation, CheckFailed, Text(text), false)
    }
  }

  /** The next check, before jitter; a suspended check is not woken. */
  function Retry(spec: Spec, io: IO): Option<int> {
    if spec.suspend then None
    else match Ended(io) {
      case Completed(_) => Some(Interval(spec))
      case Busy => Some(BUSY_RETRY)
      case Locked => Some(BUSY_RETRY)
      case Lasting(_, _) => Some(Interval(spec))
      case Passing(_) => Some(Min(Interval(spec), TRANSIENT_RETRY))
    }
  }

  class AtlasDriftCheck {
    const generation: int
    const spec: Spec
    var observedGeneration: int
    var conditions: map<CondType, Condition>
    var version: string
    var fingerprint: string
    var mode: string
    var summary: Option<Counted>
    var lastCheckTime: Option<Time>

    function Value(): Status
      reads this
    {
      Status(observedGeneration, conditions, version, fingerprint, mode, summary, lastCheckTime)
    }

    constructor (generation: int, spec: Spec, st: Status)
      ensures this.generation == generation && this.spec == spec && Value() == st
    {
      this.generation, this.spec := generation, spec;
      observedGeneration, conditions, lastCheckTime := st.observedGeneration, st.conditions, st.lastCheckTime;
      version, fingerprint, mode, summary := st.version, st.fingerprint, st.mode, st.summary;
    }

    method SetCondition(t: CondType, status: CondStatus, reason: Reason, message: Message)
      modifies this`conditions
      ensures Value() == With(old(Value()), t, status, reason, message, generation)
    {
      conditions := conditions[t := Condition(status, reason, message, generation)];
    }

    method ApplyReport(rep: Report, now: Time)
      modifies this
      ensures Value() == Reported(old(Value()), generation, rep, now)
    {
      observedGeneration, version, mode, lastCheckTime := generation, rep.version, rep.mode, Some(now);
      fingerprint, summary := "", None;
      if !rep.drifted {
        return;
      }
      fingerprint, summary := rep.fingerprint, rep.summary;
    }

    method SetOutcome(reason: Reason, message: Message, stalled: bool)
      modifies this
      ensures Value() == Outcome(old(Value()), generation, reason, message, stalled)
    {
      SetCondition(ReadyCond, Bool(!stalled), reason, message);
      SetCondition(ReconcilingCond, CondFalse, reason, message);
      SetCondition(StalledCond, Bool(stalled), reason, message);
    }

    method SetChecked(rep: Report, now: Time)
      modifies this
      ensures Value() == CheckedBy(old(Value()), generation, rep, now)
    {
      ApplyReport(rep, now);
      SetOutcome(Checked, NoDriftAt(rep.version), false);
      SetCondition(DriftedCond, CondFalse, NoDrift, NoDriftAt(rep.version));
    }

    method SetDrifted(rep: Report, action: Action, now: Time)
      modifies this
      ensures Value() == DriftedBy(old(Value()), generation, rep, action, now)
    {
      ApplyReport(rep, now);
      var message := DriftIn(rep.version, rep.summary);
      SetCondition(DriftedCond, CondTrue, DriftDetected, message);
      if action == Fail {
        SetOutcome(DriftDetected, message, true);
        return;
      }
      SetOutcome(Checked, message, false);
    }

    method SetCheckFailed(reason: Reason, message: Message, lasting: bool)
      modifies this
      ensures Value() == FailedFor(old(Value()), generation, reason, message, lasting)
    {
      observedGeneration := generation;
      SetCondition(ReadyCond, CondFalse, reason, message);
      SetCondition(ReconcilingCond, Bool(!lasting), reason, message);
      SetCondition(StalledCond, Bool(lasting), reason, message);
      SetCondition(DriftedCond, CondUnknown, reason, message);
    }

    method SetTargetNotReady()
      modifies this
      ensures Value() == BusyAt(old(Value()), generation)
    {
      observedGeneration := generation;
      SetCondition(ReconcilingCond, CondTrue, TargetNotReady, TargetBusy);
    }

    method SetSuspended()
      modifies this
      ensures Value() == SuspendedAt(old(Value()), generation)
    {
      observedGeneration := generation;
      SetCondition(ReconcilingCond, CondFalse, Suspended, Paused);
    }

    method RecordTransitions(was: Status) returns (events: seq<Event>)
      ensures events == DriftEvents(was, Value()) + FailureEvents(was, Value())
    {
      events := [];
      var wasDrifted := Is(was, DriftedCond, CondTrue);
      var nowDrifted := DriftedCond in conditions && conditions[DriftedCond].status == CondTrue;
      if !wasDrifted && nowDrifted {
        events := events + [DriftDetectedEvent];
      } else if wasDrifted && nowDrifted && was.fingerprint != fingerprint {
        events := events + [DriftChangedEvent];
      } else if wasDrifted && DriftedCond in conditions && conditions[DriftedCond].status == CondFalse {
        events := events + [DriftResolvedEvent];
      }
      if ReadyCond !in conditions || conditions[ReadyCond].status != CondFalse || conditions[ReadyCond].reason == DriftDetected {
        return;
      }
      if ReadyCond in was.conditions && was.conditions[ReadyCond].status == CondFalse
         && was.conditions[ReadyCond].reason == conditions[ReadyCond].reason
         && was.conditions[ReadyCond].message == conditions[ReadyCond].message {
        return;
      }
      events := events + [CheckFailedEvent];
    }

    method ClassifyError(e: CommandError) returns (end: Ending)
      ensures end == Classified(e)
    {
      if e.timedOut {
        return Passing(TIMED_OUT + e.text);
      }
      if e.locked {
        return Locked;
      }
      if e.requiresLogin {
        return Lasting(CheckFailed, e.text);
      }
      if e.noHistory {
        return Lasting(NoMigrationHistory, e.text);
      }
      if e.lasting {
        return Lasting(CheckFailed, e.text);
      }
      end := Passing(e.text);
    }

    /** The steps of a check, each of which may end it. */
    method Run(io: IO) returns (end: Ending)
      ensures end == Ended(io)
    {
      match io.target {
        case NotFound(text) => return Lasting(TargetNotFound, text);
        case Unreadable(text) => return Passing(text);
        case Applying => return Busy;
        case Loaded =>
      }
      match io.data {
        case TransientData(text) => return Passing(text);
        case LastingData(text) => return Lasting(CheckFailed, text);
        case DataFor(hasRemoteDir, hasConfigRepo, hasDevURL, text) =>
          if !hasRemoteDir && !hasConfigRepo && !hasDevURL {
            return Lasting(CheckFailed, text);
          }
      }
      if io.workingDir.Some? {
        return Passing(io.workingDir.value);
      }
      if io.client.Some? {
        return Passing(io.client.value);
      }
      if io.login.Some? {
        return Passing(io.login.value);
      }
      match io.whoAmI {
        case LoginRequired(text) => return Lasting(CheckFailed, text);
        case WhoAmIError(text) => return Passing(text);
        case LoggedIn =>
      }
      match io.answer {
        case Errored(e) => end := ClassifyError(e);
        case Reports(reports, text) =>
          if |reports| != 1 {
            return Lasting(CheckFailed, text);
          }
          end := Completed(reports[0]);
      }
    }

    method RunCheck(io: IO) returns (retry: Option<int>)
      modifies this
      ensures Value() == After(old(Value()), generation, spec, io) && retry == Retry(spec, io)
    {
      if spec.suspend {
        SetSuspended();
        return None;
      }
      var end := Run(io);
      match end
      case Completed(rep) =>
        if rep.drifted {
          SetDrifted(rep, spec.onDrift, io.now);
        } else {
          SetChecked(rep, io.now);
        }
        retry := Some(Interval(spec));
      case Busy =>
        SetTargetNotReady();
        retry := Some(BUSY_RETRY);
      case Locked =>
        retry := Some(BUSY_RETRY);
      case Lasting(reason, text) =>
        SetCheckFailed(reason, Text(text), true);
        retry := Some(Interval(spec));
      case Passing(text) =>
        SetCheckFailed(CheckFailed, Text(text), false);
        retry := Some(Min(Interval(spec), TRANSIENT_RETRY));
    }

    method Reconcile(io: IO) returns (retry: Option<int>, events: seq<Event>)
      modifies this
      ensures Value() == After(old(Value()), generation, spec, io) && retry == Retry(spec, io)
      ensures events == DriftEvents(old(Value()), Value()) + FailureEvents(old(Value()), Value())
    {
      var was := Value();
      retry := RunCheck(io);
      events := RecordTransitions(was);
    }
  }
}
