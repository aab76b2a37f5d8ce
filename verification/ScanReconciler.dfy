/**
 The scan reconcile pass in the form the controller runs it: it works in place
 on the resource it read and writes the stored status twice, once when the
 attempt opens and once on the way out.
 */
module ScanReconciler {
  import opened Wrappers
  import opened Cron
  import opened Grading
  import opened SecurityScan
  import opened ScanController

  /** Everything the outside answers during one pass. */
  datatype PassIO = PassIO(now: Time, reader: Reads, allowCustomConfig: bool, firstWrite: bool,
                           run: ScanRun, end: Time, lastWrite: bool)

  /** What a pass leaves: the status in memory, the stored status and report, and whether it returned an error. */
  datatype PassEnd = PassEnd(memory: Status, stored: Status, report: Option<Time>, err: bool)

  ghost function Pass(o: ScanObject, stored: Status, report: Option<Time>, io: PassIO): PassEnd {
    match Begin(o, io.allowCustomConfig, io.reader, io.now)
    case Left(st, _) => PassEnd(st, if io.lastWrite then st else stored, report, !io.lastWrite)
    case Unread => PassEnd(o.status, if io.lastWrite then o.status else stored, report, true)
    case Opened(st, schedule, snap, _) =>
      if !io.firstWrite then PassEnd(st, if io.lastWrite then st else stored, report, true)
      else
        var outcome := OutcomeOf(io.run);
        var fin := Finish(o.(status := st), schedule, snap, outcome, io.end);
        PassEnd(fin, if io.lastWrite then fin else st, if ReportStored(io.run) then Some(io.end) else report, !io.lastWrite)
  }

  /** The requeue delay the pass answers. */
  ghost predicate PassWakes(o: ScanObject, io: PassIO, requeue: Option<int>) {
    match Begin(o, io.allowCustomConfig, io.reader, io.now)
    case Left(_, true) => Wakes(o.spec.policy, ScheduleOf(o.spec), io.now, 0, requeue)
    case Left(_, false) => requeue == if o.status.conditions == map[] then Some(SECOND) else None
    case Unread => requeue == None
    case Opened(st, schedule, snap, _) =>
      if io.firstWrite then FinishWakes(o.(status := st), schedule, snap, OutcomeOf(io.run), io.end, requeue)
      else requeue == None
  }

  ghost function PassMissed(o: ScanObject, io: PassIO): nat {
    match Begin(o, io.allowCustomConfig, io.reader, io.now)
    case Opened(st, schedule, snap, trigger) =>
      if io.firstWrite then Missed(o.(status := st), schedule, snap, trigger, OutcomeOf(io.run), io.end) else 0
    case _ => 0
  }

  class ScanStore {
    var status: Status
    var report: Option<Time>

    constructor (s: Status)
      ensures status == s && report == None
    {
      status, report := s, None;
    }

    /** Writes the status of the resource; ok is whether the API server accepted it. */
    method WriteStatus(res: AtlasSecurityScan, ok: bool) returns (err: bool)
      modifies this`status
      ensures err == !ok && status == if ok then res.status else old(status)
    {
      if ok {
        status := res.status;
      }
      err := !ok;
    }

    /** Creates or replaces the report; ok is whether the API server accepted it. */
    method StoreReport(at: Time, ok: bool) returns (err: bool)
      modifies this`report
      ensures err == !ok && report == if ok then Some(at) else old(report)
    {
      if ok {
        report := Some(at);
      }
      err := !ok;
    }
  }

  method ReadTriggers(refs: seq<TriggerRef>, reader: Reads) returns (seen: Option<seq<ObservedTrigger>>)
    ensures seen == Observe(refs, reader)
  {
    var found: seq<ObservedTrigger> := [];
    for i := 0 to |refs|
      invariant Observe(refs[..i], reader) == Some(found)
    {
      assert refs[..i + 1][..i] == refs[..i];
      var t := refs[i];
      if t.kind != OtherKind {
        match reader(t)
        case Absent =>
        case ReadFailed =>
          ObserveFails(refs, reader, i + 1);
          return None;
        case Present(uid, revision) =>
          found := found + [ObservedTrigger(t.kind, t.name, uid, revision)];
      }
    }
    assert refs[..|refs|] == refs;
    return Some(found);
  }

  lemma {:induction false} ObserveFails(refs: seq<TriggerRef>, reader: Reads, i: nat)
    requires i <= |refs| && Observe(refs[..i], reader).None?
    ensures Observe(refs, reader).None?
    decreases |refs| - i
  {
    if i == |refs| {
      assert refs[..i] == refs;
    } else {
      assert refs[..i + 1][..i] == refs[..i];
      ObserveFails(refs, reader, i + 1);
    }
  }

  method TakeSnapshot(res: AtlasSecurityScan, schedule: Option<Schedule>, reader: Reads, now: Time)
    returns (snap: Option<Snapshot>)
    ensures snap == Observed(res.Value(), schedule, reader, now)
  {
    var triggers := ReadTriggers(res.spec.triggers, reader);
    if triggers.None? {
      return None;
    }
    var slot: Option<Time> := None;
    if schedule.Some? {
      slot := LatestSlotAtOrBefore(schedule.value, Anchor(res.status, res.creation, now), now);
    }
    var waivers := CollectActiveWaivers(res.spec.policy, now);
    return Some(Snapshot(now, Inputs(res.generation, res.requestedAt, triggers.value, slot, waivers)));
  }

  method Wake(policy: Option<ScanPolicy>, schedule: Option<Schedule>, now: Time, retry: int) returns (requeue: Option<int>)
    ensures Wakes(policy, schedule, now, retry, requeue)
  {
    var waits: seq<int> := [];
    if schedule.Some? {
      var n := schedule.value.next(now);
      if n.Some? {
        waits := [n.value - now];
      }
    }
    ghost var slots := waits;
    if policy.Some? {
      var ignore := policy.value.ignore;
      for i := 0 to |ignore|
        invariant forall d :: d in waits <==>
          d in slots || (d > 0 && exists w :: w in ignore[..i] && w.expiration == Some(now + d))
      {
        assert ignore[..i + 1] == ignore[..i] + [ignore[i]];
        var e := ignore[i].expiration;
        if e.Some? && e.value > now {
          waits := waits + [e.value - now];
        }
      }
      assert ignore[..|ignore|] == ignore;
    }
    if retry > 0 {
      waits := waits + [retry];
    }
    assert forall d :: d in waits <==> IsWait(policy, schedule, now, retry, d);
    if |waits| == 0 {
      return None;
    }
    var least := waits[0];
    for i := 1 to |waits|
      invariant least in waits
      invariant forall j :: 0 <= j < i ==> least <= waits[j]
    {
      least := Min(least, waits[i]);
    }
    return Some(Max(least, SECOND));
  }

  /** Counts the failure, closes the attempt and moves the conditions; answers the retry component of the delay. */
  method RecordFailure(res: AtlasSecurityScan, fail: FailReason, end: Time) returns (retry: int)
    modifies res
    ensures res.status == FailedOnce(old(res.Value()), fail, end)
    ensures retry == RetryAfter(old(res.Value()))
  {
    res.status := res.status.(failed := res.status.failed + 1);
    res.CloseAttempt(end, Failed);
    ghost var st := res.status;
    assert st == Closed(old(res.status).(failed := old(res.status).failed + 1), end, Failed);
    assert IsStalledFor(st, BackoffLimitExceeded) == IsStalledFor(old(res.status), BackoffLimitExceeded);
    var limit := BackoffLimit(res.spec);
    retry := 0;
    if IsStalledFor(res.status, BackoffLimitExceeded) {
    } else if limit > 0 && res.status.failed > limit {
      res.SetStalled(BackoffLimitExceeded);
      res.SetCondition(CompliantCond, CondUnknown, ReportStale);
    } else {
      res.SetRetrying(Failing(fail));
      retry := res.status.failed * 5 * SECOND;
    }
  }

  method Fail(res: AtlasSecurityScan, schedule: Option<Schedule>, snap: Snapshot, fail: FailReason, end: Time)
    returns (requeue: Option<int>)
    modifies res
    ensures res.status == FailedOnce(old(res.Value()), fail, end)
    ensures Wakes(res.spec.policy, schedule, snap.start, RetryAfter(old(res.Value())), requeue)
  {
    var retry := RecordFailure(res, fail, end);
    requeue := Wake(res.spec.policy, schedule, snap.start, retry);
  }

  method Stall(res: AtlasSecurityScan, schedule: Option<Schedule>, snap: Snapshot, reason: InvalidReason, end: Time)
    returns (requeue: Option<int>)
    modifies res
    ensures res.status == Finish(old(res.Value()), schedule, snap, Permanent(reason), end)
    ensures FinishWakes(old(res.Value()), schedule, snap, Permanent(reason), end, requeue)
  {
    res.CloseAttempt(end, Failed);
    res.SetStalled(Invalid(reason));
    requeue := Wake(res.spec.policy, schedule, snap.start, 0);
  }

  /** Moves the watermarks to the snapshot, and the schedule to the latest slot the scan covered. */
  method MoveWatermarks(res: AtlasSecurityScan, schedule: Option<Schedule>, snap: Snapshot, end: Time)
    returns (slot: Option<Time>)
    modifies res
    ensures res.status == Watermarked(old(res.Value()), schedule, snap, end)
                          .(lastSuccessfulTime := old(res.status.lastSuccessfulTime))
    ensures slot == CoveredSlot(old(res.Value()), schedule, snap, end)
  {
    var from := Anchor(res.status, res.creation, snap.start);
    res.status := res.status.(lastHandledScanRequest := snap.inputs.requestedAt,
                              triggers := snap.inputs.triggers,
                              activeWaivers := snap.inputs.waivers);
    slot := snap.inputs.slot;
    if schedule.Some? {
      var covered := LatestSlotAtOrBefore(schedule.value, from, end);
      if covered.Some? {
        slot := covered;
      }
    }
    if schedule.None? {
      res.status := res.status.(lastScheduleTime := None);
    } else if slot.Some? {
      res.status := res.status.(lastScheduleTime := slot);
    }
  }

  /** Commits every watermark from the snapshot, with the graded results. */
  method Commit(res: AtlasSecurityScan, schedule: Option<Schedule>, snap: Snapshot,
                vulnerabilities: seq<Vulnerability>, end: Time)
    returns (slot: Option<Time>)
    modifies res
    ensures res.status == Committed(old(res.Value()), schedule, snap, vulnerabilities, end)
    ensures slot == CoveredSlot(old(res.Value()), schedule, snap, end)
  {
    var findings, summary := Grade(vulnerabilities, res.spec.policy, snap.inputs.waivers);
    var verdict := DecideVerdict(findings, res.spec.policy);
    slot := MoveWatermarks(res, schedule, snap, end);
    res.CloseAttempt(end, Succeeded);
    res.status := res.status.(lastSuccessfulTime := Some(end));
    res.status := res.status.(nextScheduleTime := NextSchedule(schedule, Anchor(res.status, res.creation, snap.start)));
    res.status := res.status.(summary := Some(summary));
    res.SetScanned();
    res.SetCondition(CompliantCond, VerdictStatus(verdict), PolicyVerdict(verdict));
  }

  method Succeed(res: AtlasSecurityScan, schedule: Option<Schedule>, snap: Snapshot, trigger: ScanTrigger,
                 vulnerabilities: seq<Vulnerability>, end: Time)
    returns (requeue: Option<int>, missed: nat)
    requires schedule.None? ==> snap.inputs.slot.None?
    modifies res
    ensures res.status == Committed(old(res.Value()), schedule, snap, vulnerabilities, end)
    ensures FinishWakes(old(res.Value()), schedule, snap, Success(vulnerabilities), end, requeue)
    ensures missed == Missed(old(res.Value()), schedule, snap, trigger, Success(vulnerabilities), end)
  {
    var prevSlot := res.status.lastScheduleTime;
    var slot := Commit(res, schedule, snap, vulnerabilities, end);
    missed := 0;
    if trigger != SpecTrigger && prevSlot.Some? && slot.Some? {
      missed := SlotsBetween(schedule.value, prevSlot.value, slot.value);
    }
    var active := CollectActiveWaivers(res.spec.policy, end);
    if snap.inputs.waivers != active {
      requeue := Some(SECOND);
    } else {
      requeue := Wake(res.spec.policy, schedule, end, 0);
    }
  }

  /** The second half of a pass: run the scan and record how it ended. */
  method RunScan(res: AtlasSecurityScan, store: ScanStore, schedule: Option<Schedule>, snap: Snapshot, trigger: ScanTrigger,
                 run: ScanRun, end: Time)
    returns (requeue: Option<int>, missed: nat)
    requires schedule.None? ==> snap.inputs.slot.None?
    modifies res, store`report
    ensures res.status == Finish(old(res.Value()), schedule, snap, OutcomeOf(run), end)
    ensures FinishWakes(old(res.Value()), schedule, snap, OutcomeOf(run), end, requeue)
    ensures missed == Missed(old(res.Value()), schedule, snap, trigger, OutcomeOf(run), end)
    ensures store.report == if ReportStored(run) then Some(end) else old(store.report)
  {
    missed := 0;
    var scanned := ScanTarget(run);
    match scanned
    case Permanent(reason) =>
      requeue := Stall(res, schedule, snap, reason, end);
    case Transient(fail) =>
      requeue := Fail(res, schedule, snap, fail, end);
    case Success(vulnerabilities) =>
      var unstored := store.StoreReport(end, run.stored);
      if unstored {
        requeue := Fail(res, schedule, snap, StoringReport, end);
      } else {
        requeue, missed := Succeed(res, schedule, snap, trigger, vulnerabilities, end);
      }
  }

  /** The steps of a scan, each of which may end it. */
  method ScanTarget(run: ScanRun) returns (r: Outcome)
    ensures r == Answered(run)
  {
    if run.inputs.InputsRejected? {
      return Permanent(run.inputs.reason);
    }
    if run.inputs.InputsFailed? || !run.workingDir {
      return Transient(ReadingInputs);
    }
    if !run.client {
      return Transient(CLIError);
    }
    if run.inputs.token && !run.login {
      return Transient(LoginFailed);
    }
    if run.scan.NoReport? {
      return Transient(CLIError);
    }
    var targets := run.scan.targets;
    if |targets| == 0 {
      return Transient(ScanFailed);
    }
    if |targets| > 1 {
      return Permanent(InvalidTarget);
    }
    if run.scan.failures || targets[0].error {
      return Transient(ScanFailed);
    }
    return Success(targets[0].vulnerabilities);
  }

  /** How the first half of a pass left: returned, with or without an error, or with an attempt to run. */
  datatype Phase = Returned(err: bool) | Attempting(schedule: Option<Schedule>, snap: Snapshot, trigger: ScanTrigger)

  /** The pass up to its first write. */
  method BeginPass(res: AtlasSecurityScan, io: PassIO) returns (phase: Phase, requeue: Option<int>)
    modifies res
    ensures match Begin(old(res.Value()), io.allowCustomConfig, io.reader, io.now)
            case Left(st, _) => phase == Returned(false) && res.status == st && PassWakes(old(res.Value()), io, requeue)
            case Unread => phase == Returned(true) && res.status == old(res.status) && requeue == None
            case Opened(st, schedule, snap, trigger) =>
              && phase == Attempting(schedule, snap, trigger) && res.status == st && requeue == None
              && (schedule.None? ==> snap.inputs.slot.None?)
  {
    requeue := None;
    phase := Returned(false);
    if res.status.conditions == map[] {
      res.SetFirstVisit();
      requeue := Some(SECOND);
      return;
    }
    if res.spec.suspend {
      res.CloseOpenAttempt(io.now);
      res.SetSuspended();
      res.status := res.status.(nextScheduleTime := None);
      return;
    }
    var checked := Validate(res.spec, io.allowCustomConfig, io.now);
    if checked.NotValid? {
      res.CloseOpenAttempt(io.now);
      res.SetStalled(Invalid(checked.reason));
      res.status := res.status.(nextScheduleTime := None);
      return;
    }
    phase, requeue := OpenIfDue(res, checked.schedule, io);
  }

  /** The pass from the snapshot to the first write. */
  method OpenIfDue(res: AtlasSecurityScan, schedule: Option<Schedule>, io: PassIO) returns (phase: Phase, requeue: Option<int>)
    requires res.status.conditions != map[] && !res.spec.suspend
    requires Validate(res.spec, io.allowCustomConfig, io.now) == Valid(schedule)
    modifies res
    ensures match Begin(old(res.Value()), io.allowCustomConfig, io.reader, io.now)
            case Left(st, wakes) => phase == Returned(false) && res.status == st && wakes &&
                                    Wakes(res.spec.policy, schedule, io.now, 0, requeue)
            case Unread => phase == Returned(true) && res.status == old(res.status) && requeue == None
            case Opened(st, s, snap, trigger) =>
              && phase == Attempting(s, snap, trigger) && res.status == st && requeue == None
              && (s.None? ==> snap.inputs.slot.None?)
  {
    requeue := None;
    var observed := TakeSnapshot(res, schedule, io.reader, io.now);
    if observed.None? {
      return Returned(true), None;
    }
    var snap := observed.value;
    var due := DueCheck(res.status, snap.inputs);
    if due.None? {
      res.CloseOpenAttempt(io.now);
      if !IsStalled(res.status) {
        res.SetIdle();
      }
      requeue := Wake(res.spec.policy, schedule, io.now, 0);
      return Returned(false), requeue;
    }
    if Gated(res.status, snap.inputs) {
      requeue := Wake(res.spec.policy, schedule, io.now, 0);
      return Returned(false), requeue;
    }
    var trigger := due.value;
    res.status := res.status.(lastScan := Some(Attempt(trigger, io.now, None, None, snap.inputs)));
    if !IsStalled(res.status) && (res.status.lastSuccessfulTime.None? || trigger == SpecTrigger) {
      res.SetScanning();
    }
    phase := Attempting(schedule, snap, trigger);
  }

  /** The pass up to its deferred write. */
  method ReconcileBody(res: AtlasSecurityScan, store: ScanStore, io: PassIO)
    returns (requeue: Option<int>, err: bool, missed: nat)
    modifies res, store
    ensures res.status == Pass(old(res.Value()), old(store.status), old(store.report), io).memory
    ensures store.report == Pass(old(res.Value()), old(store.status), old(store.report), io).report
    ensures store.status == match Begin(old(res.Value()), io.allowCustomConfig, io.reader, io.now)
              case Opened(st, _, _, _) => if io.firstWrite then st else old(store.status)
              case _ => old(store.status)
    ensures err == match Begin(old(res.Value()), io.allowCustomConfig, io.reader, io.now)
              case Left(_, _) => false
              case Unread => true
              case Opened(_, _, _, _) => !io.firstWrite
    ensures PassWakes(old(res.Value()), io, requeue)
    ensures missed == PassMissed(old(res.Value()), io)
  {
    missed := 0;
    var phase;
    phase, requeue := BeginPass(res, io);
    match phase
    case Returned(e) =>
      err := e;
    case Attempting(schedule, snap, trigger) =>
      err := store.WriteStatus(res, io.firstWrite);
      if !err {
        requeue, missed := RunScan(res, store, schedule, snap, trigger, io.run, io.end);
      }
  }

  /** The whole pass: the deferred write runs on every way out, and its failure is an error of the pass. */
  method Reconcile(res: AtlasSecurityScan, store: ScanStore, io: PassIO)
    returns (requeue: Option<int>, err: bool, missed: nat)
    modifies res, store
    ensures PassEnd(res.status, store.status, store.report, err) == Pass(old(res.Value()), old(store.status), old(store.report), io)
    ensures PassWakes(old(res.Value()), io, requeue)
    ensures missed == PassMissed(old(res.Value()), io)
  {
    requeue, err, missed := ReconcileBody(res, store, io);
    var unwritten := store.WriteStatus(res, io.lastWrite);
    err := err || unwritten;
  }
}
