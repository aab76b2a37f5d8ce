/**
 What a pass does in terms of the fields it reads and the answers it gets: what
 makes a scan due, which answers make it a success, what a success publishes, and
 what every other way out leaves behind.
 */
module ScanOutcomes {
  import opened Wrappers
  import opened Cron
  import opened Grading
  import opened SecurityScan
  import opened ScanController
  import opened ScanReconciler
  import opened ScanPasses

  // ---- What is due -------------------------------------------------------------------

  /**
   A scan is due unless a success is recorded and everything observed is what it
   recorded: generation, request, each trigger with its uid and revision, slot and
   waivers. The first of these that differs names the trigger.
   */
  lemma DueIff(st: Status, inputs: Inputs)
    requires UniqueTriggers(st.triggers)
    ensures var spec := st.lastSuccessfulTime.None? || inputs.generation != st.observedGeneration;
            var manual := inputs.requestedAt != "" && inputs.requestedAt != st.lastHandledScanRequest;
            var apply := exists o :: o in inputs.triggers && o !in st.triggers;
            var slot := inputs.slot.Some? && (st.lastScheduleTime.None? || inputs.slot.value > st.lastScheduleTime.value);
            var policy := inputs.waivers != st.activeWaivers;
            DueCheck(st, inputs) ==
            if spec then Some(SpecTrigger) else if manual then Some(ManualTrigger) else if apply then Some(ApplyTrigger)
            else if slot then Some(ScheduleTrigger) else if policy then Some(PolicyTrigger) else None
  {
    forall i | 0 <= i < |inputs.triggers|
      ensures IsPending(inputs.triggers[i], st.triggers) <==> inputs.triggers[i] !in st.triggers
    {
      SettledIffRecorded(inputs.triggers[i], st.triggers);
    }
  }

  /** A trigger applied again is scanned for: nothing is due only once every observation is recorded as it is. */
  lemma NothingDueMeansRecorded(st: Status, inputs: Inputs)
    requires UniqueTriggers(st.triggers) && DueCheck(st, inputs) == None
    ensures forall o :: o in inputs.triggers ==> o in st.triggers
  {
    DueIff(st, inputs);
  }

  /** The triggers observed are those of the spec, of a kind that is read, that were found, with the uid and revision read. */
  lemma {:induction false} ObservedIff(refs: seq<TriggerRef>, reader: Reads)
    ensures Observe(refs, reader).None? <==> exists r :: r in refs && r.kind != OtherKind && reader(r) == ReadFailed
    ensures Observe(refs, reader).Some? ==>
              forall o :: o in Observe(refs, reader).value <==>
                var r := TriggerRef(o.kind, o.name); r in refs && r.kind != OtherKind && reader(r) == Present(o.uid, o.revision)
  {
    if refs != [] {
      ObservedIff(refs[..|refs| - 1], reader);
      assert refs == refs[..|refs| - 1] + [refs[|refs| - 1]];
    }
  }

  /**
   Slots are looked for after the last covered one; before there is one, after the
   creation and the last success; and after now without any.
   */
  lemma SlotsLookedFor(o: ScanObject, s: Schedule, now: Time)
    ensures var st := o.status;
            SlotOf(o, Some(s), now).None? <==>
            forall t :: s.fires(t) && t <= now ==>
              || (st.lastScheduleTime.Some? && t <= st.lastScheduleTime.value)
              || (st.lastScheduleTime.None? && o.creation.Some? && t <= o.creation.value)
              || (st.lastScheduleTime.None? && st.lastSuccessfulTime.Some? && t <= st.lastSuccessfulTime.value)
              || (st.lastScheduleTime.None? && o.creation.None? && st.lastSuccessfulTime.None?)
  {
    LatestSlotLeavesNone(s, Anchor(o.status, o.creation, now), now);
  }

  // ---- Which spec is invalid ----------------------------------------------------------

  /** The first thing wrong with a spec: its time zone, its schedule, or its target. */
  lemma ValidIff(spec: ScanSpec, allow: bool, now: Time)
    ensures var slots := spec.schedule.Malformed? || (spec.schedule.Parsed? && spec.schedule.schedule.next(now).None?);
            var target := (!spec.hasTarget && !spec.hasConfig) || (spec.hasConfig && (!allow || !spec.hasEnvName));
            Validate(spec, allow, now) ==
            if !spec.zoneKnown then NotValid(InvalidTimeZone)
            else if slots then NotValid(InvalidSchedule)
            else if target then NotValid(InvalidTarget)
            else Valid(ScheduleOf(spec))
  {
  }

  /** What a pass over a new, a suspended or an invalid resource leaves, and when it is woken. */
  lemma EarlyReturns(o: ScanObject, stored: Status, report: Option<Time>, io: PassIO, requeue: Option<int>)
    requires PassWakes(o, io, requeue)
    ensures var now, c := Pass(o, stored, report, io).memory, Pass(o, stored, report, io).memory.conditions;
            && (o.status.conditions == map[] ==>
                  && requeue == Some(1_000_000_000)
                  && c == map[ReadyCond := Condition(CondUnknown, Reconciling), ReconcilingCond := Condition(CondTrue, Reconciling),
                              StalledCond := Condition(CondFalse, Reconciling), CompliantCond := Condition(CondUnknown, NotScanned)])
            && (o.status.conditions != map[] && o.spec.suspend ==>
                  && requeue == None && now.nextScheduleTime == None && now.observedGeneration == o.generation
                  && !IsOpen(now) && !IsStalled(now)
                  && ReconcilingCond in c && c[ReconcilingCond] == Condition(CondFalse, Suspended))
            && (o.status.conditions != map[] && !o.spec.suspend && Validate(o.spec, io.allowCustomConfig, io.now).NotValid? ==>
                  && requeue == None && now.nextScheduleTime == None && now.observedGeneration == o.generation && !IsOpen(now)
                  && IsStalledFor(now, Invalid(Validate(o.spec, io.allowCustomConfig, io.now).reason)))
  {
  }

  /**
   With nothing due, an interrupted attempt is closed as failed, and unless it is
   stalled the resource is ready for its generation.
   */
  lemma IdleLeaves(o: ScanObject, stored: Status, report: Option<Time>, io: PassIO)
    requires o.status.conditions != map[] && !o.spec.suspend && Validate(o.spec, io.allowCustomConfig, io.now).Valid?
    requires match Observed(o, ScheduleOf(o.spec), io.reader, io.now)
             case None => false
             case Some(snap) => DueCheck(o.status, snap.inputs) == None
    ensures var was, now := o.status, Pass(o, stored, report, io).memory;
            && (IsOpen(was) ==>
                  now.lastScan == Some(was.lastScan.value.(completion := Some(io.now), result := Some(Failed))))
            && (!IsOpen(was) ==> now.lastScan == was.lastScan)
            && (IsStalled(was) ==>
                  now.conditions == was.conditions && now.failed == was.failed && now.observedGeneration == was.observedGeneration)
            && (!IsStalled(was) ==>
                  && now.conditions == was.conditions[ReadyCond := Condition(CondTrue, Scanned)]
                                                     [ReconcilingCond := Condition(CondFalse, Scanned)]
                                                     [StalledCond := Condition(CondFalse, Scanned)]
                  && now.failed == 0 && now.observedGeneration == o.generation)
  {
  }

  /**
   A scan shows as running exactly when none has succeeded yet or the spec changed, and
   no stall stands; Ready is kept once there was a success.
   */
  lemma OpeningShows(st: Status, trigger: ScanTrigger, snap: Snapshot)
    ensures var c, shows := OpenedFor(st, trigger, snap).conditions, !IsStalled(st) && (st.lastSuccessfulTime.None? || trigger == SpecTrigger);
            && (!shows ==> c == st.conditions)
            && (shows ==>
                  && c.Keys == st.conditions.Keys + {ReconcilingCond, StalledCond} + (if st.lastSuccessfulTime.None? then {ReadyCond} else {})
                  && c[ReconcilingCond] == Condition(CondTrue, Scanning) && c[StalledCond] == Condition(CondFalse, Scanning)
                  && (st.lastSuccessfulTime.None? ==> c[ReadyCond] == Condition(CondUnknown, Scanning))
                  && (st.lastSuccessfulTime.Some? && ReadyCond in c ==> c[ReadyCond] == st.conditions[ReadyCond]))
  {
  }

  // ---- How an attempt ends -------------------------------------------------------------

  /** The scan was set up and run: inputs read, working directory, client, and login when there is a token. */
  predicate SetUp(run: ScanRun) {
    run.inputs.InputsRead? && run.workingDir && run.client && (run.inputs.token ==> run.login)
  }

  /** The attempt was opened, and neither write of the pass was lost. */
  ghost predicate Recorded(o: ScanObject, io: PassIO) {
    Begin(o, io.allowCustomConfig, io.reader, io.now).Opened? && io.firstWrite && io.lastWrite
  }

  /**
   A recorded attempt succeeded exactly when it was set up, reported one target without
   error or failure, and the report was stored.
   */
  lemma SucceedsIff(o: ScanObject, stored: Status, report: Option<Time>, io: PassIO)
    requires Recorded(o, io)
    ensures var run, a := io.run, Pass(o, stored, report, io).stored.lastScan;
            && a.Some? && a.value.start == io.now && a.value.completion == Some(io.end)
            && (a.value.result == Some(Succeeded) <==>
                SetUp(run) && run.scan.Report? && |run.scan.targets| == 1 && !run.scan.targets[0].error && !run.scan.failures && run.stored)
            && (a.value.result != Some(Succeeded) ==> a.value.result == Some(Failed))
  {
    OpenedEnds(o, stored, report, io);
  }

  lemma OpenedEnds(o: ScanObject, stored: Status, report: Option<Time>, io: PassIO)
    requires Recorded(o, io)
    ensures var b := Begin(o, io.allowCustomConfig, io.reader, io.now);
            && b.status.lastScan.Some? && b.status.lastScan.value.start == io.now
            && Pass(o, stored, report, io).stored == Finish(o.(status := b.status), b.schedule, b.snap, OutcomeOf(io.run), io.end)
  {
    OpenedFacts(o, io.allowCustomConfig, io.reader, io.now);
  }

  /** The attempt stalls the resource for an invalid input, whatever the retries. */
  ghost predicate StallsFor(o: ScanObject, st: Status, reason: InvalidReason) {
    && IsStalledFor(st, Invalid(reason)) && st.observedGeneration == o.generation && st.failed == o.status.failed
    && ReadyCond in st.conditions && st.conditions[ReadyCond] == Condition(CondFalse, Invalid(reason))
  }

  /**
   The attempt counts as a failure and is retried, reporting its reason; past the
   limit it stalls the resource and marks the verdict stale, and on exhausted
   retries no condition moves.
   */
  ghost predicate RetriesFor(o: ScanObject, st: Status, fail: FailReason) {
    var limit := if o.spec.backoffLimit.Some? then o.spec.backoffLimit.value else 20;
    && st.failed == o.status.failed + 1
    && if IsStalledFor(o.status, BackoffLimitExceeded) then st.conditions == o.status.conditions
       else if limit > 0 && o.status.failed + 1 > limit then
         && IsStalledFor(st, BackoffLimitExceeded) && CompliantCond in st.conditions
         && st.conditions[CompliantCond] == Condition(CondUnknown, ReportStale)
       else
         && ReadyCond in st.conditions && st.conditions[ReadyCond] == Condition(CondFalse, Failing(fail))
         && ReconcilingCond in st.conditions && st.conditions[ReconcilingCond] == Condition(CondTrue, Retrying)
         && StalledCond in st.conditions && st.conditions[StalledCond] == Condition(CondFalse, Retrying)
  }

  lemma RetryingMeans(o: ScanObject, io: PassIO, fail: FailReason)
    requires Begin(o, io.allowCustomConfig, io.reader, io.now).Opened?
    ensures var b := Begin(o, io.allowCustomConfig, io.reader, io.now);
            RetriesFor(o, FailedOnce(o.(status := b.status), fail, io.end), fail)
  {
    OpenedFacts(o, io.allowCustomConfig, io.reader, io.now);
    var b := Begin(o, io.allowCustomConfig, io.reader, io.now);
    OpeningKeepsWatermarks(o.status, b.trigger, b.snap);
  }

  /**
   What each answer that is not a success leaves: a rejected input or several targets
   stall, everything else is retried, for the first step that failed.
   */
  lemma FailureLeaves(o: ScanObject, stored: Status, report: Option<Time>, io: PassIO)
    requires Recorded(o, io)
    ensures var run, st := io.run, Pass(o, stored, report, io).stored;
            && (run.inputs.InputsRejected? ==> StallsFor(o, st, run.inputs.reason))
            && (run.inputs.InputsFailed? || (run.inputs.InputsRead? && !run.workingDir) ==> RetriesFor(o, st, ReadingInputs))
            && (run.inputs.InputsRead? && run.workingDir ==>
                  && (!run.client ==> RetriesFor(o, st, CLIError))
                  && (run.client && run.inputs.token && !run.login ==> RetriesFor(o, st, LoginFailed)))
            && (SetUp(run) && run.scan.NoReport? ==> RetriesFor(o, st, CLIError))
            && (SetUp(run) && run.scan.Report? ==>
                  var targets := run.scan.targets;
                  && (|targets| > 1 ==> StallsFor(o, st, InvalidTarget))
                  && (|targets| == 0 ==> RetriesFor(o, st, ScanFailed))
                  && (|targets| == 1 && (targets[0].error || run.scan.failures) ==> RetriesFor(o, st, ScanFailed))
                  && (|targets| == 1 && !targets[0].error && !run.scan.failures && !run.stored ==> RetriesFor(o, st, StoringReport)))
  {
    OpenedEnds(o, stored, report, io);
    if OutcomeOf(io.run).Transient? {
      RetryingMeans(o, io, OutcomeOf(io.run).fail);
    }
  }

  lemma UnstoredFinish(o: ScanObject, schedule: Option<Schedule>, snap: Snapshot, run: ScanRun, end: Time)
    requires !run.stored
    ensures !OutcomeOf(run).Success? && !ReportStored(run)
    ensures Finish(o, schedule, snap, OutcomeOf(run), end).lastSuccessfulTime == o.status.lastSuccessfulTime
  {
  }

  /** Without a stored report, a pass leaves the report and the time of the last success as they were. */
  lemma UnstoredIsNoSuccess(o: ScanObject, report: Option<Time>, io: PassIO)
    requires !io.run.stored
    ensures var end := Pass(o, o.status, report, io);
            end.report == report && end.stored.lastSuccessfulTime == o.status.lastSuccessfulTime
  {
    var b := Begin(o, io.allowCustomConfig, io.reader, io.now);
    if b.Opened? {
      OpenedFacts(o, io.allowCustomConfig, io.reader, io.now);
      OpeningKeepsWatermarks(o.status, b.trigger, b.snap);
      UnstoredFinish(o.(status := b.status), b.schedule, b.snap, io.run, io.end);
    }
  }

  /** With no limit set, the resource stalls at the twenty-first consecutive failure. */
  lemma DefaultLimit(o: ScanObject, ios: seq<FailIO>)
    requires AllFail(o, ios) && o.spec.backoffLimit.None?
    requires o.status.failed == 0 && !IsStalledFor(o.status, BackoffLimitExceeded)
    ensures IsStalledFor(AfterFails(o, ios).status, BackoffLimitExceeded) <==> |ios| > 20
  {
    StallsAfterTheLimit(o, ios);
  }

  // ---- What a success publishes --------------------------------------------------------

  const LEVELS: seq<Level> := [Normal, Elevated, High, Critical]

  /** The level ranks at or above the bar, by position; an unknown bar is below every level. */
  predicate AtLeast(level: Level, bar: Level) {
    bar !in LEVELS || exists i, j :: 0 <= i <= j < |LEVELS| && LEVELS[i] == bar && LEVELS[j] == level
  }

  lemma RankIsPosition(level: Level, bar: Level)
    ensures AtLeast(level, bar) <==> LevelIndex(level) >= LevelIndex(bar)
  {
    assert forall i :: 0 <= i < 4 ==> LevelIndex(LEVELS[i]) == i;
    if level in LEVELS && bar in LEVELS && LevelIndex(level) >= LevelIndex(bar) {
      assert LEVELS[LevelIndex(bar)] == bar && LEVELS[LevelIndex(level)] == level;
    }
  }

  /** The i-th vulnerability is reported, not waived, and at or above the bar. */
  ghost predicate Violates(vs: seq<Vulnerability>, i: nat, waivers: multiset<string>, bar: Level)
    requires i < |vs|
  {
    && (forall j :: 0 <= j < i ==> vs[j].id != vs[i].id || vs[j].name != vs[i].name)
    && vs[i].id !in waivers && AtLeast(vs[i].level, bar)
  }

  /** A finding fails the bar exactly when the vulnerability it reports violates it. */
  lemma FailingFinding(vs: seq<Vulnerability>, policy: ScanPolicy, at: Time, bar: Level, k: nat)
    requires k < |Firsts(vs)|
    ensures var w := ActiveWaivers(Some(policy), at);
            && k < |Findings(vs, Some(policy), w)|
            && (Fails(Findings(vs, Some(policy), w)[k], bar) <==> Violates(vs, Firsts(vs)[k], w, bar))
  {
    var w := ActiveWaivers(Some(policy), at);
    var fs := Findings(vs, Some(policy), w);
    FindingsAreFirstOccurrences(vs, Some(policy), w);
    WaivedIffCarried(vs, Some(policy), at);
    assert fs[k] in fs;
    assert IsFirst(vs, Firsts(vs)[k]);
    RankIsPosition(fs[k].level, bar);
  }

  lemma ViolationIff(vs: seq<Vulnerability>, policy: Option<ScanPolicy>, at: Time)
    requires policy.Some? && policy.value.failOn.Some?
    ensures var w := ActiveWaivers(policy, at);
            VerdictOf(Findings(vs, policy, w), policy) == Violated <==>
            exists i :: 0 <= i < |vs| && Violates(vs, i, w, policy.value.failOn.value)
  {
    var w, bar := ActiveWaivers(policy, at), policy.value.failOn.value;
    var fs := Findings(vs, policy, w);
    FindingsAreFirstOccurrences(vs, policy, w);
    if k :| 0 <= k < |fs| && Fails(fs[k], bar) {
      FailingFinding(vs, policy.value, at, bar, k);
    }
    if i :| 0 <= i < |vs| && Violates(vs, i, w, bar) {
      assert IsFirst(vs, i);
      var k :| 0 <= k < |Firsts(vs)| && Firsts(vs)[k] == i;
      FailingFinding(vs, policy.value, at, bar, k);
    }
  }

  /**
   The verdict a success publishes: none without a threshold, violated exactly when
   some reported vulnerability that no waiver in force covers ranks at or above it,
   and compliant otherwise.
   */
  lemma PublishedVerdict(o: ScanObject, schedule: Option<Schedule>, snap: Snapshot, vs: seq<Vulnerability>, end: Time)
    requires snap.inputs.waivers == ActiveWaivers(o.spec.policy, snap.start)
    ensures var c, policy := Committed(o, schedule, snap, vs, end).conditions, o.spec.policy;
            && CompliantCond in c
            && c[CompliantCond] ==
               if policy.None? || policy.value.failOn.None? then Condition(CondUnknown, PolicyVerdict(NoThreshold))
               else if exists i :: 0 <= i < |vs| && Violates(vs, i, snap.inputs.waivers, policy.value.failOn.value)
               then Condition(CondFalse, PolicyVerdict(Violated))
               else Condition(CondTrue, PolicyVerdict(WithinPolicy))
  {
    if o.spec.policy.Some? && o.spec.policy.value.failOn.Some? {
      ViolationIff(vs, o.spec.policy, snap.start);
    }
  }

  /** A later report of the same id and name does not count, however high it ranks: a critical one goes unseen. */
  lemma LaterReportIsDropped(o: ScanObject, schedule: Option<Schedule>, snap: Snapshot, id: string, name: string, end: Time)
    requires snap.inputs.waivers == ActiveWaivers(o.spec.policy, snap.start)
    requires o.spec.policy.Some? && o.spec.policy.value.failOn == Some(High)
    ensures var vs := [Vulnerability(id, name, Normal), Vulnerability(id, name, Critical)];
            var c := Committed(o, schedule, snap, vs, end).conditions;
            CompliantCond in c && c[CompliantCond].status == CondTrue
  {
    var vs := [Vulnerability(id, name, Normal), Vulnerability(id, name, Critical)];
    PublishedVerdict(o, schedule, snap, vs, end);
    RankIsPosition(Normal, High);
    assert !Violates(vs, 0, snap.inputs.waivers, High);
    assert vs[0].id == vs[1].id && vs[0].name == vs[1].name;
    assert !Violates(vs, 1, snap.inputs.waivers, High);
  }

  /**
   The rest of what a success writes: readiness for the generation, no failures, the
   counts, and the next slot after its completion.
   */
  lemma PublishedStatus(o: ScanObject, schedule: Option<Schedule>, snap: Snapshot, vs: seq<Vulnerability>, end: Time)
    requires Started(o, schedule, snap, end) && NotAhead(o, end)
    ensures var st, c := Committed(o, schedule, snap, vs, end), Committed(o, schedule, snap, vs, end).conditions;
            && st.observedGeneration == o.generation && st.failed == 0 && st.lastSuccessfulTime == Some(end)
            && {ReadyCond, ReconcilingCond, StalledCond} <= c.Keys
            && c[ReadyCond] == Condition(CondTrue, Scanned)
            && c[ReconcilingCond] == Condition(CondFalse, Scanned) && c[StalledCond] == Condition(CondFalse, Scanned)
            && st.summary.Some? && st.summary.value.total + st.summary.value.waived == |Firsts(vs)|
    ensures var next := Committed(o, schedule, snap, vs, end).nextScheduleTime;
            match schedule
            case None => next.None?
            case Some(s) =>
              match next
              case None => forall t :: end < t ==> !s.fires(t)
              case Some(n) => end < n && s.fires(n) && forall t :: end < t < n ==> !s.fires(t)
  {
    FindingsAreFirstOccurrences(vs, o.spec.policy, snap.inputs.waivers);
    CountedShorter(Findings(vs, o.spec.policy, snap.inputs.waivers), snap.inputs.waivers);
    if schedule.Some? {
      NextAfterCommit(o, schedule.value, snap, vs, end);
    }
  }

  lemma NextAfterCommit(o: ScanObject, s: Schedule, snap: Snapshot, vs: seq<Vulnerability>, end: Time)
    requires Started(o, Some(s), snap, end) && NotAhead(o, end)
    ensures match Committed(o, Some(s), snap, vs, end).nextScheduleTime
            case None => forall t :: end < t ==> !s.fires(t)
            case Some(n) => end < n && s.fires(n) && forall t :: end < t < n ==> !s.fires(t)
  {
    var a := Anchor(Committed(o, Some(s), snap, vs, end), o.creation, snap.start);
    CoveredIsLast(o, s, snap, end);
    assert a <= end && NoSlotIn(s, a, end);
    assert NextIsLeast(s, a);
  }

  /** The waiver a finding carries is the first of its id in the policy. */
  lemma {:induction false} CarriedIsFirst(ignore: seq<Ignored>, id: string)
    ensures match FirstWaiver(ignore, id)
            case None => forall w :: w in ignore ==> w.id != id
            case Some(w) => exists i :: 0 <= i < |ignore| && ignore[i] == w && w.id == id && forall j :: 0 <= j < i ==> ignore[j].id != id
  {
    if ignore != [] && ignore[0].id != id {
      CarriedIsFirst(ignore[1..], id);
      var r := FirstWaiver(ignore[1..], id);
      if r.Some? {
        var i :| 0 <= i < |ignore[1..]| && ignore[1..][i] == r.value && forall j :: 0 <= j < i ==> ignore[1..][j].id != id;
        assert ignore[i + 1] == r.value;
        forall j | 0 <= j < i + 1 ensures ignore[j].id != id {
          assert j > 0 ==> ignore[j] == ignore[1..][j - 1];
        }
      }
    }
  }
}
