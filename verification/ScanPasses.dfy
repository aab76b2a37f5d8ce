/**
 What single reconcile passes, and unbroken series of them, guarantee: nothing
 due is slept through, a success commits exactly what it observed, a crash
 loses nothing, and failures are retried a bounded number of times.
 */
module ScanPasses {
  import opened Wrappers
  import opened Cron
  import opened Grading
  import opened SecurityScan
  import opened ScanController
  import opened ScanReconciler

  /** A pass at time t would find something due. */
  ghost predicate DueAt(o: ScanObject, reader: Reads, t: Time) {
    var snap := Observed(o, ScheduleOf(o.spec), reader, t);
    snap.Some? && DueCheck(o.status, snap.value.inputs).Some?
  }

  /** By time alone, inputs change only through a slot or a waiver expiry. */
  ghost predicate SlotBetween(schedule: Option<Schedule>, from: Time, end: Time) {
    schedule.Some? && !NoSlotIn(schedule.value, from, end)
  }

  ghost predicate LapseBetween(policy: Option<ScanPolicy>, from: Time, end: Time) {
    policy.Some? && exists w :: w in policy.value.ignore && Lapses(w, from, end)
  }

  // ---- No missed wake-up -------------------------------------------------------

  /** The delay never reaches past a slot or an expiry, short of the one-second floor. */
  lemma WakeCovers(policy: Option<ScanPolicy>, schedule: Option<Schedule>, now: Time, retry: int, requeue: Option<int>, t: Time)
    requires Wakes(policy, schedule, now, retry, requeue)
    requires SlotBetween(schedule, now, t) || LapseBetween(policy, now, t)
    ensures requeue.Some? && now + requeue.value <= Max(t, now + SECOND)
  {
    var d: int;
    if SlotBetween(schedule, now, t) {
      assert NextIsLeast(schedule.value, now);
      d := schedule.value.next(now).value - now;
    } else {
      var w :| w in policy.value.ignore && Lapses(w, now, t);
      d := w.expiration.value - now;
      assert w.expiration == Some(now + d);
    }
    assert IsWait(policy, schedule, now, retry, d);
  }

  /** Nothing due now, something due later: a slot or an expiry lies in between. */
  lemma DueByTimeAlone(o: ScanObject, reader: Reads, now: Time, t: Time)
    requires now < t && Observed(o, ScheduleOf(o.spec), reader, now).Some?
    requires !DueAt(o, reader, now) && DueAt(o, reader, t)
    ensures SlotBetween(ScheduleOf(o.spec), now, t) || LapseBetween(o.spec.policy, now, t)
  {
    var schedule := ScheduleOf(o.spec);
    var a := Anchor(o.status, o.creation, now);
    assert a == Anchor(o.status, o.creation, t);
    if schedule.Some? {
      LatestSlotLeavesNone(schedule.value, a, now);
      LatestSlotLeavesNone(schedule.value, a, t);
    }
    if !LapseBetween(o.spec.policy, now, t) {
      WaiversOnlyLapse(o.spec.policy, now, t);
    }
  }

  /** An idle pass: it read the triggers and found nothing due. */
  lemma IdleBegin(o: ScanObject, allow: bool, reader: Reads, now: Time)
    requires Begin(o, allow, reader, now).Left? && Begin(o, allow, reader, now).wakes && !DueAt(o, reader, now)
    ensures Begin(o, allow, reader, now).status == Idled(o.status, o.generation, now)
    ensures Observed(o, ScheduleOf(o.spec), reader, now).Some?
    ensures DueCheck(o.status, Observed(o, ScheduleOf(o.spec), reader, now).value.inputs) == None
  {
  }

  /** Idling changes nothing the due check reads. */
  lemma IdlingKeepsDue(o: ScanObject, reader: Reads, now: Time, t: Time)
    requires o.status.observedGeneration == o.generation
    ensures DueAt(o.(status := Idled(o.status, o.generation, now)), reader, t) == DueAt(o, reader, t)
  {
    var after := o.(status := Idled(o.status, o.generation, now));
    assert Observed(after, ScheduleOf(o.spec), reader, t) == Observed(o, ScheduleOf(o.spec), reader, t);
  }

  /** After an idle pass, whatever first becomes due by time alone is not slept through. */
  lemma IdleMissesNothing(o: ScanObject, allow: bool, reader: Reads, now: Time, requeue: Option<int>, t: Time)
    requires Begin(o, allow, reader, now).Left? && Begin(o, allow, reader, now).wakes && !DueAt(o, reader, now)
    requires Wakes(o.spec.policy, ScheduleOf(o.spec), now, 0, requeue)
    requires now < t && DueAt(o.(status := Begin(o, allow, reader, now).status), reader, t)
    ensures requeue.Some? && now + requeue.value <= Max(t, now + SECOND)
  {
    IdleBegin(o, allow, reader, now);
    IdlingKeepsDue(o, reader, now, t);
    DueByTimeAlone(o, reader, now, t);
    WakeCovers(o.spec.policy, ScheduleOf(o.spec), now, 0, requeue, t);
  }

  // ---- What a success commits --------------------------------------------------

  ghost predicate UniqueTriggers(ts: seq<ObservedTrigger>) {
    forall i, j :: 0 <= i < j < |ts| ==> (ts[i].kind, ts[i].name) != (ts[j].kind, ts[j].name)
  }

  ghost predicate UniqueRefs(refs: seq<TriggerRef>) {
    forall i, j :: 0 <= i < j < |refs| ==> refs[i] != refs[j]
  }

  lemma {:induction false} ObservedFromRefs(refs: seq<TriggerRef>, reader: Reads)
    requires Observe(refs, reader).Some?
    ensures forall o :: o in Observe(refs, reader).value ==> TriggerRef(o.kind, o.name) in refs
  {
    if refs != [] {
      var n := |refs| - 1;
      ObservedFromRefs(refs[..n], reader);
      assert refs == refs[..n] + [refs[n]];
    }
  }

  /** The trigger list of a spec has unique keys, so what is observed of it has too. */
  lemma {:induction false} ObservedUnique(refs: seq<TriggerRef>, reader: Reads)
    requires UniqueRefs(refs) && Observe(refs, reader).Some?
    ensures UniqueTriggers(Observe(refs, reader).value)
  {
    if refs != [] {
      var n := |refs| - 1;
      ObservedUnique(refs[..n], reader);
      ObservedFromRefs(refs[..n], reader);
      var before, all := Observe(refs[..n], reader).value, Observe(refs, reader).value;
      if all != before {
        UniqueExtends(before, all[|before|]) by {
          assert refs[n] !in refs[..n];
        }
        assert all == before + [all[|before|]];
      }
    }
  }

  lemma UniqueExtends(ts: seq<ObservedTrigger>, t: ObservedTrigger)
    requires UniqueTriggers(ts) && forall o :: o in ts ==> (o.kind, o.name) != (t.kind, t.name)
    ensures UniqueTriggers(ts + [t])
  {
  }

  lemma {:induction false} RecordedSelf(ts: seq<ObservedTrigger>, i: nat)
    requires UniqueTriggers(ts) && i < |ts|
    ensures Recorded(ts, ts[i].kind, ts[i].name) == Some(ts[i])
    decreases |ts|
  {
    if i > 0 {
      assert (ts[0].kind, ts[0].name) != (ts[i].kind, ts[i].name);
      forall k, l | 0 <= k < l < |ts[1..]|
        ensures (ts[1..][k].kind, ts[1..][k].name) != (ts[1..][l].kind, ts[1..][l].name)
      {
        assert ts[1..][k] == ts[k + 1] && ts[1..][l] == ts[l + 1];
      }
      RecordedSelf(ts[1..], i - 1);
    }
  }

  lemma {:induction false} RecordedIsIn(ts: seq<ObservedTrigger>, kind: TriggerKind, name: string)
    ensures match Recorded(ts, kind, name)
            case None => forall o :: o in ts ==> (o.kind, o.name) != (kind, name)
            case Some(r) => r in ts && r.kind == kind && r.name == name
  {
    if ts != [] {
      RecordedIsIn(ts[1..], kind, name);
      assert ts == [ts[0]] + ts[1..];
    }
  }

  /** Against unique records, a trigger is settled exactly when the very same observation was recorded. */
  lemma SettledIffRecorded(o: ObservedTrigger, ts: seq<ObservedTrigger>)
    requires UniqueTriggers(ts)
    ensures !IsPending(o, ts) <==> o in ts
  {
    RecordedIsIn(ts, o.kind, o.name);
    if o in ts {
      var i: nat :| i < |ts| && ts[i] == o;
      RecordedSelf(ts, i);
    }
  }

  /** What a finishing scan may rely on: its slot was found when it started, and its clock ran forwards. */
  ghost predicate Started(o: ScanObject, schedule: Option<Schedule>, snap: Snapshot, end: Time) {
    && snap.start <= end
    && snap.inputs.generation == o.generation
    && snap.inputs.slot == SlotOf(o, schedule, snap.start)
  }

  /** Neither the creation nor the last covered slot lies after the completion. */
  ghost predicate NotAhead(o: ScanObject, end: Time) {
    && (o.creation.Some? ==> o.creation.value <= end)
    && (o.status.lastScheduleTime.Some? ==> o.status.lastScheduleTime.value <= end)
  }

  /** The covered slot, when there is one, is the last up to the completion; with none, there was none since the anchor. */
  lemma CoveredIsLast(o: ScanObject, s: Schedule, snap: Snapshot, end: Time)
    requires Started(o, Some(s), snap, end)
    ensures var from := Anchor(o.status, o.creation, snap.start);
            match CoveredSlot(o, Some(s), snap, end)
            case None => NoSlotIn(s, from, end)
            case Some(t) => from < t <= end && NoSlotIn(s, t, end)
    ensures CoveredSlot(o, Some(s), snap, end) == LatestSlot(s, Anchor(o.status, o.creation, snap.start), end)
  {
    var from := Anchor(o.status, o.creation, snap.start);
    LatestSlotLeavesNone(s, from, snap.start);
    LatestSlotLeavesNone(s, from, end);
  }

  /** After a success, the schedule makes a scan due exactly when a slot passes after its completion. */
  lemma SlotDueAfterCommit(o: ScanObject, s: Schedule, snap: Snapshot, vs: seq<Vulnerability>, end: Time, t: Time)
    requires Started(o, Some(s), snap, end) && NotAhead(o, end) && end <= t
    ensures var st := Committed(o, Some(s), snap, vs, end);
            SlotOf(o.(status := st), Some(s), t).Some? <==> !NoSlotIn(s, end, t)
    ensures var st := Committed(o, Some(s), snap, vs, end);
            var slot := SlotOf(o.(status := st), Some(s), t);
            slot.Some? && st.lastScheduleTime.Some? ==> slot.value > st.lastScheduleTime.value
  {
    var st := Committed(o, Some(s), snap, vs, end);
    CoveredIsLast(o, s, snap, end);
    var a := Anchor(st, o.creation, t);
    LatestSlotLeavesNone(s, a, t);
    assert a <= end && NoSlotIn(s, a, end);
  }

  /** A success settles what it observed and nothing else: the exact condition for the next check to find nothing due. */
  lemma CommitSettlesExactly(o: ScanObject, schedule: Option<Schedule>, snap: Snapshot, vs: seq<Vulnerability>,
                             end: Time, t: Time, later: Inputs)
    requires Started(o, schedule, snap, end) && NotAhead(o, end) && end <= t
    requires later.slot == SlotOf(o.(status := Committed(o, schedule, snap, vs, end)), schedule, t)
    requires UniqueTriggers(snap.inputs.triggers)
    ensures DueCheck(Committed(o, schedule, snap, vs, end), later) == None <==>
            && later.generation == snap.inputs.generation
            && (later.requestedAt == "" || later.requestedAt == snap.inputs.requestedAt)
            && (forall i :: 0 <= i < |later.triggers| ==> later.triggers[i] in snap.inputs.triggers)
            && !SlotBetween(schedule, end, t)
            && later.waivers == snap.inputs.waivers
  {
    if schedule.Some? {
      SlotDueAfterCommit(o, schedule.value, snap, vs, end, t);
    }
    forall i | 0 <= i < |later.triggers|
      ensures !IsPending(later.triggers[i], snap.inputs.triggers) <==> later.triggers[i] in snap.inputs.triggers
    {
      SettledIffRecorded(later.triggers[i], snap.inputs.triggers);
    }
  }

  /** In particular the check at completion is quiet when nothing changed, whatever slots passed meanwhile. */
  lemma CommitSettles(o: ScanObject, schedule: Option<Schedule>, snap: Snapshot, vs: seq<Vulnerability>, end: Time, later: Inputs)
    requires Started(o, schedule, snap, end) && NotAhead(o, end)
    requires UniqueTriggers(snap.inputs.triggers)
    requires later == snap.inputs.(slot := SlotOf(o.(status := Committed(o, schedule, snap, vs, end)), schedule, end))
    ensures DueCheck(Committed(o, schedule, snap, vs, end), later) == None
  {
    CommitSettlesExactly(o, schedule, snap, vs, end, end, later);
  }

  /** After a successful pass, whatever first becomes due by time alone is not slept through. */
  lemma SuccessMissesNothing(o: ScanObject, snap: Snapshot, vs: seq<Vulnerability>, end: Time,
                             requeue: Option<int>, reader: Reads, t: Time)
    requires Started(o, ScheduleOf(o.spec), snap, end) && NotAhead(o, end)
    requires UniqueRefs(o.spec.triggers) && Observe(o.spec.triggers, reader) == Some(snap.inputs.triggers)
    requires snap.inputs.requestedAt == o.requestedAt
    requires FinishWakes(o, ScheduleOf(o.spec), snap, Success(vs), end, requeue)
    requires end < t && DueAt(o.(status := Committed(o, ScheduleOf(o.spec), snap, vs, end)), reader, t)
    ensures requeue.Some? && end + requeue.value <= Max(t, end + SECOND)
  {
    var schedule := ScheduleOf(o.spec);
    var after := o.(status := Committed(o, schedule, snap, vs, end));
    var later := Observed(after, schedule, reader, t).value.inputs;
    ObservedUnique(o.spec.triggers, reader);
    CommitSettlesExactly(o, schedule, snap, vs, end, t, later);
    if snap.inputs.waivers == ActiveWaivers(o.spec.policy, end) {
      if !LapseBetween(o.spec.policy, end, t) {
        WaiversOnlyLapse(o.spec.policy, end, t);
      }
      WakeCovers(o.spec.policy, schedule, end, 0, requeue, t);
    }
  }

  // ---- Schedule watermarks -----------------------------------------------------

  /** The schedule watermark only moves forwards, never past the completion, and the next slot lies after it. */
  lemma ScheduleWatermarkOrder(o: ScanObject, schedule: Option<Schedule>, snap: Snapshot, vs: seq<Vulnerability>, end: Time)
    requires Started(o, schedule, snap, end)
    ensures var was, now := o.status.lastScheduleTime, Committed(o, schedule, snap, vs, end).lastScheduleTime;
            && (was.Some? && now.Some? && was != now ==> was.value < now.value)
            && (now.Some? && was != now ==> now.value <= end)
    ensures var next := Committed(o, schedule, snap, vs, end).nextScheduleTime;
            next.Some? ==> end < next.value
  {
    if schedule.Some? {
      var s := schedule.value;
      var st := Committed(o, schedule, snap, vs, end);
      CoveredIsLast(o, s, snap, end);
      var a := Anchor(st, o.creation, snap.start);
      assert NextIsLeast(s, a);
    }
  }

  // ---- Whole passes ------------------------------------------------------------

  ghost predicate IdlePass(o: ScanObject, io: PassIO) {
    var b := Begin(o, io.allowCustomConfig, io.reader, io.now);
    b.Left? && b.wakes && !DueAt(o, io.reader, io.now)
  }

  ghost predicate SuccessfulPass(o: ScanObject, io: PassIO) {
    Begin(o, io.allowCustomConfig, io.reader, io.now).Opened? && io.firstWrite && OutcomeOf(io.run).Success?
  }

  /** What an opened attempt rests on. */
  lemma OpenedFacts(o: ScanObject, allow: bool, reader: Reads, now: Time)
    requires Begin(o, allow, reader, now).Opened?
    ensures var b := Begin(o, allow, reader, now);
            && b.schedule == ScheduleOf(o.spec)
            && Observed(o, b.schedule, reader, now) == Some(b.snap)
            && DueCheck(o.status, b.snap.inputs) == Some(b.trigger)
            && !Gated(o.status, b.snap.inputs)
            && b.status == OpenedFor(o.status, b.trigger, b.snap)
  {
  }

  /** Opening an attempt moves no watermark: only the attempt and the conditions change. */
  lemma OpeningKeepsWatermarks(st: Status, trigger: ScanTrigger, snap: Snapshot)
    ensures var after := OpenedFor(st, trigger, snap);
            && after == st.(lastScan := after.lastScan, conditions := after.conditions)
            && after.lastScan == Some(Attempt(trigger, snap.start, None, None, snap.inputs))
            && (IsStalled(st) ==> after.conditions == st.conditions)
            && (forall r :: r != Scanning ==> IsStalledFor(after, r) == IsStalledFor(st, r))
  {
  }

  /** After any pass that idled or succeeded, nothing that comes due by time alone is slept through; no delay means nothing will. */
  lemma NoMissedWakeUp(o: ScanObject, stored: Status, report: Option<Time>, io: PassIO, requeue: Option<int>, t: Time)
    requires IdlePass(o, io) || SuccessfulPass(o, io)
    requires UniqueRefs(o.spec.triggers) && io.now <= io.end && NotAhead(o, io.end)
    requires !Pass(o, stored, report, io).err && PassWakes(o, io, requeue)
    requires (if SuccessfulPass(o, io) then io.end else io.now) < t
    requires DueAt(o.(status := Pass(o, stored, report, io).stored), io.reader, t)
    ensures var from := if SuccessfulPass(o, io) then io.end else io.now;
            requeue.Some? && from + requeue.value <= Max(t, from + SECOND)
  {
    var b := Begin(o, io.allowCustomConfig, io.reader, io.now);
    if SuccessfulPass(o, io) {
      OpenedFacts(o, io.allowCustomConfig, io.reader, io.now);
      OpeningKeepsWatermarks(o.status, b.trigger, b.snap);
      var started := o.(status := b.status);
      var vs := OutcomeOf(io.run).vulnerabilities;
      assert started.(status := Committed(started, b.schedule, b.snap, vs, io.end)) == o.(status := Pass(o, stored, report, io).stored);
      SuccessMissesNothing(started, b.snap, vs, io.end, requeue, io.reader, t);
    } else {
      IdleMissesNothing(o, io.allowCustomConfig, io.reader, io.now, requeue, t);
    }
  }

  // ---- Crashes -----------------------------------------------------------------

  /** A visited, unsuspended resource with valid inputs opens an attempt exactly when something is due and the gate is open. */
  lemma OpensIff(o: ScanObject, allow: bool, reader: Reads, now: Time)
    requires o.status.conditions != map[] && !o.spec.suspend && Validate(o.spec, allow, now).Valid?
    requires Observed(o, ScheduleOf(o.spec), reader, now).Some?
    ensures var snap, b := Observed(o, ScheduleOf(o.spec), reader, now).value, Begin(o, allow, reader, now);
            && (b.Opened? <==> DueCheck(o.status, snap.inputs).Some? && !Gated(o.status, snap.inputs))
            && (b.Opened? ==> b.snap == snap && b.trigger == DueCheck(o.status, snap.inputs).value)
  {
  }

  ghost predicate SameTimes(st: Status, was: Status) {
    st.lastSuccessfulTime == was.lastSuccessfulTime && st.lastScheduleTime == was.lastScheduleTime
  }

  ghost predicate SameWatermarks(st: Status, was: Status) {
    && SameTimes(st, was)
    && st.lastHandledScanRequest == was.lastHandledScanRequest
    && st.triggers == was.triggers
    && st.activeWaivers == was.activeWaivers
  }

  /** What a status with an attempt lost on the way keeps of the status before it. */
  ghost predicate Lost(was: Status, st: Status) {
    SameWatermarks(st, was) && st.observedGeneration == was.observedGeneration && st.conditions != map[] && IsOpen(st)
  }

  lemma OpeningLoses(was: Status, st: Status, trigger: ScanTrigger, snap: Snapshot)
    requires SameWatermarks(st, was) && st.observedGeneration == was.observedGeneration && st.conditions != map[]
    ensures Lost(was, OpenedFor(st, trigger, snap))
  {
    OpeningKeepsWatermarks(st, trigger, snap);
    if !IsStalled(st) {
      assert StalledCond in ScanningSince(st).conditions;
    }
  }

  /** A lost attempt is started again, for the same trigger, by the next pass that observes the same inputs. */
  lemma LostRestarts(o: ScanObject, lost: Status, allow: bool, reader: Reads, now: Time, snap: Snapshot)
    requires Lost(o.status, lost) && DueCheck(o.status, snap.inputs).Some? && !o.spec.suspend
    requires var again := o.(status := lost, requestedAt := snap.inputs.requestedAt);
             && Validate(o.spec, allow, now).Valid?
             && Observed(again, ScheduleOf(o.spec), reader, now) == Some(Snapshot(now, snap.inputs))
    ensures var b := Begin(o.(status := lost, requestedAt := snap.inputs.requestedAt), allow, reader, now);
            b.Opened? && b.snap == Snapshot(now, snap.inputs) && b.trigger == DueCheck(o.status, snap.inputs).value
  {
    OpensIff(o.(status := lost, requestedAt := snap.inputs.requestedAt), allow, reader, now);
    assert DueCheck(lost, snap.inputs) == DueCheck(o.status, snap.inputs);
  }

  /** An attempt lost after its first write is started again by the next pass that observes the same inputs. */
  lemma CrashRestarts(o: ScanObject, allow: bool, reader: Reads, now: Time, allow': bool, reader': Reads, now': Time)
    requires Begin(o, allow, reader, now).Opened?
    requires var lost := o.(status := Begin(o, allow, reader, now).status);
             && Validate(o.spec, allow', now').Valid?
             && Observed(lost, ScheduleOf(o.spec), reader', now').Some?
             && Observed(lost, ScheduleOf(o.spec), reader', now').value.inputs == Begin(o, allow, reader, now).snap.inputs
    ensures var b := Begin(o, allow, reader, now);
            var again := Begin(o.(status := b.status), allow', reader', now');
            again.Opened? && again.trigger == b.trigger && again.snap == Snapshot(now', b.snap.inputs)
  {
    var b := Begin(o, allow, reader, now);
    OpenedFacts(o, allow, reader, now);
    OpeningLoses(o.status, o.status, b.trigger, b.snap);
    LostRestarts(o, b.status, allow', reader', now', b.snap);
  }

  /** A pass that returns no error leaves no attempt open. */
  lemma NoErrorLeavesNothingOpen(o: ScanObject, stored: Status, report: Option<Time>, io: PassIO)
    requires o.status.conditions == map[] ==> !IsOpen(o.status)
    requires !Pass(o, stored, report, io).err
    ensures !IsOpen(Pass(o, stored, report, io).stored)
  {
    if Begin(o, io.allowCustomConfig, io.reader, io.now).Opened? {
      var b := Begin(o, io.allowCustomConfig, io.reader, io.now);
      OpenedFacts(o, io.allowCustomConfig, io.reader, io.now);
      FinishCloses(o.(status := b.status), b.schedule, b.snap, OutcomeOf(io.run), io.end);
    } else {
      LeftIsClosed(o, io);
    }
  }

  lemma FinishCloses(o: ScanObject, schedule: Option<Schedule>, snap: Snapshot, outcome: Outcome, end: Time)
    requires o.status.lastScan.Some?
    ensures !IsOpen(Finish(o, schedule, snap, outcome, end))
    ensures Finish(o, schedule, snap, outcome, end).lastScan.Some?
    ensures Finish(o, schedule, snap, outcome, end).lastScan.value.inputs == o.status.lastScan.value.inputs
  {
  }

  lemma LeftIsClosed(o: ScanObject, io: PassIO)
    requires o.status.conditions == map[] ==> !IsOpen(o.status)
    ensures match Begin(o, io.allowCustomConfig, io.reader, io.now)
            case Left(st, _) => !IsOpen(st)
            case _ => true
  {
  }

  // ---- Bounded retries ---------------------------------------------------------

  /** One pass that attempts a scan and fails transiently. */
  datatype FailIO = FailIO(reader: Reads, allow: bool, now: Time, requestedAt: string, fail: FailReason, end: Time)

  ghost function Tried(o: ScanObject, io: FailIO): Begun {
    Begin(o.(requestedAt := io.requestedAt), io.allow, io.reader, io.now)
  }

  /** The resource as the failing half of the pass finds it. */
  ghost function TriedObject(o: ScanObject, io: FailIO): ScanObject
    requires Tried(o, io).Opened?
  {
    o.(requestedAt := io.requestedAt, status := Tried(o, io).status)
  }

  ghost function FailPass(o: ScanObject, io: FailIO): ScanObject
    requires Tried(o, io).Opened?
  {
    var started := TriedObject(o, io);
    started.(status := FailedOnce(started, io.fail, io.end))
  }

  /** Every pass of the series attempts, and fails. */
  ghost predicate AllFail(o: ScanObject, ios: seq<FailIO>)
    decreases |ios|, 0
  {
    ios == [] || (AllFail(o, ios[..|ios| - 1]) && Tried(AfterFails(o, ios[..|ios| - 1]), ios[|ios| - 1]).Opened?)
  }

  ghost function AfterFails(o: ScanObject, ios: seq<FailIO>): ScanObject
    requires AllFail(o, ios)
    decreases |ios|, 1
  {
    if ios == [] then o else FailPass(AfterFails(o, ios[..|ios| - 1]), ios[|ios| - 1])
  }

  /** What one failing pass does to the failure count and to the stall. */
  lemma FailPassCounts(o: ScanObject, io: FailIO)
    requires Tried(o, io).Opened?
    ensures var after := FailPass(o, io);
            var limit := BackoffLimit(o.spec);
            && after.spec == o.spec && after.generation == o.generation
            && after.status.failed == o.status.failed + 1
            && (IsStalledFor(after.status, BackoffLimitExceeded) <==>
                IsStalledFor(o.status, BackoffLimitExceeded) || (limit > 0 && o.status.failed + 1 > limit))
            && RetryAfter(TriedObject(o, io)) ==
               (if IsStalledFor(after.status, BackoffLimitExceeded) then 0 else (o.status.failed + 1) * 5 * SECOND)
            && (IsStalledFor(o.status, BackoffLimitExceeded) ==> after.status.conditions == o.status.conditions)
  {
    var from := o.(requestedAt := io.requestedAt);
    var b := Tried(o, io);
    OpenedFacts(from, io.allow, io.reader, io.now);
    OpeningKeepsWatermarks(from.status, b.trigger, b.snap);
  }

  /** From no failures, the limit L stalls the resource at exactly the (L+1)-th consecutive failure. */
  lemma {:induction false} StallsAfterTheLimit(o: ScanObject, ios: seq<FailIO>)
    requires AllFail(o, ios)
    requires o.status.failed == 0 && !IsStalledFor(o.status, BackoffLimitExceeded) && BackoffLimit(o.spec) > 0
    ensures AfterFails(o, ios).spec == o.spec
    ensures AfterFails(o, ios).status.failed == |ios|
    ensures IsStalledFor(AfterFails(o, ios).status, BackoffLimitExceeded) <==> |ios| > BackoffLimit(o.spec)
    decreases |ios|
  {
    if ios != [] {
      var n := |ios| - 1;
      StallsAfterTheLimit(o, ios[..n]);
      OneMoreFail(AfterFails(o, ios[..n]), ios[n]);
    }
  }

  lemma OneMoreFail(o: ScanObject, io: FailIO)
    requires Tried(o, io).Opened? && BackoffLimit(o.spec) > 0
    requires IsStalledFor(o.status, BackoffLimitExceeded) <==> o.status.failed > BackoffLimit(o.spec)
    ensures var after := FailPass(o, io);
            && after.spec == o.spec && after.status.failed == o.status.failed + 1
            && (IsStalledFor(after.status, BackoffLimitExceeded) <==> after.status.failed > BackoffLimit(o.spec))
  {
    FailPassCounts(o, io);
  }

  /** The backoff components of that series: 5s, 10s, ..., 5L s, and none from the stall on. */
  lemma RetryDelays(o: ScanObject, ios: seq<FailIO>)
    requires ios != [] && AllFail(o, ios)
    requires o.status.failed == 0 && !IsStalledFor(o.status, BackoffLimitExceeded) && BackoffLimit(o.spec) > 0
    ensures var n := |ios| - 1;
            RetryAfter(TriedObject(AfterFails(o, ios[..n]), ios[n])) ==
            if |ios| <= BackoffLimit(o.spec) then |ios| * 5 * SECOND else 0
  {
    var n := |ios| - 1;
    StallsAfterTheLimit(o, ios[..n]);
    StallsAfterTheLimit(o, ios);
    FailPassCounts(AfterFails(o, ios[..n]), ios[n]);
  }

  /** With no limit, retries never stop: the n-th waits 5n seconds. */
  lemma {:induction false} UnlimitedNeverStalls(o: ScanObject, ios: seq<FailIO>)
    requires AllFail(o, ios)
    requires o.status.failed == 0 && !IsStalledFor(o.status, BackoffLimitExceeded) && BackoffLimit(o.spec) == 0
    ensures AfterFails(o, ios).spec == o.spec && AfterFails(o, ios).status.failed == |ios|
    ensures !IsStalledFor(AfterFails(o, ios).status, BackoffLimitExceeded)
    ensures ios != [] ==>
              RetryAfter(TriedObject(AfterFails(o, ios[..|ios| - 1]), ios[|ios| - 1])) == |ios| * 5 * SECOND
    decreases |ios|
  {
    if ios != [] {
      var n := |ios| - 1;
      UnlimitedNeverStalls(o, ios[..n]);
      FailPassCounts(AfterFails(o, ios[..n]), ios[n]);
    }
  }

  /** Once retries are exhausted, further failures leave the conditions exactly as they are. */
  lemma {:induction false} StalledConditionsDoNotMove(o: ScanObject, ios: seq<FailIO>)
    requires AllFail(o, ios) && IsStalledFor(o.status, BackoffLimitExceeded)
    ensures AfterFails(o, ios).status.conditions == o.status.conditions
    decreases |ios|
  {
    if ios != [] {
      var n := |ios| - 1;
      StalledConditionsDoNotMove(o, ios[..n]);
      assert IsStalledFor(AfterFails(o, ios[..n]).status, BackoffLimitExceeded);
      FailPassCounts(AfterFails(o, ios[..n]), ios[n]);
    }
  }

  // ---- The stall gate ----------------------------------------------------------

  /** The schedule is evaluated from a fixed point: a created resource has one. */
  predicate Anchored(o: ScanObject) {
    o.creation.Some? || o.status.lastScheduleTime.Some? || o.status.lastSuccessfulTime.Some?
  }

  /** Two observations of one resource differ exactly when a slot or a waiver expiry falls between them. */
  lemma InputsChangeIff(o: ScanObject, reader: Reads, t: Time, u: Time)
    requires t <= u && Anchored(o) && Observe(o.spec.triggers, reader).Some?
    requires ScheduleOf(o.spec).Some? ==>
               |SlotsIn(ScheduleOf(o.spec).value, Anchor(o.status, o.creation, u), u)| <= MAX_SLOT_STEPS
    ensures var schedule := ScheduleOf(o.spec);
            Observed(o, schedule, reader, t).value.inputs != Observed(o, schedule, reader, u).value.inputs <==>
            || SlotBetween(schedule, Max(t, Anchor(o.status, o.creation, t)), u)
            || LapseBetween(o.spec.policy, t, u)
  {
    var schedule := ScheduleOf(o.spec);
    WaiversOnlyLapse(o.spec.policy, t, u);
    if schedule.Some? {
      SlotSearchChangesIff(schedule.value, Anchor(o.status, o.creation, t), t, u);
    }
  }

  lemma SlotSearchChangesIff(s: Schedule, a: Time, t: Time, u: Time)
    requires t <= u && |SlotsIn(s, a, u)| <= MAX_SLOT_STEPS
    ensures LatestSlot(s, a, t) != LatestSlot(s, a, u) <==> !NoSlotIn(s, Max(t, a), u)
  {
    LongerIntervalHoldsMore(s, a, t, u);
    LatestSlotLeavesNone(s, a, t);
    LatestSlotLeavesNone(s, a, u);
    if NoSlotIn(s, Max(t, a), u) && LatestSlot(s, a, u).Some? {
      var m, n := LatestSlot(s, a, u).value, LatestSlot(s, a, t);
      assert s.fires(m) && m <= t;
      assert n.Some? && s.fires(n.value);
    }
  }

  /** Stalled after exhausted retries, with the last attempt finished, a pass without a new slot or expiry changes nothing. */
  lemma StalledWaitsForACause(o: ScanObject, allow: bool, reader: Reads, t: Time, u: Time)
    requires t <= u && Anchored(o) && Observe(o.spec.triggers, reader).Some?
    requires ScheduleOf(o.spec).Some? ==>
               |SlotsIn(ScheduleOf(o.spec).value, Anchor(o.status, o.creation, u), u)| <= MAX_SLOT_STEPS
    requires !o.spec.suspend && Validate(o.spec, allow, u).Valid?
    requires Gated(o.status, Observed(o, ScheduleOf(o.spec), reader, t).value.inputs)
    requires DueAt(o, reader, u)
    ensures var b := Begin(o, allow, reader, u);
            if SlotBetween(ScheduleOf(o.spec), Max(t, Anchor(o.status, o.creation, t)), u) || LapseBetween(o.spec.policy, t, u)
            then b.Opened? else b == Left(o.status, true)
  {
    InputsChangeIff(o, reader, t, u);
  }

  /** After a pass that the gate turned away, the next attempt the gate lets through is not slept through. */
  lemma GatedMissesNothing(o: ScanObject, allow: bool, reader: Reads, now: Time, requeue: Option<int>, t: Time)
    requires now < t && Anchored(o) && Observe(o.spec.triggers, reader).Some?
    requires ScheduleOf(o.spec).Some? ==>
               |SlotsIn(ScheduleOf(o.spec).value, Anchor(o.status, o.creation, t), t)| <= MAX_SLOT_STEPS
    requires Gated(o.status, Observed(o, ScheduleOf(o.spec), reader, now).value.inputs)
    requires Wakes(o.spec.policy, ScheduleOf(o.spec), now, 0, requeue)
    requires Begin(o, allow, reader, t).Opened?
    ensures requeue.Some? && now + requeue.value <= Max(t, now + SECOND)
  {
    OpenedFacts(o, allow, reader, t);
    InputsChangeIff(o, reader, now, t);
    WakeCovers(o.spec.policy, ScheduleOf(o.spec), now, 0, requeue, t);
  }

  /** A failed attempt asks for its delay from its start, so what comes due after that is met late by at most the time it took. */
  lemma FailureWakesLateByTheScan(o: ScanObject, schedule: Option<Schedule>, snap: Snapshot, outcome: Outcome,
                                  end: Time, requeue: Option<int>, t: Time)
    requires !outcome.Success? && FinishWakes(o, schedule, snap, outcome, end, requeue)
    requires SlotBetween(schedule, snap.start, t) || LapseBetween(o.spec.policy, snap.start, t)
    ensures requeue.Some? && end + requeue.value <= Max(t, snap.start + SECOND) + (end - snap.start)
  {
    var retry := if outcome.Transient? then RetryAfter(o) else 0;
    WakeCovers(o.spec.policy, schedule, snap.start, retry, requeue, t);
  }

  /** The first slot or waiver expiry after a time. */
  ghost predicate FirstCause(policy: Option<ScanPolicy>, schedule: Option<Schedule>, now: Time, n: Time) {
    IsWait(policy, schedule, now, 0, n - now) && forall d :: IsWait(policy, schedule, now, 0, d) ==> n - now <= d
  }

  function RetryOf(o: ScanObject, outcome: Outcome): int {
    if outcome.Transient? then RetryAfter(o) else 0
  }

  /**
   When a failed pass meets the first cause after the attempt's start on time, by
   that cause or within a second of the end of the pass: exactly when the attempt
   took no time, the cause lay within a second of the start, or a retry comes
   before it.
   */
  lemma FailureWakesOnTimeIff(o: ScanObject, schedule: Option<Schedule>, snap: Snapshot, outcome: Outcome,
                              end: Time, requeue: Option<int>, n: Time)
    requires !outcome.Success? && FinishWakes(o, schedule, snap, outcome, end, requeue)
    requires snap.start <= end && snap.start < n && FirstCause(o.spec.policy, schedule, snap.start, n)
    ensures var retry := RetryOf(o, outcome);
            requeue.Some? &&
            (end + requeue.value <= Max(n, end + SECOND) <==>
             end == snap.start || n - snap.start <= SECOND || (0 < retry && end + retry <= n))
  {
    FirstWait(o.spec.policy, schedule, snap.start, RetryOf(o, outcome), requeue, n);
  }

  /** Whatever the retry, the least wait is the first cause or the retry. */
  lemma FirstWait(policy: Option<ScanPolicy>, schedule: Option<Schedule>, now: Time, retry: int, requeue: Option<int>, n: Time)
    requires FirstCause(policy, schedule, now, n) && Wakes(policy, schedule, now, retry, requeue)
    ensures requeue == Some(Max(if retry > 0 then Min(n - now, retry) else n - now, SECOND))
  {
    assert IsWait(policy, schedule, now, retry, n - now);
    assert retry > 0 ==> IsWait(policy, schedule, now, retry, retry);
    forall d | IsWait(policy, schedule, now, retry, d) ensures d == retry > 0 || IsWait(policy, schedule, now, 0, d) {
    }
  }
}
