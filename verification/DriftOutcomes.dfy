/**
 What one run of a drift check leaves for each answer of the cluster and the
 CLI, in the order the run gets them: the conditions, the result and the time of
 the next check.
 */
module DriftOutcomes {
  import opened Wrappers
  import opened Cron
  import opened DriftCheck

  /** Only the conditions and the observed generation may differ. */
  ghost predicate KeepsResult(st: Status, now: Status) {
    && now.version == st.version && now.fingerprint == st.fingerprint && now.mode == st.mode
    && now.summary == st.summary && now.lastCheckTime == st.lastCheckTime
  }

  ghost predicate Has(st: Status, t: CondType, status: CondStatus, reason: Reason, message: Message, generation: int) {
    t in st.conditions && st.conditions[t] == Condition(status, reason, message, generation)
  }

  /** The interval of the spec, five minutes by default. */
  function Between(spec: Spec): int {
    if spec.interval == 0 then 300 * SECOND else spec.interval
  }

  /** A lasting failure stalls until the next interval; a passing one reconciles, and is retried within a minute. */
  ghost predicate FailsFor(st: Status, generation: int, spec: Spec, io: IO, reason: Reason, text: string, lasting: bool) {
    var now, retry := After(st, generation, spec, io), Retry(spec, io);
    && KeepsResult(st, now) && now.observedGeneration == generation
    && Has(now, ReadyCond, CondFalse, reason, Text(text), generation)
    && Has(now, ReconcilingCond, if lasting then CondFalse else CondTrue, reason, Text(text), generation)
    && Has(now, StalledCond, if lasting then CondTrue else CondFalse, reason, Text(text), generation)
    && Has(now, DriftedCond, CondUnknown, reason, Text(text), generation)
    && retry == Some(if lasting || Between(spec) < 60 * SECOND then Between(spec) else 60 * SECOND)
  }

  /** Reconciling alone is written. */
  ghost predicate OnlyReconciling(st: Status, generation: int, now: Status, status: CondStatus, reason: Reason, message: Message) {
    && KeepsResult(st, now) && now.observedGeneration == generation
    && now.conditions == st.conditions[ReconcilingCond := Condition(status, reason, message, generation)]
  }

  /** A suspended check does not run, and is not woken. */
  lemma Suspends(st: Status, generation: int, spec: Spec, io: IO)
    requires spec.suspend
    ensures OnlyReconciling(st, generation, After(st, generation, spec, io), CondFalse, Suspended, Paused)
    ensures Retry(spec, io) == None
  {
  }

  /** The target comes first: one being applied is waited for, and one that is not found fails until the spec changes. */
  lemma TargetDecides(st: Status, generation: int, spec: Spec, io: IO)
    requires !spec.suspend
    ensures io.target == Applying ==>
              && OnlyReconciling(st, generation, After(st, generation, spec, io), CondTrue, TargetNotReady, TargetBusy)
              && Retry(spec, io) == Some(30 * SECOND)
    ensures io.target.NotFound? ==> FailsFor(st, generation, spec, io, TargetNotFound, io.target.text, true)
    ensures io.target.Unreadable? ==> FailsFor(st, generation, spec, io, CheckFailed, io.target.text, false)
  {
  }

  /** The target is there and its data can be checked. */
  predicate HasData(io: IO) {
    io.target == Loaded && io.data.DataFor? && (io.data.hasRemoteDir || io.data.hasConfigRepo || io.data.hasDevURL)
  }

  /** Then its data: a local directory needs a dev database. */
  lemma DataDecides(st: Status, generation: int, spec: Spec, io: IO)
    requires !spec.suspend && io.target == Loaded
    ensures io.data.TransientData? ==> FailsFor(st, generation, spec, io, CheckFailed, io.data.text, false)
    ensures io.data.LastingData? ==> FailsFor(st, generation, spec, io, CheckFailed, io.data.text, true)
    ensures io.data.DataFor? && !HasData(io) ==> FailsFor(st, generation, spec, io, CheckFailed, io.data.noDevText, true)
  {
  }

  /** Then the steps up to the connection, of which only a missing login fails for good. */
  lemma StepsDecide(st: Status, generation: int, spec: Spec, io: IO)
    requires !spec.suspend && HasData(io)
    ensures io.workingDir.Some? ==> FailsFor(st, generation, spec, io, CheckFailed, io.workingDir.value, false)
    ensures io.workingDir.None? ==>
              && (io.client.Some? ==> FailsFor(st, generation, spec, io, CheckFailed, io.client.value, false))
              && (io.client.None? && io.login.Some? ==> FailsFor(st, generation, spec, io, CheckFailed, io.login.value, false))
              && (io.client.None? && io.login.None? ==>
                && (io.whoAmI.WhoAmIError? ==> FailsFor(st, generation, spec, io, CheckFailed, io.whoAmI.text, false))
                && (io.whoAmI.LoginRequired? ==> FailsFor(st, generation, spec, io, CheckFailed, io.whoAmI.text, true)))
  {
  }

  /** The check command runs. */
  predicate IsConnected(io: IO) {
    HasData(io) && io.workingDir.None? && io.client.None? && io.login.None? && io.whoAmI == LoggedIn
  }

  /**
   A command that fails: a timeout is retried whatever else the error says; a held
   lock leaves the status alone and is retried after half a minute; of the rest,
   three kinds last.
   */
  lemma ErrorDecides(st: Status, generation: int, spec: Spec, io: IO)
    requires !spec.suspend && IsConnected(io) && io.answer.Errored?
    ensures var e := io.answer.error;
            && (e.timedOut ==> FailsFor(st, generation, spec, io, CheckFailed, "the drift check timed out: " + e.text, false))
            && (!e.timedOut && e.locked ==> After(st, generation, spec, io) == st && Retry(spec, io) == Some(30 * SECOND))
            && (!e.timedOut && !e.locked ==>
              && (e.requiresLogin ==> FailsFor(st, generation, spec, io, CheckFailed, e.text, true))
              && (!e.requiresLogin && e.noHistory ==> FailsFor(st, generation, spec, io, NoMigrationHistory, e.text, true))
              && (!e.requiresLogin && !e.noHistory ==> FailsFor(st, generation, spec, io, CheckFailed, e.text, e.lasting)))
  {
  }

  /**
   One report is the result: without drift the check is ready, and with it Drifted
   is true and, for the Fail action, the check stalls. Any other number fails.
   */
  lemma ReportDecides(st: Status, generation: int, spec: Spec, io: IO)
    requires !spec.suspend && IsConnected(io) && io.answer.Reports?
    ensures |io.answer.reports| != 1 ==> FailsFor(st, generation, spec, io, CheckFailed, io.answer.countText, true)
    ensures |io.answer.reports| == 1 ==>
              var now, rep := After(st, generation, spec, io), io.answer.reports[0];
              && now.observedGeneration == generation && now.lastCheckTime == Some(io.now)
              && now.version == rep.version && now.mode == rep.mode
              && now.fingerprint == (if rep.drifted then rep.fingerprint else "")
              && now.summary == (if rep.drifted then rep.summary else None)
              && Retry(spec, io) == Some(Between(spec))
  {
  }

  lemma ReportShows(st: Status, generation: int, spec: Spec, io: IO)
    requires !spec.suspend && IsConnected(io) && io.answer.Reports? && |io.answer.reports| == 1
    ensures var now, rep := After(st, generation, spec, io), io.answer.reports[0];
            var stalls := rep.drifted && spec.onDrift == Fail;
            var reason := if stalls then DriftDetected else Checked;
            var message := if rep.drifted then DriftIn(rep.version, rep.summary) else NoDriftAt(rep.version);
            && Has(now, ReadyCond, if stalls then CondFalse else CondTrue, reason, message, generation)
            && Has(now, ReconcilingCond, CondFalse, reason, message, generation)
            && Has(now, StalledCond, if stalls then CondTrue else CondFalse, reason, message, generation)
            && Has(now, DriftedCond, if rep.drifted then CondTrue else CondFalse,
                   if rep.drifted then DriftDetected else NoDrift, message, generation)
  {
  }
}
