/**
 The events of a drift check over every run: specs are edited at will, and a
 status write may be lost, which leaves the stored status as it was.
 */
module DriftEvents {
  import opened Wrappers
  import opened Cron
  import opened DriftCheck

  datatype Input = Input(generation: int, spec: Spec, io: IO, wrote: bool)

  function Reached(st: Status, p: Input): Status {
    After(st, p.generation, p.spec, p.io)
  }

  function Emitted(st: Status, p: Input): seq<Event> {
    DriftEvents(st, Reached(st, p)) + FailureEvents(st, Reached(st, p))
  }

  ghost predicate Run(states: seq<Status>, ps: seq<Input>) {
    && |states| == |ps| + 1
    && states[0].conditions == map[] && states[0].fingerprint == ""
    && forall i :: 0 <= i < |ps| ==> states[i + 1] == if ps[i].wrote then Reached(states[i], ps[i]) else states[i]
  }

  predicate IsSkip(p: Input) {
    p.spec.suspend || Ended(p.io) in {Busy, Locked}
  }

  /** Suspended, busy and locked runs raise nothing, and touch at most Reconciling and the observed generation. */
  lemma SkippedRunsAreSilent(st: Status, p: Input)
    requires IsSkip(p)
    ensures Emitted(st, p) == []
    ensures var now := Reached(st, p);
            && now.conditions - {ReconcilingCond} == st.conditions - {ReconcilingCond}
            && now == st.(observedGeneration := now.observedGeneration, conditions := now.conditions)
  {
  }

  // ---- The conditions of every reachable status --------------------------------------

  predicate IsFailure(r: Reason) {
    r in {CheckFailed, TargetNotFound, NoMigrationHistory}
  }

  /** What Drifted says decides what Ready may say, and only drift has a fingerprint while it is observed. */
  ghost predicate Agrees(st: Status) {
    && (ReadyCond in st.conditions <==> DriftedCond in st.conditions)
    && (DriftedCond in st.conditions ==>
          var ready, drifted := st.conditions[ReadyCond], st.conditions[DriftedCond];
          && (drifted.status == CondTrue ==>
                (ready.status == CondTrue && ready.reason == Checked) || (ready.status == CondFalse && ready.reason == DriftDetected))
          && (drifted.status == CondFalse ==> ready.status == CondTrue && ready.reason == Checked && st.fingerprint == "")
          && (drifted.status == CondUnknown ==>
                ready.status == CondFalse && IsFailure(ready.reason)
                && ready.reason == drifted.reason && ready.message == drifted.message))
  }

  lemma ReachedAgrees(st: Status, p: Input)
    requires Agrees(st)
    ensures Agrees(Reached(st, p))
  {
    if IsSkip(p) {
      SkippedRunsAreSilent(st, p);
    } else {
      match Ended(p.io)
      case Completed(rep) =>
      case Lasting(reason, text) => assert IsFailure(reason);
      case Passing(text) =>
    }
  }

  lemma {:induction false} RunsAgree(states: seq<Status>, ps: seq<Input>, i: nat)
    requires Run(states, ps) && i < |states|
    ensures Agrees(states[i])
  {
    if i > 0 {
      RunsAgree(states, ps, i - 1);
      ReachedAgrees(states[i - 1], ps[i - 1]);
    }
  }

  // ---- The drift events --------------------------------------------------------------

  predicate Drifted(st: Status) {
    Is(st, DriftedCond, CondTrue)
  }

  /** A stored drift goes back to a detection that was stored, and lasted since. */
  lemma {:induction false} DriftWasDetected(states: seq<Status>, ps: seq<Input>, i: nat) returns (k: nat)
    requires Run(states, ps) && i < |states| && Drifted(states[i])
    ensures k < i && DriftDetectedEvent in Emitted(states[k], ps[k]) && ps[k].wrote
    ensures forall j :: k < j <= i ==> Drifted(states[j])
  {
    if Drifted(states[i - 1]) {
      k := DriftWasDetected(states, ps, i - 1);
    } else {
      k := i - 1;
      assert DriftEvents(states[k], Reached(states[k], ps[k])) == [DriftDetectedEvent];
    }
  }

  lemma EventMeanings(st: Status, p: Input)
    ensures var now := Reached(st, p);
            && (DriftDetectedEvent in Emitted(st, p) <==> !Drifted(st) && Drifted(now))
            && (DriftChangedEvent in Emitted(st, p) <==> Drifted(st) && Drifted(now) && st.fingerprint != now.fingerprint)
            && (DriftResolvedEvent in Emitted(st, p) <==> Drifted(st) && Is(now, DriftedCond, CondFalse))
  {
  }

  /** Between two resolutions, the first of them stored, drift was detected again. */
  lemma ResolvedTwiceMeansDetected(states: seq<Status>, ps: seq<Input>, i: nat, j: nat) returns (k: nat)
    requires Run(states, ps) && i < j < |ps| && ps[i].wrote
    requires DriftResolvedEvent in Emitted(states[i], ps[i]) && DriftResolvedEvent in Emitted(states[j], ps[j])
    ensures i < k < j && DriftDetectedEvent in Emitted(states[k], ps[k])
  {
    EventMeanings(states[i], ps[i]);
    EventMeanings(states[j], ps[j]);
    k := DriftWasDetected(states, ps, j);
    assert !Drifted(states[i + 1]);
  }

  /** Drift changes only while it lasts, since a detection with no resolution after it, and with a new fingerprint. */
  lemma ChangedWhileDrifted(states: seq<Status>, ps: seq<Input>, j: nat) returns (k: nat)
    requires Run(states, ps) && j < |ps| && DriftChangedEvent in Emitted(states[j], ps[j])
    ensures Reached(states[j], ps[j]).fingerprint != states[j].fingerprint
    ensures k < j && DriftDetectedEvent in Emitted(states[k], ps[k])
    ensures forall m :: k < m < j && ps[m].wrote ==> DriftResolvedEvent !in Emitted(states[m], ps[m])
  {
    EventMeanings(states[j], ps[j]);
    k := DriftWasDetected(states, ps, j);
    forall m | k < m < j && ps[m].wrote ensures DriftResolvedEvent !in Emitted(states[m], ps[m]) {
      EventMeanings(states[m], ps[m]);
      assert Drifted(states[m + 1]);
    }
  }

  /** A drift never goes away in silence: it is resolved, or the check fails. */
  lemma DriftNeverVanishes(states: seq<Status>, ps: seq<Input>, i: nat)
    requires Run(states, ps) && i < |ps| && Drifted(states[i]) && !Drifted(Reached(states[i], ps[i]))
    ensures Emitted(states[i], ps[i]) ==
            if Is(Reached(states[i], ps[i]), DriftedCond, CondFalse) then [DriftResolvedEvent] else [CheckFailedEvent]
  {
    RunsAgree(states, ps, i);
    ReachedAgrees(states[i], ps[i]);
  }

  // ---- Failures are reported once ------------------------------------------------------

  /** The run fails with the given reason and message. */
  predicate FailsWith(p: Input, reason: Reason, message: Message) {
    && !p.spec.suspend
    && match Ended(p.io)
       case Lasting(r, text) => r == reason && Text(text) == message
       case Passing(text) => CheckFailed == reason && Text(text) == message
       case _ => false
  }

  predicate Shows(st: Status, reason: Reason, message: Message) {
    Is(st, ReadyCond, CondFalse) && st.conditions[ReadyCond].reason == reason && st.conditions[ReadyCond].message == message
  }

  lemma {:induction false} FailureStays(states: seq<Status>, ps: seq<Input>, i: nat, j: nat, reason: Reason, message: Message)
    requires Run(states, ps) && i < j <= |ps| && ps[i].wrote && FailsWith(ps[i], reason, message)
    requires forall k :: i < k < j ==> IsSkip(ps[k]) || FailsWith(ps[k], reason, message)
    ensures Shows(states[j], reason, message)
    decreases j
  {
    if j > i + 1 {
      FailureStays(states, ps, i, j - 1, reason, message);
      if IsSkip(ps[j - 1]) {
        SkippedRunsAreSilent(states[j - 1], ps[j - 1]);
      }
    }
  }

  /** After a stored failure, only skipped runs and the same failure in between, it is not reported again. */
  lemma SameFailureReportedOnce(states: seq<Status>, ps: seq<Input>, i: nat, j: nat, reason: Reason, message: Message)
    requires Run(states, ps) && i < j < |ps| && ps[i].wrote && FailsWith(ps[i], reason, message)
    requires forall k :: i < k <= j ==> IsSkip(ps[k]) || FailsWith(ps[k], reason, message)
    ensures CheckFailedEvent !in Emitted(states[j], ps[j])
  {
    FailureStays(states, ps, i, j, reason, message);
    if IsSkip(ps[j]) {
      SkippedRunsAreSilent(states[j], ps[j]);
    }
  }

  /** A failure the stored status does not show is reported, and it ends the observation of drift. */
  lemma NewFailureIsReported(st: Status, p: Input, reason: Reason, message: Message)
    requires FailsWith(p, reason, message)
    ensures CheckFailedEvent in Emitted(st, p) <==> !Shows(st, reason, message)
    ensures Is(Reached(st, p), DriftedCond, CondUnknown)
  {
  }
}
