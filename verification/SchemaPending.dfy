/**
 The one tracker all AtlasSchema passes share. Passes over different resources
 interleave; a pass over one resource never overlaps another over the same one.
 */
module SchemaPending {
  import opened Wrappers
  import opened Cron
  import opened PendingTracker

  /** The reason of the Ready condition, when there is one. */
  datatype ReadyReason = NoCondition | ApprovalPending | OtherReason(text: string)

  /** The tracker, the Ready reason each running pass holds in memory, the stored one, and the one each last finished pass held. */
  datatype State = State(
    entries: map<string, Entry>,
    running: map<string, ReadyReason>,
    stored: map<string, ReadyReason>,
    ended: map<string, ReadyReason>)

  datatype Step =
    | Create(name: string)
    | Delete(name: string)
    | Begin(name: string)
    | FindGone(name: string)
    | Poll(name: string, key: string, now: Time)
    | SetReason(name: string, reason: ReadyReason)
    | End(name: string, wrote: bool)
    | Restart

  ghost predicate Enabled(s: State, step: Step) {
    match step
    case Create(n) => n !in s.stored
    case Delete(n) => n in s.stored
    case Begin(n) => n in s.stored && n !in s.running
    case FindGone(n) => n !in s.stored && n !in s.running
    case Poll(n, _, _) => n in s.running
    case SetReason(n, _) => n in s.running
    case End(n, wrote) => n in s.running && (wrote ==> n in s.stored)
    case Restart => true
  }

  /** A finished pass forgets the resource unless it waits for an approval; so does a pass that finds it gone. */
  ghost function Next(s: State, step: Step): State
    requires Enabled(s, step)
  {
    match step
    case Create(n) => s.(stored := s.stored[n := NoCondition])
    case Delete(n) => s.(stored := s.stored - {n})
    case Begin(n) => s.(running := s.running[n := s.stored[n]])
    case FindGone(n) => s.(entries := s.entries - {n})
    case Poll(n, key, now) => s.(entries := s.entries[n := Tracked(s.entries, n, key, now)])
    case SetReason(n, r) => s.(running := s.running[n := r])
    case End(n, wrote) =>
      s.(entries := if s.running[n] == ApprovalPending then s.entries else s.entries - {n},
         stored := if wrote then s.stored[n := s.running[n]] else s.stored,
         running := s.running - {n},
         ended := s.ended[n := s.running[n]])
    case Restart => s.(entries := map[], running := map[])
  }

  ghost predicate Run(states: seq<State>, steps: seq<Step>) {
    && |states| == |steps| + 1
    && states[0] == State(map[], map[], map[], map[])
    && forall i :: 0 <= i < |steps| ==> Enabled(states[i], steps[i]) && states[i + 1] == Next(states[i], steps[i])
  }

  /** Outside a pass over it, a tracked resource is one whose last pass ended waiting for an approval. */
  ghost predicate OnlyPendingTracked(s: State) {
    forall n :: n in s.entries && n !in s.running ==> n in s.ended && s.ended[n] == ApprovalPending
  }

  lemma {:induction false} OnlyPendingTrackedInRuns(states: seq<State>, steps: seq<Step>)
    requires Run(states, steps)
    ensures OnlyPendingTracked(states[|steps|])
    decreases |steps|
  {
    if steps != [] {
      var n := |steps| - 1;
      OnlyPendingTrackedInRuns(states[..n + 1], steps[..n]);
    }
  }

  /** The stored reason is the one the last stored write wrote; a lost write leaves it alone. */
  lemma {:induction false} StoredWasWritten(states: seq<State>, steps: seq<Step>, n: string) returns (last: nat)
    requires Run(states, steps) && n in states[|steps|].stored
    ensures var reason := states[|steps|].stored[n];
            && last < |steps|
            && ((steps[last] == Create(n) && reason == NoCondition)
                || (steps[last] == End(n, true) && n in states[last].running && states[last].running[n] == reason))
    ensures forall j :: last < j < |steps| ==> steps[j] !in {Create(n), Delete(n), End(n, true)}
    decreases |steps|
  {
    var m := |steps| - 1;
    assert states[m + 1] == Next(states[m], steps[m]);
    if steps[m] in {Create(n), End(n, true)} {
      last := m;
    } else {
      last := StoredWasWritten(states[..m + 1], steps[..m], n);
    }
  }

  /** Resource n is in no pass, was not deleted, and its last pass stored its status. */
  ghost predicate Settled(states: seq<State>, steps: seq<Step>, n: string, ended: nat) {
    && ended < |steps| && steps[ended] == End(n, true)
    && forall i :: ended < i < |steps| ==> steps[i] != Delete(n) && !(steps[i].End? && steps[i].name == n)
  }

  /** After a pass that stored its status, the tracker holds the resource only while its Ready reason is ApprovalPending. */
  lemma TrackedMeansPending(states: seq<State>, steps: seq<Step>, n: string, ended: nat)
    requires Run(states, steps) && Settled(states, steps, n, ended)
    requires n in states[|steps|].entries && n !in states[|steps|].running
    ensures n in states[|steps|].stored && states[|steps|].stored[n] == ApprovalPending
  {
    OnlyPendingTrackedInRuns(states, steps);
    StoredAsEnded(states, steps, n, ended, |steps|);
  }

  lemma {:induction false} StoredAsEnded(states: seq<State>, steps: seq<Step>, n: string, ended: nat, i: nat)
    requires Run(states, steps) && Settled(states, steps, n, ended) && ended < i <= |steps|
    ensures var s := states[i]; n in s.stored && n in s.ended && s.stored[n] == s.ended[n]
    decreases i
  {
    if i == ended + 1 {
      assert states[i] == Next(states[ended], End(n, true));
    } else {
      StoredAsEnded(states, steps, n, ended, i - 1);
      assert states[i] == Next(states[i - 1], steps[i - 1]);
    }
  }

  /** The step drops the resource's entry. */
  ghost predicate Forgets(s: State, step: Step, n: string) {
    || step == FindGone(n)
    || step == Restart
    || (step.End? && step.name == n && n in s.running && s.running[n] != ApprovalPending)
  }

  /**
   An entry dates from the poll the resource started waiting with: it was not
   tracked before, or for something else, and since then it was never forgotten
   nor polled for anything else.
   */
  lemma {:induction false} TrackedSinceFirstPoll(states: seq<State>, steps: seq<Step>, n: string) returns (first: nat)
    requires Run(states, steps) && n in states[|steps|].entries
    ensures var e := states[|steps|].entries[n];
            && first < |steps| && steps[first] == Poll(n, e.key, e.since)
            && (n in states[first].entries ==> states[first].entries[n].key != e.key)
            && forall j :: first < j < |steps| ==>
                 !Forgets(states[j], steps[j], n) && (steps[j].Poll? && steps[j].name == n ==> steps[j].key == e.key)
    decreases |steps|
  {
    var m := |steps| - 1;
    var s, step := states[m], steps[m];
    if step.Poll? && step.name == n && !(n in s.entries && s.entries[n].key == step.key) {
      first := m;
    } else {
      assert n in s.entries && !Forgets(s, step, n);
      first := TrackedSinceFirstPoll(states[..m + 1], steps[..m], n);
    }
  }

  /**
   The other way round, a poll that starts an entry is what the resource is tracked
   since, until it is forgotten or polled for something else.
   */
  lemma {:induction false} FirstPollIsKept(states: seq<State>, steps: seq<Step>, n: string, first: nat)
    requires Run(states, steps) && first < |steps| && steps[first].Poll? && steps[first].name == n
    requires n in states[first].entries ==> states[first].entries[n].key != steps[first].key
    requires forall j :: first < j < |steps| ==>
               !Forgets(states[j], steps[j], n) && (steps[j].Poll? && steps[j].name == n ==> steps[j].key == steps[first].key)
    ensures n in states[|steps|].entries && states[|steps|].entries[n] == Entry(steps[first].key, steps[first].now)
    decreases |steps|
  {
    var m := |steps| - 1;
    assert states[m + 1] == Next(states[m], steps[m]);
    if first < m {
      FirstPollIsKept(states[..m + 1], steps[..m], n, first);
      assert !Forgets(states[m], steps[m], n);
    }
  }
}
