/**
 What one migration pass leaves for each answer of the cluster, the CLI and the
 database, step by step: the condition triple, the failure count, the hash and
 the requeue, from the answers alone.
 */
module MigrationOutcomes {
  import opened Wrappers
  import opened Migration

  /** The three conditions share a reason and the generation, and the named one alone is true. */
  ghost predicate Shows(st: Status, generation: int, which: CondType, reason: Reason) {
    && st.observedGeneration == generation
    && (forall t :: t in st.conditions && st.conditions[t] == Condition(t == which, reason, generation))
  }

  /** Stalled for the failure, with that many failures counted: retried after five seconds for each, within the limit. */
  ghost predicate FailsFor(r: (Status, End), generation: int, limit: int, failure: Failure, failed: int, hash: string) {
    && Shows(r.0, generation, StalledCond, Failing(failure))
    && r.0.failed == failed && r.0.observedHash == hash
    && r.1 == if limit != 0 && failed > limit then NoRequeue else RequeueAfter(5 * failed)
  }

  /** Reconciling for a reason that is no failure: nothing is counted, and the resource is polled every five seconds. */
  ghost predicate WaitsFor(r: (Status, End), st: Status, generation: int, reason: Reason) {
    && Shows(r.0, generation, ReconcilingCond, reason)
    && r.0.failed == st.failed && r.0.observedHash == st.observedHash && r.1 == RequeueAfter(5)
  }

  /** Ready for the data just read and not requeued, or stalled once because its directory could not be stored. */
  ghost predicate ReadyFor(r: (Status, End), generation: int, limit: int, io: IO) {
    io.data.Ok? &&
    if io.store then
      && Shows(r.0, generation, ReadyCond, Applied)
      && r.0.failed == 0 && r.0.observedHash == io.data.value.hash && r.1 == NoRequeue
    else FailsFor(r, generation, limit, StoringDirState, 1, io.data.value.hash)
  }

  lemma MarkedShows(st: Status, generation: int, which: CondType, reason: Reason)
    ensures Shows(Marked(st, generation, which, reason), generation, which, reason)
  {
    forall t: CondType
      ensures var now := Marked(st, generation, which, reason).conditions;
              t in now && now[t] == Condition(t == which, reason, generation)
    {
      assert t == ReadyCond || t == ReconcilingCond || t == StalledCond;
    }
  }

  lemma FailedFails(st: Status, generation: int, limit: int, failure: Failure)
    ensures FailsFor(Failed(st, generation, limit, failure), generation, limit, failure, st.failed + 1, st.observedHash)
  {
    MarkedShows(st, generation, StalledCond, Failing(failure));
  }

  lemma WaitingWaits(st: Status, generation: int, reason: Reason)
    requires reason == GettingDevDB || reason == ApprovalPending
    ensures WaitsFor((NotReady(st, generation, reason), RequeueAfter(RETRY_SECONDS)), st, generation, reason)
  {
    MarkedShows(st, generation, ReconcilingCond, reason);
  }

  lemma AppliedIsReady(generation: int, limit: int, io: IO)
    requires io.data.Ok?
    ensures ReadyFor(Stored(MadeReady(io.data.value.hash, generation), generation, limit, io.store), generation, limit, io)
  {
    var ready := MadeReady(io.data.value.hash, generation);
    MarkedShows(Status(generation, map[], 0, io.data.value.hash), generation, ReadyCond, Applied);
    FailedFails(ready, generation, limit, StoringDirState);
  }

  /** A new resource, and one whose data changed after it was ready, are marked reconciling and come back at once. */
  lemma Announces(st: Status, generation: int, limit: int, io: IO)
    requires st.conditions == map[] || (ReadyCond in st.conditions && st.conditions[ReadyCond].isTrue)
    requires st.conditions != map[] ==> io.data.Ok? && io.data.value.hash != st.observedHash
    ensures var r := Pass(st, generation, limit, io);
            && Shows(r.0, generation, ReconcilingCond, Reconciling)
            && r.0.failed == 0 && r.0.observedHash == st.observedHash && r.1 == RequeueNow
  {
    MarkedShows(st, generation, ReconcilingCond, Reconciling);
  }

  /** A pass that looks further than that. */
  predicate LooksOn(st: Status, io: IO) {
    && st.conditions != map[]
    && (io.data.Ok? && ReadyCond in st.conditions && st.conditions[ReadyCond].isTrue ==> io.data.value.hash == st.observedHash)
  }

  // ---- The answers behind each outcome ---------------------------------------------

  /** The working directory, the client and the login are there. */
  predicate LoggedIn(io: IO) {
    io.data.Ok? && io.workingDir && io.client && io.login
  }

  /** There is work to do: versions to apply, or a database ahead of the directory. */
  predicate HasWork(io: IO) {
    StatusRead(io) && (io.status.value.pending > 0 || io.status.value.available < io.status.value.applied)
  }

  predicate IsPrepared(io: IO) {
    HasWork(io) && io.devDB && io.rerender
  }

  /** The database is to go down, which is allowed, to a version the directory has. */
  predicate MayGoDown(io: IO) {
    IsPrepared(io) && io.status.value.pending == 0 && io.data.value.downAllowed && io.status.value.available > 0
  }

  /** And there is a directory to go down with, so that its run decides. */
  predicate RunsDown(io: IO) {
    MayGoDown(io) && (io.downDir == Remote || io.downDir == SavedState(true))
  }

  /** The answers that make a pass fail for the reason, before it could store anything. */
  predicate Causes(io: IO, failure: Failure) {
    match failure
    case ReadingMigrationData => io.data == Err(Unreadable) || (io.data.Ok? && !io.workingDir)
    case CreatingAtlasClient => io.data.Ok? && io.workingDir && !io.client
    case Login => io.data.Ok? && io.workingDir && io.client && !io.login
    case WhoAmI => LoggedIn(io) && (io.whoAmI == Unknown || (io.whoAmI == LoginRequired && io.data.value.hasConfig))
    case Migrating =>
      || (LoggedIn(io) && io.status.None? && (io.whoAmI == Connected || (io.whoAmI == LoginRequired && !io.data.value.hasConfig)))
      || (HasWork(io) && io.devDB && !io.rerender)
      || (IsPrepared(io) && io.status.value.pending > 0 && (io.apply == ApplyError || (io.apply.Reports? && io.apply.count != 1)))
      || (MayGoDown(io) && io.downDir == NoState)
      || (RunsDown(io) && io.down == None)
    case DriftDetected => IsPrepared(io) && io.status.value.pending > 0 && io.apply == DriftError
    case ProtectedFlow =>
      || io.data == Err(FlowRefused)
      || (IsPrepared(io) && io.status.value.pending == 0 && !io.data.value.downAllowed)
    case CopyingDirState => MayGoDown(io) && io.downDir == SavedState(false)
    case PlanRejected => RunsDown(io) && io.down == Some(Aborted)
    case StoringDirState => false
    case OtherFailure(_) => false
  }

  lemma CausesFail(st: Status, generation: int, limit: int, io: IO, failure: Failure)
    requires LooksOn(st, io) && Causes(io, failure)
    ensures Pass(st, generation, limit, io) == Failed(st, generation, limit, failure)
  {
  }

  lemma FailureHasCause(st: Status, generation: int, limit: int, io: IO, failure: Failure)
    requires failure != StoringDirState
    requires FailsFor(Pass(st, generation, limit, io), generation, limit, failure, st.failed + 1, st.observedHash)
    ensures LooksOn(st, io) && Causes(io, failure)
  {
    var shown := Pass(st, generation, limit, io).0;
    assert StalledCond in shown.conditions && shown.conditions[StalledCond] == Condition(true, Failing(failure), generation);
  }

  /** A pass fails for a reason, one more failure counted, exactly when its answers are those the reason stands for. */
  lemma FailsIff(st: Status, generation: int, limit: int, io: IO, failure: Failure)
    requires failure != StoringDirState
    ensures FailsFor(Pass(st, generation, limit, io), generation, limit, failure, st.failed + 1, st.observedHash) <==>
            LooksOn(st, io) && Causes(io, failure)
  {
    if LooksOn(st, io) && Causes(io, failure) {
      CausesFail(st, generation, limit, io, failure);
      FailedFails(st, generation, limit, failure);
    } else if FailsFor(Pass(st, generation, limit, io), generation, limit, failure, st.failed + 1, st.observedHash) {
      FailureHasCause(st, generation, limit, io, failure);
      assert false;
    }
  }

  /** A pass waits for a dev database exactly when there is work and none to be had. */
  lemma WaitsForDevDB(st: Status, generation: int, limit: int, io: IO)
    ensures WaitsFor(Pass(st, generation, limit, io), st, generation, GettingDevDB) <==>
            LooksOn(st, io) && HasWork(io) && !io.devDB
  {
    WaitingWaits(st, generation, GettingDevDB);
    var shown := Pass(st, generation, limit, io).0;
    if WaitsFor(Pass(st, generation, limit, io), st, generation, GettingDevDB) {
      assert ReadyCond in shown.conditions && shown.conditions[ReadyCond].reason == GettingDevDB;
    }
  }

  /** A pass waits for an approval exactly when its run down does. */
  lemma WaitsForApproval(st: Status, generation: int, limit: int, io: IO)
    ensures WaitsFor(Pass(st, generation, limit, io), st, generation, ApprovalPending) <==>
            LooksOn(st, io) && RunsDown(io) && io.down == Some(PendingUser)
  {
    WaitingWaits(st, generation, ApprovalPending);
    var shown := Pass(st, generation, limit, io).0;
    if WaitsFor(Pass(st, generation, limit, io), st, generation, ApprovalPending) {
      assert ReadyCond in shown.conditions && shown.conditions[ReadyCond].reason == ApprovalPending;
    }
  }

  /**
   Nothing to do, one apply reported and a run down that is done make the resource
   ready, and no dev database is asked for without work.
   */
  lemma ReadyWhen(st: Status, generation: int, limit: int, io: IO)
    requires LooksOn(st, io) && StatusRead(io)
    requires || !HasWork(io)
             || (IsPrepared(io) && io.status.value.pending > 0 && io.apply == Reports(1))
             || (RunsDown(io) && io.down == Some(Done))
    ensures ReadyFor(Pass(st, generation, limit, io), generation, limit, io)
  {
    AppliedIsReady(generation, limit, io);
  }

  /** A run down whose status the code does not name leaves the status as it was, unless the directory cannot be stored. */
  lemma PassesOver(st: Status, generation: int, limit: int, io: IO)
    requires LooksOn(st, io) && RunsDown(io) && io.down == Some(OtherRun)
    ensures var r := Pass(st, generation, limit, io);
            if io.store then r == (st, NoRequeue)
            else FailsFor(r, generation, limit, StoringDirState, st.failed + 1, st.observedHash)
  {
    FailedFails(st, generation, limit, StoringDirState);
  }
}
