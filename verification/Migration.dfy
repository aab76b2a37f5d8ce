/**
 One reconciliation of an AtlasMigration: its steps in order, the condition
 triple each way out leaves behind, and the retries of what fails. AtlasSchema
 has the same triple and the same setters.
 */
module Migration {
  import opened Wrappers

  datatype CondType = ReadyCond | ReconcilingCond | StalledCond

  /** Where a reconciliation fails; AtlasSchema has others. */
  datatype Failure =
    | ReadingMigrationData | CreatingAtlasClient | Login | WhoAmI | Migrating | StoringDirState
    | ProtectedFlow | CopyingDirState | PlanRejected | DriftDetected | OtherFailure(text: string)

  datatype Reason = Reconciling | GettingDevDB | ApprovalPending | Applied | Failing(failure: Failure)

  datatype Condition = Condition(isTrue: bool, reason: Reason, observedGeneration: int)

  datatype Status = Status(observedGeneration: int, conditions: map<CondType, Condition>, failed: int, observedHash: string)

  const RETRY_SECONDS := 5

  predicate IsFailedReason(r: Reason) {
    !r.Reconciling? && !r.GettingDevDB? && !r.ApprovalPending?
  }

  predicate IsReady(st: Status) {
    ReadyCond in st.conditions && st.conditions[ReadyCond].isTrue
  }

  predicate Exceeds(failed: int, limit: int) {
    limit != 0 && failed > limit
  }

  // ---- The setters as functions on status ---------------------------------------

  /** All three conditions written for one reason, with one of them true. */
  function Marked(st: Status, generation: int, which: CondType, reason: Reason): Status {
    st.(observedGeneration := generation,
        conditions := st.conditions[ReadyCond := Condition(which == ReadyCond, reason, generation)]
                                   [ReconcilingCond := Condition(which == ReconcilingCond, reason, generation)]
                                   [StalledCond := Condition(which == StalledCond, reason, generation)])
  }

  function Reconciled(st: Status, generation: int): Status {
    Marked(st, generation, ReconcilingCond, Reconciling).(failed := 0)
  }

  /** A success starts the status afresh. */
  function MadeReady(hash: string, generation: int): Status {
    Marked(Status(generation, map[], 0, hash), generation, ReadyCond, Applied)
  }

  function NotReady(st: Status, generation: int, reason: Reason): Status {
    if IsFailedReason(reason) then Marked(st, generation, StalledCond, reason).(failed := st.failed + 1)
    else Marked(st, generation, ReconcilingCond, reason)
  }

  class AtlasMigration {
    const generation: int
    const backoffLimit: int
    var observedGeneration: int
    var conditions: map<CondType, Condition>
    var failed: int
    var observedHash: string

    ghost function Value(): Status
      reads this
    {
      Status(observedGeneration, conditions, failed, observedHash)
    }

    constructor (generation: int, backoffLimit: int, st: Status)
      ensures this.generation == generation && this.backoffLimit == backoffLimit && Value() == st
    {
      this.generation, this.backoffLimit := generation, backoffLimit;
      observedGeneration, conditions, failed, observedHash := st.observedGeneration, st.conditions, st.failed, st.observedHash;
    }

    method SetCondition(t: CondType, isTrue: bool, reason: Reason)
      modifies this`conditions
      ensures conditions == old(conditions)[t := Condition(isTrue, reason, generation)]
    {
      conditions := conditions[t := Condition(isTrue, reason, generation)];
    }

    method SetReconciling()
      modifies this
      ensures Value() == Reconciled(old(Value()), generation)
    {
      observedGeneration := generation;
      SetCondition(ReadyCond, false, Reconciling);
      SetCondition(ReconcilingCond, true, Reconciling);
      SetCondition(StalledCond, false, Reconciling);
      failed := 0;
    }

    method SetReady(hash: string)
      modifies this
      ensures Value() == MadeReady(hash, generation)
    {
      observedGeneration, conditions, failed, observedHash := generation, map[], 0, hash;
      SetCondition(ReadyCond, true, Applied);
      SetCondition(ReconcilingCond, false, Applied);
      SetCondition(StalledCond, false, Applied);
      failed := 0;
    }

    method SetNotReady(reason: Reason)
      modifies this
      ensures Value() == NotReady(old(Value()), generation, reason)
    {
      observedGeneration := generation;
      SetCondition(ReadyCond, false, reason);
      if IsFailedReason(reason) {
        SetCondition(ReconcilingCond, false, reason);
        SetCondition(StalledCond, true, reason);
        failed := failed + 1;
        return;
      }
      SetCondition(ReconcilingCond, true, reason);
      SetCondition(StalledCond, false, reason);
    }

    method ResultErr(failure: Failure) returns (end: End)
      modifies this
      ensures (Value(), end) == Failed(old(Value()), generation, backoffLimit, failure)
    {
      SetNotReady(Failing(failure));
      if Exceeds(failed, backoffLimit) {
        return NoRequeue;
      }
      end := RequeueAfter(failed * RETRY_SECONDS);
    }

    method ResultPending(reason: Reason) returns (end: End)
      modifies this
      ensures Value() == NotReady(old(Value()), generation, reason) && end == RequeueAfter(RETRY_SECONDS)
    {
      SetNotReady(reason);
      end := RequeueAfter(RETRY_SECONDS);
    }

    /** The dev database is only asked for once there is work to do; the project file is then written again. */
    method PrepareDevDB(io: IO) returns (err: Option<Change>)
      ensures err == Unprepared(io)
    {
      if !io.devDB {
        return Some(Waits(GettingDevDB));
      }
      if !io.rerender {
        return Some(Fails(Migrating));
      }
      err := None;
    }

    method MigrateDown(io: IO, data: Data, c: Counts) returns (change: Change)
      modifies this
      ensures change == Down(io, data, c)
      ensures Value() == if change.Applies? then MadeReady(data.hash, generation) else old(Value())
    {
      if !data.downAllowed {
        return Fails(ProtectedFlow);
      }
      if c.available == 0 {
        return Panics;
      }
      match io.downDir {
        case Remote =>
        case SavedState(copied) =>
          if !copied {
            return Fails(CopyingDirState);
          }
        case NoState => return Fails(Migrating);
      }
      if io.down.None? {
        return Fails(Migrating);
      }
      match io.down.value {
        case PendingUser => return Waits(ApprovalPending);
        case Aborted => return Fails(PlanRejected);
        case Done =>
          SetReady(data.hash);
          return Applies;
        case OtherRun =>
      }
      change := Untouched;
    }

    method MigrateApply(io: IO, data: Data) returns (change: Change)
      modifies this
      ensures change == Up(io)
      ensures Value() == if change.Applies? then MadeReady(data.hash, generation) else old(Value())
    {
      match io.apply {
        case ApplyError => return Fails(Migrating);
        case DriftError => return Fails(DriftDetected);
        case Reports(count) =>
          if count != 1 {
            return Fails(Migrating);
          }
      }
      SetReady(data.hash);
      change := Applies;
    }

    method ApplyChanges(io: IO, data: Data, c: Counts) returns (change: Change)
      modifies this
      ensures change == Changed(io, data, c)
      ensures Value() == if change.Applies? then MadeReady(data.hash, generation) else old(Value())
    {
      if c.pending == 0 && c.applied > 0 && c.available < c.applied {
        var err := PrepareDevDB(io);
        if err.Some? {
          return err.value;
        }
        change := MigrateDown(io, data, c);
      } else if c.pending == 0 {
        SetReady(data.hash);
        change := Applies;
      } else {
        var err := PrepareDevDB(io);
        if err.Some? {
          return err.value;
        }
        change := MigrateApply(io, data);
      }
    }

    /** The steps of a reconciliation, each of which may be the last. */
    method Reconcile(io: IO) returns (end: End)
      modifies this
      ensures (Value(), end) == Pass(old(Value()), generation, backoffLimit, io)
    {
      if |conditions| == 0 {
        SetReconciling();
        return RequeueNow;
      }
      if io.data.Err? {
        end := ResultErr(if io.data.error == FlowRefused then ProtectedFlow else ReadingMigrationData);
        return;
      }
      var data := io.data.value;
      if ReadyCond in conditions && conditions[ReadyCond].isTrue && data.hash != observedHash {
        SetReconciling();
        return RequeueNow;
      }
      if !io.workingDir {
        end := ResultErr(ReadingMigrationData);
        return;
      }
      if !io.client {
        end := ResultErr(CreatingAtlasClient);
        return;
      }
      if !io.login {
        end := ResultErr(Login);
        return;
      }
      if io.whoAmI == Unknown || (io.whoAmI == LoginRequired && data.hasConfig) {
        end := ResultErr(WhoAmI);
        return;
      }
      if io.status.None? {
        end := ResultErr(Migrating);
        return;
      }
      var change := ApplyChanges(io, data, io.status.value);
      match change {
        case Waits(reason) => end := ResultPending(reason); return;
        case Fails(failure) => end := ResultErr(failure); return;
        case Panics => return Panicked;
        case Untouched =>
        case Applies =>
      }
      if !io.store {
        end := ResultErr(StoringDirState);
        return;
      }
      end := NoRequeue;
    }
  }

  // ---- One pass -------------------------------------------------------------------

  datatype WhoAmIResult = Connected | LoginRequired | Unknown

  /** Data that cannot be read, or that asks to migrate down in a way its kind of directory does not allow. */
  datatype DataError = Unreadable | FlowRefused

  datatype Data = Data(hash: string, hasConfig: bool, downAllowed: bool)

  /** How many migration files the status reports. */
  datatype Counts = Counts(pending: nat, applied: nat, available: nat)

  datatype DownDir = Remote | SavedState(copied: bool) | NoState

  datatype RunStatus = PendingUser | Aborted | Done | OtherRun

  datatype ApplyResult = ApplyError | DriftError | Reports(count: nat)

  /** What the cluster, the CLI and the database answer during one pass; false, None and Err are errors. */
  datatype IO = IO(
    data: Result<Data, DataError>,
    workingDir: bool,
    client: bool,
    login: bool,
    whoAmI: WhoAmIResult,
    status: Option<Counts>,
    devDB: bool,
    rerender: bool,
    downDir: DownDir,
    down: Option<RunStatus>,
    apply: ApplyResult,
    store: bool)

  datatype End = RequeueNow | RequeueAfter(seconds: int) | NoRequeue | Panicked

  datatype Change = Applies | Untouched | Waits(reason: Reason) | Fails(failure: Failure) | Panics

  /** Migrating down. An unknown run status is passed over; an empty directory has no version to go down to. */
  function Down(io: IO, data: Data, c: Counts): Change {
    if !data.downAllowed then Fails(ProtectedFlow)
    else if c.available == 0 then Panics
    else if io.downDir == NoState then Fails(Migrating)
    else if io.downDir == SavedState(false) then Fails(CopyingDirState)
    else match io.down {
      case None => Fails(Migrating)
      case Some(PendingUser) => Waits(ApprovalPending)
      case Some(Aborted) => Fails(PlanRejected)
      case Some(Done) => Applies
      case Some(OtherRun) => Untouched
    }
  }

  function Up(io: IO): Change {
    match io.apply
    case ApplyError => Fails(Migrating)
    case DriftError => Fails(DriftDetected)
    case Reports(count) => if count == 1 then Applies else Fails(Migrating)
  }

  function Unprepared(io: IO): Option<Change> {
    if !io.devDB then Some(Waits(GettingDevDB)) else if !io.rerender then Some(Fails(Migrating)) else None
  }

  function Changed(io: IO, data: Data, c: Counts): Change {
    var goesDown := c.pending == 0 && c.applied > 0 && c.available < c.applied;
    if c.pending == 0 && !goesDown then Applies
    else if Unprepared(io).Some? then Unprepared(io).value
    else if goesDown then Down(io, data, c)
    else Up(io)
  }

  function Failed(st: Status, generation: int, limit: int, failure: Failure): (Status, End) {
    var now := NotReady(st, generation, Failing(failure));
    (now, if Exceeds(now.failed, limit) then NoRequeue else RequeueAfter(now.failed * RETRY_SECONDS))
  }

  /** What a pass does after its first look at the status. */
  function Work(io: IO, data: Data): Change {
    if !io.workingDir then Fails(ReadingMigrationData)
    else if !io.client then Fails(CreatingAtlasClient)
    else if !io.login then Fails(Login)
    else if io.whoAmI == Unknown || (io.whoAmI == LoginRequired && data.hasConfig) then Fails(WhoAmI)
    else if io.status.None? then Fails(Migrating)
    else Changed(io, data, io.status.value)
  }

  function Stored(st: Status, generation: int, limit: int, store: bool): (Status, End) {
    if store then (st, NoRequeue) else Failed(st, generation, limit, StoringDirState)
  }

  function Unread(e: DataError): Failure {
    if e == FlowRefused then ProtectedFlow else ReadingMigrationData
  }

  function Pass(st: Status, generation: int, limit: int, io: IO): (Status, End) {
    if st.conditions == map[] then (Reconciled(st, generation), RequeueNow)
    else if io.data.Err? then Failed(st, generation, limit, Unread(io.data.error))
    else if IsReady(st) && io.data.value.hash != st.observedHash then (Reconciled(st, generation), RequeueNow)
    else match Work(io, io.data.value) {
      case Fails(failure) => Failed(st, generation, limit, failure)
      case Waits(reason) => (NotReady(st, generation, reason), RequeueAfter(RETRY_SECONDS))
      case Panics => (st, Panicked)
      case Untouched => Stored(st, generation, limit, io.store)
      case Applies => Stored(MadeReady(io.data.value.hash, generation), generation, limit, io.store)
    }
  }

  // ---- The triple over every run --------------------------------------------------

  ghost predicate OnlyTrue(st: Status, which: CondType) {
    forall u :: u in st.conditions ==> (st.conditions[u].isTrue <==> u == which)
  }

  /** Exactly one of the three is true, all three share a reason and a generation, and Stalled is for failures alone. */
  ghost predicate Coherent(st: Status) {
    && st.conditions.Keys == {ReadyCond, ReconcilingCond, StalledCond}
    && (exists which :: OnlyTrue(st, which))
    && (forall t :: t in st.conditions ==>
         && st.conditions[t].reason == st.conditions[ReadyCond].reason
         && st.conditions[t].observedGeneration == st.observedGeneration)
    && (IsReady(st) <==> st.conditions[ReadyCond].reason == Applied)
    && (st.conditions[StalledCond].isTrue <==> st.conditions[ReadyCond].reason.Failing?)
    && (IsReady(st) ==> st.failed == 0)
    && (st.conditions[StalledCond].isTrue ==> st.failed > 0)
    && st.failed >= 0
  }

  /** A status before its first pass, or after one. */
  ghost predicate Reachable(st: Status) {
    (st.conditions == map[] && st.failed == 0) || Coherent(st)
  }

  lemma MarkedIsCoherent(st: Status, generation: int, which: CondType, reason: Reason)
    requires which == ReadyCond <==> reason == Applied
    requires which == StalledCond <==> reason.Failing?
    requires which == ReadyCond ==> st.failed == 0
    requires which == StalledCond ==> st.failed > 0
    requires st.failed >= 0
    ensures Coherent(Marked(st, generation, which, reason))
  {
    assert OnlyTrue(Marked(st, generation, which, reason), which);
  }

  lemma FailedIsCoherent(st: Status, generation: int, limit: int, failure: Failure)
    requires st.failed >= 0
    ensures Coherent(Failed(st, generation, limit, failure).0)
  {
    var counted := st.(failed := st.failed + 1);
    MarkedIsCoherent(counted, generation, StalledCond, Failing(failure));
    assert NotReady(st, generation, Failing(failure)) == Marked(counted, generation, StalledCond, Failing(failure));
  }

  lemma WaitsForGood(io: IO, data: Data)
    ensures Work(io, data).Waits? ==> Work(io, data).reason in {GettingDevDB, ApprovalPending}
  {
  }

  /** Whatever a pass meets, it leaves a coherent triple. */
  lemma PassKeepsCoherent(st: Status, generation: int, limit: int, io: IO)
    requires Reachable(st)
    ensures Coherent(Pass(st, generation, limit, io).0)
  {
    if st.conditions == map[] || (io.data.Ok? && IsReady(st) && io.data.value.hash != st.observedHash) {
      MarkedIsCoherent(st.(failed := 0), generation, ReconcilingCond, Reconciling);
    } else if io.data.Err? {
      FailedIsCoherent(st, generation, limit, Unread(io.data.error));
    } else {
      WorkKeepsCoherent(st, generation, limit, io);
    }
  }

  lemma WorkKeepsCoherent(st: Status, generation: int, limit: int, io: IO)
    requires Coherent(st) && io.data.Ok? && !(IsReady(st) && io.data.value.hash != st.observedHash)
    ensures Coherent(Pass(st, generation, limit, io).0)
  {
    var hash := io.data.value.hash;
    match Work(io, io.data.value)
    case Fails(failure) => FailedIsCoherent(st, generation, limit, failure);
    case Waits(reason) =>
      WaitsForGood(io, io.data.value);
      MarkedIsCoherent(st, generation, ReconcilingCond, reason);
    case Panics =>
    case Untouched => FailedIsCoherent(st, generation, limit, StoringDirState);
    case Applies =>
      MarkedIsCoherent(Status(generation, map[], 0, hash), generation, ReadyCond, Applied);
      FailedIsCoherent(MadeReady(hash, generation), generation, limit, StoringDirState);
  }

  // ---- The triple over every sequence of setters ----------------------------------

  /** A call of one of the three setters; AtlasMigration and AtlasSchema have no other writer of the triple. */
  datatype Call = CallReconciling | CallReady(hash: string) | CallNotReady(reason: Reason)

  datatype CallAt = CallAt(call: Call, generation: int)

  function Called(st: Status, c: CallAt): Status {
    match c.call
    case CallReconciling => Reconciled(st, c.generation)
    case CallReady(hash) => MadeReady(hash, c.generation)
    case CallNotReady(reason) => NotReady(st, c.generation, reason)
  }

  function CalledAll(st: Status, cs: seq<CallAt>): Status {
    if cs == [] then st else Called(CalledAll(st, cs[..|cs| - 1]), cs[|cs| - 1])
  }

  function Which(c: Call): CondType {
    match c
    case CallReconciling => ReconcilingCond
    case CallReady(_) => ReadyCond
    case CallNotReady(reason) => if IsFailedReason(reason) then StalledCond else ReconcilingCond
  }

  function ReasonOf(c: Call): Reason {
    match c
    case CallReconciling => Reconciling
    case CallReady(_) => Applied
    case CallNotReady(reason) => reason
  }

  /** The failures since the last call that cleared them. */
  function FailuresSince(cs: seq<CallAt>): nat {
    if cs == [] then 0
    else
      var last := cs[|cs| - 1].call;
      if !last.CallNotReady? then 0
      else FailuresSince(cs[..|cs| - 1]) + if Which(last) == StalledCond then 1 else 0
  }

  lemma CallWritesTriple(st: Status, c: CallAt)
    requires st.conditions.Keys <= {ReadyCond, ReconcilingCond, StalledCond}
    ensures var now := Called(st, c);
            && now.conditions.Keys == {ReadyCond, ReconcilingCond, StalledCond}
            && OnlyTrue(now, Which(c.call)) && now.observedGeneration == c.generation
            && (forall t :: t in now.conditions ==>
                 now.conditions[t].reason == ReasonOf(c.call) && now.conditions[t].observedGeneration == c.generation)
  {
  }

  /**
   After any calls, with any reasons and generations and however often a pass makes
   them: the three conditions exist, the one the last call names is the only one
   true, all three carry its reason and generation, and the failures are counted.
   */
  lemma {:induction false} SettersKeepTriple(st: Status, cs: seq<CallAt>)
    requires cs != [] && st.conditions == map[] && st.failed == 0
    ensures var now, last := CalledAll(st, cs), cs[|cs| - 1];
            && now.conditions.Keys == {ReadyCond, ReconcilingCond, StalledCond}
            && OnlyTrue(now, Which(last.call))
            && (forall t :: t in now.conditions ==>
                 now.conditions[t].reason == ReasonOf(last.call) && now.conditions[t].observedGeneration == last.generation)
            && now.observedGeneration == last.generation
            && now.failed == FailuresSince(cs)
  {
    var n := |cs| - 1;
    if n > 0 {
      SettersKeepTriple(st, cs[..n]);
    } else {
      assert CalledAll(st, cs[..n]) == st;
    }
    CallWritesTriple(CalledAll(st, cs[..n]), cs[n]);
  }

  datatype PassInput = PassInput(generation: int, limit: int, io: IO)

  /** The status after a run of passes, with the spec edited at will between them. */
  function RunOf(st: Status, ps: seq<PassInput>): Status {
    if ps == [] then st
    else
      var p := ps[|ps| - 1];
      Pass(RunOf(st, ps[..|ps| - 1]), p.generation, p.limit, p.io).0
  }

  /** From the first pass on, every status a run reaches is coherent. */
  lemma {:induction false} TripleOverRuns(st: Status, ps: seq<PassInput>)
    requires Reachable(st)
    ensures Reachable(RunOf(st, ps)) && (ps != [] ==> Coherent(RunOf(st, ps)))
  {
    if ps != [] {
      var n := |ps| - 1;
      TripleOverRuns(st, ps[..n]);
      PassKeepsCoherent(RunOf(st, ps[..n]), ps[n].generation, ps[n].limit, ps[n].io);
    }
  }

  /** A status a pass leaves ready was applied from the data that pass read, and is not woken again. */
  lemma ReadyIsCurrent(st: Status, generation: int, limit: int, io: IO)
    requires Reachable(st) && IsReady(Pass(st, generation, limit, io).0) && Pass(st, generation, limit, io).1 != Panicked
    ensures io.data.Ok? && Pass(st, generation, limit, io).0.observedHash == io.data.value.hash
    ensures Pass(st, generation, limit, io).1 == NoRequeue
  {
    if io.data.Ok? {
      WaitsForGood(io, io.data.value);
    }
  }

  /** Every step up to the migration status succeeds. */
  predicate StatusRead(io: IO) {
    && io.data.Ok? && io.workingDir && io.client && io.login
    && (io.whoAmI == Connected || (io.whoAmI == LoginRequired && !io.data.value.hasConfig))
    && io.status.Some?
  }

  /** The database is ahead of the directory, and going down is allowed and prepared for. */
  predicate GoesDown(io: IO) {
    && StatusRead(io) && io.status.value.pending == 0 && io.status.value.available < io.status.value.applied
    && io.devDB && io.rerender && io.data.value.downAllowed
  }

  /** The database was migrated down with a run status the operator does not name. */
  predicate PassedOver(io: IO) {
    && GoesDown(io) && io.status.value.available > 0 && (io.downDir == Remote || io.downDir == SavedState(true))
    && io.down == Some(OtherRun) && io.store
  }

  /** The pass does more than announce a change of data. */
  predicate Works(st: Status, io: IO) {
    st.conditions != map[] && !(IsReady(st) && io.data.Ok? && io.data.value.hash != st.observedHash)
  }

  /** A pass that leaves the status reconciling leaves no wake-up exactly when it passed an unknown run status over. */
  lemma ReconcilingIsWoken(st: Status, generation: int, limit: int, io: IO)
    requires Reachable(st)
    ensures var r := Pass(st, generation, limit, io);
            r.0.conditions[ReconcilingCond].isTrue ==> (r.1 == NoRequeue <==> Works(st, io) && PassedOver(io))
  {
    PassKeepsCoherent(st, generation, limit, io);
    if io.data.Ok? {
      WaitsForGood(io, io.data.value);
    }
  }

  /** A pass panics exactly when it may go down and the directory has no version to go down to. */
  lemma PanicsIff(st: Status, generation: int, limit: int, io: IO)
    ensures Pass(st, generation, limit, io).1 == Panicked <==> Works(st, io) && GoesDown(io) && io.status.value.available == 0
  {
  }

  function NewStatus(): Status {
    Status(-1, map[], 0, "")
  }

  /** A pass with every step succeeding, allowed to go down. */
  function Answers(c: Counts, down: RunStatus, apply: ApplyResult, store: bool): IO {
    IO(Ok(Data("h", false, true)), true, true, true, Connected, Some(c), true, true, Remote, Some(down), apply, store)
  }

  lemma Started(generation: int, limit: int)
    ensures RunOf(NewStatus(), [PassInput(generation, limit, Answers(Counts(0, 0, 0), Done, ApplyError, true))])
            == Reconciled(NewStatus(), generation)
  {
    var ps := [PassInput(generation, limit, Answers(Counts(0, 0, 0), Done, ApplyError, true))];
    assert ps[..0] == [];
  }

  /** A new resource, visited once, then migrated down with an unknown run status: left reconciling and not woken. */
  lemma LeftReconciling() returns (ps: seq<PassInput>, io: IO)
    ensures var r := Pass(RunOf(NewStatus(), ps), 1, 0, io);
            ReconcilingCond in r.0.conditions && r.0.conditions[ReconcilingCond].isTrue && r.1 == NoRequeue
  {
    Started(1, 0);
    ps := [PassInput(1, 0, Answers(Counts(0, 0, 0), Done, ApplyError, true))];
    io := Answers(Counts(0, 2, 1), OtherRun, ApplyError, true);
  }

  /** A new resource, visited once, then to go down from one applied version to none: the pass panics. */
  lemma GoesDownToNothing() returns (ps: seq<PassInput>, io: IO)
    ensures Pass(RunOf(NewStatus(), ps), 1, 0, io).1 == Panicked
  {
    Started(1, 0);
    ps := [PassInput(1, 0, Answers(Counts(0, 0, 0), Done, ApplyError, true))];
    io := Answers(Counts(0, 1, 0), Done, ApplyError, true);
    PanicsIff(RunOf(NewStatus(), ps), 1, 0, io);
    assert ReadyCond in RunOf(NewStatus(), ps).conditions;
  }

  // ---- Retries --------------------------------------------------------------------

  /** The pass fails before it could mark the resource ready. */
  predicate FailsEarly(st: Status, io: IO) {
    st.conditions != map[] &&
    (io.data.Err? ||
     (!(IsReady(st) && io.data.value.hash != st.observedHash) && Work(io, io.data.value).Fails?))
  }

  /** The pass waits for a dev database or an approval. */
  predicate JustWaits(st: Status, io: IO) {
    st.conditions != map[] && io.data.Ok?
    && !(IsReady(st) && io.data.value.hash != st.observedHash) && Work(io, io.data.value).Waits?
  }

  /** The status after passes with the spec left alone. */
  function After(st: Status, generation: int, limit: int, ios: seq<IO>): Status {
    if ios == [] then st
    else
      var n := |ios| - 1;
      Pass(After(st, generation, limit, ios[..n]), generation, limit, ios[n]).0
  }

  /** Every pass fails early or waits. */
  ghost predicate NeverApplied(st: Status, generation: int, limit: int, ios: seq<IO>) {
    forall k :: 0 <= k < |ios| ==>
      var s := After(st, generation, limit, ios[..k]);
      FailsEarly(s, ios[k]) || JustWaits(s, ios[k])
  }

  /** How many of the passes failed. */
  function Failures(st: Status, generation: int, limit: int, ios: seq<IO>): nat {
    if ios == [] then 0
    else
      var n := |ios| - 1;
      Failures(st, generation, limit, ios[..n]) + if FailsEarly(After(st, generation, limit, ios[..n]), ios[n]) then 1 else 0
  }

  /** The delays the failed passes ask for, added up. */
  function Backoff(st: Status, generation: int, limit: int, ios: seq<IO>): int {
    if ios == [] then 0
    else
      var n := |ios| - 1;
      var s := After(st, generation, limit, ios[..n]);
      Backoff(st, generation, limit, ios[..n])
      + if FailsEarly(s, ios[n]) && Pass(s, generation, limit, ios[n]).1.RequeueAfter?
        then Pass(s, generation, limit, ios[n]).1.seconds else 0
  }

  lemma NeverAppliedPrefix(st: Status, generation: int, limit: int, ios: seq<IO>)
    requires ios != [] && NeverApplied(st, generation, limit, ios)
    ensures var n := |ios| - 1;
            && NeverApplied(st, generation, limit, ios[..n])
            && var s := After(st, generation, limit, ios[..n]); FailsEarly(s, ios[n]) || JustWaits(s, ios[n])
  {
    var n := |ios| - 1;
    forall k | 0 <= k < n
      ensures var s := After(st, generation, limit, ios[..n][..k]); FailsEarly(s, ios[..n][k]) || JustWaits(s, ios[..n][k])
    {
      assert ios[..n][..k] == ios[..k];
    }
  }

  lemma {:induction false} EveryFailureCounts(st: Status, generation: int, limit: int, ios: seq<IO>)
    requires NeverApplied(st, generation, limit, ios)
    ensures After(st, generation, limit, ios).failed == st.failed + Failures(st, generation, limit, ios)
  {
    if ios != [] {
      var n := |ios| - 1;
      NeverAppliedPrefix(st, generation, limit, ios);
      EveryFailureCounts(st, generation, limit, ios[..n]);
      EarlyFailureCounts(After(st, generation, limit, ios[..n]), generation, limit, ios[n]);
    }
  }

  lemma EarlyFailureCounts(st: Status, generation: int, limit: int, io: IO)
    requires FailsEarly(st, io) || JustWaits(st, io)
    ensures Pass(st, generation, limit, io).0.failed == st.failed + if FailsEarly(st, io) then 1 else 0
  {
    if io.data.Ok? {
      WaitsForGood(io, io.data.value);
    }
  }

  function Triangle(m: int): int {
    m * (m + 1) / 2
  }

  lemma TriangleGrows(m: int)
    ensures Triangle(m + 1) == Triangle(m) + m + 1
  {
  }

  /**
   With limit L > 0 and the spec left alone, the first L failures ask for 5, 10,
   ..., 5L seconds and later ones for no retry, whatever waiting comes between:
   in all 5L(L+1)/2 seconds of backoff, never more.
   */
  lemma {:induction false} RetriesAreBounded(st: Status, generation: int, limit: int, ios: seq<IO>)
    requires limit > 0 && st.failed == 0 && NeverApplied(st, generation, limit, ios)
    ensures var m := Failures(st, generation, limit, ios);
            Backoff(st, generation, limit, ios) == RETRY_SECONDS * Triangle(if m < limit then m else limit)
  {
    if ios != [] {
      var n := |ios| - 1;
      var s := After(st, generation, limit, ios[..n]);
      var m := Failures(st, generation, limit, ios[..n]);
      NeverAppliedPrefix(st, generation, limit, ios);
      EveryFailureCounts(st, generation, limit, ios[..n]);
      RetriesAreBounded(st, generation, limit, ios[..n]);
      TriangleGrows(m);
      if FailsEarly(s, ios[n]) {
        FailureDelay(s, generation, limit, ios[n]);
      }
    }
  }

  lemma FailureDelay(st: Status, generation: int, limit: int, io: IO)
    requires FailsEarly(st, io) && limit > 0
    ensures Pass(st, generation, limit, io).1 ==
            if st.failed < limit then RequeueAfter((st.failed + 1) * RETRY_SECONDS) else NoRequeue
  {
  }

  // ---- Failures that restart the count ---------------------------------------------

  /** The pass brings the database to its data: nothing to do, gone down, or one apply reported. */
  predicate Succeeds(io: IO) {
    StatusRead(io) &&
    var c := io.status.value;
    if c.pending == 0 && c.applied <= c.available then true
    else
      io.devDB && io.rerender &&
      if c.pending == 0 then
        GoesDown(io) && c.available > 0 && (io.downDir == Remote || io.downDir == SavedState(true)) && io.down == Some(Done)
      else io.apply == Reports(1)
  }

  lemma SucceedsApplies(io: IO)
    ensures io.data.Ok? && Work(io, io.data.value).Applies? <==> Succeeds(io)
  {
  }

  /** The pass ends stalled by what it did itself. */
  ghost predicate FailsNow(st: Status, generation: int, limit: int, io: IO) {
    var r := Pass(st, generation, limit, io);
    && StalledCond in r.0.conditions && r.0.conditions[StalledCond].isTrue
    && r.1 != Panicked && !(Works(st, io) && PassedOver(io))
  }

  /**
   A failing pass adds one to the count exactly when there was nothing counted or it
   did not succeed first; else the count restarts at one.
   */
  lemma FailureCountsIff(st: Status, generation: int, limit: int, io: IO)
    requires Coherent(st) && FailsNow(st, generation, limit, io)
    ensures var failed := Pass(st, generation, limit, io).0.failed;
            && (failed == st.failed + 1 <==> st.failed == 0 || !Succeeds(io))
            && (failed != st.failed + 1 ==> failed == 1)
  {
    SucceedsApplies(io);
    if io.data.Ok? {
      WaitsForGood(io, io.data.value);
    }
  }

  /** Every pass of the series fails. */
  ghost predicate AllFail(st: Status, generation: int, limit: int, ios: seq<IO>) {
    forall k :: 0 <= k < |ios| ==> FailsNow(After(st, generation, limit, ios[..k]), generation, limit, ios[k])
  }

  /** None of the passes, but the first on an empty count, succeeds before it fails. */
  ghost predicate NoneRestarts(failed: int, ios: seq<IO>) {
    forall k :: 0 <= k < |ios| && Succeeds(ios[k]) ==> k == 0 && failed == 0
  }

  lemma NoneRestartsLast(failed: int, ios: seq<IO>)
    requires ios != []
    ensures var n := |ios| - 1;
            NoneRestarts(failed, ios) <==> NoneRestarts(failed, ios[..n]) && (Succeeds(ios[n]) ==> n == 0 && failed == 0)
  {
    var n := |ios| - 1;
    assert forall k :: 0 <= k < n ==> ios[..n][k] == ios[k];
    assert NoneRestarts(failed, ios[..n]) <==> forall k :: 0 <= k < n && Succeeds(ios[k]) ==> k == 0 && failed == 0;
  }

  lemma AllFailPrefix(st: Status, generation: int, limit: int, ios: seq<IO>)
    requires ios != [] && AllFail(st, generation, limit, ios)
    ensures var n := |ios| - 1;
            && AllFail(st, generation, limit, ios[..n])
            && FailsNow(After(st, generation, limit, ios[..n]), generation, limit, ios[n])
  {
    var n := |ios| - 1;
    forall k | 0 <= k < n ensures FailsNow(After(st, generation, limit, ios[..n][..k]), generation, limit, ios[..n][k]) {
      assert ios[..n][..k] == ios[..k];
    }
  }

  /** Over a series of failing passes, every failure counts exactly when none of them restarts the count. */
  lemma {:induction false} EveryFailureCountsIff(st: Status, generation: int, limit: int, ios: seq<IO>)
    requires Coherent(st) && AllFail(st, generation, limit, ios)
    ensures var after := After(st, generation, limit, ios);
            && Coherent(after) && after.failed <= st.failed + |ios| && (ios != [] ==> after.failed > 0)
            && (after.failed == st.failed + |ios| <==> NoneRestarts(st.failed, ios))
  {
    if ios != [] {
      var n := |ios| - 1;
      AllFailPrefix(st, generation, limit, ios);
      EveryFailureCountsIff(st, generation, limit, ios[..n]);
      OneMoreFailure(st, After(st, generation, limit, ios[..n]), generation, limit, ios);
    }
  }

  lemma OneMoreFailure(st: Status, before: Status, generation: int, limit: int, ios: seq<IO>)
    requires ios != [] && Coherent(st) && Coherent(before) && FailsNow(before, generation, limit, ios[|ios| - 1])
    requires var n := |ios| - 1;
             && before.failed <= st.failed + n && (n == 0 ==> before.failed == st.failed) && (n > 0 ==> before.failed > 0)
             && (before.failed == st.failed + n <==> NoneRestarts(st.failed, ios[..n]))
    ensures var after := Pass(before, generation, limit, ios[|ios| - 1]).0;
            && Coherent(after) && after.failed <= st.failed + |ios| && after.failed > 0
            && (after.failed == st.failed + |ios| <==> NoneRestarts(st.failed, ios))
  {
    NoneRestartsLast(st.failed, ios);
    FailureCountsIff(before, generation, limit, ios[|ios| - 1]);
    PassKeepsCoherent(before, generation, limit, ios[|ios| - 1]);
  }

  /**
   A new resource with limit 1 that fails to read its data, then succeeds and fails to
   store it: two failures in a row, one counted, and a retry.
   */
  lemma CountRestarts() returns (first: IO, second: IO)
    ensures var st := After(Reconciled(NewStatus(), 1), 1, 1, [first]);
            && FailsNow(Reconciled(NewStatus(), 1), 1, 1, first) && st.failed == 1
            && FailsNow(st, 1, 1, second) && Succeeds(second)
            && Pass(st, 1, 1, second).0.failed == 1 && Pass(st, 1, 1, second).1 == RequeueAfter(RETRY_SECONDS)
  {
    var st := Reconciled(NewStatus(), 1);
    first := Answers(Counts(0, 1, 1), Done, ApplyError, true).(data := Err(Unreadable));
    second := Answers(Counts(0, 1, 1), Done, ApplyError, false);
    assert [first][..0] == [] && ReadyCond in st.conditions;
    assert After(st, 1, 1, [first]) == Failed(st, 1, 1, ReadingMigrationData).0;
  }

  function Copies(io: IO, n: nat): (r: seq<IO>)
    ensures |r| == n
  {
    if n == 0 then [] else Copies(io, n - 1) + [io]
  }

  /** A failure after the success restarts the count: it is retried every 5 seconds for ever, under any limit. */
  lemma {:induction false} StoreFailuresNeverStop(st: Status, generation: int, limit: int, io: IO, n: nat)
    requires limit >= 0 && st.conditions != map[] && io.data.Ok? && !io.store
    requires Work(io, io.data.value).Applies? && (IsReady(st) ==> io.data.value.hash == st.observedHash)
    ensures var s := After(st, generation, limit, Copies(io, n));
            && s.conditions != map[] && (IsReady(s) ==> io.data.value.hash == s.observedHash)
            && Pass(s, generation, limit, io).0.failed == 1
            && Pass(s, generation, limit, io).1 == RequeueAfter(RETRY_SECONDS)
  {
    if n > 0 {
      StoreFailuresNeverStop(st, generation, limit, io, n - 1);
      var before := After(st, generation, limit, Copies(io, n - 1));
      assert Copies(io, n)[..n - 1] == Copies(io, n - 1) && Copies(io, n)[n - 1] == io;
      assert After(st, generation, limit, Copies(io, n)) == Pass(before, generation, limit, io).0;
      assert !IsReady(Pass(before, generation, limit, io).0);
    }
  }
}
