/** One OpenPOWER system dump entry (system_dump_entry.cpp): completing it,
    starting its offload, and the guarded delete.

    The entry is a class whose fields the operations assign in place. Every
    answer from outside — isInMpReboot, each isHostRunning query (each reads
    its own `Bus`), the host transport's requestOffload and requestDelete, the
    base entry's URI recording, std::filesystem::remove_all — is an input of
    the operation. What the entry asks of its collaborators is recorded, in
    order, in the ghost trace `calls`.

    Each operation is specified by a function of the entry's old state and of
    those answers (`Updated`, `OffloadSteps`, `DeleteSteps`); the lemmas below
    state what the source promises about these functions. */
module SystemDumpEntry {
  import opened Errors
  import opened DumpUtils

  newtype u32 = x: int | 0 <= x < 0x1_0000_0000
  newtype u64 = x: int | 0 <= x < 0x1_0000_0000_0000_0000

  /** Identifies a system dump to the host transport. */
  const TRANSPORT_DUMP_TYPE_IDENTIFIER: u32 := 3

  /** The source dump id of an entry the host has not yet given one. */
  const INVALID_SOURCE_ID: u32 := 0xFFFF_FFFF

  /** xyz.openbmc_project.Common.Progress.OperationStatus */
  datatype OperationStatus = InProgress | Completed | Failed | Aborted

  /** The properties of a system dump entry. */
  datatype EntryState = EntryState(
    id: u32,
    elapsed: u64,
    size: u64,
    completedTime: u64,
    status: OperationStatus,
    offloadUri: string,
    sourceDumpId: u32)

  /** A request the entry makes of a collaborator. */
  datatype Call =
    | QueryMpReboot                                // openpower::dump::util::isInMpReboot()
    | QueryHostRunning                             // phosphor::dump::isHostRunning()
    | RequestDelete(sourceId: u32, typeId: u32)    // host::requestDelete
    | EraseEntry(id: u32)                          // base Entry::delete_, drops the D-Bus object
    | RemoveAll(dirId: u32)                        // remove_all(SYSTEM_DUMP_SERIAL_PATH/<dirId>)
    | Serialize(record: EntryState)                // serialize(*this)
    | RecordOffloadUri(uri: string)                // base Entry::initiateOffload
    | RequestOffload(sourceId: u32)                // host::requestOffload

  // ---------------------------------------------------------------------
  // update

  /** The entry after update(timeStamp, dumpSize, sourceId): the same entry,
      now completed at the time its dump was taken. */
  function Updated(e: EntryState, timeStamp: u64, dumpSize: u64, sourceId: u32): (u: EntryState)
    ensures u.status == Completed && u.completedTime == u.elapsed
    ensures u.id == e.id && u.offloadUri == e.offloadUri
  {
    e.(elapsed := timeStamp, size := dumpSize, sourceDumpId := sourceId,
       status := Completed, completedTime := timeStamp)
  }

  /** update completes the entry: the five properties take the given values,
      elapsed and completedTime agree, and id and offload URI are untouched. */
  lemma UpdateCompletes(e: EntryState, timeStamp: u64, dumpSize: u64, sourceId: u32)
    ensures var u := Updated(e, timeStamp, dumpSize, sourceId);
      u.elapsed == timeStamp && u.size == dumpSize && u.sourceDumpId == sourceId &&
      u.status == Completed && u.completedTime == timeStamp
    ensures var u := Updated(e, timeStamp, dumpSize, sourceId);
      u.id == e.id && u.offloadUri == e.offloadUri
  {
  }

  /** The result of update depends only on its arguments and on the fields it
      does not set, so replaying it (after a restart, say) changes nothing. */
  lemma UpdateIdempotent(e: EntryState, timeStamp: u64, dumpSize: u64, sourceId: u32)
    ensures var u := Updated(e, timeStamp, dumpSize, sourceId);
      Updated(u, timeStamp, dumpSize, sourceId) == u
  {
  }

  // ---------------------------------------------------------------------
  // initiateOffload

  /** The answers initiateOffload receives: from the base entry recording
      the URI, and from the host transport's requestOffload. */
  datatype OffloadEnv = OffloadEnv(recordUri: Outcome, requestOffload: Outcome)

  /** What initiateOffload does: how it ends, what it asked, and the entry
      afterwards. */
  datatype OffloadRun = OffloadRun(outcome: Outcome, calls: seq<Call>, after: EntryState)

  function OffloadSteps(e: EntryState, uri: string, env: OffloadEnv): (run: OffloadRun)
    ensures |run.calls| > 0 && run.calls[0] == RecordOffloadUri(uri)
    ensures run.outcome.Pass? ==> run.after.offloadUri == uri
    ensures RequestOffload(e.sourceDumpId) in run.calls <==> run.after.offloadUri == uri && env.recordUri.Pass?
    ensures run.after == e || run.after == e.(offloadUri := uri)
  {
    match env.recordUri
    case Fail(err) => OffloadRun(Fail(err), [RecordOffloadUri(uri)], e)
    case Pass =>
      OffloadRun(env.requestOffload,
                 [RecordOffloadUri(uri), RequestOffload(e.sourceDumpId)],
                 e.(offloadUri := uri))
  }

  /** The URI is recorded before the transfer is requested, and the transfer
      is requested for the entry's current source dump id. A failure of either
      step is passed on unchanged; a failed transfer request does not undo the
      recorded URI. */
  lemma OffloadOrder(e: EntryState, uri: string, env: OffloadEnv)
    ensures var run := OffloadSteps(e, uri, env);
      env.recordUri.Pass? ==>
        run.calls == [RecordOffloadUri(uri), RequestOffload(e.sourceDumpId)] &&
        run.after.offloadUri == uri && run.outcome == env.requestOffload
    ensures var run := OffloadSteps(e, uri, env);
      env.recordUri.Fail? ==>
        run.calls == [RecordOffloadUri(uri)] && run.after == e && run.outcome == env.recordUri
  {
  }

  // ---------------------------------------------------------------------
  // delete_

  /** The answers delete_ receives, in the order it may ask for them. The two
      isHostRunning queries (lines 55 and 73) are separate reads and have
      separate answers. */
  datatype DeleteEnv = DeleteEnv(
    mpReboot: Result<bool>,
    runningAtOffloadCheck: Result<bool>,
    runningAtRemoteDelete: Result<bool>,
    remoteDelete: Outcome,
    removeAll: Outcome)

  /** The answers delete_ receives when each isHostRunning query reads the
      bus as it is at that moment: each query answers true exactly when its
      own bus shows a running stage, whatever the other bus shows. */
  function AnswersFromBuses(mpReboot: Result<bool>, busAtOffloadCheck: Bus, busAtRemoteDelete: Bus,
                            remoteDelete: Outcome, removeAll: Outcome): (env: DeleteEnv)
    ensures env.mpReboot == mpReboot && env.remoteDelete == remoteDelete && env.removeAll == removeAll
    ensures env.runningAtOffloadCheck == Ok(true) <==>
      exists p :: p in RunningStages &&
        HoldsString(busAtOffloadCheck, BootProgressInterface, HostStateObjPath, BootProgressProperty,
                    BootProgressString(p))
    ensures env.runningAtRemoteDelete == Ok(true) <==>
      exists p :: p in RunningStages &&
        HoldsString(busAtRemoteDelete, BootProgressInterface, HostStateObjPath, BootProgressProperty,
                    BootProgressString(p))
  {
    HostRunningFromBus(busAtOffloadCheck);
    HostRunningFromBus(busAtRemoteDelete);
    DeleteEnv(mpReboot, IsHostRunning(busAtOffloadCheck), IsHostRunning(busAtRemoteDelete),
              remoteDelete, removeAll)
  }

  /** What delete_ does: how it ends, what it asked, and whether the entry
      was dropped from the tree. */
  datatype DeleteRun = DeleteRun(outcome: Outcome, calls: seq<Call>, erased: bool)

  function DeleteSteps(e: EntryState, env: DeleteEnv): (run: DeleteRun)
    ensures |run.calls| > 0 && run.calls[0] == QueryMpReboot
    ensures run.erased ==> run.outcome == Pass
    ensures run.erased ==>
      (|run.calls| >= 2 &&
       run.calls[|run.calls| - 2] == EraseEntry(e.id) && run.calls[|run.calls| - 1] == RemoveAll(e.id))
    ensures !run.erased ==> EraseEntry(e.id) !in run.calls && RemoveAll(e.id) !in run.calls
    ensures forall i :: 0 <= i < |run.calls| && run.calls[i].EraseEntry? ==>
      run.erased && i == |run.calls| - 2
    ensures forall s, t :: RequestDelete(s, t) in run.calls ==>
      s == e.sourceDumpId && s != INVALID_SOURCE_ID && t == TRANSPORT_DUMP_TYPE_IDENTIFIER
  {
    match env.mpReboot
    case Err(err) => DeleteRun(Fail(err), [QueryMpReboot], false)
    case Ok(inMpReboot) =>
      if inMpReboot && e.status == InProgress then
        DeleteRun(Pass, [QueryMpReboot], false)
      else if e.offloadUri != "" then
        match env.runningAtOffloadCheck
        case Err(err) => DeleteRun(Fail(err), [QueryMpReboot, QueryHostRunning], false)
        case Ok(running) =>
          if running then DeleteRun(Fail(Unavailable), [QueryMpReboot, QueryHostRunning], false)
          else RemoteThenLocal(e, env, true)
      else
        RemoteThenLocal(e, env, false)
  }

  /** delete_ from line 73 on, once the two guards have let it through:
      `offloadChecked` says whether the offload guard queried the host. */
  function RemoteThenLocal(e: EntryState, env: DeleteEnv, offloadChecked: bool): (run: DeleteRun)
    ensures |run.calls| > 0 && run.calls[0] == QueryMpReboot
    ensures run.erased ==> run.outcome == Pass
    ensures run.erased ==>
      (|run.calls| >= 2 &&
       run.calls[|run.calls| - 2] == EraseEntry(e.id) && run.calls[|run.calls| - 1] == RemoveAll(e.id))
    ensures !run.erased ==> EraseEntry(e.id) !in run.calls && RemoveAll(e.id) !in run.calls
    ensures forall i :: 0 <= i < |run.calls| && run.calls[i].EraseEntry? ==>
      run.erased && i == |run.calls| - 2
    ensures forall s, t :: RequestDelete(s, t) in run.calls ==>
      s == e.sourceDumpId && s != INVALID_SOURCE_ID && t == TRANSPORT_DUMP_TYPE_IDENTIFIER
  {
    var asked := if offloadChecked then [QueryMpReboot, QueryHostRunning, QueryHostRunning]
                 else [QueryMpReboot, QueryHostRunning];
    match env.runningAtRemoteDelete
    case Err(err) => DeleteRun(Fail(err), asked, false)
    case Ok(running) =>
      if running && e.sourceDumpId != INVALID_SOURCE_ID then
        var remote := RequestDelete(e.sourceDumpId, TRANSPORT_DUMP_TYPE_IDENTIFIER);
        if env.remoteDelete.Fail? then DeleteRun(Fail(Unavailable), asked + [remote], false)
        else DeleteRun(Pass, asked + [remote, EraseEntry(e.id), RemoveAll(e.id)], true)
      else
        DeleteRun(Pass, asked + [EraseEntry(e.id), RemoveAll(e.id)], true)
  }

  /** The reboot guard lets delete_ through: isInMpReboot answered, and the
      answer was "no" or the entry is not in progress. */
  predicate PassesRebootGuard(e: EntryState, env: DeleteEnv)
  {
    env.mpReboot.Ok? && !(env.mpReboot.value && e.status == InProgress)
  }

  /** Both guards let delete_ through: the reboot guard, and then the offload
      guard (no offload URI, or the host answered "not running"). */
  predicate PassesGuards(e: EntryState, env: DeleteEnv)
  {
    PassesRebootGuard(e, env) &&
    (e.offloadUri == "" || env.runningAtOffloadCheck == Ok(false))
  }

  /** During a memory-preserving reboot an in-progress entry is silently kept:
      delete_ returns normally having asked nothing but isInMpReboot. */
  lemma DeleteSkippedInMpReboot(e: EntryState, env: DeleteEnv)
    requires env.mpReboot == Ok(true) && e.status == InProgress
    ensures DeleteSteps(e, env) == DeleteRun(Pass, [QueryMpReboot], false)
  {
  }

  /** The reboot guard does not hold back an entry that is not in progress:
      delete_ goes on to ask whether the host is running. */
  lemma DeleteNotSkippedUnlessInProgress(e: EntryState, env: DeleteEnv)
    requires env.mpReboot.Ok? && e.status != InProgress
    ensures |DeleteSteps(e, env).calls| >= 2 && DeleteSteps(e, env).calls[1] == QueryHostRunning
  {
  }

  /** An entry with an offload URI is not deleted while the host runs:
      Unavailable, the entry kept, and no remote delete. */
  lemma DeleteBlockedByOffload(e: EntryState, env: DeleteEnv)
    requires PassesRebootGuard(e, env)
    requires e.offloadUri != "" && env.runningAtOffloadCheck == Ok(true)
    ensures DeleteSteps(e, env) == DeleteRun(Fail(Unavailable), [QueryMpReboot, QueryHostRunning], false)
  {
  }

  /** requestDelete is issued exactly when both guards pass, the second
      host query says "running" and the source dump id is valid; it is
      always for the entry's source dump id and the system dump type. */
  lemma RemoteDeleteExactlyWhen(e: EntryState, env: DeleteEnv)
    ensures RequestDelete(e.sourceDumpId, TRANSPORT_DUMP_TYPE_IDENTIFIER) in DeleteSteps(e, env).calls <==>
      PassesGuards(e, env) && env.runningAtRemoteDelete == Ok(true) &&
      e.sourceDumpId != INVALID_SOURCE_ID
    ensures forall s, t :: RequestDelete(s, t) in DeleteSteps(e, env).calls ==>
      s == e.sourceDumpId && t == TRANSPORT_DUMP_TYPE_IDENTIFIER
  {
    var run := DeleteSteps(e, env);
    var rd := RequestDelete(e.sourceDumpId, TRANSPORT_DUMP_TYPE_IDENTIFIER);
    if rd in run.calls {
      // Before the guards have passed only queries have been made.
      assert PassesGuards(e, env);
      assert env.runningAtRemoteDelete == Ok(true);
    }
  }

  /** Host-side storage is freed at most once per entry: one delete_ asks
      for it at most once, and when that request succeeds the entry is
      removed, so no later delete_ of it can ask again. */
  lemma {:induction false} RemoteDeleteAtMostOnce(e: EntryState, env: DeleteEnv)
    ensures var calls := DeleteSteps(e, env).calls;
      forall i, j :: 0 <= i < j < |calls| && calls[i].RequestDelete? ==> !calls[j].RequestDelete?
    ensures env.remoteDelete.Pass? && RequestDelete(e.sourceDumpId, TRANSPORT_DUMP_TYPE_IDENTIFIER) in DeleteSteps(e, env).calls ==>
      DeleteSteps(e, env).erased
  {
    var run := DeleteSteps(e, env);
    if PassesGuards(e, env) && env.runningAtRemoteDelete.Ok? {
      assert run == RemoteThenLocal(e, env, e.offloadUri != "");
    }
  }

  /** With the host down or no valid source dump id, delete_ makes no remote
      call and goes on to remove the entry. */
  lemma NoRemoteDeleteWhenHostDownOrIdInvalid(e: EntryState, env: DeleteEnv)
    requires PassesGuards(e, env)
    requires env.runningAtRemoteDelete == Ok(false) || e.sourceDumpId == INVALID_SOURCE_ID
    requires env.runningAtRemoteDelete.Ok?
    ensures var run := DeleteSteps(e, env);
      run.outcome == Pass && run.erased && forall c :: c in run.calls ==> !c.RequestDelete?
  {
  }

  /** A failed remote delete ends delete_ with Unavailable: the entry stays,
      and nothing local is removed. */
  lemma RemoteDeleteFailureBlocks(e: EntryState, env: DeleteEnv)
    requires PassesGuards(e, env)
    requires env.runningAtRemoteDelete == Ok(true) && e.sourceDumpId != INVALID_SOURCE_ID
    requires env.remoteDelete.Fail?
    ensures var run := DeleteSteps(e, env);
      run.outcome == Fail(Unavailable) && !run.erased && RemoveAll(e.id) !in run.calls
  {
  }

  /** The entry is removed exactly when both guards pass, the second host
      query answers, and the remote delete, if one was due, succeeded; the
      storage directory removal comes last, and its answer does not matter. */
  lemma DeleteRemovesExactlyWhen(e: EntryState, env: DeleteEnv)
    ensures DeleteSteps(e, env).erased <==>
      PassesGuards(e, env) && env.runningAtRemoteDelete.Ok? &&
      (env.runningAtRemoteDelete.value && e.sourceDumpId != INVALID_SOURCE_ID ==>
         env.remoteDelete.Pass?)
    ensures forall o :: DeleteSteps(e, env.(removeAll := o)) == DeleteSteps(e, env)
  {
  }

  /** A host-state query that fails inside delete_ ends it with that failure,
      before anything is removed. */
  lemma DeleteQueryFailurePropagates(e: EntryState, env: DeleteEnv)
    ensures env.mpReboot.Err? ==>
      DeleteSteps(e, env) == DeleteRun(Fail(env.mpReboot.error), [QueryMpReboot], false)
    ensures PassesRebootGuard(e, env) && e.offloadUri != "" && env.runningAtOffloadCheck.Err? ==>
      DeleteSteps(e, env).outcome == Fail(env.runningAtOffloadCheck.error) &&
      !DeleteSteps(e, env).erased
    ensures PassesGuards(e, env) && env.runningAtRemoteDelete.Err? ==>
      DeleteSteps(e, env).outcome == Fail(env.runningAtRemoteDelete.error) &&
      !DeleteSteps(e, env).erased
  {
  }

  /** The two host queries are separate reads: with an offload URI set, a
      host that was down at the offload check and up at the remote-delete
      check still gets its copy deleted, and the entry is removed. */
  lemma HostQueriesAreIndependent(e: EntryState, env: DeleteEnv)
    requires PassesRebootGuard(e, env) && e.offloadUri != ""
    requires env.runningAtOffloadCheck == Ok(false)
    requires env.runningAtRemoteDelete == Ok(true)
    requires e.sourceDumpId != INVALID_SOURCE_ID && env.remoteDelete.Pass?
    ensures DeleteSteps(e, env) == DeleteRun(Pass,
      [QueryMpReboot, QueryHostRunning, QueryHostRunning,
       RequestDelete(e.sourceDumpId, TRANSPORT_DUMP_TYPE_IDENTIFIER),
       EraseEntry(e.id), RemoveAll(e.id)], true)
  {
  }

  // ---------------------------------------------------------------------
  // Operations in sequence

  /** Once an offload URI has been recorded, delete_ is refused while the
      host runs, even if the transfer request itself failed. */
  lemma OffloadThenDeleteBlocked(e: EntryState, uri: string, oenv: OffloadEnv, denv: DeleteEnv)
    requires uri != "" && oenv.recordUri.Pass?
    requires PassesRebootGuard(OffloadSteps(e, uri, oenv).after, denv)
    requires denv.runningAtOffloadCheck == Ok(true)
    ensures DeleteSteps(OffloadSteps(e, uri, oenv).after, denv).outcome == Fail(Unavailable)
    ensures !DeleteSteps(OffloadSteps(e, uri, oenv).after, denv).erased
  {
    DeleteBlockedByOffload(OffloadSteps(e, uri, oenv).after, denv);
  }

  /** A completed entry is not held back by a memory-preserving reboot: after
      update, delete_ with no offload URI and the host down removes it
      without any remote call. */
  lemma UpdateThenDeleteRemoves(e: EntryState, t: u64, s: u64, id: u32, env: DeleteEnv)
    requires e.offloadUri == "" && env.mpReboot.Ok?
    requires env.runningAtRemoteDelete == Ok(false)
    ensures DeleteSteps(Updated(e, t, s, id), env) ==
      DeleteRun(Pass, [QueryMpReboot, QueryHostRunning, EraseEntry(e.id), RemoveAll(e.id)], true)
  {
  }

  // ---------------------------------------------------------------------
  // An entry's life: the requests its owner dispatches to it, one after the
  // other, until a delete_ removes it. Once removed, the object no longer
  // exists and no request reaches it.

  /** A request made of the entry, with the answers its collaborators give
      while it is served. */
  datatype Request =
    | UpdateRequest(timeStamp: u64, dumpSize: u64, sourceId: u32)
    | OffloadRequest(uri: string, offloadEnv: OffloadEnv)
    | DeleteRequest(deleteEnv: DeleteEnv)

  /** The entry's properties, whether it is still in the tree, and what it
      has asked of its collaborators so far. */
  datatype Life = Life(entry: EntryState, present: bool, calls: seq<Call>)

  function Serve(l: Life, r: Request): (next: Life)
    ensures next.entry.id == l.entry.id
    ensures l.calls <= next.calls
    ensures !l.present ==> next == l
  {
    if !l.present then l
    else
      match r
      case UpdateRequest(t, s, id) =>
        var u := Updated(l.entry, t, s, id);
        Life(u, true, l.calls + [Serialize(u)])
      case OffloadRequest(uri, env) =>
        var run := OffloadSteps(l.entry, uri, env);
        Life(run.after, true, l.calls + run.calls)
      case DeleteRequest(env) =>
        var run := DeleteSteps(l.entry, env);
        Life(l.entry, !run.erased, l.calls + run.calls)
  }

  function ServeAll(l: Life, rs: seq<Request>): (final: Life)
    ensures final.entry.id == l.entry.id
    ensures l.calls <= final.calls
    ensures final.present ==> l.present
    decreases |rs|
  {
    if rs == [] then l else ServeAll(Serve(l, rs[0]), rs[1..])
  }

  /** The trace of a life: the entry is present exactly while its removal
      has not been asked for, and once it has, removing the entry and then
      its directory are the last two things it ever asked, and the entry was
      removed only once. */
  ghost predicate Consistent(l: Life)
  {
    (l.present <==> EraseEntry(l.entry.id) !in l.calls) &&
    (!l.present ==>
       |l.calls| >= 2 &&
       l.calls[|l.calls| - 2] == EraseEntry(l.entry.id) &&
       l.calls[|l.calls| - 1] == RemoveAll(l.entry.id)) &&
    (forall i :: 0 <= i < |l.calls| && l.calls[i] == EraseEntry(l.entry.id) ==> i == |l.calls| - 2)
  }

  lemma ServeKeepsConsistent(l: Life, r: Request)
    requires Consistent(l)
    ensures Consistent(Serve(l, r))
  {
    if l.present {
      match r
      case UpdateRequest(t, s, id) =>
        var next := Serve(l, r);
        assert next.calls == l.calls + [Serialize(next.entry)];
        assert forall i :: 0 <= i < |next.calls| && next.calls[i] == EraseEntry(l.entry.id) ==> i < |l.calls|;
      case OffloadRequest(uri, env) =>
        var run := OffloadSteps(l.entry, uri, env);
        assert forall c :: c in run.calls ==> !c.EraseEntry?;
      case DeleteRequest(env) =>
        var run := DeleteSteps(l.entry, env);
        var next := Serve(l, r);
        assert next.calls == l.calls + run.calls;
        forall i | 0 <= i < |next.calls| && next.calls[i] == EraseEntry(l.entry.id)
          ensures i == |next.calls| - 2
        {
          if i >= |l.calls| {
            assert run.calls[i - |l.calls|].EraseEntry?;
          }
        }
        if run.erased {
          assert next.calls[|next.calls| - 2] == EraseEntry(l.entry.id);
        } else {
          assert EraseEntry(l.entry.id) !in next.calls;
        }
    }
  }

  /** Whatever requests arrive, removal is terminal: after it the entry is
      gone for good, asks nothing more, and was removed exactly once. */
  lemma {:induction false} RemovalIsTerminal(l: Life, rs: seq<Request>)
    requires Consistent(l)
    ensures Consistent(ServeAll(l, rs))
    ensures !l.present ==> ServeAll(l, rs) == l
    decreases |rs|
  {
    if rs != [] {
      ServeKeepsConsistent(l, rs[0]);
      RemovalIsTerminal(Serve(l, rs[0]), rs[1..]);
    }
  }

  /** Whether serving `r` asks the host to free the entry's storage and the
      host does so. */
  predicate FreesHostStorage(l: Life, r: Request)
  {
    l.present && r.DeleteRequest? &&
    RequestDelete(l.entry.sourceDumpId, TRANSPORT_DUMP_TYPE_IDENTIFIER) in DeleteSteps(l.entry, r.deleteEnv).calls &&
    r.deleteEnv.remoteDelete.Pass?
  }

  /** How many of the requests free the host-side storage of the entry. */
  function FreedCount(l: Life, rs: seq<Request>): nat
    decreases |rs|
  {
    if rs == [] then 0
    else (if FreesHostStorage(l, rs[0]) then 1 else 0) + FreedCount(Serve(l, rs[0]), rs[1..])
  }

  /** Nothing is dispatched to an entry that is gone, so it frees nothing. */
  lemma {:induction false} GoneFreesNothing(l: Life, rs: seq<Request>)
    requires !l.present
    ensures FreedCount(l, rs) == 0
    decreases |rs|
  {
    if rs != [] {
      GoneFreesNothing(Serve(l, rs[0]), rs[1..]);
    }
  }

  /** The host-side storage of an entry is freed at most once in its life:
      a delete_ whose remote delete succeeds always removes the entry. */
  lemma {:induction false} HostStorageFreedAtMostOnce(l: Life, rs: seq<Request>)
    ensures FreedCount(l, rs) <= 1
    decreases |rs|
  {
    if rs != [] {
      var next := Serve(l, rs[0]);
      if FreesHostStorage(l, rs[0]) {
        RemoteDeleteAtMostOnce(l.entry, rs[0].deleteEnv);
        GoneFreesNothing(next, rs[1..]);
      } else {
        HostStorageFreedAtMostOnce(next, rs[1..]);
      }
    }
  }

  /** Only update changes the source dump id and the status: any run of
      offload and delete requests leaves them as they were. */
  lemma {:induction false} OnlyUpdateSetsSourceIdAndStatus(l: Life, rs: seq<Request>)
    requires forall k :: 0 <= k < |rs| ==> !rs[k].UpdateRequest?
    ensures ServeAll(l, rs).entry.sourceDumpId == l.entry.sourceDumpId
    ensures ServeAll(l, rs).entry.status == l.entry.status
    decreases |rs|
  {
    if rs != [] {
      OnlyUpdateSetsSourceIdAndStatus(Serve(l, rs[0]), rs[1..]);
    }
  }

  // ---------------------------------------------------------------------
  // The entry object

  class Entry {
    const id: u32
    var elapsed: u64
    var size: u64
    var completedTime: u64
    var status: OperationStatus
    var offloadUri: string
    var sourceDumpId: u32
    /** Whether the entry's D-Bus object is still in the dump manager's tree. */
    var present: bool
    /** What the entry has asked of its collaborators, oldest first. */
    ghost var calls: seq<Call>

    function State(): EntryState
      reads this`elapsed, this`size, this`completedTime, this`status, this`offloadUri, this`sourceDumpId
    {
      EntryState(id, elapsed, size, completedTime, status, offloadUri, sourceDumpId)
    }

    /** Creation is done by the dump manager; the entry starts out present. */
    constructor (init: EntryState)
      ensures State() == init && present && calls == []
    {
      id := init.id;
      elapsed := init.elapsed;
      size := init.size;
      completedTime := init.completedTime;
      status := init.status;
      offloadUri := init.offloadUri;
      sourceDumpId := init.sourceDumpId;
      present := true;
      calls := [];
    }

    /** update: completes the entry and persists it once. */
    method Update(timeStamp: u64, dumpSize: u64, sourceId: u32)
      requires present
      modifies this
      ensures State() == Updated(old(State()), timeStamp, dumpSize, sourceId)
      ensures calls == old(calls) + [Serialize(State())]
      ensures present
    {
      elapsed := timeStamp;
      size := dumpSize;
      sourceDumpId := sourceId;
      status := Completed;
      completedTime := timeStamp;
      calls := calls + [Serialize(State())];
    }

    /** initiateOffload: records the URI through the base entry, then asks the
        host to transfer the dump with this source dump id. */
    method InitiateOffload(uri: string, env: OffloadEnv) returns (outcome: Outcome)
      requires present
      modifies this
      ensures var run := OffloadSteps(old(State()), uri, env);
        outcome == run.outcome && State() == run.after && calls == old(calls) + run.calls
      ensures present
    {
      calls := calls + [RecordOffloadUri(uri)];
      if env.recordUri.Fail? {
        return env.recordUri;
      }
      offloadUri := uri;
      calls := calls + [RequestOffload(sourceDumpId)];
      outcome := env.requestOffload;
    }

    /** delete_: the reboot guard, the offload guard, the remote delete, then
        removal of the entry and, best effort, of its storage directory. */
    method Delete(env: DeleteEnv) returns (outcome: Outcome)
      requires present
      modifies this
      ensures var run := DeleteSteps(old(State()), env);
        outcome == run.outcome && calls == old(calls) + run.calls && present == !run.erased
      ensures State() == old(State())
    {
      var dumpId := id;
      calls := calls + [QueryMpReboot];
      var inMpReboot := env.mpReboot;
      if inMpReboot.Err? {
        return Fail(inMpReboot.error);
      }
      if inMpReboot.value && status == InProgress {
        return Pass;
      }

      var srcDumpId := sourceDumpId;
      if offloadUri != "" {
        calls := calls + [QueryHostRunning];
        var running := env.runningAtOffloadCheck;
        if running.Err? {
          return Fail(running.error);
        }
        if running.value {
          return Fail(Unavailable);
        }
      }

      calls := calls + [QueryHostRunning];
      var running := env.runningAtRemoteDelete;
      if running.Err? {
        return Fail(running.error);
      }
      if running.value && srcDumpId != INVALID_SOURCE_ID {
        calls := calls + [RequestDelete(srcDumpId, TRANSPORT_DUMP_TYPE_IDENTIFIER)];
        if env.remoteDelete.Fail? {
          return Fail(Unavailable);
        }
      }

      calls := calls + [EraseEntry(dumpId)];
      present := false;
      // A failure of remove_all (env.removeAll) is logged and not passed on.
      calls := calls + [RemoveAll(dumpId)];
      outcome := Pass;
    }
  }
}
