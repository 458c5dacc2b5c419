# OpenPOWER system dump entry and host-state oracle, in Dafny

This project models two parts of the phosphor debug collector.

The first is the lifecycle of one OpenPOWER system dump entry
(`dump-extensions/openpower-dumps/system_dump_entry.cpp`):

- `update` completes an entry and persists it.
- `initiateOffload` records an offload URI and asks the host to transfer the dump.
- `delete_` is a guarded delete. It silently skips an in-progress entry
  during a memory-preserving reboot. It refuses with `Unavailable` while an
  offload URI is set and the host runs. It asks the host to free its copy
  (source dump id, transport type 3) when the host runs and the id is valid,
  and refuses with `Unavailable` if that fails. Otherwise it drops the entry
  and then, best effort, its directory `SYSTEM_DUMP_SERIAL_PATH/<id>`.

The second is the host-state oracle of `dump_utils.cpp`: `getService`,
`getStateValue`, `getBootProgress`, `getHostState`, `isHostRunning` and
`isHostQuiesced`.

Files:

- `errors.dfy` (module `Errors`): the exceptions as an `Error` datatype, plus
  `Result` and `Outcome`.
- `dump_utils.dfy` (module `DumpUtils`): the oracle as pure functions over an
  abstract `Bus`. A `Bus` records what the bus answers at one moment to the
  object mapper's `GetObject` and to `Properties.Get`.
- `system_dump_entry.dfy` (module `SystemDumpEntry`): the class `Entry`. Its
  fields are assigned in place, and a ghost trace `calls` records every
  request the entry makes of a collaborator. Each method is proved equal to a
  specification function of the old state and of the answers it receives
  (`Updated`, `OffloadSteps`, `DeleteSteps`). The lemmas state the
  guarantees of `delete_`, `update` and `initiateOffload` about these
  functions. `ServeAll` runs any sequence of these requests against one
  entry, as its owner would dispatch them, and the lemmas about it state
  what holds over the entry's whole life: removal is terminal, and the host
  frees the entry's storage at most once.
- `scenarios.dfy` (module `DumpScenarios`): concrete buses, four delete
  scenarios run through the `Entry` class, and a remote delete retried after
  a failure.

Every answer from outside is an input:

- `isInMpReboot`;
- each of the two `isHostRunning` queries in `delete_` (lines 55 and 73). They
  are separate inputs and may differ. `AnswersFromBuses` derives both from two
  separate bus snapshots;
- `requestDelete`, `requestOffload`, and the base entry's recording of the URI;
- `remove_all`.

Notes on behaviour, following the code:

- A string that names no enumerator makes the generated converter throw. That
  happens outside `getStateValue`'s `try`, so `getBootProgress` and
  `getHostState` can fail with that decoding error (`InvalidEnumString`), not
  only with "Failed to get host state property".
- When the mapper finds no provider, `getService` returns the empty string.
  `getStateValue` then tries to build `Properties.Get` for that empty
  destination. sd-bus refuses to build it, and the resulting sdbusplus
  exception is caught like a failing call. So with no provider the state
  query fails with "Failed to get host state property" and nothing is sent.
- `update` sets the source dump id every time it is called. Nothing checks
  that the id was unset before.
- `update` always sets the status to `Completed`. The model has the
  `Failed` and `Aborted` statuses, but no operation produces them.

## Model

| member | source | states |
|---|---|---|
| DumpUtils.GetService | dump_utils.cpp:14-50 | the mapper is asked about the path and a one-element interface list; the result is the first listed service, or "" when the reply is empty or the call faults |
| DumpUtils.GetServiceListed | dump_utils.cpp:28-49 | a non-empty service is one the mapper listed; a reply that lists nothing gives "" |
| DumpUtils.GetStateValue | dump_utils.cpp:79-124 | yields string s exactly when the mapper names a provider and that provider answers Properties.Get with s; no provider, a faulting call and a non-string value all give the same StateQueryFailed error |
| DumpUtils.BootProgressFromString | dump_utils.cpp:61-62 | a decoded stage is the one whose full enumeration string was given; anything else is InvalidEnumString |
| DumpUtils.BootProgressRoundTrip | dump_utils.cpp:61-62 | decoding the string of any stage gives that stage back |
| DumpUtils.HostStateFromString | dump_utils.cpp:74-75 | a decoded host state is the one whose full enumeration string was given; anything else is InvalidEnumString |
| DumpUtils.HostStateRoundTrip | dump_utils.cpp:74-75 | decoding the string of any host state gives that state back |
| DumpUtils.GetBootProgress | dump_utils.cpp:52-64 | yields stage p exactly when the mapper names a provider and that provider holds the string of p in BootProgress of the boot-progress interface on /xyz/openbmc_project/state/host0; with no provider it fails with StateQueryFailed; it fails only with StateQueryFailed (exactly when getStateValue fails) or InvalidEnumString |
| DumpUtils.GetHostState | dump_utils.cpp:66-77 | yields state h exactly when the mapper names a provider and that provider holds the string of h in CurrentHostState of the host interface on host0; with no provider it fails with StateQueryFailed; it fails only with StateQueryFailed (exactly when getStateValue fails) or InvalidEnumString |
| DumpUtils.IsHostRunning | dump_utils.cpp:126-139 | true iff the stage read is SystemInitComplete, SystemSetup, OSStart or OSRunning; a failed read is passed on, never read as false; with no provider it is StateQueryFailed |
| DumpUtils.IsHostQuiesced | dump_utils.cpp:141-149 | true iff the host state read is Quiesced; a failed read is passed on, never read as false; with no provider it is StateQueryFailed |
| DumpUtils.NotRunningStages | dump_utils.cpp:131-138 | the stages not counted as running are exactly the other seven |
| DumpUtils.HostRunningFromBus | dump_utils.cpp:126-139 | end to end: Ok(true) iff a provider named by the mapper holds the string of a running stage at host0's BootProgress; Ok(false) iff it holds the string of another stage |
| DumpUtils.HostQuiescedFromBus | dump_utils.cpp:141-149 | end to end: Ok(true) iff a provider named by the mapper holds the string of Quiesced at host0's CurrentHostState |
| SystemDumpEntry.Updated | dump-extensions/openpower-dumps/system_dump_entry.cpp:110-123 | the updated entry is the same entry (id and offload URI kept), now Completed, with its completion time equal to its elapsed time |
| SystemDumpEntry.UpdateCompletes | dump-extensions/openpower-dumps/system_dump_entry.cpp:110-123 | update sets elapsed and completedTime to the time stamp, size, source dump id and status Completed; id and offload URI are untouched |
| SystemDumpEntry.UpdateIdempotent | dump-extensions/openpower-dumps/system_dump_entry.cpp:110-123 | replaying update with the same arguments changes nothing |
| SystemDumpEntry.Entry.Update | dump-extensions/openpower-dumps/system_dump_entry.cpp:110-123 | the new fields are those of Updated; exactly one call is made, serialize of the completed entry; the entry stays present |
| SystemDumpEntry.OffloadSteps | dump-extensions/openpower-dumps/system_dump_entry.cpp:26-35 | recording the URI comes first; requestOffload for the current source dump id is made iff recording succeeded; only the offload URI can change |
| SystemDumpEntry.OffloadOrder | dump-extensions/openpower-dumps/system_dump_entry.cpp:33-34 | the URI is recorded, then the transfer is requested; either failure is passed on unchanged; a failed transfer request leaves the URI recorded |
| SystemDumpEntry.Entry.InitiateOffload | dump-extensions/openpower-dumps/system_dump_entry.cpp:26-35 | outcome, new fields and calls are those of OffloadSteps; the entry stays present |
| SystemDumpEntry.AnswersFromBuses | dump-extensions/openpower-dumps/system_dump_entry.cpp:55-78 | the two isHostRunning queries read separate buses: each answers true exactly when its own bus's provider holds the string of a running stage; the other answers are passed through |
| SystemDumpEntry.DeleteSteps | dump-extensions/openpower-dumps/system_dump_entry.cpp:37-108 | isInMpReboot is asked first; removal only with a normal return and as the last two calls (entry, then directory); no removal call otherwise; any requestDelete is for the entry's valid source dump id and type 3 |
| SystemDumpEntry.RemoteThenLocal | dump-extensions/openpower-dumps/system_dump_entry.cpp:71-103 | for the part after the guards: the trace starts with the reboot query, the entry is erased (then its directory removed, as the last two calls) only on normal return, and any remote delete carries the valid source dump id and transport type 3 |
| SystemDumpEntry.Entry.Delete | dump-extensions/openpower-dumps/system_dump_entry.cpp:37-108 | outcome, calls and presence are those of DeleteSteps; no field of the entry changes |
| SystemDumpEntry.DeleteSkippedInMpReboot | dump-extensions/openpower-dumps/system_dump_entry.cpp:40-51 | in a memory-preserving reboot an in-progress entry is kept, with a normal return and no call but isInMpReboot |
| SystemDumpEntry.DeleteNotSkippedUnlessInProgress | dump-extensions/openpower-dumps/system_dump_entry.cpp:42-43 | an entry that is not in progress passes the reboot guard and delete_ goes on to query the host |
| SystemDumpEntry.DeleteBlockedByOffload | dump-extensions/openpower-dumps/system_dump_entry.cpp:55-62 | with an offload URI and the host running: Unavailable, the entry kept, no remote delete |
| SystemDumpEntry.RemoteDeleteExactlyWhen | dump-extensions/openpower-dumps/system_dump_entry.cpp:73-78 | requestDelete is made iff both guards pass, the second host query says running and the source dump id is valid; always with type 3 |
| SystemDumpEntry.RemoteDeleteAtMostOnce | dump-extensions/openpower-dumps/system_dump_entry.cpp:73-91 | at most one requestDelete per delete_; a successful one is always followed by removal of the entry |
| SystemDumpEntry.NoRemoteDeleteWhenHostDownOrIdInvalid | dump-extensions/openpower-dumps/system_dump_entry.cpp:73-91 | host down or id invalid: no remote call, and the entry is removed |
| SystemDumpEntry.RemoteDeleteFailureBlocks | dump-extensions/openpower-dumps/system_dump_entry.cpp:80-87 | a failed requestDelete gives Unavailable; the entry stays and its directory is not touched |
| SystemDumpEntry.DeleteRemovesExactlyWhen | dump-extensions/openpower-dumps/system_dump_entry.cpp:90-103 | the entry is removed iff both guards pass, the second query answers and any due remote delete succeeded; the remove_all answer never matters |
| SystemDumpEntry.DeleteQueryFailurePropagates | dump-extensions/openpower-dumps/system_dump_entry.cpp:42-91 | a failing isInMpReboot or host query ends delete_ with that failure, before anything is removed |
| SystemDumpEntry.HostQueriesAreIndependent | dump-extensions/openpower-dumps/system_dump_entry.cpp:55-78 | the two isHostRunning answers are separate: down at the offload check and up at line 73 still gives the remote delete and the removal |
| SystemDumpEntry.OffloadThenDeleteBlocked | dump-extensions/openpower-dumps/system_dump_entry.cpp:26-62 | once initiateOffload has recorded a URI, delete_ is refused while the host runs, even if the transfer request failed |
| SystemDumpEntry.UpdateThenDeleteRemoves | dump-extensions/openpower-dumps/system_dump_entry.cpp:37-123 | a completed entry is not held back by a memory-preserving reboot; with no URI and the host down it is removed without a remote call |
| SystemDumpEntry.Serve | dump-extensions/openpower-dumps/system_dump_entry.cpp:26-123 | serving one request keeps the id, only extends the trace, and leaves a removed entry exactly as it was |
| SystemDumpEntry.ServeAll | dump-extensions/openpower-dumps/system_dump_entry.cpp:26-123 | serving a run of requests keeps the id, only extends the trace, and never brings a removed entry back |
| SystemDumpEntry.ServeKeepsConsistent | dump-extensions/openpower-dumps/system_dump_entry.cpp:90-103 | each request keeps the trace consistent: present iff no removal was asked; once removed, entry then directory are the last two calls and the entry was removed once |
| SystemDumpEntry.RemovalIsTerminal | dump-extensions/openpower-dumps/system_dump_entry.cpp:90-103 | over any run of requests the trace stays consistent, and after removal nothing more happens |
| SystemDumpEntry.GoneFreesNothing | dump-extensions/openpower-dumps/system_dump_entry.cpp:90-91 | requests that arrive after the entry is gone free no host-side storage |
| SystemDumpEntry.HostStorageFreedAtMostOnce | dump-extensions/openpower-dumps/system_dump_entry.cpp:73-91 | over any run of requests, the host frees the entry's storage at most once |
| SystemDumpEntry.OnlyUpdateSetsSourceIdAndStatus | dump-extensions/openpower-dumps/system_dump_entry.cpp:110-118 | runs of offload and delete requests leave the source dump id and the status unchanged |
| DumpScenarios.StageBusAnswers | dump_utils.cpp:126-139 | a bus reporting stage p gives p back, and running iff p is one of the four running stages |
| DumpScenarios.HostStateBusAnswers | dump_utils.cpp:141-149 | a bus reporting host state h gives h back, and quiesced iff h is Quiesced |
| DumpScenarios.FailedReadsAreNotAnswers | dump_utils.cpp:79-121 | a faulting call, a non-string value and a mapper that names no provider give StateQueryFailed, even when a running stage or Quiesced would be there to read; an unknown string gives InvalidEnumString; none reads as false |
| DumpScenarios.ScenarioA | dump-extensions/openpower-dumps/system_dump_entry.cpp:42-51 | entry 5 in progress during a memory-preserving reboot: normal return, still present and in progress |
| DumpScenarios.ScenarioB | dump-extensions/openpower-dumps/system_dump_entry.cpp:55-62 | entry 7 with an offload URI and the host running: Unavailable, still present, and the only calls are the reboot query and one host query: no remote delete |
| DumpScenarios.ScenarioC | dump-extensions/openpower-dumps/system_dump_entry.cpp:73-87 | entry 9 with source dump id 42, host running, transport delete failing: Unavailable, still present with id 42 |
| DumpScenarios.ScenarioD | dump-extensions/openpower-dumps/system_dump_entry.cpp:90-103 | entry 11 without a source dump id and the host down: removed even though remove_all fails; the whole trace is the reboot query, one host query, the entry's removal and its directory's removal, with no remote delete |
| DumpScenarios.RetriedAfterFailedRemoteDelete | dump-extensions/openpower-dumps/system_dump_entry.cpp:73-91 | after a failed requestDelete the entry stays, so the next delete_ sends requestDelete(42, 3) again; only the second, successful one removes the entry |

## Left out

- HostStorageFreedAtMostOnce: counts only the requestDelete calls the host
  answers successfully. A failed requestDelete leaves the entry, and the next
  `delete_` asks again for the same source dump id, so the same id can be
  requested more than once; `RetriedAfterFailedRemoteDelete` shows two such
  requests.
- GetService: building the `GetObject` call (dump_utils.cpp:20-24) lies
  outside `getService`'s `try`, so a failure there throws out of `getService`
  instead of giving "". The model gives "" for it, as for a faulting call.
  Through `getStateValue` both end the same way, with StateQueryFailed.
- D-Bus plumbing. This covers creating the bus, building and sending the
  `GetObject` and `Properties.Get` calls, and the `readDBusProperty` template
  (dump_utils.hpp:139-167). Only the replies are modelled, as a `Bus` value.
- Bus creation failure in `getStateValue`. It is caught by the same handler as
  a failing call and gives the same error. The model folds it into the
  property reply.
- The sdbusplus-generated string-to-enumeration converters are not part of
  this model. `BootProgressFromString` and `HostStateFromString` stand in for
  them. They accept exactly the full names "<interface>.<enumeration>.<value>"
  and give `InvalidEnumString` for anything else.
- The boot-progress and host-state enumerations are written as this
  generation of the interfaces defines them. Their header is not part of this
  model.
- `EventDeleter` and `CustomFd` (dump_utils.hpp:24-70). They are resource
  wrappers with no decision logic.
- `isInMpReboot`, `host::requestOffload`, `host::requestDelete`, `serialize`,
  and the base entry's `delete_` and `initiateOffload` are defined in files
  that are not part of this model. Their answers are inputs and their calls
  are recorded in the trace.
- The base entry's `delete_` is taken to always drop the entry, and
  `serialize` is taken to always succeed. Neither is given a failure input.
- `INVALID_SOURCE_ID` is defined in a header that is not part of this model.
  It is taken as 0xFFFFFFFF.
- Path construction and `SYSTEM_DUMP_SERIAL_PATH`. The directory removed is
  identified by the entry id (`RemoveAll(id)`), and `remove_all` is a
  succeed-or-fail input.
- Logging and message formatting. They have no effect on behaviour.
- Concurrency, and the race window between the guards and the actions across
  remote round trips. Each operation is modelled as one sequential run.
- Integer widths. `u32` and `u64` bound the ids, sizes and time stamps. No
  operation does arithmetic on them, so wrap-around does not arise.
