/** Concrete buses and entries: what the host-state predicates answer for
    given bus contents, and four delete_ scenarios run end to end through
    the `Entry` class. */
module DumpScenarios {
  import opened Errors
  import opened DumpUtils
  import opened SystemDumpEntry

  /** A bus whose mapper names one provider for any query and whose every
      property read gives `reply`. */
  function FixedBus(reply: PropertyReply): Bus
  {
    Bus((path, ifaces) => MapperObjects([("xyz.openbmc_project.State.Host", ifaces)]),
        (service, path, iface, prop) => reply)
  }

  /** A bus whose mapper lists no provider for any query, while a
      Properties.Get would answer `reply` if it could be sent. */
  function NoProviderBus(reply: PropertyReply): Bus
  {
    Bus((path, ifaces) => MapperObjects([]), (service, path, iface, prop) => reply)
  }

  /** A bus on which host0 reports boot stage `p`. */
  function StageBus(p: BootProgress): Bus
  {
    FixedBus(PropertyValue(StringValue(BootProgressString(p))))
  }

  /** A bus on which host0 reports host state `h`. */
  function HostStateBus(h: HostState): Bus
  {
    FixedBus(PropertyValue(StringValue(HostStateString(h))))
  }

  /** Reading a stage back from the bus gives the stage, and the host counts
      as running for exactly the four running stages. */
  lemma {:induction false} StageBusAnswers(p: BootProgress)
    ensures GetBootProgress(StageBus(p)) == Ok(p)
    ensures IsHostRunning(StageBus(p)) == Ok(p in RunningStages)
  {
    var bus := StageBus(p);
    assert PropertyRead(bus, BootProgressInterface, HostStateObjPath, BootProgressProperty)
      == PropertyValue(StringValue(BootProgressString(p)));
  }

  /** The host counts as quiesced for exactly the Quiesced state. */
  lemma {:induction false} HostStateBusAnswers(h: HostState)
    ensures GetHostState(HostStateBus(h)) == Ok(h)
    ensures IsHostQuiesced(HostStateBus(h)) == Ok(h == Quiesced)
  {
    var bus := HostStateBus(h);
    assert PropertyRead(bus, HostStateInterface, HostStateObjPath, CurrentHostStateProperty)
      == PropertyValue(StringValue(HostStateString(h)));
  }

  /** A faulting bus call, a property that is not a string and a mapper
      that names no provider all give the state-query error, even when a
      running stage would be there to read; a string that names no stage
      gives the decoding error. None of them reads as "not running". */
  lemma {:induction false} FailedReadsAreNotAnswers()
    ensures IsHostRunning(NoProviderBus(PropertyValue(StringValue(BootProgressString(OSRunning)))))
      == Err(StateQueryFailed)
    ensures IsHostQuiesced(NoProviderBus(PropertyValue(StringValue(HostStateString(Quiesced)))))
      == Err(StateQueryFailed)
    ensures IsHostRunning(FixedBus(PropertyFault)) == Err(StateQueryFailed)
    ensures IsHostRunning(FixedBus(PropertyValue(BoolValue(true)))) == Err(StateQueryFailed)
    ensures IsHostQuiesced(FixedBus(PropertyValue(StringsValue([])))) == Err(StateQueryFailed)
    ensures IsHostRunning(FixedBus(PropertyValue(StringValue("OSRunning")))) == Err(InvalidEnumString)
  {
    var s := "OSRunning";
    assert !(BootProgressPrefix <= s) by {
      assert |s| < |BootProgressPrefix|;
    }
    assert GetStateValue(FixedBus(PropertyValue(StringValue(s))), BootProgressInterface,
                         HostStateObjPath, BootProgressProperty) == Ok(s);
  }

  /** An entry with the given id, status, offload URI and source dump id. */
  function Sample(id: u32, status: OperationStatus, uri: string, src: u32): EntryState
  {
    EntryState(id, 0, 0, 0, status, uri, src)
  }

  /** Scenario A: entry 5 in progress during a memory-preserving reboot; the
      delete returns normally and the entry stays, still in progress. */
  method ScenarioA() returns (outcome: Outcome, present: bool, status: OperationStatus)
    ensures outcome == Pass && present && status == InProgress
  {
    var entry := new Entry(Sample(5, InProgress, "", INVALID_SOURCE_ID));
    outcome := entry.Delete(AnswersFromBuses(Ok(true), StageBus(OSRunning), StageBus(OSRunning),
                                             Pass, Pass));
    present, status := entry.present, entry.status;
  }

  /** Scenario B: entry 7 being offloaded while the host runs; the delete is
      refused with Unavailable and no remote delete is asked for. */
  method ScenarioB() returns (outcome: Outcome, present: bool, ghost calls: seq<Call>)
    ensures outcome == Fail(Unavailable) && present
    ensures calls == [QueryMpReboot, QueryHostRunning]
    ensures forall c :: c in calls ==> !c.RequestDelete?
  {
    var entry := new Entry(Sample(7, Completed, "sftp://collector/dumps/7", 12));
    StageBusAnswers(OSRunning);
    outcome := entry.Delete(AnswersFromBuses(Ok(false), StageBus(OSRunning), StageBus(OSRunning),
                                             Pass, Pass));
    present, calls := entry.present, entry.calls;
  }

  /** Scenario C: entry 9 with source dump id 42, the host running and the
      transport's delete failing; Unavailable, and the entry stays with its
      source dump id. */
  method ScenarioC() returns (outcome: Outcome, present: bool, src: u32)
    ensures outcome == Fail(Unavailable) && present && src == 42
  {
    var entry := new Entry(Sample(9, Completed, "", 42));
    StageBusAnswers(OSStart);
    outcome := entry.Delete(AnswersFromBuses(Ok(false), StageBus(OSStart), StageBus(OSStart),
                                             Fail(External("transport")), Pass));
    present, src := entry.present, entry.sourceDumpId;
  }

  /** A failed remote delete leaves the entry, so the next delete_ asks the
      host again to free the same source dump id: requestDelete(42, 3) is
      sent twice, and only the second, successful one removes the entry. */
  lemma RetriedAfterFailedRemoteDelete()
    ensures var e := Sample(9, Completed, "", 42);
      var failing := DeleteEnv(Ok(false), Ok(true), Ok(true), Fail(External("transport")), Pass);
      var passing := DeleteEnv(Ok(false), Ok(true), Ok(true), Pass, Pass);
      var final := ServeAll(Life(e, true, []), [DeleteRequest(failing), DeleteRequest(passing)]);
      final.calls == [QueryMpReboot, QueryHostRunning, RequestDelete(42, 3),
                      QueryMpReboot, QueryHostRunning, RequestDelete(42, 3),
                      EraseEntry(9), RemoveAll(9)] &&
      !final.present
  {
    var e := Sample(9, Completed, "", 42);
    var failing := DeleteEnv(Ok(false), Ok(true), Ok(true), Fail(External("transport")), Pass);
    var passing := DeleteEnv(Ok(false), Ok(true), Ok(true), Pass, Pass);
    var first := Serve(Life(e, true, []), DeleteRequest(failing));
    assert first == Life(e, true, [QueryMpReboot, QueryHostRunning, RequestDelete(42, 3)]);
    var second := Serve(first, DeleteRequest(passing));
    assert second.calls == first.calls + [QueryMpReboot, QueryHostRunning, RequestDelete(42, 3),
                                          EraseEntry(9), RemoveAll(9)];
    assert ServeAll(second, []) == second;
    assert [DeleteRequest(failing), DeleteRequest(passing)][1..] == [DeleteRequest(passing)];
    assert ServeAll(first, [DeleteRequest(passing)]) == ServeAll(second, []);
  }

  /** Scenario D: entry 11 without a source dump id and the host not
      running; the entry and its directory are removed, no remote call is
      made, and a failing directory removal changes nothing. */
  method ScenarioD() returns (outcome: Outcome, present: bool, ghost calls: seq<Call>)
    ensures outcome == Pass && !present
    ensures calls == [QueryMpReboot, QueryHostRunning, EraseEntry(11), RemoveAll(11)]
    ensures forall c :: c in calls ==> !c.RequestDelete?
  {
    var entry := new Entry(Sample(11, Completed, "", INVALID_SOURCE_ID));
    StageBusAnswers(PCIInit);
    outcome := entry.Delete(AnswersFromBuses(Ok(true), StageBus(PCIInit), StageBus(PCIInit),
                                             Pass, Fail(External("remove_all"))));
    present, calls := entry.present, entry.calls;
  }
}
