/** The host-state oracle of dump_utils.cpp: which service provides a D-Bus
    interface, reading one host-state property, decoding it, and the two
    predicates the dump entries use to decide whether the host is up.

    The D-Bus itself is abstract: a `Bus` is the answer the bus gives at the
    moment of the query, to the object mapper's GetObject and to
    org.freedesktop.DBus.Properties.Get. Every query is a fresh read of the
    bus it is given; nothing is cached. */
module DumpUtils {
  import opened Errors

  /** xyz.openbmc_project.State.Boot.Progress.ProgressStages */
  datatype BootProgress =
    | Unspecified
    | PrimaryProcInit
    | BusInit
    | MemoryInit
    | SecondaryProcInit
    | PCIInit
    | SystemInitComplete
    | SystemSetup
    | OSStart
    | OSRunning
    | MotherboardInit

  /** xyz.openbmc_project.State.Host.HostState */
  datatype HostState =
    | Off
    | Running
    | Quiesced
    | DiagnosticMode
    | Standby
    | TransitioningToRunning
    | TransitioningToOff

  /** The mapper's GetObject reply, read as a list of (service, interfaces)
      pairs, or a fault of the call or of reading its reply. */
  datatype MapperReply =
    | MapperFault
    | MapperObjects(objects: seq<(string, seq<string>)>)

  /** The variant<string, bool, vector<uint8_t>, vector<string>> that
      getStateValue reads a property into. */
  datatype DBusValue =
    | StringValue(str: string)
    | BoolValue(b: bool)
    | BytesValue(bytes: seq<bv8>)
    | StringsValue(strs: seq<string>)

  /** The reply of Properties.Get, or a fault of the call or of reading it. */
  datatype PropertyReply = PropertyFault | PropertyValue(value: DBusValue)

  /** What the bus answers at one moment: GetObject(path, interfaces) and
      Properties.Get(service, object path, interface, property). */
  datatype Bus = Bus(
    getObject: (string, seq<string>) -> MapperReply,
    getProperty: (string, string, string, string) -> PropertyReply)

  const HostStateObjPath := "/xyz/openbmc_project/state/host0"
  const BootProgressInterface := "xyz.openbmc_project.State.Boot.Progress"
  const HostStateInterface := "xyz.openbmc_project.State.Host"
  const BootProgressProperty := "BootProgress"
  const CurrentHostStateProperty := "CurrentHostState"

  /** The boot stages at which the host counts as running. */
  const RunningStages: set<BootProgress> := {SystemInitComplete, SystemSetup, OSStart, OSRunning}

  // ---------------------------------------------------------------------
  // Service lookup and property read

  /** getService: the first service the mapper names for `path` and the single
      interface `iface`; the empty string when the reply is empty or the call
      faults. */
  function GetService(bus: Bus, path: string, iface: string): (service: string)
    ensures var reply := bus.getObject(path, [iface]);
      if reply.MapperObjects? && reply.objects != [] then service == reply.objects[0].0
      else service == ""
  {
    match bus.getObject(path, [iface])
    case MapperFault => ""
    case MapperObjects(objects) => if objects == [] then "" else objects[0].0
  }

  /** Whether `service` is a service the mapper reply lists. */
  predicate ListedService(reply: MapperReply, service: string)
  {
    reply.MapperObjects? && exists i :: 0 <= i < |reply.objects| && reply.objects[i].0 == service
  }

  /** GetService never invents a name: a non-empty answer is one the mapper
      listed, and a reply listing nothing gives the empty string. */
  lemma GetServiceListed(bus: Bus, path: string, iface: string)
    ensures var reply := bus.getObject(path, [iface]);
      GetService(bus, path, iface) == "" || ListedService(reply, GetService(bus, path, iface))
    ensures var reply := bus.getObject(path, [iface]);
      (forall s :: !ListedService(reply, s)) ==> GetService(bus, path, iface) == ""
  {
    var reply := bus.getObject(path, [iface]);
    if reply.MapperObjects? && reply.objects != [] {
      assert reply.objects[0].0 == GetService(bus, path, iface);
      assert ListedService(reply, reply.objects[0].0);
    }
  }

  /** The reply to Properties.Get of `prop` of `iface` on `objPath`,
      addressed to the service the mapper names. sd-bus refuses to build a
      method call to the empty destination, so when the mapper names no
      provider the call is never sent and fails like a faulting one. */
  function PropertyRead(bus: Bus, iface: string, objPath: string, prop: string): PropertyReply
  {
    var service := GetService(bus, objPath, iface);
    if service == "" then PropertyFault else bus.getProperty(service, objPath, iface, prop)
  }

  /** Whether the mapper names a provider of `iface` on `objPath` and that
      provider answers Properties.Get of `prop` with the string `s`. */
  predicate HoldsString(bus: Bus, iface: string, objPath: string, prop: string, s: string)
  {
    var service := GetService(bus, objPath, iface);
    service != "" && bus.getProperty(service, objPath, iface, prop) == PropertyValue(StringValue(s))
  }

  /** getStateValue: the string value of the property. No provider, a
      faulting call and a value of any other variant alternative all fail
      with the same error. */
  function GetStateValue(bus: Bus, iface: string, objPath: string, prop: string): (r: Result<string>)
    ensures forall s :: r == Ok(s) <==> HoldsString(bus, iface, objPath, prop, s)
    ensures GetService(bus, objPath, iface) == "" ==> r == Err(StateQueryFailed)
    ensures var service := GetService(bus, objPath, iface);
      var reply := bus.getProperty(service, objPath, iface, prop);
      r.Ok? <==> service != "" && reply.PropertyValue? && reply.value.StringValue?
    ensures r.Err? ==> r.error == StateQueryFailed
  {
    match PropertyRead(bus, iface, objPath, prop)
    case PropertyFault => Err(StateQueryFailed)
    case PropertyValue(v) =>
      match v
      case StringValue(s) => Ok(s)
      case _ => Err(StateQueryFailed)
  }

  // ---------------------------------------------------------------------
  // Enumeration strings, in the naming of the generated converters:
  // "<interface>.<enumeration>.<enumerator>"

  const BootProgressPrefix := "xyz.openbmc_project.State.Boot.Progress.ProgressStages."
  const HostStatePrefix := "xyz.openbmc_project.State.Host.HostState."

  function BootProgressName(p: BootProgress): string
  {
    match p
    case Unspecified => "Unspecified"
    case PrimaryProcInit => "PrimaryProcInit"
    case BusInit => "BusInit"
    case MemoryInit => "MemoryInit"
    case SecondaryProcInit => "SecondaryProcInit"
    case PCIInit => "PCIInit"
    case SystemInitComplete => "SystemInitComplete"
    case SystemSetup => "SystemSetup"
    case OSStart => "OSStart"
    case OSRunning => "OSRunning"
    case MotherboardInit => "MotherboardInit"
  }

  function BootProgressFromName(name: string): (r: Result<BootProgress>)
    ensures r.Ok? ==> name == BootProgressName(r.value)
  {
    match name
    case "Unspecified" => Ok(Unspecified)
    case "PrimaryProcInit" => Ok(PrimaryProcInit)
    case "BusInit" => Ok(BusInit)
    case "MemoryInit" => Ok(MemoryInit)
    case "SecondaryProcInit" => Ok(SecondaryProcInit)
    case "PCIInit" => Ok(PCIInit)
    case "SystemInitComplete" => Ok(SystemInitComplete)
    case "SystemSetup" => Ok(SystemSetup)
    case "OSStart" => Ok(OSStart)
    case "OSRunning" => Ok(OSRunning)
    case "MotherboardInit" => Ok(MotherboardInit)
    case _ => Err(InvalidEnumString)
  }

  /** The string a BootProgress property holds for stage `p`. */
  function BootProgressString(p: BootProgress): string
  {
    BootProgressPrefix + BootProgressName(p)
  }

  /** The string-to-enumeration converter for boot progress stages. */
  function BootProgressFromString(s: string): (r: Result<BootProgress>)
    ensures r.Ok? ==> s == BootProgressString(r.value)
    ensures r.Err? ==> r.error == InvalidEnumString
  {
    if BootProgressPrefix <= s then
      var r := BootProgressFromName(s[|BootProgressPrefix|..]);
      assert r.Ok? ==> s == BootProgressPrefix + s[|BootProgressPrefix|..];
      r
    else Err(InvalidEnumString)
  }

  lemma {:induction false} BootProgressRoundTrip(p: BootProgress)
    ensures BootProgressFromString(BootProgressString(p)) == Ok(p)
  {
    var s := BootProgressString(p);
    assert BootProgressPrefix <= s;
    assert s[|BootProgressPrefix|..] == BootProgressName(p);
  }

  function HostStateName(h: HostState): string
  {
    match h
    case Off => "Off"
    case Running => "Running"
    case Quiesced => "Quiesced"
    case DiagnosticMode => "DiagnosticMode"
    case Standby => "Standby"
    case TransitioningToRunning => "TransitioningToRunning"
    case TransitioningToOff => "TransitioningToOff"
  }

  function HostStateFromName(name: string): (r: Result<HostState>)
    ensures r.Ok? ==> name == HostStateName(r.value)
  {
    match name
    case "Off" => Ok(Off)
    case "Running" => Ok(Running)
    case "Quiesced" => Ok(Quiesced)
    case "DiagnosticMode" => Ok(DiagnosticMode)
    case "Standby" => Ok(Standby)
    case "TransitioningToRunning" => Ok(TransitioningToRunning)
    case "TransitioningToOff" => Ok(TransitioningToOff)
    case _ => Err(InvalidEnumString)
  }

  /** The string a CurrentHostState property holds for state `h`. */
  function HostStateString(h: HostState): string
  {
    HostStatePrefix + HostStateName(h)
  }

  /** The string-to-enumeration converter for host states. */
  function HostStateFromString(s: string): (r: Result<HostState>)
    ensures r.Ok? ==> s == HostStateString(r.value)
    ensures r.Err? ==> r.error == InvalidEnumString
  {
    if HostStatePrefix <= s then
      var r := HostStateFromName(s[|HostStatePrefix|..]);
      assert r.Ok? ==> s == HostStatePrefix + s[|HostStatePrefix|..];
      r
    else Err(InvalidEnumString)
  }

  lemma {:induction false} HostStateRoundTrip(h: HostState)
    ensures HostStateFromString(HostStateString(h)) == Ok(h)
  {
    var s := HostStateString(h);
    assert HostStatePrefix <= s;
    assert s[|HostStatePrefix|..] == HostStateName(h);
  }

  // ---------------------------------------------------------------------
  // The two state reads and the two predicates

  /** getBootProgress: reads BootProgress of the boot-progress interface on
      host0 and decodes it. It yields stage `p` exactly when the mapper names
      a provider and that provider holds the string of `p` there; with no
      provider it fails with the state-query error. */
  function GetBootProgress(bus: Bus): (r: Result<BootProgress>)
    ensures forall p :: r == Ok(p) <==>
      HoldsString(bus, BootProgressInterface, HostStateObjPath, BootProgressProperty, BootProgressString(p))
    ensures GetService(bus, HostStateObjPath, BootProgressInterface) == "" ==> r == Err(StateQueryFailed)
    ensures r.Err? ==> r.error == StateQueryFailed || r.error == InvalidEnumString
    ensures r.Err? && r.error == StateQueryFailed <==>
      GetStateValue(bus, BootProgressInterface, HostStateObjPath, BootProgressProperty).Err?
  {
    match GetStateValue(bus, BootProgressInterface, HostStateObjPath, BootProgressProperty)
    case Err(e) => Err(e)
    case Ok(value) =>
      var r := BootProgressFromString(value);
      assert forall p :: BootProgressFromString(BootProgressString(p)) == Ok(p) by {
        forall p ensures BootProgressFromString(BootProgressString(p)) == Ok(p) {
          BootProgressRoundTrip(p);
        }
      }
      r
  }

  /** getHostState: reads CurrentHostState of the host-state interface on
      host0 and decodes it. It yields state `h` exactly when the mapper names
      a provider and that provider holds the string of `h` there; with no
      provider it fails with the state-query error. */
  function GetHostState(bus: Bus): (r: Result<HostState>)
    ensures forall h :: r == Ok(h) <==>
      HoldsString(bus, HostStateInterface, HostStateObjPath, CurrentHostStateProperty, HostStateString(h))
    ensures GetService(bus, HostStateObjPath, HostStateInterface) == "" ==> r == Err(StateQueryFailed)
    ensures r.Err? ==> r.error == StateQueryFailed || r.error == InvalidEnumString
    ensures r.Err? && r.error == StateQueryFailed <==>
      GetStateValue(bus, HostStateInterface, HostStateObjPath, CurrentHostStateProperty).Err?
  {
    match GetStateValue(bus, HostStateInterface, HostStateObjPath, CurrentHostStateProperty)
    case Err(e) => Err(e)
    case Ok(value) =>
      var r := HostStateFromString(value);
      assert forall h :: HostStateFromString(HostStateString(h)) == Ok(h) by {
        forall h ensures HostStateFromString(HostStateString(h)) == Ok(h) {
          HostStateRoundTrip(h);
        }
      }
      r
  }

  /** isHostRunning: whether the boot stage is one of the four running
      stages. A failed read is passed on, never read as "not running". */
  function IsHostRunning(bus: Bus): (r: Result<bool>)
    ensures r.Ok? <==> GetBootProgress(bus).Ok?
    ensures r.Ok? ==> (r.value <==> GetBootProgress(bus).value in RunningStages)
    ensures r.Err? ==> r.error == GetBootProgress(bus).error
    ensures GetService(bus, HostStateObjPath, BootProgressInterface) == "" ==> r == Err(StateQueryFailed)
  {
    match GetBootProgress(bus)
    case Err(e) => Err(e)
    case Ok(stage) =>
      Ok(stage == SystemInitComplete || stage == SystemSetup || stage == OSStart || stage == OSRunning)
  }

  /** isHostQuiesced: whether the host state is Quiesced. A failed read is
      passed on, never read as "not quiesced". */
  function IsHostQuiesced(bus: Bus): (r: Result<bool>)
    ensures r.Ok? <==> GetHostState(bus).Ok?
    ensures r.Ok? ==> (r.value <==> GetHostState(bus).value == Quiesced)
    ensures r.Err? ==> r.error == GetHostState(bus).error
    ensures GetService(bus, HostStateObjPath, HostStateInterface) == "" ==> r == Err(StateQueryFailed)
  {
    match GetHostState(bus)
    case Err(e) => Err(e)
    case Ok(state) => Ok(state == Quiesced)
  }

  /** The stages at which the host does NOT count as running are exactly the
      other seven. */
  lemma NotRunningStages(p: BootProgress)
    ensures p !in RunningStages <==>
      p in {Unspecified, PrimaryProcInit, BusInit, MemoryInit, SecondaryProcInit, PCIInit, MotherboardInit}
  {
  }

  /** End to end: the host is reported running exactly when the bus holds,
      at host0's BootProgress, the string of one of the four running stages;
      and it is reported not running exactly when the bus holds the string
      of some other stage. */
  lemma {:induction false} HostRunningFromBus(bus: Bus)
    ensures IsHostRunning(bus) == Ok(true) <==>
      exists p :: p in RunningStages &&
        HoldsString(bus, BootProgressInterface, HostStateObjPath, BootProgressProperty, BootProgressString(p))
    ensures IsHostRunning(bus) == Ok(false) <==>
      exists p :: p !in RunningStages &&
        HoldsString(bus, BootProgressInterface, HostStateObjPath, BootProgressProperty, BootProgressString(p))
  {
    if r :| HoldsString(bus, BootProgressInterface, HostStateObjPath, BootProgressProperty, BootProgressString(r)) {
      assert GetBootProgress(bus) == Ok(r);
    }
  }

  /** End to end for isHostQuiesced: true exactly when the bus holds the
      string of Quiesced at host0's CurrentHostState. */
  lemma {:induction false} HostQuiescedFromBus(bus: Bus)
    ensures IsHostQuiesced(bus) == Ok(true) <==>
      HoldsString(bus, HostStateInterface, HostStateObjPath, CurrentHostStateProperty, HostStateString(Quiesced))
  {
    if HoldsString(bus, HostStateInterface, HostStateObjPath, CurrentHostStateProperty, HostStateString(Quiesced)) {
      assert GetHostState(bus) == Ok(Quiesced);
    }
  }
}
