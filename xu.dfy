/**
 * The tool's `main`: argument check, context/device/handle acquisition, identity
 * check of the first extension unit, one control transfer, report, and the staged
 * release that falls through from the handle to the device to the context.
 *
 * The library is not modelled; `Responses` holds what each of its calls returns
 * in one run. `Behaviour` is the run as a value (event trace and exit code);
 * `RunXu` is the step-by-step program, proved to produce exactly that run.
 */
module Xu {
  import opened XuTypes
  import opened DeviceLocator
  import opened CommandResolver
  import opened TransferExecutor
  import opened Trace
  import opened ResultReporter

  /** What each library call returns in one run. */
  datatype Responses = Responses(
    init: int,                        // uvc_init
    find: int,                        // uvc_find_device
    open: int,                        // uvc_open
    firstUnit: Option<ExtensionUnit>, // head of uvc_get_extension_units
    getRet: int,                      // uvc_get_ctrl
    getData: VersionBuffer,           // the buffer uvc_get_ctrl fills
    setRet: int)                      // uvc_set_ctrl

  /** The exit code of `main` and everything observable the run did. */
  datatype Run = Run(exitCode: int, trace: seq<Event>)

  /** The release label a run reaches once past the context's creation. */
  datatype Stage = ContextHeld | DeviceHeld | HandleHeld

  /** The fall-through release sequence from each label to the end of `main`. */
  function Teardown(s: Stage): seq<Event>
  {
    match s
    case HandleHeld => [Released(Handle), Released(Device), Released(Context)]
    case DeviceHeld => [Released(Device), Released(Context)]
    case ContextHeld => [Released(Context)]
  }

  function Reached(lib: Responses): Stage
  {
    if lib.find < 0 then ContextHeld else if lib.open < 0 then DeviceHeld else HandleHeld
  }

  /** The transfer and its report, once the vendor unit `unit` has been found. */
  function Exchange(arg: Arg, unit: byte, lib: Responses): seq<Event>
  {
    match Resolve(arg)
    case Unknown => [UsagePrinted]
    case Get(selector, length) =>
      [GetCtrlIssued(unit, selector, length), ReportVersion(lib.getRet, lib.getData)]
    case Set(selector, payload) =>
      [SetCtrlIssued(unit, selector, payload, COMMAND_WORD_LENGTH), ReportCommand(arg, lib.setRet)]
  }

  /** Everything done while the device handle is open. */
  function WithHandle(arg: Arg, lib: Responses): seq<Event>
  {
    [ExtensionUnitsQueried] +
    match Locate(lib.firstUnit)
    case NotFound => [ControlUnitMissing]
    case Mismatch => [GuidNotMatched]
    case Found(unit) => Exchange(arg, unit, lib)
  }

  /** Everything done after the context was created and before the release labels. */
  function Session(arg: Arg, lib: Responses): seq<Event>
  {
    if lib.find < 0 then
      [FindDeviceCalled(lib.find), ErrorReported(UvcFindDevice, lib.find)]
    else if lib.open < 0 then
      [FindDeviceCalled(lib.find), OpenCalled(lib.open), ErrorReported(UvcOpen, lib.open)]
    else
      [FindDeviceCalled(lib.find), OpenCalled(lib.open)] + WithHandle(arg, lib)
  }

  /** One run of `main` with `argc` arguments, `arg` as the first one. */
  function Behaviour(argc: int, arg: Arg, lib: Responses): Run
  {
    if argc != 2 then
      Run(0, [UsagePrinted])
    else if lib.init < 0 then
      Run(lib.init, [InitCalled(lib.init), ErrorReported(UvcInit, lib.init)])
    else
      Run(0, [InitCalled(lib.init)] + Session(arg, lib) + Teardown(Reached(lib)))
  }

  /**
   * The part of `main` that runs while the device handle is open: the identity
   * check of the first extension unit, then the one transfer and its report.
   */
  method UseHandle(arg: Arg, lib: Responses) returns (events: seq<Event>)
    ensures events == WithHandle(arg, lib)
  {
    var eu := lib.firstUnit;
    events := [ExtensionUnitsQueried];
    if eu == None {
      events := events + [ControlUnitMissing];
      return;
    }
    var matched := MatchGuid(eu.value.guid);
    if !matched {
      events := events + [GuidNotMatched];
      return;
    }
    var unit := eu.value.unitId;
    match Resolve(arg)
    case Get(selector, length) =>
      var ret := lib.getRet;
      events := events + [GetCtrlIssued(unit, selector, length)];
      if Succeeded(ret, VERSION_LENGTH) {
        events := events + [VersionShown(CText(lib.getData))];
      } else {
        events := events + [VersionFailed(ret)];
      }
    case Set(selector, payload) =>
      var ret := lib.setRet;
      events := events + [SetCtrlIssued(unit, selector, payload, COMMAND_WORD_LENGTH)];
      if Succeeded(ret, COMMAND_WORD_LENGTH) {
        events := events + [CommandSucceeded(arg)];
      } else {
        events := events + [CommandFailed(arg, ret)];
      }
    case Unknown =>
      events := events + [UsagePrinted];
  }

  /**
   * `main`, step by step. The three labels of the C program become the three
   * guarded releases at the end, entered according to `reached`.
   */
  method RunXu(argc: int, arg: Arg, lib: Responses) returns (exitCode: int, trace: seq<Event>)
    ensures Run(exitCode, trace) == Behaviour(argc, arg, lib)
  {
    trace := [];
    if argc != 2 {
      trace := trace + [UsagePrinted];
      return 0, trace;
    }

    var res := lib.init;
    trace := trace + [InitCalled(res)];
    if res < 0 {
      trace := trace + [ErrorReported(UvcInit, res)];
      return res, trace;
    }

    var reached: Stage;
    res := lib.find;
    trace := trace + [FindDeviceCalled(res)];
    if res < 0 {
      trace := trace + [ErrorReported(UvcFindDevice, res)];
      reached := ContextHeld;
    } else {
      res := lib.open;
      trace := trace + [OpenCalled(res)];
      if res < 0 {
        trace := trace + [ErrorReported(UvcOpen, res)];
        reached := DeviceHeld;
      } else {
        reached := HandleHeld;
        var events := UseHandle(arg, lib);
        trace := trace + events;
      }
    }
    assert trace == [InitCalled(lib.init)] + Session(arg, lib);

    // release_dev:
    if reached == HandleHeld {
      trace := trace + [Released(Handle)];
    }
    // unref_dev:
    if reached != ContextHeld {
      trace := trace + [Released(Device)];
    }
    // close_ctx:
    trace := trace + [Released(Context)];
    return 0, trace;
  }

  /** The library calls succeeded and the first extension unit is the vendor's. */
  predicate Identified(argc: int, lib: Responses)
  {
    && argc == 2 && lib.init >= 0 && lib.find >= 0 && lib.open >= 0
    && lib.firstUnit.Some? && lib.firstUnit.value.guid == VENDOR_GUID
  }

  /** A wrong argument count prints usage and exits 0 before any library call. */
  lemma UsageOnWrongArgumentCount(argc: int, arg: Arg, lib: Responses)
    requires argc != 2
    ensures Behaviour(argc, arg, lib) == Run(0, [UsagePrinted])
    ensures Acquired(Behaviour(argc, arg, lib).trace) == []
  {
  }

  /**
   * The only non-zero exit is a failed context creation, which returns the
   * library's (negative) code and has nothing to release.
   */
  lemma NonZeroExitOnlyOnInitFailure(argc: int, arg: Arg, lib: Responses)
    ensures var run := Behaviour(argc, arg, lib);
      && (run.exitCode != 0 <==> argc == 2 && lib.init < 0)
      && (run.exitCode != 0 ==>
            run.exitCode == lib.init && Acquired(run.trace) == [] && Freed(run.trace) == [])
  {
    var run := Behaviour(argc, arg, lib);
    if run.exitCode != 0 {
      CollectNothing(run.trace, Acquires);
      CollectNothing(run.trace, Frees);
    }
  }

  /** The resources held at each release label, in acquisition order. */
  function Held(s: Stage): seq<Resource>
  {
    match s
    case ContextHeld => [Context]
    case DeviceHeld => [Context, Device]
    case HandleHeld => [Context, Device, Handle]
  }

  /** Each release label gives back what is held there, last acquired first. */
  lemma TeardownReleasesHeld(s: Stage)
    ensures Acquired(Teardown(s)) == [] && Freed(Teardown(s)) == Reverse(Held(s))
  {
    var handle, device, context := Released(Handle), Released(Device), Released(Context);
    CollectNothing(Teardown(s), Acquires);
    CollectCons(context, [], Frees);
    match s
    case ContextHeld =>
      assert Teardown(s) == [context] + [];
    case DeviceHeld =>
      assert Teardown(s) == [device] + [context];
      CollectCons(device, [context], Frees);
    case HandleHeld =>
      assert Teardown(s) == [handle] + ([device] + [context]);
      CollectCons(device, [context], Frees);
      CollectCons(handle, [device] + [context], Frees);
  }

  /** Nothing in the open-handle part of a run acquires or releases a resource. */
  lemma WithHandleNeutral(arg: Arg, lib: Responses)
    ensures var w := WithHandle(arg, lib);
      forall i :: 0 <= i < |w| ==> Acquires(w[i]) == [] && !w[i].Released?
  {
  }

  /** Up to the release labels, a run acquires what its label holds and releases nothing. */
  lemma SessionAcquiresHeld(arg: Arg, lib: Responses)
    requires lib.init >= 0
    ensures var head := [InitCalled(lib.init)] + Session(arg, lib);
      && Acquired(head) == Held(Reached(lib))
      && forall i :: 0 <= i < |head| ==> !head[i].Released?
  {
    if lib.find < 0 {
      FindFailedAcquires(arg, lib);
    } else if lib.open < 0 {
      OpenFailedAcquires(arg, lib);
    } else {
      OpenedAcquires(arg, lib);
    }
  }

  lemma FindFailedAcquires(arg: Arg, lib: Responses)
    requires lib.init >= 0 && lib.find < 0
    ensures var head := [InitCalled(lib.init)] + Session(arg, lib);
      && Acquired(head) == [Context]
      && forall i :: 0 <= i < |head| ==> !head[i].Released?
  {
    var init, find := InitCalled(lib.init), FindDeviceCalled(lib.find);
    var err := ErrorReported(UvcFindDevice, lib.find);
    assert [init] + Session(arg, lib) == [init] + ([find] + [err]);
    CollectCons(err, [], Acquires);
    CollectCons(find, [err], Acquires);
    CollectCons(init, [find] + [err], Acquires);
  }

  lemma OpenFailedAcquires(arg: Arg, lib: Responses)
    requires lib.init >= 0 && lib.find >= 0 && lib.open < 0
    ensures var head := [InitCalled(lib.init)] + Session(arg, lib);
      && Acquired(head) == [Context, Device]
      && forall i :: 0 <= i < |head| ==> !head[i].Released?
  {
    var init, find, open := InitCalled(lib.init), FindDeviceCalled(lib.find), OpenCalled(lib.open);
    var err := ErrorReported(UvcOpen, lib.open);
    assert [init] + Session(arg, lib) == [init] + ([find] + ([open] + [err]));
    CollectCons(err, [], Acquires);
    CollectCons(open, [err], Acquires);
    CollectCons(find, [open] + [err], Acquires);
    CollectCons(init, [find] + ([open] + [err]), Acquires);
  }

  lemma OpenedAcquires(arg: Arg, lib: Responses)
    requires lib.init >= 0 && lib.find >= 0 && lib.open >= 0
    ensures var head := [InitCalled(lib.init)] + Session(arg, lib);
      && Acquired(head) == [Context, Device, Handle]
      && forall i :: 0 <= i < |head| ==> !head[i].Released?
  {
    var init, find, open := InitCalled(lib.init), FindDeviceCalled(lib.find), OpenCalled(lib.open);
    var rest := WithHandle(arg, lib);
    assert Session(arg, lib) == [find] + ([open] + rest);
    WithHandleNeutral(arg, lib);
    CollectNothing(rest, Acquires);
    CollectCons(open, rest, Acquires);
    CollectCons(find, [open] + rest, Acquires);
    CollectCons(init, [find] + ([open] + rest), Acquires);
    NoneReleased([init, find, open], rest);
  }

  /**
   * Resource discipline of every run: what is acquired is a prefix of context,
   * device, handle; exactly that is released, once each, in reverse order; and
   * once the first release happens nothing but releases follow.
   */
  lemma ReleasesMirrorAcquisitions(argc: int, arg: Arg, lib: Responses)
    ensures var t := Behaviour(argc, arg, lib).trace;
      && Acquired(t) <= [Context, Device, Handle]
      && Freed(t) == Reverse(Acquired(t))
      && forall i, j :: 0 <= i < j < |t| && t[i].Released? ==> t[j].Released?
  {
    var t := Behaviour(argc, arg, lib).trace;
    if argc != 2 || lib.init < 0 {
      CollectNothing(t, Acquires);
      CollectNothing(t, Frees);
    } else {
      RunResources(arg, lib);
    }
  }

  /** The resource discipline of a run that created its context. */
  lemma RunResources(arg: Arg, lib: Responses)
    requires lib.init >= 0
    ensures var t := Behaviour(2, arg, lib).trace;
      && Acquired(t) == Held(Reached(lib))
      && Freed(t) == Reverse(Held(Reached(lib)))
      && forall i, j :: 0 <= i < j < |t| && t[i].Released? ==> t[j].Released?
  {
    var s := Reached(lib);
    var head := [InitCalled(lib.init)] + Session(arg, lib);
    assert Behaviour(2, arg, lib).trace == head + Teardown(s);
    SessionAcquiresHeld(arg, lib);
    TeardownReleasesHeld(s);
    CollectNothing(head, Frees);
    CollectAppend(head, Teardown(s), Acquires);
    CollectAppend(head, Teardown(s), Frees);
    ReleasesComeLast(head, Teardown(s));
  }

  /** The release actions by path, in order. */
  lemma TeardownByPath(arg: Arg, lib: Responses)
    requires lib.init >= 0
    ensures var freed := Freed(Behaviour(2, arg, lib).trace);
      && (lib.find < 0 ==> freed == [Context])
      && (lib.find >= 0 && lib.open < 0 ==> freed == [Device, Context])
      && (lib.find >= 0 && lib.open >= 0 ==> freed == [Handle, Device, Context])
  {
    ReleasesMirrorAcquisitions(2, arg, lib);
    SessionAcquiresHeld(arg, lib);
    var head := [InitCalled(lib.init)] + Session(arg, lib);
    CollectAppend(head, Teardown(Reached(lib)), Acquires);
    TeardownReleasesHeld(Reached(lib));
  }

  /** The transfers the command token asks of the vendor unit `unit`. */
  lemma ExchangeTransfers(arg: Arg, unit: byte, lib: Responses)
    ensures Transfers(Exchange(arg, unit, lib)) ==
      match Resolve(arg)
      case Unknown => []
      case Get(selector, length) => [GetCtrlIssued(unit, selector, length)]
      case Set(selector, payload) => [SetCtrlIssued(unit, selector, payload, COMMAND_WORD_LENGTH)]
  {
    var t := Exchange(arg, unit, lib);
    if !Resolve(arg).Unknown? {
      CollectCons(t[1], [], Issues);
      CollectCons(t[0], [t[1]], Issues);
      assert t == [t[0]] + [t[1]];
    } else {
      CollectCons(t[0], [], Issues);
      assert t == [t[0]] + [];
    }
  }

  /** The library calls of a run whose handle was opened, up to the extension-unit query. */
  function OpenedCalls(lib: Responses): seq<Event>
  {
    [InitCalled(lib.init), FindDeviceCalled(lib.find), OpenCalled(lib.open), ExtensionUnitsQueried]
  }

  /** A run on the vendor's device: the calls, the token's exchange, then the full teardown. */
  lemma IdentifiedRun(arg: Arg, lib: Responses)
    requires Identified(2, lib)
    ensures Behaviour(2, arg, lib).trace ==
      OpenedCalls(lib) + Exchange(arg, lib.firstUnit.value.unitId, lib) + Teardown(HandleHeld)
  {
    assert Locate(lib.firstUnit) == Found(lib.firstUnit.value.unitId);
  }

  /**
   * Transfers happen only in a run whose library calls all succeeded and whose
   * first extension unit carries the vendor code; the run then issues what its
   * token asks for and nothing else.
   */
  lemma RunTransfers(argc: int, arg: Arg, lib: Responses)
    ensures Transfers(Behaviour(argc, arg, lib).trace) ==
      if Identified(argc, lib) then Transfers(Exchange(arg, lib.firstUnit.value.unitId, lib)) else []
  {
    var t := Behaviour(argc, arg, lib).trace;
    if Identified(argc, lib) {
      var exchange := Exchange(arg, lib.firstUnit.value.unitId, lib);
      IdentifiedRun(arg, lib);
      CollectAppend(OpenedCalls(lib) + exchange, Teardown(HandleHeld), Issues);
      CollectAppend(OpenedCalls(lib), exchange, Issues);
      CollectNothing(OpenedCalls(lib), Issues);
      CollectNothing(Teardown(HandleHeld), Issues);
    } else {
      UnidentifiedRunIssuesNothing(argc, arg, lib);
    }
  }

  /** A run that does not reach the vendor unit issues no transfer. */
  lemma UnidentifiedRunIssuesNothing(argc: int, arg: Arg, lib: Responses)
    requires !Identified(argc, lib)
    ensures Transfers(Behaviour(argc, arg, lib).trace) == []
  {
    var t := Behaviour(argc, arg, lib).trace;
    if argc != 2 || lib.init < 0 {
      CollectNothing(t, Issues);
    } else if lib.find < 0 || lib.open < 0 {
      var head := [InitCalled(lib.init)] + Session(arg, lib);
      assert t == head + Teardown(Reached(lib));
      assert forall i :: 0 <= i < |head| ==> !IsTransfer(head[i]);
      CollectNothing(t, Issues);
    } else {
      UnidentifiedRun(arg, lib);
      CollectNothing(t, Issues);
    }
  }

  /** The report of an identity failure: no unit at all, or a code that differs. */
  function IdentityFailure(first: Option<ExtensionUnit>): Event
  {
    if first == None then ControlUnitMissing else GuidNotMatched
  }

  /** A run whose handle was opened on a device without the vendor unit, event by event. */
  lemma UnidentifiedRun(arg: Arg, lib: Responses)
    requires lib.init >= 0 && lib.find >= 0 && lib.open >= 0 && !Identified(2, lib)
    ensures Behaviour(2, arg, lib).trace ==
      [InitCalled(lib.init), FindDeviceCalled(lib.find), OpenCalled(lib.open), ExtensionUnitsQueried,
       IdentityFailure(lib.firstUnit), Released(Handle), Released(Device), Released(Context)]
  {
    assert WithHandle(arg, lib) == [ExtensionUnitsQueried, IdentityFailure(lib.firstUnit)];
  }

  /** Every run issues at most one transfer, and only to the vendor unit's id. */
  lemma AtMostOneTransferToVendorUnit(argc: int, arg: Arg, lib: Responses)
    ensures var xs := Transfers(Behaviour(argc, arg, lib).trace);
      && |xs| <= 1
      && (xs != [] ==> Identified(argc, lib) && IsTransfer(xs[0]) && xs[0].unit == lib.firstUnit.value.unitId)
  {
    RunTransfers(argc, arg, lib);
    if Identified(argc, lib) {
      ExchangeTransfers(arg, lib.firstUnit.value.unitId, lib);
    }
  }

  /**
   * With no extension unit, or a first unit whose code differs, the run reports
   * it and issues no transfer; the token is never looked at, so no usage text.
   */
  lemma IdentityFailureStopsRun(arg: Arg, lib: Responses)
    requires lib.init >= 0 && lib.find >= 0 && lib.open >= 0
    requires !Identified(2, lib)
    ensures var t := Behaviour(2, arg, lib).trace;
      && Transfers(t) == []
      && UsagePrinted !in t
      && (lib.firstUnit == None <==> ControlUnitMissing in t)
      && (lib.firstUnit.Some? <==> GuidNotMatched in t)
  {
    UnidentifiedRun(arg, lib);
    UnidentifiedRunIssuesNothing(2, arg, lib);
    FailureMessages(lib);
  }

  /** The messages in the event list of an unidentified run. */
  lemma FailureMessages(lib: Responses)
    ensures var t := [InitCalled(lib.init), FindDeviceCalled(lib.find), OpenCalled(lib.open),
                      ExtensionUnitsQueried, IdentityFailure(lib.firstUnit),
                      Released(Handle), Released(Device), Released(Context)];
      && UsagePrinted !in t
      && (lib.firstUnit == None <==> ControlUnitMissing in t)
      && (lib.firstUnit.Some? <==> GuidNotMatched in t)
  {
  }

  /**
   * A token starting with 'v' reads the 60-byte version once from selector 0x2
   * and shows it exactly when all 60 bytes arrived, otherwise the return code.
   */
  lemma VersionRequest(arg: Arg, lib: Responses)
    requires Identified(2, lib) && CharAt(arg, 0) == 'v'
    ensures var t := Behaviour(2, arg, lib).trace;
      && Transfers(t) == [GetCtrlIssued(lib.firstUnit.value.unitId, VERSION_SELECTOR, VERSION_LENGTH)]
      && (VersionShown(CText(lib.getData)) in t <==> lib.getRet == VERSION_LENGTH)
      && (lib.getRet != VERSION_LENGTH <==> VersionFailed(lib.getRet) in t)
  {
    var unit := lib.firstUnit.value.unitId;
    var get := GetCtrlIssued(unit, VERSION_SELECTOR, VERSION_LENGTH);
    var report := ReportVersion(lib.getRet, lib.getData);
    assert Exchange(arg, unit, lib) == [get, report];
    IdentifiedRun(arg, lib);
    RunTransfers(2, arg, lib);
    ExchangeTransfers(arg, unit, lib);
    VersionMessages(lib, get);
  }

  /** A run on the vendor's device that issues `transfer` and reports `report`, event by event. */
  function ExchangeRun(lib: Responses, transfer: Event, report: Event): seq<Event>
  {
    [InitCalled(lib.init), FindDeviceCalled(lib.find), OpenCalled(lib.open), ExtensionUnitsQueried,
     transfer, report, Released(Handle), Released(Device), Released(Context)]
  }

  /** Which version message an identified run holds. */
  lemma VersionMessages(lib: Responses, get: Event)
    requires get.GetCtrlIssued?
    ensures var t := ExchangeRun(lib, get, ReportVersion(lib.getRet, lib.getData));
      && OpenedCalls(lib) + [get, ReportVersion(lib.getRet, lib.getData)] + Teardown(HandleHeld) == t
      && (VersionShown(CText(lib.getData)) in t <==> lib.getRet == VERSION_LENGTH)
      && (lib.getRet != VERSION_LENGTH <==> VersionFailed(lib.getRet) in t)
  {
  }

  /**
   * Any other recognised token sends one 4-byte word on the selector the resolver
   * chose, and reports success exactly when the library wrote all 4 bytes.
   */
  lemma CommandRequest(arg: Arg, lib: Responses, selector: byte, payload: Payload)
    requires Identified(2, lib) && Resolve(arg) == Set(selector, payload)
    ensures var t := Behaviour(2, arg, lib).trace;
      && Transfers(t) ==
           [SetCtrlIssued(lib.firstUnit.value.unitId, selector, payload, COMMAND_WORD_LENGTH)]
      && (CommandSucceeded(arg) in t <==> lib.setRet == COMMAND_WORD_LENGTH)
      && (lib.setRet != COMMAND_WORD_LENGTH <==> CommandFailed(arg, lib.setRet) in t)
  {
    var unit := lib.firstUnit.value.unitId;
    var command := SetCtrlIssued(unit, selector, payload, COMMAND_WORD_LENGTH);
    var report := ReportCommand(arg, lib.setRet);
    assert Exchange(arg, unit, lib) == [command, report];
    IdentifiedRun(arg, lib);
    RunTransfers(2, arg, lib);
    ExchangeTransfers(arg, unit, lib);
    CommandMessages(arg, lib, command);
  }

  /** Which command message an identified run holds. */
  lemma CommandMessages(arg: Arg, lib: Responses, command: Event)
    requires command.SetCtrlIssued?
    ensures var t := ExchangeRun(lib, command, ReportCommand(arg, lib.setRet));
      && OpenedCalls(lib) + [command, ReportCommand(arg, lib.setRet)] + Teardown(HandleHeld) == t
      && (CommandSucceeded(arg) in t <==> lib.setRet == COMMAND_WORD_LENGTH)
      && (lib.setRet != COMMAND_WORD_LENGTH <==> CommandFailed(arg, lib.setRet) in t)
  {
  }

  /** An unrecognised token on the vendor's device prints usage and transfers nothing. */
  lemma UnknownTokenPrintsUsage(arg: Arg, lib: Responses)
    requires Identified(2, lib) && Resolve(arg).Unknown?
    ensures var t := Behaviour(2, arg, lib).trace;
      Transfers(t) == [] && UsagePrinted in t && Behaviour(2, arg, lib).exitCode == 0
  {
    IdentifiedRun(arg, lib);
    RunTransfers(2, arg, lib);
    ExchangeTransfers(arg, lib.firstUnit.value.unitId, lib);
  }

  /** The bytes of the label "FW-1.2.3", without a terminating zero. */
  const FIRMWARE_LABEL: seq<byte> := [0x46, 0x57, 0x2d, 0x31, 0x2e, 0x32, 0x2e, 0x33]

  /**
   * A complete version read whose buffer starts with a zero-terminated label shows
   * that label and nothing after the zero.
   */
  lemma VersionLabelShown(lib: Responses)
    requires Identified(2, lib) && lib.getRet == VERSION_LENGTH
    requires lib.getData[..|FIRMWARE_LABEL| + 1] == FIRMWARE_LABEL + [0]
    ensures VersionShown(FIRMWARE_LABEL) in Behaviour(2, "version", lib).trace
  {
    var data := lib.getData;
    assert FIRMWARE_LABEL <= data by {
      assert data[..|FIRMWARE_LABEL|] == (FIRMWARE_LABEL + [0])[..|FIRMWARE_LABEL|];
    }
    assert data[|FIRMWARE_LABEL|] == 0 by {
      assert data[|FIRMWARE_LABEL|] == data[..|FIRMWARE_LABEL| + 1][|FIRMWARE_LABEL|];
    }
    CTextUnique(data, FIRMWARE_LABEL);
    VersionRequest("version", lib);
  }
}
