/**
 * The step sequence of `switch_device` and `try_control_transfer`, and the outcome reported by the
 * mode-switch tool's entry point. The opened device is a `Handle` whose libusb outcomes are fixed
 * when it is created (which interfaces have a kernel driver, which can be claimed, the results of
 * the successive bulk transfers, the reset result) and which records, in order, every operation
 * attempted on it.
 */
module ModeSwitchSequencer {
  import opened Basics
  import opened UsbDescriptors
  import opened ModeSwitchPayloads
  import opened ModeSwitchEndpoint
  import opened ModeSwitchCatalog
  import opened PidTables

  /** Interfaces 0..7 are checked for an active kernel driver. */
  const DETACH_INTERFACES := 8
  const SWITCH_TIMEOUT_MS := 2000
  const PROBE_TIMEOUT_MS := 1000
  const CONTROL_TIMEOUT_MS := 1000
  /** The endpoints tried, in this order, when no bulk OUT endpoint is known. */
  const PROBE_ENDPOINTS: seq<int> := [0x01, 0x02, 0x03, 0x04, 0x05]
  /** Pauses between the three messages and before the rescan; pacing only, not modelled. */
  const MESSAGE_GAP_US := 500000
  const SETTLE_SECONDS := 3

  /** LIBUSB_REQUEST_TYPE_STANDARD | LIBUSB_RECIPIENT_DEVICE | LIBUSB_ENDPOINT_OUT. */
  const REQUEST_TYPE_STANDARD_DEVICE_OUT: byte := 0x00
  const REQUEST_SET_FEATURE: byte := 0x03
  const LIBUSB_SUCCESS := 0
  const LIBUSB_ERROR_NOT_FOUND := -5

  /** An operation attempted on the device. */
  datatype Op =
    | KernelDriverQuery(interfaceNumber: int)
    | DetachKernelDriver(interfaceNumber: int)
    | ClaimInterface(interfaceNumber: int)
    | BulkTransfer(endpoint: int, payload: Payload, timeoutMs: nat)
    | ReleaseInterface(interfaceNumber: int)
    | ControlTransfer(requestType: byte, request: byte, value: u16, index: u16, length: nat, timeoutMs: nat)
    | SetConfiguration(configuration: int)
    | ResetDevice

  /** Bulk transfer `k` (counting from 0) succeeds; once the scripted outcomes run out, transfers fail. */
  predicate BulkSucceeds(outcomes: seq<bool>, k: nat) {
    k < |outcomes| && outcomes[k]
  }

  /** The outcomes left after `k` transfers. */
  function Drop(outcomes: seq<bool>, k: nat): seq<bool> {
    if k <= |outcomes| then outcomes[k..] else []
  }

  class Handle {
    /** The active configuration descriptor of the device behind the handle. */
    const config: ConfigFetch
    /** Interfaces for which `libusb_kernel_driver_active` reports 1. */
    const activeDrivers: set<int>
    /** Interfaces `libusb_claim_interface` accepts. */
    const claimable: set<int>
    /** The code `libusb_reset_device` returns. */
    const resetResult: int
    /** Outcomes of the bulk transfers still to come, in order. */
    var bulkOutcomes: seq<bool>
    /** Every operation attempted so far, in order. */
    var log: seq<Op>

    constructor(config: ConfigFetch, activeDrivers: set<int>, claimable: set<int>,
                bulkOutcomes: seq<bool>, resetResult: int)
      ensures this.config == config && this.activeDrivers == activeDrivers
      ensures this.claimable == claimable && this.resetResult == resetResult
      ensures this.bulkOutcomes == bulkOutcomes && log == []
    {
      this.config := config;
      this.activeDrivers := activeDrivers;
      this.claimable := claimable;
      this.resetResult := resetResult;
      this.bulkOutcomes := bulkOutcomes;
      log := [];
    }

    method KernelDriverActive(interfaceNumber: int) returns (active: bool)
      modifies this
      ensures active <==> interfaceNumber in activeDrivers
      ensures log == old(log) + [KernelDriverQuery(interfaceNumber)] && bulkOutcomes == old(bulkOutcomes)
    {
      active := interfaceNumber in activeDrivers;
      log := log + [KernelDriverQuery(interfaceNumber)];
    }

    method DetachKernelDriver(interfaceNumber: int)
      modifies this
      ensures log == old(log) + [Op.DetachKernelDriver(interfaceNumber)] && bulkOutcomes == old(bulkOutcomes)
    {
      log := log + [Op.DetachKernelDriver(interfaceNumber)];
    }

    method ClaimInterface(interfaceNumber: int) returns (claimed: bool)
      modifies this
      ensures claimed <==> interfaceNumber in claimable
      ensures log == old(log) + [Op.ClaimInterface(interfaceNumber)] && bulkOutcomes == old(bulkOutcomes)
    {
      claimed := interfaceNumber in claimable;
      log := log + [Op.ClaimInterface(interfaceNumber)];
    }

    /** One bulk OUT transfer; it consumes the next scripted outcome. */
    method BulkTransfer(endpoint: int, payload: Payload, timeoutMs: nat) returns (ok: bool)
      modifies this
      ensures ok <==> BulkSucceeds(old(bulkOutcomes), 0)
      ensures bulkOutcomes == Drop(old(bulkOutcomes), 1)
      ensures log == old(log) + [Op.BulkTransfer(endpoint, payload, timeoutMs)]
    {
      ok := |bulkOutcomes| > 0 && bulkOutcomes[0];
      bulkOutcomes := if |bulkOutcomes| > 0 then bulkOutcomes[1..] else [];
      log := log + [Op.BulkTransfer(endpoint, payload, timeoutMs)];
    }

    method ReleaseInterface(interfaceNumber: int)
      modifies this
      ensures log == old(log) + [Op.ReleaseInterface(interfaceNumber)] && bulkOutcomes == old(bulkOutcomes)
    {
      log := log + [Op.ReleaseInterface(interfaceNumber)];
    }

    method ControlTransfer(requestType: byte, request: byte, value: u16, index: u16, length: nat, timeoutMs: nat)
      modifies this
      ensures log == old(log) + [Op.ControlTransfer(requestType, request, value, index, length, timeoutMs)]
      ensures bulkOutcomes == old(bulkOutcomes)
    {
      log := log + [Op.ControlTransfer(requestType, request, value, index, length, timeoutMs)];
    }

    method SetConfiguration(configuration: int)
      modifies this
      ensures log == old(log) + [Op.SetConfiguration(configuration)] && bulkOutcomes == old(bulkOutcomes)
    {
      log := log + [Op.SetConfiguration(configuration)];
    }

    method ResetDevice() returns (r: int)
      modifies this
      ensures r == resetResult
      ensures log == old(log) + [Op.ResetDevice] && bulkOutcomes == old(bulkOutcomes)
    {
      r := resetResult;
      log := log + [Op.ResetDevice];
    }
  }

  // ----- The expected trace -----

  /** The kernel-driver queries (and detaches) for interfaces 0..n-1. */
  function DetachTrace(active: set<int>, n: nat): seq<Op> {
    if n == 0 then []
    else DetachTrace(active, n - 1) + [KernelDriverQuery(n - 1)] +
         (if n - 1 in active then [DetachKernelDriver(n - 1)] else [])
  }

  /** The number of probe transfers: up to and including the first success, at most five. */
  function ProbeCount(outcomes: seq<bool>): (n: nat)
    ensures 1 <= n <= |PROBE_ENDPOINTS|
    ensures forall k :: 0 <= k < n - 1 ==> !BulkSucceeds(outcomes, k)
    ensures n < |PROBE_ENDPOINTS| ==> BulkSucceeds(outcomes, n - 1)
  {
    ProbeCountFrom(outcomes, 0)
  }

  function ProbeCountFrom(outcomes: seq<bool>, i: nat): (n: nat)
    requires i < |PROBE_ENDPOINTS|
    ensures i + 1 <= n <= |PROBE_ENDPOINTS|
    ensures forall k :: i <= k < n - 1 ==> !BulkSucceeds(outcomes, k)
    ensures n < |PROBE_ENDPOINTS| ==> BulkSucceeds(outcomes, n - 1)
    decreases |PROBE_ENDPOINTS| - i
  {
    if i == |PROBE_ENDPOINTS| - 1 || BulkSucceeds(outcomes, i) then i + 1
    else ProbeCountFrom(outcomes, i + 1)
  }

  /** Message 1 on the first `n` probe endpoints. */
  function ProbeTrace(n: nat): seq<Op>
    requires n <= |PROBE_ENDPOINTS|
  {
    seq(n, k requires 0 <= k < n => BulkTransfer(PROBE_ENDPOINTS[k], SwitchMessage1, PROBE_TIMEOUT_MS))
  }

  /** The three messages on the known endpoint. */
  function SendTrace(ep: int): seq<Op> {
    [BulkTransfer(ep, SwitchMessage1, SWITCH_TIMEOUT_MS),
     BulkTransfer(ep, SwitchMessage2, SWITCH_TIMEOUT_MS),
     BulkTransfer(ep, EjectMessage, SWITCH_TIMEOUT_MS)]
  }

  function TransferTrace(ep: int, outcomes: seq<bool>): seq<Op> {
    if ep >= 0 then SendTrace(ep) else ProbeTrace(ProbeCount(outcomes))
  }

  /** How many bulk outcomes the transfers consume. */
  function TransferCount(ep: int, outcomes: seq<bool>): nat {
    if ep >= 0 then 3 else ProbeCount(outcomes)
  }

  const ControlTrace: seq<Op> := [
    ControlTransfer(REQUEST_TYPE_STANDARD_DEVICE_OUT, REQUEST_SET_FEATURE, 0x0001, 0x0000, 0, CONTROL_TIMEOUT_MS),
    SetConfiguration(1),
    ResetDevice
  ]

  /** The endpoint and interface `switch_device` works with (interface 0 when the fetch fails). */
  function TargetOfFetch(fetch: ConfigFetch): Target {
    match fetch
    case Fetched(c) => BulkOutTarget(c)
    case FetchFailed(_) => NO_TARGET
  }

  /** Whether the claim of the target interface succeeds. */
  predicate Claimed(fetch: ConfigFetch, claimable: set<int>) {
    TargetOfFetch(fetch).interfaceNumber in claimable
  }

  /** Every operation `switch_device` attempts, in order. */
  function SwitchTrace(fetch: ConfigFetch, active: set<int>, claimable: set<int>, outcomes: seq<bool>): seq<Op> {
    var t := TargetOfFetch(fetch);
    DetachTrace(active, DETACH_INTERFACES) + [ClaimInterface(t.interfaceNumber)] +
    (if Claimed(fetch, claimable) then TransferTrace(t.endpoint, outcomes) + [ReleaseInterface(t.interfaceNumber)] else []) +
    ControlTrace
  }

  /** How many bulk outcomes `switch_device` consumes. */
  function SwitchTransferCount(fetch: ConfigFetch, claimable: set<int>, outcomes: seq<bool>): nat {
    if Claimed(fetch, claimable) then TransferCount(TargetOfFetch(fetch).endpoint, outcomes) else 0
  }

  // ----- The sequencer -----

  /** The probe loop over the common endpoints, stopping at the first transfer that succeeds. */
  method ProbeCommonEndpoints(h: Handle)
    modifies h
    ensures h.log == old(h.log) + ProbeTrace(ProbeCount(old(h.bulkOutcomes)))
    ensures h.bulkOutcomes == Drop(old(h.bulkOutcomes), ProbeCount(old(h.bulkOutcomes)))
  {
    ghost var outcomes := h.bulkOutcomes;
    var i := 0;
    while i < |PROBE_ENDPOINTS|
      invariant 0 <= i <= |PROBE_ENDPOINTS|
      invariant forall k :: 0 <= k < i ==> !BulkSucceeds(outcomes, k)
      invariant h.log == old(h.log) + ProbeTrace(i)
      invariant h.bulkOutcomes == Drop(outcomes, i)
    {
      var ok := h.BulkTransfer(PROBE_ENDPOINTS[i], SwitchMessage1, PROBE_TIMEOUT_MS);
      assert ProbeTrace(i + 1) == ProbeTrace(i) + [BulkTransfer(PROBE_ENDPOINTS[i], SwitchMessage1, PROBE_TIMEOUT_MS)];
      assert ok <==> BulkSucceeds(outcomes, i);
      if ok {
        assert ProbeCount(outcomes) == i + 1;
        break;
      }
      i := i + 1;
    }
  }

  /** `try_control_transfer`: 1 exactly when the reset reports that the device is gone. */
  method TryControlTransfer(h: Handle) returns (switched: int)
    modifies h
    ensures h.log == old(h.log) + ControlTrace && h.bulkOutcomes == old(h.bulkOutcomes)
    ensures switched == (if h.resetResult == LIBUSB_ERROR_NOT_FOUND then 1 else 0)
  {
    h.ControlTransfer(REQUEST_TYPE_STANDARD_DEVICE_OUT, REQUEST_SET_FEATURE, 0x0001, 0x0000, 0, CONTROL_TIMEOUT_MS);
    h.SetConfiguration(1);
    var r := h.ResetDevice();
    if r == LIBUSB_ERROR_NOT_FOUND {
      return 1;
    }
    return 0;
  }

  /** The kernel-driver loop of `switch_device` over interfaces 0..7. */
  method DetachKernelDrivers(h: Handle)
    modifies h
    ensures h.log == old(h.log) + DetachTrace(h.activeDrivers, DETACH_INTERFACES)
    ensures h.bulkOutcomes == old(h.bulkOutcomes)
  {
    var i := 0;
    while i < DETACH_INTERFACES
      invariant 0 <= i <= DETACH_INTERFACES
      invariant h.log == old(h.log) + DetachTrace(h.activeDrivers, i)
      invariant h.bulkOutcomes == old(h.bulkOutcomes)
    {
      var active := h.KernelDriverActive(i);
      if active {
        h.DetachKernelDriver(i);
      }
      i := i + 1;
    }
  }

  /** The claim, the transfers when the claim succeeds, and the release of a claimed interface. */
  method ClaimAndTransfer(h: Handle, epOut: int, interfaceNum: int) returns (claimed: bool)
    modifies h
    ensures claimed <==> interfaceNum in h.claimable
    ensures h.log == old(h.log) + [ClaimInterface(interfaceNum)] +
              (if claimed then TransferTrace(epOut, old(h.bulkOutcomes)) + [ReleaseInterface(interfaceNum)] else [])
    ensures h.bulkOutcomes == if claimed then Drop(old(h.bulkOutcomes), TransferCount(epOut, old(h.bulkOutcomes)))
                              else old(h.bulkOutcomes)
  {
    ghost var outcomes := h.bulkOutcomes;
    claimed := h.ClaimInterface(interfaceNum);
    if claimed {
      if epOut >= 0 {
        var ok1 := h.BulkTransfer(epOut, SwitchMessage1, SWITCH_TIMEOUT_MS);
        var ok2 := h.BulkTransfer(epOut, SwitchMessage2, SWITCH_TIMEOUT_MS);
        var ok3 := h.BulkTransfer(epOut, EjectMessage, SWITCH_TIMEOUT_MS);
        assert h.bulkOutcomes == Drop(outcomes, 3);
      } else {
        ProbeCommonEndpoints(h);
      }
      h.ReleaseInterface(interfaceNum);
    }
  }

  /** The log after the three phases of `switch_device` is the expected trace. */
  lemma SwitchTraceParts(fetch: ConfigFetch, active: set<int>, claimable: set<int>, outcomes: seq<bool>,
                         ep: int, iface: int, claimed: bool, log0: seq<Op>, log1: seq<Op>, log2: seq<Op>, log3: seq<Op>)
    requires Target(ep, iface) == TargetOfFetch(fetch)
    requires claimed <==> iface in claimable
    requires log1 == log0 + DetachTrace(active, DETACH_INTERFACES)
    requires log2 == log1 + [ClaimInterface(iface)] +
               (if claimed then TransferTrace(ep, outcomes) + [ReleaseInterface(iface)] else [])
    requires log3 == log2 + ControlTrace
    ensures log3 == log0 + SwitchTrace(fetch, active, claimable, outcomes)
    ensures SwitchTransferCount(fetch, claimable, outcomes) == if claimed then TransferCount(ep, outcomes) else 0
  {
    var d := DetachTrace(active, DETACH_INTERFACES);
    var c := [ClaimInterface(iface)];
    var x := if claimed then TransferTrace(ep, outcomes) + [ReleaseInterface(iface)] else [];
    assert Claimed(fetch, claimable) == claimed;
    assert SwitchTrace(fetch, active, claimable, outcomes) == d + c + x + ControlTrace;
    assert log3 == log0 + (d + c + x + ControlTrace);
  }

  /** `switch_device`, without its diagnostic dump. */
  method SwitchDevice(h: Handle) returns (switched: int)
    modifies h
    ensures h.log == old(h.log) + SwitchTrace(h.config, h.activeDrivers, h.claimable, old(h.bulkOutcomes))
    ensures h.bulkOutcomes == Drop(old(h.bulkOutcomes), SwitchTransferCount(h.config, h.claimable, old(h.bulkOutcomes)))
    ensures switched == (if h.resetResult == LIBUSB_ERROR_NOT_FOUND then 1 else 0)
  {
    ghost var log0, outcomes := h.log, h.bulkOutcomes;
    var epOut, interfaceNum := FindBulkOutEndpoint(h.config, 0);
    assert Target(epOut, interfaceNum) == TargetOfFetch(h.config);
    DetachKernelDrivers(h);
    ghost var log1 := h.log;
    var claimed := ClaimAndTransfer(h, epOut, interfaceNum);
    ghost var log2 := h.log;
    switched := TryControlTransfer(h);
    SwitchTraceParts(h.config, h.activeDrivers, h.claimable, outcomes, epOut, interfaceNum, claimed,
                     log0, log1, log2, h.log);
  }

  // ----- Properties of the trace -----

  /** The bulk transfers of a trace, in order. */
  function BulkOps(t: seq<Op>): seq<Op> {
    if t == [] then []
    else BulkOps(t[..|t| - 1]) + (if t[|t| - 1].BulkTransfer? then [t[|t| - 1]] else [])
  }

  /** The bulk part holds exactly the bulk transfers of the trace. */
  lemma {:induction false} BulkOpsMembers(t: seq<Op>)
    ensures forall op :: op in BulkOps(t) <==> op in t && op.BulkTransfer?
  {
    if t != [] {
      BulkOpsMembers(t[..|t| - 1]);
      assert t == t[..|t| - 1] + [t[|t| - 1]];
    }
  }

  lemma {:induction false} BulkOpsAppend(a: seq<Op>, b: seq<Op>)
    ensures BulkOps(a + b) == BulkOps(a) + BulkOps(b)
    decreases |b|
  {
    if b == [] {
      assert a + b == a;
    } else {
      var b' := b[..|b| - 1];
      assert (a + b)[..|a + b| - 1] == a + b';
      BulkOpsAppend(a, b');
    }
  }

  /** A trace of only bulk transfers is its own bulk part. */
  lemma {:induction false} BulkOpsOfBulk(t: seq<Op>)
    requires forall k :: 0 <= k < |t| ==> t[k].BulkTransfer?
    ensures BulkOps(t) == t
  {
    if t != [] {
      BulkOpsOfBulk(t[..|t| - 1]);
      assert t[..|t| - 1] + [t[|t| - 1]] == t;
    }
  }

  /** A trace without bulk transfers has an empty bulk part. */
  lemma BulkOpsOfNone(t: seq<Op>)
    requires forall k :: 0 <= k < |t| ==> !t[k].BulkTransfer?
    ensures BulkOps(t) == []
  {
    BulkOpsMembers(t);
    if BulkOps(t) != [] {
      assert BulkOps(t)[0] in BulkOps(t);
    }
  }

  /**
   * Interfaces 0..n-1 are each queried, a driver is detached from exactly the interfaces that have
   * an active one, and nothing else happens in that phase.
   */
  lemma {:induction false} DetachTraceContents(active: set<int>, n: nat)
    ensures forall op :: op in DetachTrace(active, n) ==> op.KernelDriverQuery? || op.DetachKernelDriver?
    ensures forall i :: KernelDriverQuery(i) in DetachTrace(active, n) <==> 0 <= i < n
    ensures forall i :: DetachKernelDriver(i) in DetachTrace(active, n) <==> 0 <= i < n && i in active
  {
    if n > 0 {
      DetachTraceContents(active, n - 1);
    }
  }

  /** Detaching kernel drivers performs no bulk transfer. */
  lemma DetachHasNoBulk(active: set<int>)
    ensures BulkOps(DetachTrace(active, DETACH_INTERFACES)) == []
  {
    var d := DetachTrace(active, DETACH_INTERFACES);
    DetachTraceContents(active, DETACH_INTERFACES);
    forall k | 0 <= k < |d| ensures !d[k].BulkTransfer? {
      assert d[k] in d;
    }
    BulkOpsOfNone(d);
  }

  /** The control step performs no bulk transfer. */
  lemma ControlHasNoBulk()
    ensures BulkOps(ControlTrace) == []
  {
    BulkOpsOfNone(ControlTrace);
  }

  /** The bulk part of the trace is the transfer phase when the claim succeeds, and empty otherwise. */
  lemma SwitchBulkOps(fetch: ConfigFetch, active: set<int>, claimable: set<int>, outcomes: seq<bool>)
    ensures BulkOps(SwitchTrace(fetch, active, claimable, outcomes)) ==
              if Claimed(fetch, claimable) then TransferTrace(TargetOfFetch(fetch).endpoint, outcomes) else []
  {
    var t := TargetOfFetch(fetch);
    var d := DetachTrace(active, DETACH_INTERFACES);
    var c := [ClaimInterface(t.interfaceNumber)];
    var r := [ReleaseInterface(t.interfaceNumber)];
    var tt := TransferTrace(t.endpoint, outcomes);
    var x := if Claimed(fetch, claimable) then tt + r else [];
    assert SwitchTrace(fetch, active, claimable, outcomes) == d + c + x + ControlTrace;
    DetachHasNoBulk(active);
    BulkOpsOfNone(c);
    ControlHasNoBulk();
    BulkOpsAppend(d, c);
    BulkOpsAppend(d + c, x);
    BulkOpsAppend(d + c + x, ControlTrace);
    if Claimed(fetch, claimable) {
      TransferPhaseBulk(t.endpoint, outcomes, t.interfaceNumber);
    } else {
      assert BulkOps(x) == [];
    }
  }

  /** The transfers and the release that follows them: the transfers are the bulk part. */
  lemma TransferPhaseBulk(ep: int, outcomes: seq<bool>, iface: int)
    ensures BulkOps(TransferTrace(ep, outcomes) + [ReleaseInterface(iface)]) == TransferTrace(ep, outcomes)
  {
    var tt := TransferTrace(ep, outcomes);
    assert forall k :: 0 <= k < |tt| ==> tt[k].BulkTransfer?;
    BulkOpsOfBulk(tt);
    BulkOpsOfNone([ReleaseInterface(iface)]);
    BulkOpsAppend(tt, [ReleaseInterface(iface)]);
  }

  /**
   * With the interface claimed and a bulk OUT endpoint known, exactly three bulk transfers happen,
   * whatever their results: message 1, message 2, then the eject message, all on that endpoint.
   */
  lemma ThreeSendsWhenClaimed(fetch: ConfigFetch, active: set<int>, claimable: set<int>, outcomes: seq<bool>)
    requires Claimed(fetch, claimable) && TargetOfFetch(fetch).endpoint >= 0
    ensures var ep := TargetOfFetch(fetch).endpoint;
            BulkOps(SwitchTrace(fetch, active, claimable, outcomes)) ==
              [BulkTransfer(ep, SwitchMessage1, SWITCH_TIMEOUT_MS),
               BulkTransfer(ep, SwitchMessage2, SWITCH_TIMEOUT_MS),
               BulkTransfer(ep, EjectMessage, SWITCH_TIMEOUT_MS)]
  {
    SwitchBulkOps(fetch, active, claimable, outcomes);
  }

  /** When the claim fails, no bulk transfer is attempted. */
  lemma NoSendsWithoutClaim(fetch: ConfigFetch, active: set<int>, claimable: set<int>, outcomes: seq<bool>)
    requires !Claimed(fetch, claimable)
    ensures forall op :: op in SwitchTrace(fetch, active, claimable, outcomes) ==> !op.BulkTransfer?
  {
    SwitchBulkOps(fetch, active, claimable, outcomes);
    BulkOpsMembers(SwitchTrace(fetch, active, claimable, outcomes));
  }

  /**
   * With the interface claimed and no bulk OUT endpoint known, message 1 is tried on endpoints
   * 0x01, 0x02, ... in ascending order: at most five attempts, every attempt but the last fails, and
   * fewer than five attempts means the last one succeeded.
   */
  lemma ProbeWhenNoEndpoint(fetch: ConfigFetch, active: set<int>, claimable: set<int>, outcomes: seq<bool>)
    requires Claimed(fetch, claimable) && TargetOfFetch(fetch).endpoint < 0
    ensures var b := BulkOps(SwitchTrace(fetch, active, claimable, outcomes));
            1 <= |b| <= 5 &&
            (forall k :: 0 <= k < |b| ==> b[k] == BulkTransfer(k + 1, SwitchMessage1, PROBE_TIMEOUT_MS)) &&
            (forall k :: 0 <= k < |b| - 1 ==> !BulkSucceeds(outcomes, k)) &&
            (|b| < 5 ==> BulkSucceeds(outcomes, |b| - 1))
  {
    SwitchBulkOps(fetch, active, claimable, outcomes);
    var n := ProbeCount(outcomes);
    assert BulkOps(SwitchTrace(fetch, active, claimable, outcomes)) == ProbeTrace(n);
    forall k | 0 <= k < n ensures ProbeTrace(n)[k] == BulkTransfer(k + 1, SwitchMessage1, PROBE_TIMEOUT_MS) {
      assert PROBE_ENDPOINTS[k] == k + 1;
    }
  }

  /** An interface is released exactly when it was claimed, and it is the claimed one. */
  lemma ReleasedIffClaimed(fetch: ConfigFetch, active: set<int>, claimable: set<int>, outcomes: seq<bool>, i: int)
    ensures ReleaseInterface(i) in SwitchTrace(fetch, active, claimable, outcomes) <==>
              Claimed(fetch, claimable) && i == TargetOfFetch(fetch).interfaceNumber
  {
    var t := TargetOfFetch(fetch);
    DetachTraceContents(active, DETACH_INTERFACES);
    if Claimed(fetch, claimable) {
      var tt := TransferTrace(t.endpoint, outcomes);
      assert forall k :: 0 <= k < |tt| ==> tt[k].BulkTransfer?;
    }
  }

  /**
   * Whatever happened before, the trace ends with the control step: SET_FEATURE, then
   * SET_CONFIGURATION(1), then the reset.
   */
  lemma EndsWithControlStep(fetch: ConfigFetch, active: set<int>, claimable: set<int>, outcomes: seq<bool>)
    ensures var t := SwitchTrace(fetch, active, claimable, outcomes);
            |t| >= 3 && t[|t| - 3..] ==
              [ControlTransfer(0x00, 0x03, 0x0001, 0x0000, 0, 1000), SetConfiguration(1), ResetDevice]
  {
  }

  // ----- The entry point's verdict -----

  datatype Verdict =
    | Listed                // list mode: scan only
    | ForcedDeviceNotFound  // the forced identifier does not open
    | AlreadyInModemMode    // no storage-mode device opens, some modem was listed
    | NothingToSwitch       // no storage-mode device opens, no modem was listed
    | NowModem              // a modem is listed after the switch
    | StillZeroCd           // no modem but a storage-mode device is listed after the switch
    | Unconfirmed           // neither is listed after the switch

  function ExitCode(v: Verdict): int {
    if v == ForcedDeviceNotFound || v == AlreadyInModemMode || v == NothingToSwitch then 1 else 0
  }

  /**
   * The classification of lines 491-520: `found` tells whether a device was selected, the counts
   * come from the scans before and after the switch. The tool exits 1 exactly when nothing opens,
   * and reports success exactly when a device was switched and a modem is listed afterwards.
   */
  function Classify(forcePid: u16, found: bool, modemBefore: nat, zeroCdAfter: nat, modemAfter: nat): (v: Verdict)
    ensures ExitCode(v) == 1 <==> !found
    ensures v == NowModem <==> found && modemAfter > 0
    ensures v == StillZeroCd <==> found && modemAfter == 0 && zeroCdAfter > 0
    ensures v == ForcedDeviceNotFound <==> !found && forcePid != 0
    ensures v == AlreadyInModemMode <==> !found && forcePid == 0 && modemBefore > 0
  {
    if !found then
      if forcePid != 0 then ForcedDeviceNotFound
      else if modemBefore > 0 then AlreadyInModemMode
      else NothingToSwitch
    else if modemAfter > 0 then NowModem
    else if zeroCdAfter > 0 then StillZeroCd
    else Unconfirmed
  }

  /** Whether the entry point finds a device to switch. */
  predicate DeviceOpens(forcePid: u16, openable: set<u16>) {
    if forcePid != 0 then forcePid in openable
    else exists i :: 0 <= i < |ZeroCdEntries| && ZeroCdEntries[i] in openable
  }

  /**
   * The entry point from the first scan on: `before` and `after` are the device lists of the two
   * scans, `openable` the identifiers that open, and `h` the handle of the device that opens.
   */
  method RunModeSwitch(listOnly: bool, forcePid: u16, before: seq<DeviceDescriptor>, openable: set<u16>,
                       h: Handle, after: seq<DeviceDescriptor>) returns (exitCode: int, verdict: Verdict)
    modifies h
    ensures listOnly ==> verdict == Listed
    ensures !listOnly ==> verdict == Classify(forcePid, DeviceOpens(forcePid, openable), CountRole(before, Modem),
                                              CountRole(after, ZeroCd), CountRole(after, Modem))
    ensures exitCode == ExitCode(verdict)
    ensures h.log == old(h.log) + (if !listOnly && DeviceOpens(forcePid, openable)
                                   then SwitchTrace(h.config, h.activeDrivers, h.claimable, old(h.bulkOutcomes))
                                   else [])
    ensures h.bulkOutcomes == if !listOnly && DeviceOpens(forcePid, openable)
                              then Drop(old(h.bulkOutcomes), SwitchTransferCount(h.config, h.claimable, old(h.bulkOutcomes)))
                              else old(h.bulkOutcomes)
  {
    var foundZeroCd, foundModem := ScanHuaweiDevices(before);
    if listOnly {
      return 0, Listed;
    }
    var selected := SelectDevice(forcePid, openable);
    assert selected.Some? <==> DeviceOpens(forcePid, openable);
    if selected.None? {
      verdict := Classify(forcePid, false, foundModem, 0, 0);
      return 1, verdict;
    }
    var switched := SwitchDevice(h);
    foundZeroCd, foundModem := ScanHuaweiDevices(after);
    verdict := Classify(forcePid, true, 0, foundZeroCd, foundModem);
    exitCode := 0;
  }
}
