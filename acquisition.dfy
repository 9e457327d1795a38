/**
 The program's main control flow: initialise the access layer, list the
 devices, scan them for the first match and print it, open the device by its
 identifiers, detach a kernel driver from interface 0 if the query reports
 one bound, and release the access layer. Every call into the access layer
 is replaced by its outcome, given as an input, and the run produces an exit
 code and the trace of the actions it performed.
 */
module Acquisition {
  import opened Usb
  import opened Matcher
  import opened DevicePrinter

  /** The interface whose kernel driver is queried and detached. */
  const TargetInterface: nat := 0

  /** The outcomes the access layer reports to one run:
      - initResult: the status of the library initialisation (negative = error);
      - devices: the device list (its length is the device count);
      - openOk: whether opening by vendor/product identifiers yielded a handle;
      - kernelDriverActiveResult: 1 when a kernel driver is bound to
        interface 0, 0 when none is, negative on error;
      - detachResult: the status of detaching it (0 = success). */
  datatype Host = Host(
    initResult: int,
    devices: seq<Device>,
    openOk: bool,
    kernelDriverActiveResult: int,
    detachResult: int)

  predicate ValidHost(h: Host) {
    forall i :: 0 <= i < |h.devices| ==> ValidDevice(h.devices[i])
  }

  /** The actions of a run, in the order they are performed. */
  datatype Action =
    | Init
    | SetLogLevelInfo
    | GetDeviceList
    | ProbeDevice(index: nat)
    | PrintDevice(index: nat, report: PrintReport)
    | OpenByIds(vendorId: u16, productId: u16)
    | QueryKernelDriver(interfaceNumber: nat)
    | DetachKernelDriver(interfaceNumber: nat)
    | Exit

  /** The matcher calls of a scan that examines devices 0 .. n-1. */
  function Probes(n: nat): (r: seq<Action>)
    ensures |r| == n
    ensures forall i :: 0 <= i < n ==> r[i] == ProbeDevice(i)
  {
    if n == 0 then [] else Probes(n - 1) + [ProbeDevice(n - 1)]
  }

  /** How many devices the first-match scan examines: up to and including
      the first match, or all of them. */
  function ScanLength(devs: seq<Device>): nat {
    var idx := FirstMatch(devs);
    if idx == -1 then |devs| else idx + 1
  }

  /** The printer call that follows the scan, when the scan found a match. */
  function PrintStep(devs: seq<Device>): seq<Action>
    requires forall i :: 0 <= i < |devs| ==> ValidDevice(devs[i])
  {
    var idx := FirstMatch(devs);
    if idx >= 0 then [PrintDevice(idx, PrintDev(devs[idx]))] else []
  }

  /** Opening, the kernel-driver check and detach, and releasing the library. */
  function AcquireSteps(h: Host): seq<Action> {
    [OpenByIds(VID, PID)] +
    if !h.openOk then []
    else [QueryKernelDriver(TargetInterface)] + KernelDriverSteps(h)
  }

  /** The detach attempt when the kernel-driver query returns 1, then the
      release unless the detach succeeded; any other query result (0, or a
      negative error) goes straight to the release. */
  function KernelDriverSteps(h: Host): seq<Action> {
    if h.kernelDriverActiveResult == 1 then
      [DetachKernelDriver(TargetInterface)] + (if h.detachResult == 0 then [] else [Exit])
    else [Exit]
  }

  /** The trace of a whole run, step by step. */
  function MainTrace(h: Host): seq<Action>
    requires ValidHost(h)
  {
    if h.initResult < 0 then [Init]
    else if |h.devices| == 0 then [Init, SetLogLevelInfo, GetDeviceList]
    else [Init, SetLogLevelInfo, GetDeviceList] + Probes(ScanLength(h.devices))
         + PrintStep(h.devices) + AcquireSteps(h)
  }

  /** One run of the program. The device count is a size_t, so the check
      "count <= 0" is the check "count == 0". */
  method Run(h: Host) returns (code: int, trace: seq<Action>)
    requires ValidHost(h)
    ensures code == (if h.initResult < 0 then -1 else 0)
    ensures trace == MainTrace(h)
  {
    trace := [Init];
    if h.initResult < 0 {
      code := -1;
      return;
    }
    trace := trace + [SetLogLevelInfo, GetDeviceList];
    assert trace == [Init, SetLogLevelInfo, GetDeviceList];
    var devs := h.devices;
    var cnt := |devs|;
    if cnt == 0 {
      code := 0;
      return;
    }
    ghost var listed := trace;
    var idx := -1;
    var i := 0;
    while i < cnt
      invariant 0 <= i <= cnt
      invariant idx == -1
      invariant forall j :: 0 <= j < i ==> !MatchDev(devs[j])
      invariant trace == listed + Probes(i)
    {
      ProbesStep(listed, i);
      trace := trace + [ProbeDevice(i)];
      if MatchDev(devs[i]) {
        idx := i;
        break;
      }
      i := i + 1;
    }
    assert IsFirstMatch(devs, idx);
    FirstMatchUnique(devs, idx, FirstMatch(devs));
    if idx >= 0 {
      trace := trace + [PrintDevice(idx, PrintDev(devs[idx]))];
    }
    ghost var scanned := trace;
    assert scanned == listed + Probes(ScanLength(devs)) + PrintStep(devs);
    trace := trace + [OpenByIds(VID, PID)];
    if !h.openOk {
      assert trace == scanned + AcquireSteps(h);
      code := 0;
      return;
    }
    trace := trace + [QueryKernelDriver(TargetInterface)];
    ghost var queried := trace;
    assert queried == scanned + [OpenByIds(VID, PID), QueryKernelDriver(TargetInterface)];
    if h.kernelDriverActiveResult == 1 {
      trace := trace + [DetachKernelDriver(TargetInterface)];
      if h.detachResult == 0 {
        AcquireStepsAfterQuery(scanned, h);
        code := 0;
        return;
      }
    }
    trace := trace + [Exit];
    AcquireStepsAfterQuery(scanned, h);
    code := 0;
  }

  /** The actions from the open onwards, once the kernel-driver query is made. */
  lemma AcquireStepsAfterQuery(head: seq<Action>, h: Host)
    requires h.openOk
    ensures head + [OpenByIds(VID, PID), QueryKernelDriver(TargetInterface)] + KernelDriverSteps(h)
            == head + AcquireSteps(h)
    ensures h.kernelDriverActiveResult == 1 && h.detachResult == 0 ==>
      head + [OpenByIds(VID, PID), QueryKernelDriver(TargetInterface)] + [DetachKernelDriver(TargetInterface)]
      == head + AcquireSteps(h)
    ensures h.kernelDriverActiveResult == 1 && h.detachResult != 0 ==>
      head + [OpenByIds(VID, PID), QueryKernelDriver(TargetInterface)] + [DetachKernelDriver(TargetInterface)] + [Exit]
      == head + AcquireSteps(h)
    ensures h.kernelDriverActiveResult != 1 ==>
      head + [OpenByIds(VID, PID), QueryKernelDriver(TargetInterface)] + [Exit] == head + AcquireSteps(h)
  {
  }

  lemma ProbesStep(head: seq<Action>, i: nat)
    ensures head + Probes(i) + [ProbeDevice(i)] == head + Probes(i + 1)
  {
  }

  // ----- Properties of a run -----

  /** The library is released exactly when the open succeeds and either the
      kernel-driver query for interface 0 does not return 1 (no driver bound,
      or the query failed) or detaching the driver fails; when it is
      released, that is the last action, and it happens once. */
  lemma ExitReachedExactly(h: Host)
    requires ValidHost(h)
    ensures Exit in MainTrace(h) <==>
      h.initResult >= 0 && |h.devices| > 0 && h.openOk &&
      (h.kernelDriverActiveResult != 1 || h.detachResult != 0)
    ensures Exit in MainTrace(h) ==>
      MainTrace(h)[|MainTrace(h)| - 1] == Exit && Exit !in MainTrace(h)[..|MainTrace(h)| - 1]
  {
  }

  /** A successful detach ends the run: the detach is the last action, and
      there is no reattach, close or release after it. */
  lemma DetachSuccessEndsRun(h: Host)
    requires ValidHost(h)
    requires h.initResult >= 0 && |h.devices| > 0 && h.openOk
    requires h.kernelDriverActiveResult == 1 && h.detachResult == 0
    ensures MainTrace(h)[|MainTrace(h)| - 1] == DetachKernelDriver(TargetInterface)
    ensures Exit !in MainTrace(h)
  {
  }

  /** The printer runs only after a match, and then exactly on the first
      matching device. */
  lemma PrintOnlyFirstMatch(h: Host, i: nat, rep: PrintReport)
    requires ValidHost(h)
    ensures PrintDevice(i, rep) in MainTrace(h) <==>
      h.initResult >= 0 && |h.devices| > 0 && FirstMatch(h.devices) == i && rep == PrintDev(h.devices[i])
  {
  }

  /** A given printer call occurs at most once in a run. */
  lemma PrintAtMostOnce(h: Host, i: nat, rep: PrintReport)
    requires ValidHost(h)
    ensures multiset(MainTrace(h))[PrintDevice(i, rep)] <= 1
  {
    var p := PrintDevice(i, rep);
    if h.initResult >= 0 && |h.devices| > 0 {
      var head := [Init, SetLogLevelInfo, GetDeviceList];
      var probes := Probes(ScanLength(h.devices));
      var tail := AcquireSteps(h);
      assert p !in head && p !in probes && p !in tail;
      assert multiset(head)[p] == 0 && multiset(probes)[p] == 0 && multiset(tail)[p] == 0;
      assert |PrintStep(h.devices)| <= 1;
      assert multiset(PrintStep(h.devices))[p] <= 1;
      assert MainTrace(h) == head + probes + PrintStep(h.devices) + tail;
    }
  }

  /** No two actions of a run are printer calls, whatever their index. */
  lemma PrintAtMostOneIndex(h: Host, p: nat, q: nat)
    requires ValidHost(h)
    requires p < q < |MainTrace(h)|
    ensures !(MainTrace(h)[p].PrintDevice? && MainTrace(h)[q].PrintDevice?)
  {
    if h.initResult >= 0 && |h.devices| > 0 {
      var head := [Init, SetLogLevelInfo, GetDeviceList] + Probes(ScanLength(h.devices));
      assert MainTrace(h) == head + PrintStep(h.devices) + AcquireSteps(h);
    }
  }

  /** The printer call comes after every probe of the scan. */
  lemma PrintAfterProbes(h: Host, p: nat, q: nat)
    requires ValidHost(h)
    requires p < |MainTrace(h)| && q < |MainTrace(h)|
    requires MainTrace(h)[p].PrintDevice? && MainTrace(h)[q].ProbeDevice?
    ensures q < p
  {
    if h.initResult >= 0 && |h.devices| > 0 {
      var head := [Init, SetLogLevelInfo, GetDeviceList] + Probes(ScanLength(h.devices));
      assert MainTrace(h) == head + PrintStep(h.devices) + AcquireSteps(h);
    }
  }

  /** The scan stops at the first match: device i is probed exactly when
      no device before it matches. */
  lemma ProbesStopAtFirstMatch(h: Host, i: nat)
    requires ValidHost(h)
    ensures ProbeDevice(i) in MainTrace(h) <==>
      h.initResult >= 0 && i < |h.devices| && forall j :: 0 <= j < i ==> !MatchDev(h.devices[j])
  {
  }

  /** Opening by identifiers does not depend on the scan: it happens on
      every run that found at least one device, whether or not one matched. */
  lemma OpenAttemptedAfterList(h: Host)
    requires ValidHost(h)
    ensures OpenByIds(VID, PID) in MainTrace(h) <==> h.initResult >= 0 && |h.devices| > 0
  {
  }

  /** Three devices, the second one the target, a kernel driver bound to
      interface 0 and a detach that succeeds: the run probes devices 0 and
      1, prints device 1, opens, queries, detaches and stops there, with no
      claim, reattach or close, and exits with 0. */
  lemma DetachScenario(other: DeviceDescriptor, target: DeviceDescriptor)
    requires !IsTarget(other) && IsTarget(target)
    ensures var devs := [Device(Some(other), None), Device(Some(target), None), Device(Some(target), None)];
      var h := Host(0, devs, true, 1, 0);
      MainTrace(h) == [Init, SetLogLevelInfo, GetDeviceList, ProbeDevice(0), ProbeDevice(1),
                       PrintDevice(1, PrintDev(devs[1])), OpenByIds(VID, PID),
                       QueryKernelDriver(TargetInterface), DetachKernelDriver(TargetInterface)]
  {
  }
}
