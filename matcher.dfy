/**
 The device matcher: the fixed vendor/product pair the program looks for,
 the predicate that tests one device against it, and the first-match search
 over a device list that the scan loop of the program is proved against.
 */
module Matcher {
  import opened Usb

  /** The target identifiers, fixed at compile time. */
  const VID: u16 := 0x0483
  const PID: u16 := 0x572b

  /** A device descriptor carries the target identifiers. */
  predicate IsTarget(d: DeviceDescriptor) {
    d.idVendor == VID && d.idProduct == PID
  }

  /** Reads the device descriptor; an unreadable descriptor never matches,
      otherwise the device matches when neither identifier differs. */
  function MatchDev(dev: Device): (matches: bool)
    ensures matches <==> dev.descriptor.Some? && IsTarget(dev.descriptor.value)
    ensures dev.descriptor.None? ==> !matches
  {
    match dev.descriptor
    case None => false
    case Some(desc) =>
      if PID != desc.idProduct || VID != desc.idVendor then false else true
  }

  /** The index of the first matching device at or after `from`, or -1. */
  function FirstMatchFrom(devs: seq<Device>, from: nat): (idx: int)
    requires from <= |devs|
    decreases |devs| - from
    ensures -1 <= idx < |devs|
    ensures idx == -1 <==> forall j :: from <= j < |devs| ==> !MatchDev(devs[j])
    ensures idx != -1 ==>
      from <= idx && MatchDev(devs[idx]) && forall j :: from <= j < idx ==> !MatchDev(devs[j])
  {
    if from == |devs| then -1
    else if MatchDev(devs[from]) then from
    else FirstMatchFrom(devs, from + 1)
  }

  /** The result a first-match scan must produce: the smallest matching
      index, or -1 when no device matches. */
  predicate IsFirstMatch(devs: seq<Device>, idx: int) {
    if idx == -1 then forall j :: 0 <= j < |devs| ==> !MatchDev(devs[j])
    else 0 <= idx < |devs| && MatchDev(devs[idx]) && forall j :: 0 <= j < idx ==> !MatchDev(devs[j])
  }

  function FirstMatch(devs: seq<Device>): (idx: int)
    ensures -1 <= idx < |devs|
    ensures IsFirstMatch(devs, idx)
  {
    FirstMatchFrom(devs, 0)
  }

  /** At most one index satisfies the first-match specification. */
  lemma FirstMatchUnique(devs: seq<Device>, a: int, b: int)
    requires IsFirstMatch(devs, a) && IsFirstMatch(devs, b)
    ensures a == b
  {
  }
}
