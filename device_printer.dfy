/**
 The device printer: reads a device's descriptor, applies the same
 vendor/product filter as the matcher, prints a summary line, and only then
 reads configuration descriptor 0 and prints its tree.
 */
module DevicePrinter {
  import opened Usb
  import opened Matcher
  import opened ConfigPrinter

  /** What one call of the printer does: whether it reports success, whether
      it went on to read configuration descriptor 0, and what it printed. */
  datatype PrintReport = PrintReport(ok: bool, configRead: bool, output: seq<Event>)

  function Summary(d: DeviceDescriptor): Event {
    DeviceSummary(d.bNumConfigurations, d.bDeviceClass, d.idVendor, d.idProduct)
  }

  /** The printer applied to one device. The configuration tree is printed
      by ConfigEvents, the reference that PrintConfig is proved against. */
  function PrintDev(dev: Device): (r: PrintReport)
    requires ValidDevice(dev)
    ensures r.configRead <==> MatchDev(dev)
    ensures r.ok <==> MatchDev(dev) && dev.config0.Some?
    ensures dev.descriptor.None? ==> r.output == [DescriptorReadFailed]
    ensures dev.descriptor.Some? && !MatchDev(dev) ==> r.output == []
    ensures r.configRead ==> |r.output| >= 2 && r.output[0] == Summary(dev.descriptor.value)
    ensures r.configRead && !r.ok ==> r.output == [Summary(dev.descriptor.value), NoConfigDescriptor]
    ensures r.ok ==> r.output == [Summary(dev.descriptor.value)] + ConfigEvents(dev.config0.value)
  {
    match dev.descriptor
    case None => PrintReport(false, false, [DescriptorReadFailed])
    case Some(desc) =>
      if PID != desc.idProduct || VID != desc.idVendor then
        PrintReport(false, false, [])
      else
        match dev.config0
        case None => PrintReport(false, true, [Summary(desc), NoConfigDescriptor])
        case Some(config) => PrintReport(true, true, [Summary(desc)] + ConfigEvents(config))
  }

  /** A printed device always carries the target identifiers in its summary,
      and the endpoint events in its output are exactly those of its
      configuration tree, one per endpoint. */
  lemma PrintDevEndpoints(dev: Device)
    requires ValidDevice(dev)
    ensures PrintDev(dev).ok ==>
      PrintDev(dev).output[0].vendorId == VID && PrintDev(dev).output[0].productId == PID &&
      |Endpoints(PrintDev(dev).output)| == TotalEndpoints(dev.config0.value)
    ensures !PrintDev(dev).ok ==> Endpoints(PrintDev(dev).output) == []
  {
    var r := PrintDev(dev);
    if r.ok {
      var c := dev.config0.value;
      EndpointsConcat([Summary(dev.descriptor.value)], ConfigEvents(c));
      EndpointEventCount(c);
    } else if r.configRead {
      assert r.output == [Summary(dev.descriptor.value)] + [NoConfigDescriptor];
      EndpointsConcat([Summary(dev.descriptor.value)], [NoConfigDescriptor]);
    } else if dev.descriptor.None? {
      assert r.output == [DescriptorReadFailed] + [];
      EndpointsConcat([DescriptorReadFailed], []);
    }
  }
}
