/**
 The data the diagnostic program reads from the USB access layer: device
 descriptors, configuration descriptor trees and the devices that carry them,
 together with the console events the printing routines produce.
 */
module Usb {

  datatype Option<+T> = None | Some(value: T)

  /** The unsigned 8-bit and 16-bit fields of USB descriptors. */
  type u8 = x: int | 0 <= x < 0x100
  type u16 = x: int | 0 <= x < 0x1_0000

  /** The fields of a device descriptor that the program looks at. */
  datatype DeviceDescriptor = DeviceDescriptor(
    bDeviceClass: u8,
    idVendor: u16,
    idProduct: u16,
    bNumConfigurations: u8)

  /** The two endpoint fields that are printed. */
  datatype EndpointDescriptor = EndpointDescriptor(bDescriptorType: u8, bEndpointAddress: u8)

  /** One alternate setting of an interface, with its endpoint array. */
  datatype InterfaceDescriptor = InterfaceDescriptor(
    bInterfaceNumber: u8,
    bNumEndpoints: u8,
    endpoint: seq<EndpointDescriptor>)

  /** An interface: its array of alternate settings and their count. */
  datatype Interface = Interface(altsetting: seq<InterfaceDescriptor>, numAltsetting: nat)

  /** A configuration descriptor: its interface array and their count. */
  datatype ConfigDescriptor = ConfigDescriptor(bNumInterfaces: u8, interface: seq<Interface>)

  /** Every count field stays within the array it counts, at each level,
      so that the nested loops of the printer index only existing entries. */
  predicate ValidAltSetting(a: InterfaceDescriptor) {
    a.bNumEndpoints <= |a.endpoint|
  }

  predicate ValidAltSettings(alts: seq<InterfaceDescriptor>, n: nat) {
    n <= |alts| && forall j :: 0 <= j < n ==> ValidAltSetting(alts[j])
  }

  predicate ValidInterface(f: Interface) {
    ValidAltSettings(f.altsetting, f.numAltsetting)
  }

  predicate ValidInterfaces(fs: seq<Interface>, n: nat) {
    n <= |fs| && forall i :: 0 <= i < n ==> ValidInterface(fs[i])
  }

  predicate ValidConfig(c: ConfigDescriptor) {
    ValidInterfaces(c.interface, c.bNumInterfaces)
  }

  /** A device as the access layer reports it: its device descriptor, or
      None when reading it fails, and its configuration descriptor 0, or
      None when reading that fails. */
  datatype Device = Device(descriptor: Option<DeviceDescriptor>, config0: Option<ConfigDescriptor>)

  predicate ValidDevice(d: Device) {
    d.config0.Some? ==> ValidConfig(d.config0.value)
  }

  /** What the printing routines write to the console, one event per line
      or field group, without the text formatting. */
  datatype Event =
    | DescriptorReadFailed
    | DeviceSummary(numConfigs: u8, deviceClass: u8, vendorId: u16, productId: u16)
    | NoConfigDescriptor
    | NumInterfaces(interfaces: u8)
    | NumAltSettings(altSettings: nat)
    | InterfaceInfo(interfaceNumber: u8, numEndpoints: u8)
    | EndpointInfo(descriptorType: u8, address: u8)
}
