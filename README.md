# usbhid `test.cpp` — a Dafny model

`test.cpp` is a small libusb diagnostic program. It initialises libusb,
lists the attached USB devices, and scans the list for the first device
with vendor ID `0x0483` and product ID `0x572b`. If it finds one, it prints
that device's summary and its configuration tree: interfaces, then
alternate settings, then endpoints. It then opens the device by those
identifiers. If the kernel-driver query reports a driver bound to
interface 0, it tries to detach it. It calls `libusb_exit` only when the
open succeeded and then either the kernel-driver query did not return 1 (no
driver bound, or the query failed) or the detach failed. It returns
without `libusb_exit` when `libusb_init` fails, when no device is listed,
when the open fails and when the detach succeeds.

This project models the program's decision logic. Every libusb call is
replaced by its outcome, which the model takes as an input:

- a device is a record: its device descriptor (or `None` when reading it
  fails) and configuration descriptor 0 (or `None` when reading it fails);
- `Acquisition.Host` holds the other outcomes: the `libusb_init` status, the
  device list, whether the open by identifiers gave a handle, the
  `libusb_kernel_driver_active` result and the `libusb_detach_kernel_driver`
  status.

Modules, leaf first:

- `Usb` (usb.dfy): the descriptor records, the well-formedness of a
  configuration tree (every count field is within the array it counts), and
  the console events the printers produce.
- `Matcher` (matcher.dfy): the target identifiers, `matchdev`, and the
  first-match function that the scan loop is proved against.
- `ConfigPrinter` (config_printer.dfy): `printconfig` as nested loops
  (`PrintConfig`, with the middle loop's body in `PrintAltSetting`). It is
  proved equal to the reference `ConfigEvents`. Lemmas say where each
  endpoint's event lands in the output.
- `DevicePrinter` (device_printer.dfy): `printdev`'s descriptor read, its
  identifier filter and its configuration read.
- `Acquisition` (acquisition.dfy): `main` as the method `Run`. It returns the
  exit code and the trace of actions performed. It is proved equal to the
  reference `MainTrace`, and lemmas state the exit-path properties.

Notes on what `test.cpp` does:

- The code has no interface claim, no kernel-driver reattach and no device
  close. A successful detach returns 0 at once, without `libusb_exit`.
- The code reads configuration descriptor 0
  (`libusb_get_config_descriptor(dev, 0)`).
- The scan does not abort on an unreadable device descriptor. `matchdev`
  returns false for that device and the loop goes on to the next one.
- The open by identifiers happens on every run that lists at least one
  device, whether or not the scan found a match (see
  `Acquisition.OpenAttemptedAfterList`).
- `printconfig` prints `bDescriptorType` under the label "Endpoint Type"
  together with `bEndpointAddress`, and no other endpoint field. The model's
  endpoint event carries exactly those two fields.

## Model

| member | source | states |
|---|---|---|
| `Matcher.MatchDev` | test.cpp:68-81 | true exactly when the device descriptor is readable and carries vendor 0x0483 and product 0x572b; always false when the descriptor is unreadable |
| `Matcher.FirstMatchFrom` | test.cpp:35-40 | the first index at or after `from` whose device matches, or -1 exactly when no device from there on matches; the result is within -1 .. count-1 |
| `Matcher.FirstMatch` | test.cpp:35-40 | the smallest matching index, or -1 when none matches, so -1 <= idx < count |
| `Matcher.FirstMatchUnique` | test.cpp:35-40 | at most one index satisfies the first-match specification |
| `ConfigPrinter.PrintConfig` | test.cpp:113-134 | the nested index walk over interfaces, alternate settings and endpoints produces exactly `ConfigEvents(config)` |
| `ConfigPrinter.PrintAltSetting` | test.cpp:122-131 | one alternate setting prints its interface line, then its endpoints by index, matching `AltSettingEvents` |
| `ConfigPrinter.EndpointEventsAt` | test.cpp:126-130 | the k-th endpoint event of an alternate setting is endpoint k's descriptor type and address |
| `ConfigPrinter.EndpointEventCount` | test.cpp:118-133 | the number of endpoint events printed is the sum of `bNumEndpoints` over every alternate setting of every interface |
| `ConfigPrinter.EndpointEventAt` | test.cpp:119-130 | endpoint (i, j, k) is printed at position `EndpointRank(c, i, j, k)` among the endpoint events, and that position is below the total |
| `ConfigPrinter.EndpointRankIncreasing` | test.cpp:119-130 | lexicographically larger (interface, alternate setting, endpoint) indices get strictly later positions, so the endpoints are printed in lexicographic index order, one event each |
| `ConfigPrinter.InterfacesEndpointAt` | test.cpp:119-130 | within the first n interfaces, endpoint (i, j, k) comes after all endpoints of the interfaces before i |
| `ConfigPrinter.AltSettingsEndpointAt` | test.cpp:122-130 | within the first n alternate settings, endpoint (j, k) comes after all endpoints of the settings before j |
| `DevicePrinter.PrintDev` | test.cpp:83-111 | the configuration descriptor is read exactly when `matchdev`'s filter passes; the result is true exactly when the filter passes and configuration 0 is read; unreadable descriptor, filtered-out device and missing configuration each give their own output |
| `DevicePrinter.PrintDevEndpoints` | test.cpp:97-110 | a successful print carries the target identifiers in its summary and prints one endpoint event per endpoint of configuration 0; a failed print prints no endpoint event |
| `Acquisition.Run` | test.cpp:13-64 | the exit code is -1 exactly when `libusb_init` fails and 0 on every other path (including "no devices"); the trace is exactly `MainTrace(h)` |
| `Acquisition.ExitReachedExactly` | test.cpp:48-63 | `libusb_exit` is reached exactly when init succeeds, a device is listed, the open succeeds and either the kernel-driver query for interface 0 does not return 1 (no driver bound, or the query failed) or the detach fails; when reached it is the last action and occurs once |
| `Acquisition.DetachSuccessEndsRun` | test.cpp:55-59 | after a successful detach the run ends: the detach is the last action and `libusb_exit` never happens |
| `Acquisition.PrintOnlyFirstMatch` | test.cpp:42-45 | `printdev` is called only when the scan found a match, and then exactly on the first matching device with that device's report |
| `Acquisition.PrintAtMostOnce` | test.cpp:42-45 | a given `printdev` call (one index, one report) occurs at most once in a run's trace |
| `Acquisition.PrintAtMostOneIndex` | test.cpp:42-45 | no two actions of a run are `printdev` calls, whatever their indices and reports |
| `Acquisition.PrintAfterProbes` | test.cpp:35-45 | every `matchdev` probe of the scan comes before the `printdev` call: the print follows the loop, never happens inside it |
| `Acquisition.ProbesStopAtFirstMatch` | test.cpp:35-40 | device i is tested by `matchdev` exactly when init succeeded, i is below the count and no earlier device matched |
| `Acquisition.OpenAttemptedAfterList` | test.cpp:28-51 | the open by identifiers is attempted exactly when init succeeded and at least one device was listed, whatever the scan found |
| `Acquisition.DetachScenario` | test.cpp:13-64 | with three devices, the second one the target, an active kernel driver and a successful detach, the run probes devices 0 and 1, prints device 1, opens, queries, detaches and stops |

## Left out

- The libusb calls themselves (`libusb_init`, `libusb_set_option`, `libusb_get_device_list`, `libusb_get_device_descriptor`, `libusb_get_config_descriptor`, `libusb_open_device_with_vid_pid`, `libusb_kernel_driver_active`, `libusb_detach_kernel_driver`, `libusb_exit`): they are foreign calls into a library that is not part of this model. Their results are inputs, and the calls appear as actions in the trace.
- Console text: `cout`/`cerr` formatting (`hex`, `setw`, `setfill`) is not modelled. The printers produce events, not text. The messages `main` itself writes ("Init Error", "Oops, no devices found", "There are N devices.", "Idx is valid!", "Cannot open device", "Device opened!", "Kernel driver detached"), the "failed to get device descriptor" message `matchdev` writes when its descriptor read fails (the `ProbeDevice` action does not record it; only `printdev`'s identical message is recorded, as `DescriptorReadFailed`) and the blank line after each alternate setting are not recorded.
- Claim, reattach, close and any teardown: the source never calls `libusb_claim_interface`, `libusb_attach_kernel_driver` or `libusb_close`, so the model has none.
- Memory ownership: the device list and the configuration descriptor are never freed in the source. Allocation is not modelled.
- The signed/unsigned mixing of the device count: the count is the length of the device list, a `nat`. A negative error count from `libusb_get_device_list` would become a huge `size_t` and pass the `<= 0` check; the model cannot express that.
- `num_altsetting` is an `int` in libusb; the model takes it as a `nat`.
- The configuration tree is assumed well formed (`Usb.ValidConfig`): every count field is at most the length of the array it counts. libusb builds the tree that way, and the loops of `printconfig` index only within those counts.
- Descriptor fields the program never reads are not modelled.
- The two device-descriptor reads: `matchdev` (test.cpp:72) and `printdev` (test.cpp:88) each call `libusb_get_device_descriptor`, but the model gives a device one `descriptor` value that both reads return. libusb answers both from the descriptor it cached when it enumerated the device, so the two reads agree; the model cannot express a second read that fails or differs after the first one succeeded. A consequence is that the device the scan matched always passes `printdev`'s filter in the model.
