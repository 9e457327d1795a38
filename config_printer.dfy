/**
 The configuration printer: a triple-nested walk over interfaces, their
 alternate settings and their endpoints. The walk is a method with nested
 loops; ConfigEvents is the order-by-order reference it is proved against,
 and the lemmas below say where each endpoint's event lands in the output.
 */
module ConfigPrinter {
  import opened Usb

  function EndpointEvent(e: EndpointDescriptor): Event {
    EndpointInfo(e.bDescriptorType, e.bEndpointAddress)
  }

  /** The events for the first n endpoints, in array order. */
  function EndpointEvents(eps: seq<EndpointDescriptor>, n: nat): (r: seq<Event>)
    requires n <= |eps|
    ensures |r| == n
  {
    if n == 0 then [] else EndpointEvents(eps, n - 1) + [EndpointEvent(eps[n - 1])]
  }

  /** Endpoint k's event is the k-th of the endpoint events. */
  lemma {:induction false} EndpointEventsAt(eps: seq<EndpointDescriptor>, n: nat, k: nat)
    requires k < n <= |eps|
    ensures EndpointEvents(eps, n)[k] == EndpointEvent(eps[k])
  {
    if k < n - 1 {
      EndpointEventsAt(eps, n - 1, k);
    }
  }

  /** One alternate setting: its header line, then its endpoints. */
  function AltSettingEvents(a: InterfaceDescriptor): seq<Event>
    requires ValidAltSetting(a)
  {
    [InterfaceInfo(a.bInterfaceNumber, a.bNumEndpoints)] + EndpointEvents(a.endpoint, a.bNumEndpoints)
  }

  /** The first n alternate settings, in array order. */
  function AltSettingsEvents(alts: seq<InterfaceDescriptor>, n: nat): seq<Event>
    requires ValidAltSettings(alts, n)
  {
    if n == 0 then [] else AltSettingsEvents(alts, n - 1) + AltSettingEvents(alts[n - 1])
  }

  /** One interface: its alternate-setting count, then its alternate settings. */
  function InterfaceEvents(f: Interface): seq<Event>
    requires ValidInterface(f)
  {
    [NumAltSettings(f.numAltsetting)] + AltSettingsEvents(f.altsetting, f.numAltsetting)
  }

  /** The first n interfaces, in array order. */
  function InterfacesEvents(fs: seq<Interface>, n: nat): seq<Event>
    requires ValidInterfaces(fs, n)
  {
    if n == 0 then [] else InterfacesEvents(fs, n - 1) + InterfaceEvents(fs[n - 1])
  }

  /** The whole output: the interface count, then every interface. */
  function ConfigEvents(c: ConfigDescriptor): seq<Event>
    requires ValidConfig(c)
  {
    [NumInterfaces(c.bNumInterfaces)] + InterfacesEvents(c.interface, c.bNumInterfaces)
  }

  /** Walks interfaces, then alternate settings, then endpoints, by index,
      recording one event per printed field group. The innermost loop, over
      the endpoints of one alternate setting, is PrintAltSetting. */
  method PrintConfig(config: ConfigDescriptor) returns (events: seq<Event>)
    requires ValidConfig(config)
    ensures events == ConfigEvents(config)
  {
    events := [NumInterfaces(config.bNumInterfaces)];
    ghost var configHead := events;
    var i := 0;
    while i < config.bNumInterfaces
      invariant 0 <= i <= config.bNumInterfaces
      invariant events == configHead + InterfacesEvents(config.interface, i)
    {
      var iface := config.interface[i];
      assert ValidInterface(iface);
      events := events + [NumAltSettings(iface.numAltsetting)];
      ghost var ifaceHead := events;
      var j := 0;
      while j < iface.numAltsetting
        invariant 0 <= j <= iface.numAltsetting
        invariant events == ifaceHead + AltSettingsEvents(iface.altsetting, j)
      {
        var altEvents := PrintAltSetting(iface.altsetting[j]);
        AltSettingStep(ifaceHead, iface.altsetting, j);
        events := events + altEvents;
        j := j + 1;
      }
      InterfaceStep(configHead, config.interface, i);
      i := i + 1;
    }
  }

  /** The body of the middle loop of PrintConfig: the interface line of one
      alternate setting, then its endpoints by index. */
  method PrintAltSetting(ifaceDesc: InterfaceDescriptor) returns (events: seq<Event>)
    requires ValidAltSetting(ifaceDesc)
    ensures events == AltSettingEvents(ifaceDesc)
  {
    events := [InterfaceInfo(ifaceDesc.bInterfaceNumber, ifaceDesc.bNumEndpoints)];
    ghost var altHead := events;
    var k := 0;
    while k < ifaceDesc.bNumEndpoints
      invariant 0 <= k <= ifaceDesc.bNumEndpoints
      invariant events == altHead + EndpointEvents(ifaceDesc.endpoint, k)
    {
      var epDesc := ifaceDesc.endpoint[k];
      EndpointStep(altHead, ifaceDesc.endpoint, k);
      events := events + [EndpointInfo(epDesc.bDescriptorType, epDesc.bEndpointAddress)];
      k := k + 1;
    }
  }

  /** One more iteration of the endpoint loop of PrintAltSetting, or of
      either loop of PrintConfig (the two lemmas after this one), extends the
      output by the next element's events. */
  lemma EndpointStep(head: seq<Event>, eps: seq<EndpointDescriptor>, k: nat)
    requires k < |eps|
    ensures head + EndpointEvents(eps, k) + [EndpointEvent(eps[k])] == head + EndpointEvents(eps, k + 1)
  {
  }

  lemma AltSettingStep(head: seq<Event>, alts: seq<InterfaceDescriptor>, j: nat)
    requires ValidAltSettings(alts, j + 1)
    ensures head + AltSettingsEvents(alts, j) + AltSettingEvents(alts[j]) == head + AltSettingsEvents(alts, j + 1)
  {
  }

  lemma InterfaceStep(head: seq<Event>, fs: seq<Interface>, i: nat)
    requires ValidInterfaces(fs, i + 1)
    ensures head + InterfacesEvents(fs, i) + [NumAltSettings(fs[i].numAltsetting)]
            + AltSettingsEvents(fs[i].altsetting, fs[i].numAltsetting)
            == head + InterfacesEvents(fs, i + 1)
  {
  }

  // ----- Where the endpoint events land -----

  /** The endpoint events of an event sequence, in order. */
  function Endpoints(evs: seq<Event>): seq<Event>
  {
    if |evs| == 0 then []
    else (if evs[0].EndpointInfo? then [evs[0]] else []) + Endpoints(evs[1..])
  }

  lemma {:induction false} EndpointsConcat(a: seq<Event>, b: seq<Event>)
    ensures Endpoints(a + b) == Endpoints(a) + Endpoints(b)
  {
    if |a| == 0 {
      assert a + b == b;
    } else {
      assert (a + b)[0] == a[0];
      assert (a + b)[1..] == a[1..] + b;
      EndpointsConcat(a[1..], b);
    }
  }

  /** The number of endpoints of the first n alternate settings: the sum
      of their bNumEndpoints. */
  function AltSettingsEndpointCount(alts: seq<InterfaceDescriptor>, n: nat): nat
    requires n <= |alts|
  {
    if n == 0 then 0 else AltSettingsEndpointCount(alts, n - 1) + alts[n - 1].bNumEndpoints
  }

  function InterfaceEndpointCount(f: Interface): nat
    requires ValidInterface(f)
  {
    AltSettingsEndpointCount(f.altsetting, f.numAltsetting)
  }

  /** The number of endpoints of the first n interfaces. */
  function InterfacesEndpointCount(fs: seq<Interface>, n: nat): nat
    requires ValidInterfaces(fs, n)
  {
    if n == 0 then 0 else InterfacesEndpointCount(fs, n - 1) + InterfaceEndpointCount(fs[n - 1])
  }

  /** The sum of bNumEndpoints over every alternate setting of every interface. */
  function TotalEndpoints(c: ConfigDescriptor): nat
    requires ValidConfig(c)
  {
    InterfacesEndpointCount(c.interface, c.bNumInterfaces)
  }

  /** The number of endpoints that come before endpoint (i, j, k) in
      lexicographic index order. */
  function EndpointRank(c: ConfigDescriptor, i: nat, j: nat, k: nat): nat
    requires ValidConfig(c) && i < c.bNumInterfaces && j < c.interface[i].numAltsetting
  {
    InterfacesEndpointCount(c.interface, i) + AltSettingsEndpointCount(c.interface[i].altsetting, j) + k
  }

  /** The endpoint events alone of the first n alternate settings. */
  function AltSettingsEndpoints(alts: seq<InterfaceDescriptor>, n: nat): (r: seq<Event>)
    requires ValidAltSettings(alts, n)
    ensures |r| == AltSettingsEndpointCount(alts, n)
  {
    if n == 0 then []
    else AltSettingsEndpoints(alts, n - 1) + EndpointEvents(alts[n - 1].endpoint, alts[n - 1].bNumEndpoints)
  }

  /** The endpoint events alone of the first n interfaces. */
  function InterfacesEndpoints(fs: seq<Interface>, n: nat): (r: seq<Event>)
    requires ValidInterfaces(fs, n)
    ensures |r| == InterfacesEndpointCount(fs, n)
  {
    if n == 0 then []
    else InterfacesEndpoints(fs, n - 1) + AltSettingsEndpoints(fs[n - 1].altsetting, fs[n - 1].numAltsetting)
  }

  /** A single endpoint event is its own endpoint projection. */
  lemma EndpointsOfOne(e: Event)
    requires e.EndpointInfo?
    ensures Endpoints([e]) == [e]
  {
    assert [e][1..] == [];
  }

  /** A sequence of endpoint events is its own endpoint projection. */
  lemma {:induction false} EndpointsOfEndpoints(eps: seq<EndpointDescriptor>, n: nat)
    requires n <= |eps|
    ensures Endpoints(EndpointEvents(eps, n)) == EndpointEvents(eps, n)
  {
    if n > 0 {
      var e := EndpointEvent(eps[n - 1]);
      calc {
        Endpoints(EndpointEvents(eps, n));
        Endpoints(EndpointEvents(eps, n - 1) + [e]);
        { EndpointsConcat(EndpointEvents(eps, n - 1), [e]); }
        Endpoints(EndpointEvents(eps, n - 1)) + Endpoints([e]);
        { EndpointsOfEndpoints(eps, n - 1); EndpointsOfOne(e); }
        EndpointEvents(eps, n - 1) + [e];
      }
    }
  }

  lemma EndpointsOfAltSetting(a: InterfaceDescriptor)
    requires ValidAltSetting(a)
    ensures Endpoints(AltSettingEvents(a)) == EndpointEvents(a.endpoint, a.bNumEndpoints)
  {
    EndpointsConcat([InterfaceInfo(a.bInterfaceNumber, a.bNumEndpoints)], EndpointEvents(a.endpoint, a.bNumEndpoints));
    EndpointsOfEndpoints(a.endpoint, a.bNumEndpoints);
  }

  lemma {:induction false} EndpointsOfAltSettings(alts: seq<InterfaceDescriptor>, n: nat)
    requires ValidAltSettings(alts, n)
    ensures Endpoints(AltSettingsEvents(alts, n)) == AltSettingsEndpoints(alts, n)
  {
    if n > 0 {
      calc {
        Endpoints(AltSettingsEvents(alts, n));
        Endpoints(AltSettingsEvents(alts, n - 1) + AltSettingEvents(alts[n - 1]));
        { EndpointsConcat(AltSettingsEvents(alts, n - 1), AltSettingEvents(alts[n - 1])); }
        Endpoints(AltSettingsEvents(alts, n - 1)) + Endpoints(AltSettingEvents(alts[n - 1]));
        { EndpointsOfAltSettings(alts, n - 1); EndpointsOfAltSetting(alts[n - 1]); }
        AltSettingsEndpoints(alts, n - 1) + EndpointEvents(alts[n - 1].endpoint, alts[n - 1].bNumEndpoints);
      }
    }
  }

  lemma EndpointsOfInterface(f: Interface)
    requires ValidInterface(f)
    ensures Endpoints(InterfaceEvents(f)) == AltSettingsEndpoints(f.altsetting, f.numAltsetting)
  {
    EndpointsConcat([NumAltSettings(f.numAltsetting)], AltSettingsEvents(f.altsetting, f.numAltsetting));
    EndpointsOfAltSettings(f.altsetting, f.numAltsetting);
  }

  lemma {:induction false} EndpointsOfInterfaces(fs: seq<Interface>, n: nat)
    requires ValidInterfaces(fs, n)
    ensures Endpoints(InterfacesEvents(fs, n)) == InterfacesEndpoints(fs, n)
  {
    if n > 0 {
      calc {
        Endpoints(InterfacesEvents(fs, n));
        Endpoints(InterfacesEvents(fs, n - 1) + InterfaceEvents(fs[n - 1]));
        { EndpointsConcat(InterfacesEvents(fs, n - 1), InterfaceEvents(fs[n - 1])); }
        Endpoints(InterfacesEvents(fs, n - 1)) + Endpoints(InterfaceEvents(fs[n - 1]));
        { EndpointsOfInterfaces(fs, n - 1); EndpointsOfInterface(fs[n - 1]); }
        InterfacesEndpoints(fs, n - 1) + AltSettingsEndpoints(fs[n - 1].altsetting, fs[n - 1].numAltsetting);
      }
    }
  }

  lemma {:induction false} AltSettingsCountMonotone(alts: seq<InterfaceDescriptor>, a: nat, b: nat)
    requires a <= b <= |alts|
    ensures AltSettingsEndpointCount(alts, a) <= AltSettingsEndpointCount(alts, b)
  {
    if a < b {
      AltSettingsCountMonotone(alts, a, b - 1);
    }
  }

  lemma {:induction false} InterfacesCountMonotone(fs: seq<Interface>, a: nat, b: nat)
    requires a <= b && ValidInterfaces(fs, b)
    ensures InterfacesEndpointCount(fs, a) <= InterfacesEndpointCount(fs, b)
  {
    if a < b {
      InterfacesCountMonotone(fs, a, b - 1);
    }
  }

  /** Endpoint k of alternate setting j comes after the endpoints of the
      settings before j, and after the k endpoints before it in j. */
  lemma {:induction false} AltSettingsEndpointAt(alts: seq<InterfaceDescriptor>, n: nat, j: nat, k: nat)
    requires ValidAltSettings(alts, n) && j < n && k < alts[j].bNumEndpoints
    ensures AltSettingsEndpointCount(alts, j) + k < AltSettingsEndpointCount(alts, n)
    ensures AltSettingsEndpoints(alts, n)[AltSettingsEndpointCount(alts, j) + k] == EndpointEvent(alts[j].endpoint[k])
  {
    var front := AltSettingsEndpoints(alts, n - 1);
    var back := EndpointEvents(alts[n - 1].endpoint, alts[n - 1].bNumEndpoints);
    assert AltSettingsEndpoints(alts, n) == front + back;
    if j < n - 1 {
      AltSettingsEndpointAt(alts, n - 1, j, k);
    } else {
      EndpointEventsAt(alts[n - 1].endpoint, alts[n - 1].bNumEndpoints, k);
      assert (front + back)[|front| + k] == back[k];
    }
  }

  /** Endpoint k of alternate setting j of interface i comes after the
      endpoints of the interfaces before i, then as within interface i. */
  lemma {:induction false} InterfacesEndpointAt(fs: seq<Interface>, n: nat, i: nat, j: nat, k: nat)
    requires ValidInterfaces(fs, n) && i < n && j < fs[i].numAltsetting && k < fs[i].altsetting[j].bNumEndpoints
    ensures InterfacesEndpointCount(fs, i) + AltSettingsEndpointCount(fs[i].altsetting, j) + k
            < InterfacesEndpointCount(fs, n)
    ensures InterfacesEndpoints(fs, n)[InterfacesEndpointCount(fs, i) + AltSettingsEndpointCount(fs[i].altsetting, j) + k]
            == EndpointEvent(fs[i].altsetting[j].endpoint[k])
  {
    var front := InterfacesEndpoints(fs, n - 1);
    var back := AltSettingsEndpoints(fs[n - 1].altsetting, fs[n - 1].numAltsetting);
    assert InterfacesEndpoints(fs, n) == front + back;
    if i < n - 1 {
      InterfacesEndpointAt(fs, n - 1, i, j, k);
    } else {
      AltSettingsEndpointAt(fs[n - 1].altsetting, fs[n - 1].numAltsetting, j, k);
      var at := AltSettingsEndpointCount(fs[n - 1].altsetting, j) + k;
      assert (front + back)[|front| + at] == back[at];
    }
  }

  /** printconfig prints one endpoint event per endpoint: as many as the sum
      of bNumEndpoints over all alternate settings of all interfaces. */
  lemma EndpointEventCount(c: ConfigDescriptor)
    requires ValidConfig(c)
    ensures |Endpoints(ConfigEvents(c))| == TotalEndpoints(c)
  {
    EndpointsConcat([NumInterfaces(c.bNumInterfaces)], InterfacesEvents(c.interface, c.bNumInterfaces));
    EndpointsOfInterfaces(c.interface, c.bNumInterfaces);
  }

  /** The event of endpoint (i, j, k) is the one at position
      EndpointRank(c, i, j, k) among the endpoint events printconfig prints. */
  lemma EndpointEventAt(c: ConfigDescriptor, i: nat, j: nat, k: nat)
    requires ValidConfig(c) && i < c.bNumInterfaces && j < c.interface[i].numAltsetting
    requires k < c.interface[i].altsetting[j].bNumEndpoints
    ensures EndpointRank(c, i, j, k) < TotalEndpoints(c) == |Endpoints(ConfigEvents(c))|
    ensures Endpoints(ConfigEvents(c))[EndpointRank(c, i, j, k)] == EndpointEvent(c.interface[i].altsetting[j].endpoint[k])
  {
    EndpointsConcat([NumInterfaces(c.bNumInterfaces)], InterfacesEvents(c.interface, c.bNumInterfaces));
    EndpointsOfInterfaces(c.interface, c.bNumInterfaces);
    InterfacesEndpointAt(c.interface, c.bNumInterfaces, i, j, k);
  }

  /** Lexicographic order on index triples. */
  predicate LexLess(i: nat, j: nat, k: nat, i': nat, j': nat, k': nat) {
    i < i' || (i == i' && j < j') || (i == i' && j == j' && k < k')
  }

  /** Endpoints come out in lexicographic order of (interface, alternate
      setting, endpoint) index, so distinct endpoints get distinct positions. */
  lemma EndpointRankIncreasing(c: ConfigDescriptor, i: nat, j: nat, k: nat, i': nat, j': nat, k': nat)
    requires ValidConfig(c)
    requires i < c.bNumInterfaces && j < c.interface[i].numAltsetting && k < c.interface[i].altsetting[j].bNumEndpoints
    requires i' < c.bNumInterfaces && j' < c.interface[i'].numAltsetting && k' < c.interface[i'].altsetting[j'].bNumEndpoints
    requires LexLess(i, j, k, i', j', k')
    ensures EndpointRank(c, i, j, k) < EndpointRank(c, i', j', k')
  {
    var fs := c.interface;
    if i < i' {
      assert ValidInterface(fs[i]);
      AltSettingsCountMonotone(fs[i].altsetting, j + 1, fs[i].numAltsetting);
      InterfacesCountMonotone(fs, i + 1, i');
    } else if j < j' {
      AltSettingsCountMonotone(fs[i].altsetting, j + 1, j');
    }
  }
}
