/** The USB audio interface monitor (`InterfaceMonitor`): which udev
    "sound" events report the interface plugged in or out, and whether one
    is present now. */
module Dev {
  import opened Common

  /** A udev device of the "sound" subsystem: its kernel name and its
      `ID_BUS` property, absent when the device has none. */
  datatype Device = Device(name: string, bus: Option<string>)

  /** The filter both `uevent` and `is_present` apply: a sound card on the
      USB bus. */
  predicate Relevant(d: Device)
  {
    StartsWith(d.name, "card") && d.bus == Some("usb")
  }

  /** `uevent`: what the callback is told, if anything. "add" and "change"
      of a relevant device report presence, "remove" reports absence;
      anything else is ignored. */
  function Uevent(action: string, d: Device): (report: Option<bool>)
    ensures report.Some? ==> Relevant(d)
    ensures report == Some(true) <==> Relevant(d) && (action == "add" || action == "change")
    ensures report == Some(false) <==> Relevant(d) && action == "remove"
  {
    if Relevant(d) then
      if action == "add" || action == "change" then Some(true)
      else if action == "remove" then Some(false)
      else None
    else None
  }

  /** The callback calls `uevent` makes: none without a callback. */
  function Callbacks(hasCallback: bool, action: string, d: Device): (calls: seq<bool>)
    ensures |calls| <= 1
    ensures calls != [] <==> hasCallback && Uevent(action, d).Some?
    ensures calls != [] ==> calls[0] == Uevent(action, d).value
  {
    if hasCallback && Uevent(action, d).Some? then [Uevent(action, d).value] else []
  }

  /** Reference definition of presence: some queried device passes the
      filter. */
  ghost predicate AnyRelevant(devices: seq<Device>)
  {
    exists i :: 0 <= i < |devices| && Relevant(devices[i])
  }

  /** `is_present`: scan the devices of the "sound" subsystem, returning
      at the first relevant one. */
  method IsPresent(devices: seq<Device>) returns (present: bool)
    ensures present <==> AnyRelevant(devices)
  {
    var i := 0;
    while i < |devices|
      invariant 0 <= i <= |devices|
      invariant forall j :: 0 <= j < i ==> !Relevant(devices[j])
    {
      if Relevant(devices[i]) {
        return true;
      }
      i := i + 1;
    }
    return false;
  }

  /** An event reporting presence names a device that, once it is listed,
      makes `is_present` true. */
  lemma AddedDeviceIsPresent(devices: seq<Device>, action: string, d: Device)
    requires Uevent(action, d) == Some(true)
    ensures AnyRelevant(devices + [d])
  {
    assert (devices + [d])[|devices|] == d;
  }

  /** Removing the only relevant device, which is what a "remove" event
      reports, leaves no interface present; removing any other device does
      not change presence. */
  lemma RemovedDeviceIsAbsent(before: seq<Device>, d: Device, after: seq<Device>)
    requires Uevent("remove", d) == Some(false)
    requires forall i :: 0 <= i < |before| ==> !Relevant(before[i])
    requires forall i :: 0 <= i < |after| ==> !Relevant(after[i])
    ensures AnyRelevant(before + [d] + after)
    ensures !AnyRelevant(before + after)
  {
    var all := before + [d] + after;
    assert all[|before|] == d;
    var rest := before + after;
    forall i | 0 <= i < |rest|
      ensures !Relevant(rest[i])
    {
      if i < |before| {
        assert rest[i] == before[i];
      } else {
        assert rest[i] == after[i - |before|];
      }
    }
  }

  /** Devices that are not sound cards, or not on USB, never change what
      `is_present` answers. */
  lemma IrrelevantDeviceIgnored(devices: seq<Device>, d: Device, action: string)
    requires !Relevant(d)
    ensures Uevent(action, d).None?
    ensures AnyRelevant(devices + [d]) <==> AnyRelevant(devices)
  {
    var all := devices + [d];
    if AnyRelevant(all) {
      var i :| 0 <= i < |all| && Relevant(all[i]);
      assert i < |devices| && all[i] == devices[i];
    }
    if AnyRelevant(devices) {
      var i :| 0 <= i < |devices| && Relevant(devices[i]);
      assert all[i] == devices[i];
    }
  }
}
