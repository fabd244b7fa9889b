/**
 * `getCameraDevices` of src/lib/cameraUtils.ts, the older variant of `initCamera`: it prefers
 * labels containing `back` only, leaves the permission stream running, and logs a lookup
 * for a mixed-case keyword in lower-cased labels.
 */
module CameraUtils {
  import opened Wrappers
  import opened Strings
  import opened DeviceSelection
  import opened Shared

  /** The keyword of the logged lookup, compared against lower-cased labels. */
  const DebugKeywords: seq<string> := ["Camera"]

  /** The position the logged `videoDevices.find(...)` yields. */
  function DebugLookup(vs: seq<MediaDeviceInfo>): (r: Option<nat>)
    ensures r.Some? ==> r.value < |vs|
  {
    FindPreferred(vs, DebugKeywords)
  }

  /** A lower-cased label never contains the upper-case `C`, so the logged lookup never finds a device. */
  lemma DebugLookupNeverMatches(vs: seq<MediaDeviceInfo>)
    ensures DebugLookup(vs) == None
  {
    forall j | 0 <= j < |vs| ensures !Preferred(vs[j].deviceLabel, DebugKeywords) {
      LowerNeverIncludesUpper(vs[j].deviceLabel, DebugKeywords[0], 0);
    }
  }

  /** `getCameraDevices()`: the same bookkeeping as `initCamera` with the keyword `back` alone.
      The permission stream is never stopped, so its tracks stay live whenever permission was
      granted, even if the enumeration then fails. `logged` is `None` when the debug line is not
      reached (a rejection, or no video input) and `Some(found)` when it prints `found`, with
      `Some(None)` for the `undefined` it prints when the lookup finds nothing. */
  method GetCameraDevices(response: Enumeration, selectedDevice: SelectedDevice, devices: Devices)
    returns (permissionTracksLive: bool, logged: Option<Option<MediaDeviceInfo>>)
    modifies selectedDevice, devices
    ensures CameraState(selectedDevice.id, devices.labels)
         == Refresh(old(CameraState(selectedDevice.id, devices.labels)), response, GetCameraDevicesKeywords)
    ensures permissionTracksLive <==> !response.PermissionDenied?
    ensures logged.Some? <==> response.Enumerated? && VideoDevices(response.devices) != []
    ensures logged.Some? ==> logged.value == None
  {
    ghost var before := CameraState(selectedDevice.id, devices.labels);
    logged := None;
    if response.PermissionDenied? {
      return false, None;
    }
    permissionTracksLive := true;
    if response.EnumerationFailed? {
      return;
    }
    var videoDevices := VideoDevices(response.devices);
    if |videoDevices| == 0 {
      return;
    }
    if !(selectedDevice.id != "" && HasDevice(videoDevices, selectedDevice.id)) {
      selectedDevice.id := PreferredOrFirst(videoDevices, GetCameraDevicesKeywords);
    }
    ghost var selected := selectedDevice.id;
    assert selected == SelectDevice(before.selectedId, videoDevices, GetCameraDevicesKeywords);
    var found := DebugLookup(videoDevices);
    logged := Some(if found.Some? then Some(videoDevices[found.value]) else None);
    DebugLookupNeverMatches(videoDevices);
    for k := 0 to |videoDevices|
      invariant selectedDevice.id == selected
      invariant devices.labels == before.labels + Labels(videoDevices, k)
    {
      var device := videoDevices[k];
      LabelsStep(before.labels, videoDevices, k);
      devices.labels := devices.labels[device.deviceId := DisplayLabel(device, k)];
    }
  }
}
