/**
 * The camera bookkeeping shared by `initCamera` (src/lib/utils.ts) and its older variant
 * `getCameraDevices` (src/lib/cameraUtils.ts): keep only video inputs, keep a prior
 * selection that is still present, otherwise prefer a device by label keyword, and write
 * a display label for every video input. The two variants differ only in their keywords.
 */
module DeviceSelection {
  import opened Wrappers
  import opened Strings

  const VideoInput: string := "videoinput"

  /** The keywords `initCamera` looks for in a lower-cased label. */
  const InitCameraKeywords: seq<string> := ["back", "rear"]

  /** The keywords `getCameraDevices` looks for in a lower-cased label. */
  const GetCameraDevicesKeywords: seq<string> := ["back"]

  /** One entry of `enumerateDevices()`. */
  datatype MediaDeviceInfo = MediaDeviceInfo(kind: string, deviceId: string, deviceLabel: string)

  /** What the permission request and the enumeration deliver; a rejection is caught by the callers. */
  datatype Enumeration =
    | PermissionDenied
    | EnumerationFailed
    | Enumerated(devices: seq<MediaDeviceInfo>)

  /** The part of the application state the camera code writes: `selectedDevice.id` and `devices.label`. */
  datatype CameraState = CameraState(selectedId: string, labels: map<string, string>)

  /** `mediaDevices.filter(device => device.kind === 'videoinput')`. */
  function VideoDevices(ds: seq<MediaDeviceInfo>): (vs: seq<MediaDeviceInfo>)
    ensures |vs| <= |ds|
    ensures forall d :: d in vs <==> d in ds && d.kind == VideoInput
  {
    if ds == [] then []
    else (if ds[0].kind == VideoInput then [ds[0]] else []) + VideoDevices(ds[1..])
  }

  /** Filtering distributes over concatenation, so it keeps the enumeration order. */
  lemma {:induction false} VideoDevicesAppend(a: seq<MediaDeviceInfo>, b: seq<MediaDeviceInfo>)
    ensures VideoDevices(a + b) == VideoDevices(a) + VideoDevices(b)
  {
    if a != [] {
      assert (a + b)[0] == a[0];
      assert (a + b)[1..] == a[1..] + b;
      VideoDevicesAppend(a[1..], b);
      var head := if a[0].kind == VideoInput then [a[0]] else [];
      assert VideoDevices(a) == head + VideoDevices(a[1..]);
      assert VideoDevices(a + b) == head + VideoDevices(a[1..] + b);
      assert head + (VideoDevices(a[1..]) + VideoDevices(b)) == (head + VideoDevices(a[1..])) + VideoDevices(b);
    } else {
      assert a + b == b;
    }
  }

  /** Inserting a device that is not a video input anywhere in the enumeration changes nothing. */
  lemma NonVideoDeviceIgnored(a: seq<MediaDeviceInfo>, d: MediaDeviceInfo, b: seq<MediaDeviceInfo>)
    requires d.kind != VideoInput
    ensures VideoDevices(a + [d] + b) == VideoDevices(a + b)
  {
    VideoDevicesAppend(a + [d], b);
    VideoDevicesAppend(a, [d]);
    VideoDevicesAppend(a, b);
    assert VideoDevices([d]) == [] by {
      assert [d][1..] == [];
    }
  }

  /** Some device of `vs` has the id `id` (`videoDevices.find(device => device.deviceId === id)` is truthy). */
  predicate HasDevice(vs: seq<MediaDeviceInfo>, id: string): (b: bool)
    ensures b ==> vs != []
    ensures vs != [] && vs[0].deviceId == id ==> b
  {
    exists k :: 0 <= k < |vs| && vs[k].deviceId == id
  }

  /** The lower-cased label includes one of the keywords. */
  predicate Preferred(text: string, keywords: seq<string>): (b: bool)
    ensures b ==> keywords != []
    ensures "" in keywords ==> b
  {
    exists i :: 0 <= i < |keywords| && Includes(ToLower(text), keywords[i])
  }

  /** The position of the first device whose label is preferred (`videoDevices.find(...)`). */
  function FindPreferred(vs: seq<MediaDeviceInfo>, keywords: seq<string>): (r: Option<nat>)
    ensures r.Some? ==> r.value < |vs| && Preferred(vs[r.value].deviceLabel, keywords)
    ensures r.Some? ==> forall j :: 0 <= j < r.value ==> !Preferred(vs[j].deviceLabel, keywords)
    ensures r.None? <==> forall j :: 0 <= j < |vs| ==> !Preferred(vs[j].deviceLabel, keywords)
  {
    if vs == [] then None
    else if Preferred(vs[0].deviceLabel, keywords) then Some(0)
    else match FindPreferred(vs[1..], keywords)
      case None => None
      case Some(k) => Some(k + 1)
  }

  /** `find(...)?.deviceId || videoDevices[0].deviceId`: the first preferred device's id, unless it is
      missing or empty, in which case the first device's id. */
  function PreferredOrFirst(vs: seq<MediaDeviceInfo>, keywords: seq<string>): (id: string)
    requires vs != []
    ensures HasDevice(vs, id)
  {
    match FindPreferred(vs, keywords)
    case Some(k) => if vs[k].deviceId != "" then vs[k].deviceId else vs[0].deviceId
    case None => vs[0].deviceId
  }

  /** The prior selection is kept exactly when it is non-empty and still enumerated. */
  predicate KeepsSelection(currentId: string, vs: seq<MediaDeviceInfo>): (b: bool)
    ensures b ==> currentId != "" && vs != []
  {
    currentId != "" && HasDevice(vs, currentId)
  }

  /** The new `selectedDevice.id`. */
  function SelectDevice(currentId: string, vs: seq<MediaDeviceInfo>, keywords: seq<string>): (id: string)
    requires vs != []
    ensures HasDevice(vs, id)
    ensures KeepsSelection(currentId, vs) ==> id == currentId
  {
    if KeepsSelection(currentId, vs) then currentId else PreferredOrFirst(vs, keywords)
  }

  /** Without a usable prior selection, the first preferred device wins when its id is non-empty. */
  lemma SelectsFirstPreferred(currentId: string, vs: seq<MediaDeviceInfo>, keywords: seq<string>, k: nat)
    requires !KeepsSelection(currentId, vs)
    requires k < |vs| && Preferred(vs[k].deviceLabel, keywords)
    requires forall j :: 0 <= j < k ==> !Preferred(vs[j].deviceLabel, keywords)
    ensures SelectDevice(currentId, vs, keywords)
         == if vs[k].deviceId != "" then vs[k].deviceId else vs[0].deviceId
  {
  }

  /** Without a usable prior selection and with no preferred label, the first device is chosen. */
  lemma SelectsFirstWhenNonePreferred(currentId: string, vs: seq<MediaDeviceInfo>, keywords: seq<string>)
    requires vs != [] && !KeepsSelection(currentId, vs)
    requires forall j :: 0 <= j < |vs| ==> !Preferred(vs[j].deviceLabel, keywords)
    ensures SelectDevice(currentId, vs, keywords) == vs[0].deviceId
  {
  }

  /** `device.label || \`Camera ${videoDevices.indexOf(device) + 1}\``; each enumerated entry is a
      distinct object, so `indexOf` yields the device's own position. */
  function DisplayLabel(d: MediaDeviceInfo, position: nat): (text: string)
    ensures text != ""
    ensures d.deviceLabel != "" ==> text == d.deviceLabel
    ensures d.deviceLabel == "" ==> text == "Camera " + NatToString(position + 1)
  {
    if d.deviceLabel != "" then d.deviceLabel else "Camera " + NatToString(position + 1)
  }

  /** The label entries written by the first `n` iterations of the `forEach` over the video devices. */
  function Labels(vs: seq<MediaDeviceInfo>, n: nat): (m: map<string, string>)
    requires n <= |vs|
    ensures m.Keys == set k | 0 <= k < n :: vs[k].deviceId
  {
    if n == 0 then map[]
    else
      var m := Labels(vs, n - 1);
      var m' := m[vs[n - 1].deviceId := DisplayLabel(vs[n - 1], n - 1)];
      assert m'.Keys == (set k | 0 <= k < n - 1 :: vs[k].deviceId) + {vs[n - 1].deviceId};
      assert (set k | 0 <= k < n :: vs[k].deviceId)
          == (set k | 0 <= k < n - 1 :: vs[k].deviceId) + {vs[n - 1].deviceId};
      m'
  }

  /** One more iteration writes one more entry over whatever was there before. */
  lemma LabelsStep(base: map<string, string>, vs: seq<MediaDeviceInfo>, k: nat)
    requires k < |vs|
    ensures base + Labels(vs, k + 1) == (base + Labels(vs, k))[vs[k].deviceId := DisplayLabel(vs[k], k)]
  {
  }

  /** A device's label entry comes from its own position when no later device shares its id. */
  lemma {:induction false} LabelsLastWriteWins(vs: seq<MediaDeviceInfo>, n: nat, k: nat)
    requires k < n <= |vs|
    requires forall j :: k < j < n ==> vs[j].deviceId != vs[k].deviceId
    ensures vs[k].deviceId in Labels(vs, n)
    ensures Labels(vs, n)[vs[k].deviceId] == DisplayLabel(vs[k], k)
  {
    if k < n - 1 {
      LabelsLastWriteWins(vs, n - 1, k);
    }
  }

  /** No two video devices share an id. */
  predicate DistinctIds(vs: seq<MediaDeviceInfo>) {
    forall i, j :: 0 <= i < j < |vs| ==> vs[i].deviceId != vs[j].deviceId
  }

  /** With distinct ids, every video device's id maps to its own display label. */
  lemma LabelsOfDistinctIds(vs: seq<MediaDeviceInfo>, k: nat)
    requires DistinctIds(vs) && k < |vs|
    ensures Labels(vs, |vs|)[vs[k].deviceId] == DisplayLabel(vs[k], k)
  {
    LabelsLastWriteWins(vs, |vs|, k);
  }

  /** Some enumerated device is a video input. */
  predicate HasVideo(e: Enumeration) {
    e.Enumerated? && exists d :: d in e.devices && d.kind == VideoInput
  }

  /** The state after one run of the camera routine with the given keywords. */
  function Refresh(s: CameraState, e: Enumeration, keywords: seq<string>): (t: CameraState)
    ensures !HasVideo(e) ==> t == s
    ensures s.labels.Keys <= t.labels.Keys
  {
    if e.Enumerated? && VideoDevices(e.devices) != [] then
      var vs := VideoDevices(e.devices);
      CameraState(SelectDevice(s.selectedId, vs, keywords), s.labels + Labels(vs, |vs|))
    else
      s
  }

  /** Devices that are not video inputs never affect the outcome. */
  lemma RefreshIgnoresNonVideo(s: CameraState, a: seq<MediaDeviceInfo>, d: MediaDeviceInfo,
                                b: seq<MediaDeviceInfo>, keywords: seq<string>)
    requires d.kind != VideoInput
    ensures Refresh(s, Enumerated(a + [d] + b), keywords) == Refresh(s, Enumerated(a + b), keywords)
  {
    NonVideoDeviceIgnored(a, d, b);
  }

  /** After a run that saw a video input, the selection is the id of an enumerated video input,
      and that id has a label entry. */
  lemma RefreshSelectsLabelledVideo(s: CameraState, e: Enumeration, keywords: seq<string>)
    requires HasVideo(e)
    ensures exists d :: d in e.devices && d.kind == VideoInput && d.deviceId == Refresh(s, e, keywords).selectedId
    ensures Refresh(s, e, keywords).selectedId in Refresh(s, e, keywords).labels
  {
    var vs := VideoDevices(e.devices);
    var t := Refresh(s, e, keywords);
    var k :| 0 <= k < |vs| && vs[k].deviceId == t.selectedId;
    assert vs[k] in vs;
    assert vs[k].deviceId in Labels(vs, |vs|).Keys;
  }

  /** A non-empty prior selection that is still enumerated as a video input is kept. */
  lemma RefreshKeepsPresentSelection(s: CameraState, e: Enumeration, keywords: seq<string>, k: nat)
    requires e.Enumerated? && k < |e.devices|
    requires e.devices[k].kind == VideoInput && e.devices[k].deviceId == s.selectedId != ""
    ensures Refresh(s, e, keywords).selectedId == s.selectedId
  {
    var vs := VideoDevices(e.devices);
    assert e.devices[k] in vs;
    var j :| 0 <= j < |vs| && vs[j] == e.devices[k];
    assert HasDevice(vs, s.selectedId);
  }

  /** Label entries for ids that are not enumerated as video inputs are kept as they were. */
  lemma RefreshKeepsOtherLabels(s: CameraState, e: Enumeration, keywords: seq<string>, id: string)
    requires id in s.labels
    requires e.Enumerated? ==> forall d :: d in e.devices && d.kind == VideoInput ==> d.deviceId != id
    ensures Refresh(s, e, keywords).labels[id] == s.labels[id]
  {
    if e.Enumerated? && VideoDevices(e.devices) != [] {
      var vs := VideoDevices(e.devices);
      assert id !in Labels(vs, |vs|);
    }
  }

  /** After a run that saw video inputs, the `k`-th of them (counting video inputs only) is labelled
      with its own display label, unless a later video input has the same id. */
  lemma RefreshLabelsVideo(s: CameraState, e: Enumeration, keywords: seq<string>, k: nat)
    requires e.Enumerated? && k < |VideoDevices(e.devices)|
    requires var vs := VideoDevices(e.devices); forall j :: k < j < |vs| ==> vs[j].deviceId != vs[k].deviceId
    ensures var vs := VideoDevices(e.devices);
            Refresh(s, e, keywords).labels[vs[k].deviceId] == DisplayLabel(vs[k], k)
  {
    var vs := VideoDevices(e.devices);
    LabelsLastWriteWins(vs, |vs|, k);
  }

  lemma RearCameraLabel()
    ensures Preferred("Rear Camera", InitCameraKeywords)
    ensures !Preferred("Rear Camera", GetCameraDevicesKeywords)
  {
    var l := ToLower("Rear Camera");
    assert l == "rear camera";
    assert OccursAt(l, "rear", 0);
    assert Includes(l, InitCameraKeywords[1]);
    MissingCharNotIncluded(l, "back", 0);
  }

  lemma FrontCameraLabel()
    ensures !Preferred("Front Camera", InitCameraKeywords)
    ensures !Preferred("Front Camera", GetCameraDevicesKeywords)
  {
    var l := ToLower("Front Camera");
    assert l == "front camera";
    MissingCharNotIncluded(l, "back", 0);
    forall i | 0 <= i <= |l| - 4 ensures !OccursAt(l, "rear", i) {
      assert l[i..i + 4][0] == l[i];
      assert l[i..i + 4][1] == l[i + 1];
    }
  }

  /** A front camera listed first and a rear camera listed second: the `back`/`rear` variant picks
      the rear one, the `back`-only variant falls back to the first device. */
  lemma KeywordsDecideRearCamera()
    ensures var e := Enumerated([MediaDeviceInfo(VideoInput, "front", "Front Camera"),
                                 MediaDeviceInfo(VideoInput, "rear", "Rear Camera")]);
            && Refresh(CameraState("", map[]), e, InitCameraKeywords).selectedId == "rear"
            && Refresh(CameraState("", map[]), e, GetCameraDevicesKeywords).selectedId == "front"
  {
    var front := MediaDeviceInfo(VideoInput, "front", "Front Camera");
    var rear := MediaDeviceInfo(VideoInput, "rear", "Rear Camera");
    var ds := [front, rear];
    assert VideoDevices(ds) == ds by {
      assert ds[1..] == [rear];
      assert ds[1..][1..] == [];
    }
    RearCameraLabel();
    FrontCameraLabel();
    SelectsFirstPreferred("", ds, InitCameraKeywords, 1);
    SelectsFirstWhenNonePreferred("", ds, GetCameraDevicesKeywords);
  }
}
