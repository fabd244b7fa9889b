# insti-attend: camera selection, timestamps, webhook outcomes, alerts and luma conversion

insti-attend is a browser app that takes attendance by scanning ID-card barcodes. This Dafny
project models the parts of it that are plain logic rather than browser plumbing:

- **Camera selection and labelling** (`initCamera` in `src/lib/utils.ts` and its older variant
  `getCameraDevices` in `src/lib/cameraUtils.ts`). The enumeration is filtered to video inputs. A
  prior selection that is still present is kept; otherwise the first camera whose lower-cased label
  contains a keyword is chosen, falling back to the first camera. Every camera gets a display label,
  `Camera k` when the hardware label is empty. The two variants are `Utils.InitCamera` and
  `CameraUtils.GetCameraDevices`. Both are methods that update `Shared.SelectedDevice` and
  `Shared.Devices` objects. Each is proved against one specification function,
  `DeviceSelection.Refresh`, with its own keyword list.
- **The time-zone qualified timestamp** `toISOStringTZ` and its helper `pad`
  (`Utils.ToIsoStringTz`). It takes the local calendar fields and the minute offset as integers.
  A parser, `Utils.ParseIsoTz`, accepts only the layout `Y-MM-DDTHH:MM:SS±HH:MM`: an integer year
  in decimal, the fixed separators, a `+` or `-` sign and two decimal digits in every field. It
  reads that layout back, and the formatted text is proved to have the layout and to determine
  every field and the offset.
- **The webhook outcome mapping** of `postWebhook`. `Utils.WebhookRequestFor` builds the request.
  `Utils.WebhookOutcome` gives the alert and result for each of three fetch outcomes: ok, HTTP error
  and transport failure. `Utils.PostWebhook` shows that single alert in the alert store.
- **The alert store** of `src/lib/shared.svelte.ts` (`Shared.AlertStore`): a counter and a record of
  alerts, plus the removals scheduled by `setTimeout`, kept as a first-in first-out queue of ids.
  Its invariant `Valid` says that every shown alert has a pending removal, and that pending ids were
  issued by the counter in increasing order. So an id is never reused and a new alert never
  overwrites an old one.
- **The preference defaults and the attendance reviver** of the same file. `JSON.parse` with the
  reviver is modelled as the reviver walk over JavaScript values (`Json.Internalize`), and
  `JSON.stringify` as the conversion of dates back to strings. Stored attendance is proved to
  reload unchanged.
- **RGBA to luma conversion** (`convert_image_to_luma` in `rxing-wasm/src/lib.rs`,
  `Luma.ConvertImageToLuma`). The loop is proved equal to a recursive definition. It is also proved
  to emit one byte per whole pixel, to map transparent pixels to white, and to never truncate in the
  `as u8` cast.

Supporting modules: `Wrappers` holds `Option`. `Strings` holds decimal text in both directions,
`padStart`, ASCII lower-casing and substring search. `Json` holds the value model.

## Model

| member | source | states |
|---|---|---|
| DeviceSelection.VideoDevices | src/lib/utils.ts:9 | the filtered list holds exactly the enumerated entries whose kind is `videoinput`, and is no longer than the enumeration |
| DeviceSelection.VideoDevicesAppend | src/lib/utils.ts:9 | filtering distributes over concatenation, so it keeps enumeration order |
| DeviceSelection.NonVideoDeviceIgnored | src/lib/utils.ts:9 | inserting a non-video device anywhere leaves the filtered list unchanged |
| DeviceSelection.HasDevice | src/lib/utils.ts:15 | `videoDevices.find(device => device.deviceId === id)` finds something: never in an empty list, always when the first device has the id |
| DeviceSelection.KeepsSelection | src/lib/utils.ts:15 | the condition under which the prior selection is kept holds only for a non-empty id and a non-empty device list |
| DeviceSelection.Preferred | src/lib/utils.ts:18-20 | the lower-cased label includes one of the keywords: never with no keywords, always when the empty keyword is listed |
| DeviceSelection.FindPreferred | src/lib/utils.ts:17-20 | returns the position of the first device whose lower-cased label contains a keyword, and none exactly when no device's label does |
| DeviceSelection.PreferredOrFirst | src/lib/utils.ts:16-21 | the fallback choice is always the id of one of the video devices |
| DeviceSelection.SelectDevice | src/lib/utils.ts:15-21 | the new selection is always some video device's id, and a non-empty prior selection that is still present is kept |
| DeviceSelection.SelectsFirstPreferred | src/lib/utils.ts:15-21 | without a usable prior selection, the first preferred device's id is chosen, or the first device's id when that id is empty |
| DeviceSelection.SelectsFirstWhenNonePreferred | src/lib/utils.ts:15-21 | without a usable prior selection and with no preferred label, the first video device is chosen |
| DeviceSelection.DisplayLabel | src/lib/utils.ts:25-26 | the label is never empty: it is the hardware label when non-empty, `Camera ` followed by the 1-based position otherwise |
| DeviceSelection.Labels | src/lib/utils.ts:23-27 | after `n` iterations, the label map's keys are exactly the ids of the first `n` video devices |
| DeviceSelection.LabelsStep | src/lib/utils.ts:23-27 | one more iteration writes one more entry over the map as it stood |
| DeviceSelection.LabelsLastWriteWins | src/lib/utils.ts:23-27 | a device whose id no later device shares maps to its own display label |
| DeviceSelection.LabelsOfDistinctIds | src/lib/utils.ts:23-27 | with distinct ids, every video device maps to its own display label |
| DeviceSelection.Refresh | src/lib/utils.ts:9-27 | with no video input, or after a rejection, the state is unchanged; label keys are never removed |
| DeviceSelection.RefreshIgnoresNonVideo | src/lib/utils.ts:9 | a non-video device inserted anywhere in the enumeration changes neither the selection nor the labels |
| DeviceSelection.RefreshSelectsLabelledVideo | src/lib/utils.ts:15-27 | after a run that saw a video input, the selection is an enumerated video input's id, and that id has a label |
| DeviceSelection.RefreshKeepsPresentSelection | src/lib/utils.ts:15 | a non-empty prior selection that is enumerated as a video input stays selected |
| DeviceSelection.RefreshKeepsOtherLabels | src/lib/utils.ts:23-27 | label entries for ids that are not enumerated video inputs keep their values |
| DeviceSelection.RefreshLabelsVideo | src/lib/utils.ts:23-27 | the `k`-th video input maps to its own display label unless a later video input has the same id |
| DeviceSelection.RearCameraLabel | src/lib/utils.ts:17-20 | `Rear Camera` is preferred with keywords `back`/`rear` and not with `back` alone |
| DeviceSelection.FrontCameraLabel | src/lib/utils.ts:17-20 | `Front Camera` is preferred with neither keyword list |
| DeviceSelection.KeywordsDecideRearCamera | src/lib/cameraUtils.ts:13-15 | for a front camera listed before a rear camera, the `back`/`rear` variant selects the rear camera and the `back`-only variant the front one |
| Utils.InitCamera | src/lib/utils.ts:3-31 | the new selection and label map are those of `Refresh` with keywords `back`/`rear`, and the permission stream's tracks are never left live |
| CameraUtils.GetCameraDevices | src/lib/cameraUtils.ts:3-27 | the new selection and label map are those of `Refresh` with keyword `back`; the permission tracks stay live exactly when permission was granted; the debug line runs exactly when a video input was enumerated, and then prints `undefined` |
| CameraUtils.DebugLookup | src/lib/cameraUtils.ts:17 | the logged lookup yields a position within the list when it finds anything |
| CameraUtils.DebugLookupNeverMatches | src/lib/cameraUtils.ts:17 | a lower-cased label never contains `Camera`, so the logged lookup finds nothing for any device list |
| Strings.NatToString | src/lib/utils.ts:36 | the decimal text is non-empty and all digits, has one digit exactly for values below 10, and has no leading zero |
| Strings.ParseNatToString | src/lib/shared.svelte.ts:47 | reading the decimal text back gives the number |
| Strings.NatToStringInjective | src/lib/shared.svelte.ts:47 | distinct counter values give distinct alert ids |
| Strings.IntToString | src/lib/utils.ts:39 | the text of the year is non-empty and starts with `-` exactly for negative years |
| Strings.ParseIntToString | src/lib/utils.ts:49 | reading the year's text back gives the year |
| Strings.TwoDigitsOf | src/lib/utils.ts:36 | two decimal digits are determined by the value they spell: the tens digit, then the units digit |
| Strings.PadStart | src/lib/utils.ts:36 | the result has length max(length, target), ends with the input, and is filled before it |
| Strings.ToLower | src/lib/utils.ts:19 | `toLowerCase` on ASCII: same length, no upper-case letter left, other characters kept, each upper-case letter moved to its lower-case form |
| Strings.Includes | src/lib/utils.ts:19 | `includes`: a text includes a substring only if it is at least as long, and every text includes the empty string |
| Strings.LowerChar | src/lib/utils.ts:19 | a lower-cased character is never upper case |
| Strings.MissingCharNotIncluded | src/lib/utils.ts:19-20 | a text lacking one of the keyword's characters does not include the keyword |
| Strings.LowerNeverIncludesUpper | src/lib/cameraUtils.ts:17 | a lower-cased text never includes a keyword containing an upper-case letter |
| Utils.Pad | src/lib/utils.ts:36 | the digits read back as the number, there are exactly two of them for values up to 99, and larger values are not padded |
| Utils.PadExamples | src/lib/utils.ts:36 | `pad(0)`, `pad(5)` and `pad(30)` are `00`, `05` and `30` |
| Utils.OffsetSign | src/lib/utils.ts:34 | the sign is `+` exactly for non-negative offsets and `-` exactly for negative ones |
| Utils.OffsetParts | src/lib/utils.ts:46-47 | offset hours times 60 plus offset minutes is the absolute offset, with the minutes below 60 |
| Utils.Field | src/lib/utils.ts:40-49 | a piece of the template is its separator followed by the padded value, three characters for two-digit values |
| Utils.Pieces | src/lib/utils.ts:40-49 | one piece per value, each of three characters when every value has two digits |
| Utils.ConcatAt | src/lib/utils.ts:49 | in the assembled text, the `i`-th three-character piece sits at positions `3i` to `3i+3` |
| Utils.PieceParse | src/lib/utils.ts:49 | at position `3i` of the assembled text is the `i`-th separator, and the next two characters spell the `i`-th value |
| Utils.DatePiecesRoundTrip | src/lib/utils.ts:40-44 | the month, day, hours, minutes and seconds pieces carry their separators and read back as their values |
| Utils.OffsetPiecesRoundTrip | src/lib/utils.ts:46-49 | the offset pieces carry the sign and read back as the offset's hours and minutes |
| Utils.TailRoundTrip | src/lib/utils.ts:39-49 | the 21 characters after the year read back as the month, day, time and offset they were built from |
| Utils.FormatWithOffset | src/lib/utils.ts:39-49 | the template string for a non-zero offset; it is non-empty and starts with `-` exactly for a negative year |
| Utils.HasIsoTzLayout | src/lib/utils.ts:49 | the shape `Y-MM-DDTHH:MM:SS±HH:MM` with an integer year and two digits per field: at least 22 characters, with the sign six characters from the end |
| Utils.ParseIsoTz | src/lib/utils.ts:49 | the reader of the template's layout: it accepts only texts of that layout |
| Utils.ToIsoStringTz | src/lib/utils.ts:37-51 | with a zero offset the host's UTC rendering is returned; otherwise, for fields of at most two digits, the text has the layout `Y-MM-DDTHH:MM:SS±HH:MM` and reads back as the calendar fields and the offset |
| Utils.FormatRoundTrip | src/lib/utils.ts:39-49 | the formatted text has the layout `Y-MM-DDTHH:MM:SS±HH:MM` and determines the year, every field and the offset |
| Utils.NonDigitFieldRejected | src/lib/utils.ts:40-49 | a text with a non-digit character in any two-digit field is not of the layout and is not read |
| Utils.LetterInMonthRejected | src/lib/utils.ts:40 | `2024-x1-01T00:00:00+05:30` is not read as a timestamp |
| Utils.PieceAt | src/lib/utils.ts:49 | the `i`-th piece of the template sits at positions `3i` to `3i+3` of the text after the year |
| Utils.IndiaOffsetTail | src/lib/utils.ts:33-49 | at an offset of +330 minutes the last six characters after the year are `+05:30` |
| Utils.IndiaOffsetSuffix | src/lib/utils.ts:37-49 | a host at UTC+05:30 ends every timestamp in `+05:30` |
| Utils.WebhookRequestFor | src/lib/utils.ts:68-77 | a POST of the body to the URL with a JSON content type, and an `Authorization: Bearer <token>` header exactly when the token is non-empty |
| Utils.WebhookOutcome | src/lib/utils.ts:79-88 | `true` and a success alert exactly for an ok response; an error alert otherwise, with subtext `<status>: <statusText>` exactly for a non-ok response |
| Utils.ServerErrorOutcome | src/lib/utils.ts:82-83 | a 500 response gives `false` and an error alert whose subtext starts with `500` |
| Utils.PostWebhook | src/lib/utils.ts:66-89 | exactly one alert is added, under a fresh id, with the outcome's alert, and the outcome's result is returned |
| Shared.OrDefault | src/lib/shared.svelte.ts:9-13 | a stored non-empty text is used unchanged; an absent or empty one gives the fallback |
| Shared.InitialDeviceId | src/lib/shared.svelte.ts:9 | the initial device id is the stored one, or empty when nothing is stored |
| Shared.InitialFpsText | src/lib/shared.svelte.ts:11 | the frame-rate text is never empty, is exactly `60` when nothing or an empty text is stored, and is the stored text otherwise |
| Shared.InitialRollRegex | src/lib/shared.svelte.ts:13 | the initial roll pattern is the stored one, or empty when nothing is stored |
| Shared.SelectedDevice.constructor | src/lib/shared.svelte.ts:9 | the selection starts at the stored device id |
| Shared.Devices.constructor | src/lib/shared.svelte.ts:6-8 | the label map starts empty |
| Shared.ReviveAttendance | src/lib/shared.svelte.ts:27-29 | `JSON.parse` of the attendance text with the reviver, from the parsed value: on parsed JSON, no `timestamp` key is left holding a string and dates sit only under `timestamp` keys |
| Shared.AttendanceReviver | src/lib/shared.svelte.ts:27-29 | a value changes only under the key `timestamp` when it is a string, and then becomes the date of that text |
| Shared.RevivedHasNoTimestampString | src/lib/shared.svelte.ts:27-29 | after the reviver walk over parsed JSON, no `timestamp` key holds a string and every date sits under a `timestamp` key |
| Shared.RevivedElements | src/lib/shared.svelte.ts:27-29 | the same for every element of a parsed array |
| Shared.RevivedMembers | src/lib/shared.svelte.ts:27-29 | the same for every member of a parsed object |
| Shared.ReviveStringified | src/lib/shared.svelte.ts:26-29 | a value whose dates sit exactly under `timestamp` keys survives `JSON.stringify` followed by the reviver walk unchanged |
| Shared.ReviveStringifiedElements | src/lib/shared.svelte.ts:26-29 | the same for the elements of an array |
| Shared.ReviveStringifiedMembers | src/lib/shared.svelte.ts:26-29 | the same for the members of an object |
| Shared.AttendanceMembers | src/lib/shared.svelte.ts:21-25 | an attendance map as an object has its dates under `timestamp` keys only |
| Shared.AttendanceRoundTrip | src/lib/shared.svelte.ts:26-29 | stored attendance reloads with its timestamps as dates, equal to the records written |
| Json.Internalize | src/lib/shared.svelte.ts:27 | the reviver walk of `JSON.parse`: a leaf is handed straight to the reviver with its key, and an array is rebuilt with as many elements before the reviver sees it |
| Json.Stringify | src/lib/shared.svelte.ts:27 | stands for the write-through of `attendance` to storage (`JSON.stringify` with `Date.prototype.toJSON`), which happens outside the modelled files; the value it writes: no date is left at the top, a date becomes its ISO text, arrays and objects keep their sizes |
| Json.InternalizeMembers | src/lib/shared.svelte.ts:27 | the reviver walk keeps an object's keys and their order |
| Json.StringifyIsPlain | src/lib/shared.svelte.ts:27 | the stored text holds no dates, which is what the reviver walk expects to find |
| Shared.AlertStore.constructor | src/lib/shared.svelte.ts:37-40 | the store starts with no alerts, counter 0 and nothing pending, and is valid |
| Shared.AlertStore.ShowAlert | src/lib/shared.svelte.ts:46-49 | one entry is added under the counter's old value, which no alert has had and no earlier counter value spells; other entries are unchanged; the counter grows by one; one removal of the new id is scheduled |
| Shared.AlertStore.RemoveAlert | src/lib/shared.svelte.ts:42-44 | only the given key is deleted, and an absent key leaves the record unchanged |
| Shared.AlertStore.ExpireOldest | src/lib/shared.svelte.ts:49 | the oldest scheduled timer removes exactly its own id and leaves the later timers pending |
| Luma.WeightedSum | rxing-wasm/src/lib.rs:20 | the weighted sum before the shift lies between 512 and 261,632, so the u64 arithmetic never wraps |
| Luma.WeightedLuma | rxing-wasm/src/lib.rs:20 | the weighted sum shifted right by 10 is at most 255 |
| Luma.TruncateToU8 | rxing-wasm/src/lib.rs:20-21 | the `as u8` cast keeps every value below 256 unchanged |
| Luma.PixelLuma | rxing-wasm/src/lib.rs:12-22 | a transparent pixel is white (0xFF); any other pixel is the weighted value, with no truncation by the cast |
| Luma.GreyPixelKeepsLevel | rxing-wasm/src/lib.rs:16-20 | a grey pixel with non-zero alpha maps to its own level |
| Luma.PixelLumaMonotone | rxing-wasm/src/lib.rs:20 | brighter red, green or blue channels never give a darker luma |
| Luma.Luma | rxing-wasm/src/lib.rs:8-24 | the per-pixel conversion of a whole buffer: one output byte per whole four-byte pixel |
| Luma.LumaAt | rxing-wasm/src/lib.rs:7-9 | the output has one byte per whole pixel, and byte `i` depends only on input bytes `4i` to `4i+3` |
| Luma.LumaIgnoresTrailingBytes | rxing-wasm/src/lib.rs:8 | up to three bytes after the last whole pixel do not change the output |
| Luma.ConvertImageToLuma | rxing-wasm/src/lib.rs:6-27 | the loop's output is the recursive per-pixel conversion, of length `data.len() / 4` |

## Left out

- Camera access and enumeration (`getUserMedia`, `enumerateDevices`, `track.stop()`) are browser I/O. The result of both calls is the `Enumeration` parameter: a rejected permission request, a rejected enumeration, or the device list. Stopping the tracks is reported only as the returned `permissionTracksLive`.
- `console.log` and `console.error` are left out. The logged debug lookup of `getCameraDevices` is returned as a value.
- Utils.InitCamera, CameraUtils.GetCameraDevices and Utils.PostWebhook: each of these async functions is modelled as one synchronous step, run once its awaits (`getUserMedia` and `enumerateDevices`, or `fetch`) have settled. The `old` state in their contracts is the state at that moment, not the state at the call. Interleaving with other code at the awaits, including concurrent calls of the same function, is not modelled.
- The expression statement at src/lib/utils.ts:13 has no effect and has no counterpart in the model.
- `toLowerCase` is modelled on ASCII letters only. Unicode case mapping is not modelled.
- `videoDevices.indexOf(device)` is taken to be the device's own position, because each enumerated entry is a distinct object.
- `Date` is not modelled. The calendar fields (`getFullYear` … `getSeconds`) and the offset are integer parameters. The zero-offset branch `date.toISOString()` is an opaque parameter.
- The offset is read once, when the module loads, as in the source. The model does not capture that a date in another daylight-saving period is still given the load-time offset.
- Utils.ToIsoStringTz: the read-back property is stated only when every field has at most two digits and the offset is below 100 hours. Larger values make the layout ambiguous; real calendar fields never exceed two digits.
- `download` is DOM manipulation and is not modelled.
- `fetch` is network I/O. Its settled result is the `FetchOutcome` parameter.
- `localStorage` is a parameter: an absent item is `None`. Parsing the stored text with `JSON.parse`, which can throw on malformed text, is not modelled; the reviver walk starts from the parsed value. The `webhook` setting with its `'{}'` default is not modelled either.
- Shared.InitialFpsText: `Number(...)` (a floating-point conversion) is not modelled; the contract is about the text handed to it.
- A date is represented by its ISO-8601 text. `new Date(text)` of a text that is not in canonical form is not normalised, so the reload property is stated for dates as `JSON.stringify` writes them.
- JSON numbers are modelled as integers, because attendance records hold none.
- The code that writes `attendance` back to storage with `JSON.stringify` is outside the modelled files; `Json.Stringify` stands for it.
- Shared.AlertStore.ShowAlert: `alertCount` is taken as an unbounded natural. In the source it is a JavaScript number, so at 2^53 `alertCount++` stops changing it, and every later `showAlert` reuses the id `9007199254740992` and overwrites that alert. The counter's growth and the new id's freshness hold in the source only below 2^53, and so do the same promises of Utils.PostWebhook.
- `devices.label` is a JavaScript object, whose keys list in the order they were first written. The model keeps it as a `map`, which has no key order, so the order in which a UI lists the labels is not captured.
- Shared.AttendanceRoundTrip: the text layer `JSON.parse(JSON.stringify(v))` is taken as `Stringify(v)`, that is as the identity on date-free values; writing and reading JSON text is not modelled.
- An invalid `Date`, which `JSON.stringify` writes as `null`, cannot be represented: every `Date` value holds an ISO text.
- `setTimeout` timing is reduced to the order timers fire in. All alert timers share the same 3000 ms duration, so they fire in the order they were scheduled: `pending` is that queue, and `ExpireOldest` is one timer firing.
- Svelte `$state` reactivity and the `component`, `webhook` and `attendance` cells are not modelled. src/lib/store.ts only declares stores with constant initial values and is not part of this model.
- `decode_barcode` and the rxing decoder (`detect_in_luma`) are a foreign decoder over canvas data and are not modelled. vite.config.ts is build configuration and is not part of this model either.
- The `let [red, green, blue, alpha] = src_pixel else { continue; }` fallback cannot fire, because `chunks_exact(4)` only yields four-byte chunks. The model has no such branch.
