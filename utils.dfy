/**
 * src/lib/utils.ts: `initCamera`, the time-zone qualified timestamp formatter `toISOStringTZ`
 * with its helper `pad`, and the outcome handling of `postWebhook`.
 */
module Utils {
  import opened Wrappers
  import opened Strings
  import opened DeviceSelection
  import opened Shared

  // ---------------------------------------------------------------- initCamera

  /** `initCamera`: asks for camera permission and stops the permission stream's tracks at once,
      then filters the enumeration to video inputs and, if there is one, re-validates the selection
      and writes a label for every video input. A rejected request or enumeration is caught and
      changes nothing. Returns whether the permission stream's tracks are still live afterwards. */
  method InitCamera(response: Enumeration, selectedDevice: SelectedDevice, devices: Devices)
    returns (permissionTracksLive: bool)
    modifies selectedDevice, devices
    ensures CameraState(selectedDevice.id, devices.labels)
         == Refresh(old(CameraState(selectedDevice.id, devices.labels)), response, InitCameraKeywords)
    ensures !permissionTracksLive
  {
    permissionTracksLive := false;
    ghost var before := CameraState(selectedDevice.id, devices.labels);
    if !response.Enumerated? {
      return;
    }
    var videoDevices := VideoDevices(response.devices);
    if |videoDevices| == 0 {
      return;
    }
    if !(selectedDevice.id != "" && HasDevice(videoDevices, selectedDevice.id)) {
      selectedDevice.id := PreferredOrFirst(videoDevices, InitCameraKeywords);
    }
    ghost var selected := selectedDevice.id;
    assert selected == SelectDevice(before.selectedId, videoDevices, InitCameraKeywords);
    for k := 0 to |videoDevices|
      invariant selectedDevice.id == selected
      invariant devices.labels == before.labels + Labels(videoDevices, k)
    {
      var device := videoDevices[k];
      LabelsStep(before.labels, videoDevices, k);
      devices.labels := devices.labels[device.deviceId := DisplayLabel(device, k)];
    }
    assert CameraState(selectedDevice.id, devices.labels) == Refresh(before, response, InitCameraKeywords);
  }

  // ---------------------------------------------------------------- toISOStringTZ

  /** `String(num).padStart(2, '0')`. */
  function Pad(num: nat): (r: string)
    ensures AllDigits(r) && ParseDecimal(r) == num
    ensures num <= 99 ==> |r| == 2
    ensures num >= 10 ==> r == NatToString(num)
  {
    var digits := NatToString(num);
    var r := PadStart(digits, 2, '0');
    ParseNatToString(num);
    assert r == if num < 10 then ['0'] + digits else digits;
    assert num < 10 ==> r[..1] == ['0'] && r[..|r| - 1] == ['0'];
    r
  }

  /** The local calendar fields of a `Date`, as its getters return them (`getMonth` counts from 0). */
  datatype LocalDateTime = LocalDateTime(
    fullYear: int, month: nat, date: nat, hours: nat, minutes: nat, seconds: nat)

  /** `offset >= 0 ? '+' : '-'`. */
  function OffsetSign(offset: int): (sign: char)
    ensures sign == '+' <==> offset >= 0
    ensures sign == '-' <==> offset < 0
  {
    if offset >= 0 then '+' else '-'
  }

  function Abs(x: int): nat {
    if x < 0 then -x else x
  }

  /** `Math.floor(Math.abs(offset) / 60)` and `Math.abs(offset) % 60`. */
  function OffsetParts(offset: int): (parts: (nat, nat))
    ensures parts.0 * 60 + parts.1 == Abs(offset)
    ensures parts.1 < 60
  {
    (Abs(offset) / 60, Abs(offset) % 60)
  }

  /** One `${separator}${pad(value)}` piece of the template. */
  function Field(separator: char, value: nat): (f: string)
    ensures |f| >= 3 && (value <= 99 ==> |f| == 3)
    ensures f[0] == separator && f[1..] == Pad(value)
  {
    [separator] + Pad(value)
  }

  /** Pieces written one after another. */
  function Concat(pieces: seq<string>): string {
    if pieces == [] then "" else pieces[0] + Concat(pieces[1..])
  }

  predicate ThreeCharPieces(pieces: seq<string>) {
    forall k :: 0 <= k < |pieces| ==> |pieces[k]| == 3
  }

  /** With three-character pieces the `i`-th piece sits at positions `3 i` to `3 i + 3`. */
  lemma {:induction false} ConcatAt(pieces: seq<string>, i: nat)
    requires ThreeCharPieces(pieces) && i < |pieces|
    ensures |Concat(pieces)| == 3 * |pieces|
    ensures Concat(pieces)[3 * i..3 * i + 3] == pieces[i]
  {
    var head := pieces[0];
    var others := pieces[1..];
    var rest := Concat(others);
    assert ThreeCharPieces(others) by {
      forall k | 0 <= k < |others| ensures |others[k]| == 3 {
        assert others[k] == pieces[k + 1];
      }
    }
    if |others| == 0 {
      assert rest == "";
    } else {
      ConcatAt(others, if i == 0 then 0 else i - 1);
    }
    assert Concat(pieces) == head + rest;
    if i == 0 {
      assert (head + rest)[..3] == head;
    } else {
      assert others[i - 1] == pieces[i];
      SliceAfterPrefix(head, rest, 3 * i, 3 * i + 3);
    }
  }

  lemma SliceAfterPrefix(a: string, b: string, lo: nat, hi: nat)
    requires |a| <= lo <= hi <= |a| + |b|
    ensures (a + b)[lo..hi] == b[lo - |a|..hi - |a|]
  {
  }

  /** Values of at most two digits. */
  predicate TwoDigitValues(values: seq<nat>) {
    forall k :: 0 <= k < |values| ==> values[k] <= 99
  }

  /** The pieces `${separators[k]}${pad(values[k])}`. */
  function Pieces(separators: seq<char>, values: seq<nat>): (pieces: seq<string>)
    requires |separators| == |values|
    ensures |pieces| == |values|
    ensures TwoDigitValues(values) ==> ThreeCharPieces(pieces)
  {
    seq(|values|, k requires 0 <= k < |values| => Field(separators[k], values[k]))
  }

  /** In the written pieces, position `3 i` holds the `i`-th separator and the two characters after
      it spell the `i`-th value. */
  lemma PieceParse(separators: seq<char>, values: seq<nat>, i: nat)
    requires |separators| == |values| && TwoDigitValues(values) && i < |values|
    ensures |Concat(Pieces(separators, values))| == 3 * |values|
    ensures Concat(Pieces(separators, values))[3 * i] == separators[i]
    ensures ParseDecimal(Concat(Pieces(separators, values))[3 * i + 1..3 * i + 3]) == values[i]
    ensures AllDigits(Concat(Pieces(separators, values))[3 * i + 1..3 * i + 3])
  {
    PieceAt(separators, values, i);
    var t := Concat(Pieces(separators, values));
    assert t[3 * i] == t[3 * i..3 * i + 3][0];
    assert t[3 * i + 1..3 * i + 3] == t[3 * i..3 * i + 3][1..];
  }

  /** The separators of the seven pieces after the year. */
  function TimestampSeparators(offset: int): seq<char> {
    ['-', '-', 'T', ':', ':', OffsetSign(offset), ':']
  }

  /** The values of the seven pieces after the year: month (counted from 1), day, hours, minutes,
      seconds, and the offset's hours and minutes. */
  function TimestampValues(offset: int, d: LocalDateTime): seq<nat> {
    var (offsetHours, offsetMinutes) := OffsetParts(offset);
    [d.month + 1, d.date, d.hours, d.minutes, d.seconds, offsetHours, offsetMinutes]
  }

  /** The string built for a non-zero offset:
      `${year}-${month}-${day}T${hours}:${minutes}:${seconds}${sign}${offsetHours}:${offsetMinutes}`. */
  function FormatWithOffset(offset: int, d: LocalDateTime): (r: string)
    ensures |r| > 0 && (r[0] == '-' <==> d.fullYear < 0)
  {
    IntToString(d.fullYear) + TimestampTail(offset, d)
  }

  /** `toISOStringTZ(date)`, with `offset` the host's UTC offset in minutes when the module was
      loaded (`-new Date().getTimezoneOffset()`); with a zero offset the host's own UTC rendering
      (`date.toISOString()`) is used, given here as `utcRendering`. */
  function ToIsoStringTz(offset: int, d: LocalDateTime, utcRendering: string): (r: string)
    ensures offset == 0 ==> r == utcRendering
    ensures offset != 0 && FieldsFitTwoDigits(offset, d) ==> HasIsoTzLayout(r)
    ensures offset != 0 && FieldsFitTwoDigits(offset, d) ==> ParseIsoTz(r) == Some((d, offset))
  {
    if offset == 0 then utcRendering
    else
      var r := FormatWithOffset(offset, d);
      if FieldsFitTwoDigits(offset, d) then FormatRoundTrip(offset, d); r else r
  }

  /** Every padded field has at most two digits, so the layout of the formatted text is fixed. */
  predicate FieldsFitTwoDigits(offset: int, d: LocalDateTime) {
    && d.month + 1 <= 99 && d.date <= 99 && d.hours <= 99 && d.minutes <= 99 && d.seconds <= 99
    && Abs(offset) < 100 * 60
  }

  /** The value spelled by the two digits of the `i`-th piece of a 21-character tail. */
  function FieldValue(tail: string, i: nat): nat
    requires |tail| == 21 && i < 7
  {
    ParseDecimal(tail[3 * i + 1..3 * i + 3])
  }

  /** The two characters of the `i`-th piece of a 21-character tail are decimal digits. */
  predicate FieldDigits(tail: string, i: nat)
    requires |tail| == 21 && i < 7
  {
    AllDigits(tail[3 * i + 1..3 * i + 3])
  }

  /** The 21 characters after the year have the shape `-MM-DDTHH:MM:SS±HH:MM`. */
  predicate TailLayout(tail: string)
    requires |tail| == 21
  {
    && tail[0] == '-' && tail[3] == '-' && tail[6] == 'T' && tail[9] == ':' && tail[12] == ':'
    && (tail[15] == '+' || tail[15] == '-') && tail[18] == ':'
    && FieldDigits(tail, 0) && FieldDigits(tail, 1) && FieldDigits(tail, 2) && FieldDigits(tail, 3)
    && FieldDigits(tail, 4) && FieldDigits(tail, 5) && FieldDigits(tail, 6)
  }

  /** The text has the shape `Y-MM-DDTHH:MM:SS±HH:MM`, with `Y` an integer in decimal. */
  predicate HasIsoTzLayout(s: string): (b: bool)
    ensures b ==> |s| >= 22 && s[|s| - 6] in "+-"
  {
    |s| >= 21 && IsIntegerText(s[..|s| - 21]) && TailLayout(s[|s| - 21..])
  }

  /** Reads back the fields of a well-formed tail; month 00 does not name a month. */
  function ParseTail(tail: string, year: int): Option<(LocalDateTime, int)>
    requires |tail| == 21
  {
    if FieldValue(tail, 0) == 0 then None
    else
      var d := LocalDateTime(year, FieldValue(tail, 0) - 1, FieldValue(tail, 1),
                             FieldValue(tail, 2), FieldValue(tail, 3), FieldValue(tail, 4));
      var magnitude := FieldValue(tail, 5) * 60 + FieldValue(tail, 6);
      Some((d, if tail[15] == '+' then magnitude else -magnitude))
  }

  /** Reads back a text of the shape `Y-MM-DDTHH:MM:SS±HH:MM`, and nothing else. */
  function ParseIsoTz(s: string): (r: Option<(LocalDateTime, int)>)
    ensures r.Some? ==> HasIsoTzLayout(s)
  {
    if !HasIsoTzLayout(s) then None else ParseTail(s[|s| - 21..], ParseInt(s[..|s| - 21]))
  }

  /** The written text of the timestamp's seven pieces. */
  function TimestampTail(offset: int, d: LocalDateTime): string {
    Concat(Pieces(TimestampSeparators(offset), TimestampValues(offset, d)))
  }

  /** The date and time pieces read back as the fields they were built from. */
  lemma DatePiecesRoundTrip(offset: int, d: LocalDateTime)
    requires FieldsFitTwoDigits(offset, d)
    ensures var t := TimestampTail(offset, d);
            && |t| == 21
            && t[0] == '-' && t[3] == '-' && t[6] == 'T' && t[9] == ':' && t[12] == ':'
            && FieldValue(t, 0) == d.month + 1 && FieldValue(t, 1) == d.date
            && FieldValue(t, 2) == d.hours && FieldValue(t, 3) == d.minutes && FieldValue(t, 4) == d.seconds
            && FieldDigits(t, 0) && FieldDigits(t, 1) && FieldDigits(t, 2) && FieldDigits(t, 3) && FieldDigits(t, 4)
  {
    var seps, values := TimestampSeparators(offset), TimestampValues(offset, d);
    assert values[5] <= 99;
    assert TwoDigitValues(values);
    PieceParse(seps, values, 0);
    PieceParse(seps, values, 1);
    PieceParse(seps, values, 2);
    PieceParse(seps, values, 3);
    PieceParse(seps, values, 4);
  }

  /** The offset pieces read back as the sign, hours and minutes they were built from. */
  lemma OffsetPiecesRoundTrip(offset: int, d: LocalDateTime)
    requires FieldsFitTwoDigits(offset, d)
    ensures var t := TimestampTail(offset, d);
            && |t| == 21 && t[15] == OffsetSign(offset) && t[18] == ':'
            && FieldValue(t, 5) == OffsetParts(offset).0 && FieldValue(t, 6) == OffsetParts(offset).1
            && FieldDigits(t, 5) && FieldDigits(t, 6)
  {
    var seps, values := TimestampSeparators(offset), TimestampValues(offset, d);
    assert values[5] <= 99;
    assert TwoDigitValues(values);
    PieceParse(seps, values, 5);
    PieceParse(seps, values, 6);
  }

  /** The 21 characters after the year read back as the fields they were built from. */
  lemma TailRoundTrip(offset: int, d: LocalDateTime)
    requires FieldsFitTwoDigits(offset, d)
    ensures |TimestampTail(offset, d)| == 21
    ensures TailLayout(TimestampTail(offset, d))
    ensures ParseTail(TimestampTail(offset, d), d.fullYear) == Some((d, offset))
  {
    DatePiecesRoundTrip(offset, d);
    OffsetPiecesRoundTrip(offset, d);
  }

  /** The formatted text determines the calendar fields and the offset it was built from. */
  lemma FormatRoundTrip(offset: int, d: LocalDateTime)
    requires FieldsFitTwoDigits(offset, d)
    ensures HasIsoTzLayout(FormatWithOffset(offset, d))
    ensures ParseIsoTz(FormatWithOffset(offset, d)) == Some((d, offset))
  {
    TailRoundTrip(offset, d);
    var y := IntToString(d.fullYear);
    var t := TimestampTail(offset, d);
    var s := y + t;
    assert s[|s| - 21..] == t;
    assert s[..|s| - 21] == y;
    ParseIntToString(d.fullYear);
  }

  /** A character that is not a decimal digit inside a field makes the text unreadable. */
  lemma NonDigitFieldRejected(s: string, i: nat, j: nat)
    requires |s| >= 21 && i < 7 && j < 2 && !IsDigit(s[|s| - 21 + 3 * i + 1 + j])
    ensures !HasIsoTzLayout(s) && ParseIsoTz(s) == None
  {
    var tail := s[|s| - 21..];
    assert tail[3 * i + 1..3 * i + 3][j] == s[|s| - 21 + 3 * i + 1 + j];
    assert !FieldDigits(tail, i);
  }

  /** A letter in the month field: the text is not read as a timestamp. */
  lemma LetterInMonthRejected()
    ensures ParseIsoTz("2024-x1-01T00:00:00+05:30") == None
  {
    var s := "2024-x1-01T00:00:00+05:30";
    assert s[|s| - 21 + 1] == 'x';
    NonDigitFieldRejected(s, 0, 0);
  }

  /** Single digits get a leading zero, two digits stay as they are. */
  lemma PadExamples()
    ensures Pad(0) == "00" && Pad(5) == "05" && Pad(30) == "30"
  {
    assert NatToString(0) == "0";
    assert NatToString(5) == "5";
    assert NatToString(30) == NatToString(3) + [DigitChar(0)];
  }

  /** The `i`-th written piece sits at positions `3 i` to `3 i + 3`. */
  lemma PieceAt(separators: seq<char>, values: seq<nat>, i: nat)
    requires |separators| == |values| && TwoDigitValues(values) && i < |values|
    ensures |Concat(Pieces(separators, values))| == 3 * |values|
    ensures Concat(Pieces(separators, values))[3 * i..3 * i + 3] == Field(separators[i], values[i])
  {
    ConcatAt(Pieces(separators, values), i);
  }

  /** The tail written for a host at UTC+05:30 (330 minutes) ends in `+05:30`. */
  lemma IndiaOffsetTail(offset: int, d: LocalDateTime)
    requires offset == 330 && FieldsFitTwoDigits(offset, d)
    ensures var t := TimestampTail(offset, d); |t| == 21 && t[15..] == "+05:30"
  {
    OffsetPiecesRoundTrip(offset, d);
    assert OffsetParts(offset) == (5, 30);
    var t := TimestampTail(offset, d);
    TwoDigitsOf(t[16..18], 5);
    TwoDigitsOf(t[19..21], 30);
    assert t[15..] == [t[15]] + t[16..18] + [t[18]] + t[19..21];
  }

  /** A host at UTC+05:30 ends its timestamps in `+05:30`. */
  lemma IndiaOffsetSuffix(offset: int, d: LocalDateTime, utcRendering: string)
    requires offset == 330 && FieldsFitTwoDigits(offset, d)
    ensures var r := ToIsoStringTz(offset, d, utcRendering); |r| >= 6 && r[|r| - 6..] == "+05:30"
  {
    IndiaOffsetTail(offset, d);
    var t := TimestampTail(offset, d);
    var r := IntToString(d.fullYear) + t;
    assert r[|r| - 6..] == t[15..];
  }


  // ---------------------------------------------------------------- postWebhook

  /** What `fetch` delivers: a response with `ok` set, a response without it, or a rejection. */
  datatype FetchOutcome = Ok | HttpError(status: nat, statusText: string) | TransportFailure

  /** The request `postWebhook` sends. */
  datatype WebhookRequest = WebhookRequest(httpMethod: string, url: string, headers: map<string, string>, body: string)

  /** The request: a JSON POST, with a bearer token only when the token is non-empty. */
  function WebhookRequestFor(url: string, token: string, body: string): (req: WebhookRequest)
    ensures req.httpMethod == "POST" && req.url == url && req.body == body
    ensures "Content-Type" in req.headers && req.headers["Content-Type"] == "application/json"
    ensures "Authorization" in req.headers <==> token != ""
    ensures token != "" ==> req.headers["Authorization"] == "Bearer " + token
    ensures req.headers.Keys <= {"Content-Type", "Authorization"}
  {
    var headers := map["Content-Type" := "application/json"]
      + (if token != "" then map["Authorization" := "Bearer " + token] else map[]);
    WebhookRequest("POST", url, headers, body)
  }

  /** The one alert `postWebhook` raises for an outcome, and the boolean it returns. */
  function WebhookOutcome(outcome: FetchOutcome): (r: (Alert, bool))
    ensures r.1 <==> outcome.Ok?
    ensures r.0.alertType == WebhookSuccess <==> outcome.Ok?
    ensures r.0.alertType == WebhookError <==> !outcome.Ok?
    ensures outcome.HttpError? ==> r.0.subtext == Some(NatToString(outcome.status) + ": " + outcome.statusText)
    ensures !outcome.HttpError? ==> r.0.subtext == None
  {
    match outcome
    case Ok => (Alert(WebhookSuccess, "WebHook Success!", None), true)
    case HttpError(status, statusText) =>
      (Alert(WebhookError, "WebHook Failed!", Some(NatToString(status) + ": " + statusText)), false)
    case TransportFailure => (Alert(WebhookError, "WebHook Error!", None), false)
  }

  /** A server answering 500 gives `false` and an error alert whose subtext starts with `500`. */
  lemma ServerErrorOutcome(statusText: string)
    ensures var (alert, delivered) := WebhookOutcome(HttpError(500, statusText));
            && !delivered && alert.alertType == WebhookError
            && alert.subtext.Some? && alert.subtext.value[..3] == "500"
  {
    assert NatToString(500) == "500" by {
      assert NatToString(50) == NatToString(5) + [DigitChar(0)];
    }
  }

  /** `postWebhook(url, token, body)` once `fetch` has settled with `outcome`: exactly one alert is
      shown and the outcome's boolean is returned. */
  method PostWebhook(store: AlertStore, url: string, token: string, body: string, outcome: FetchOutcome)
    returns (request: WebhookRequest, delivered: bool)
    requires store.Valid()
    modifies store
    ensures store.Valid()
    ensures request == WebhookRequestFor(url, token, body)
    ensures delivered == WebhookOutcome(outcome).1
    ensures store.alerts == old(store.alerts)[NatToString(old(store.alertCount)) := WebhookOutcome(outcome).0]
    ensures NatToString(old(store.alertCount)) !in old(store.alerts)
    ensures store.alertCount == old(store.alertCount) + 1
    ensures store.pending == old(store.pending) + [NatToString(old(store.alertCount))]
  {
    request := WebhookRequestFor(url, token, body);
    match outcome {
      case Ok =>
        store.ShowAlert(WebhookSuccess, "WebHook Success!", None);
        return request, true;
      case HttpError(status, statusText) =>
        store.ShowAlert(WebhookError, "WebHook Failed!", Some(NatToString(status) + ": " + statusText));
      case TransportFailure =>
        store.ShowAlert(WebhookError, "WebHook Error!", None);
    }
    delivered := false;
  }
}
