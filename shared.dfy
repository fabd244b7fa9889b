/**
 * The application-wide state of src/lib/shared.svelte.ts: the camera cells written by the
 * device code, the preference defaults read from the persistent store, the reviver that turns
 * stored attendance timestamps back into dates, and the auto-expiring alerts.
 */
module Shared {
  import opened Wrappers
  import opened Strings
  import opened Json

  // ---------------------------------------------------------------- preference defaults

  /** `localStorage.getItem(key) || fallback`: an absent or empty stored text gives the fallback. */
  function OrDefault(stored: Option<string>, fallback: string): (r: string)
    ensures stored.Some? && stored.value != "" ==> r == stored.value
    ensures stored.None? || stored.value == "" ==> r == fallback
  {
    match stored
    case Some(text) => if text != "" then text else fallback
    case None => fallback
  }

  /** The initial `selectedDevice.id`: the stored device id, or empty when there is none. */
  function InitialDeviceId(stored: Option<string>): (id: string)
    ensures id == if stored.Some? then stored.value else ""
  {
    OrDefault(stored, "")
  }

  /** The text handed to `Number(...)` for the initial frame rate; `Number` itself is not modelled. */
  function InitialFpsText(stored: Option<string>): (text: string)
    ensures text != ""
    ensures stored.None? || stored.value == "" ==> text == "60"
    ensures stored.Some? && stored.value != "" ==> text == stored.value
  {
    OrDefault(stored, "60")
  }

  /** The initial `rollRegex.value`: the stored pattern, or empty when there is none. */
  function InitialRollRegex(stored: Option<string>): (pattern: string)
    ensures pattern == if stored.Some? then stored.value else ""
  {
    OrDefault(stored, "")
  }

  // ---------------------------------------------------------------- camera cells

  /** `selectedDevice`: the id of the camera the scanner opens. */
  class SelectedDevice {
    var id: string

    constructor (stored: Option<string>)
      ensures id == InitialDeviceId(stored)
    {
      id := InitialDeviceId(stored);
    }
  }

  /** `devices`: the display label of every camera seen so far, keyed by device id
      (the source's `devices.label`). */
  class Devices {
    var labels: map<string, string>

    constructor ()
      ensures labels == map[]
    {
      labels := map[];
    }
  }

  // ---------------------------------------------------------------- attendance reviver

  const TimestampKey: string := "timestamp"

  /** The reviver of the attendance parse: a string under the key `timestamp` becomes a date,
      everything else passes through unchanged. */
  function AttendanceReviver(key: string, value: JsValue): (r: JsValue)
    ensures r != value ==> key == TimestampKey && value.Str?
    ensures key == TimestampKey && value.Str? ==> r == Date(value.s)
  {
    if key == TimestampKey && value.Str? then Date(value.s) else value
  }

  /** Parsing the stored attendance text with the reviver, from the parsed value on. */
  function ReviveAttendance(parsed: JsValue): (r: JsValue)
    ensures PlainJson(parsed) ==> DatesAtTimestamps("", r)
  {
    if PlainJson(parsed) then RevivedHasNoTimestampString("", parsed); Internalize(AttendanceReviver, "", parsed)
    else Internalize(AttendanceReviver, "", parsed)
  }

  /** Under every `timestamp` key there is no string, and dates occur only under such keys. */
  predicate DatesAtTimestamps(key: string, v: JsValue)
    decreases v, 1
  {
    && (key == TimestampKey ==> !v.Str?)
    && (v.Date? ==> key == TimestampKey)
    && match v
       case Arr(es) => ElementsDatesAtTimestamps(es, 0)
       case Obj(ms) => MembersDatesAtTimestamps(ms)
       case _ => true
  }

  predicate ElementsDatesAtTimestamps(es: seq<JsValue>, index: nat)
    decreases es, 0
  {
    es == [] || (DatesAtTimestamps(NatToString(index), es[0]) && ElementsDatesAtTimestamps(es[1..], index + 1))
  }

  predicate MembersDatesAtTimestamps(ms: seq<Member>)
    decreases ms, 0
  {
    ms == [] || (DatesAtTimestamps(ms[0].key, ms[0].value) && MembersDatesAtTimestamps(ms[1..]))
  }

  /** After the reviver walk over parsed JSON no timestamp string is left, and every date sits
      under a `timestamp` key. */
  lemma {:induction false} RevivedHasNoTimestampString(key: string, v: JsValue)
    requires PlainJson(v)
    ensures DatesAtTimestamps(key, Internalize(AttendanceReviver, key, v))
    decreases v, 1
  {
    match v
    case Arr(es) => RevivedElements(es, 0);
    case Obj(ms) => RevivedMembers(ms);
    case _ =>
  }

  lemma {:induction false} RevivedElements(es: seq<JsValue>, index: nat)
    requires PlainElements(es)
    ensures ElementsDatesAtTimestamps(InternalizeElements(AttendanceReviver, es, index), index)
    decreases es, 0
  {
    if es != [] {
      RevivedHasNoTimestampString(NatToString(index), es[0]);
      RevivedElements(es[1..], index + 1);
    }
  }

  lemma {:induction false} RevivedMembers(ms: seq<Member>)
    requires PlainMembers(ms)
    ensures MembersDatesAtTimestamps(InternalizeMembers(AttendanceReviver, ms))
    decreases ms, 0
  {
    if ms != [] {
      RevivedHasNoTimestampString(ms[0].key, ms[0].value);
      RevivedMembers(ms[1..]);
    }
  }

  /** Dates stored under `timestamp` keys survive a write with `JSON.stringify` and a read with the
      reviver: the value read back is the value written. */
  lemma {:induction false} ReviveStringified(key: string, v: JsValue)
    requires DatesAtTimestamps(key, v)
    ensures Internalize(AttendanceReviver, key, Stringify(v)) == v
    decreases v, 1
  {
    match v
    case Arr(es) => ReviveStringifiedElements(es, 0);
    case Obj(ms) => ReviveStringifiedMembers(ms);
    case _ =>
  }

  lemma {:induction false} ReviveStringifiedElements(es: seq<JsValue>, index: nat)
    requires ElementsDatesAtTimestamps(es, index)
    ensures InternalizeElements(AttendanceReviver, StringifyElements(es), index) == es
    decreases es, 0
  {
    if es != [] {
      ReviveStringified(NatToString(index), es[0]);
      ReviveStringifiedElements(es[1..], index + 1);
    }
  }

  lemma {:induction false} ReviveStringifiedMembers(ms: seq<Member>)
    requires MembersDatesAtTimestamps(ms)
    ensures InternalizeMembers(AttendanceReviver, StringifyMembers(ms)) == ms
    decreases ms, 0
  {
    if ms != [] {
      ReviveStringified(ms[0].key, ms[0].value);
      ReviveStringifiedMembers(ms[1..]);
    }
  }

  /** One attendance record: when it was taken, whether the scanner took it, and why. */
  datatype AttendanceRecord = AttendanceRecord(timestamp: string, auto: bool, reason: string)

  /** The attendance map as a JavaScript object: id -> { timestamp: Date, auto, reason }. */
  function AttendanceValue(records: seq<(string, AttendanceRecord)>): JsValue {
    Obj(AttendanceMembers(records))
  }

  function AttendanceMembers(records: seq<(string, AttendanceRecord)>): (ms: seq<Member>)
    ensures MembersDatesAtTimestamps(ms)
  {
    if records == [] then []
    else
      var (id, r) := records[0];
      var fields := [Member(TimestampKey, Date(r.timestamp)), Member("auto", Bool(r.auto)), Member("reason", Str(r.reason))];
      assert MembersDatesAtTimestamps(fields) by {
        assert "reason" != TimestampKey && "auto" != TimestampKey;
        var f2 := fields[1..];
        var f3 := f2[1..];
        assert f3[1..] == [];
        assert MembersDatesAtTimestamps(f3);
        assert MembersDatesAtTimestamps(f2);
      }
      var rest := AttendanceMembers(records[1..]);
      var ms := [Member(id, Obj(fields))] + rest;
      assert ms[0] == Member(id, Obj(fields)) && ms[1..] == rest;
      ms
  }

  /** Stored attendance reloads with its timestamps as dates, equal to the ones written. */
  lemma AttendanceRoundTrip(records: seq<(string, AttendanceRecord)>)
    ensures ReviveAttendance(Stringify(AttendanceValue(records))) == AttendanceValue(records)
  {
    ReviveStringified("", AttendanceValue(records));
  }

  // ---------------------------------------------------------------- alerts

  datatype AlertType = Settings | Download | WebhookSuccess | WebhookError

  datatype Alert = Alert(alertType: AlertType, text: string, subtext: Option<string>)

  /** `id` is the decimal string of a counter value below `count`. */
  predicate IssuedBefore(id: string, count: nat) {
    id == NatToString(ParseDecimal(id)) && ParseDecimal(id) < count
  }

  /** The module's `alerts` record and `alertCount` counter, with the removals that `setTimeout`
      has scheduled and not yet run, oldest first (all of them wait the same `alertDuration` of
      3000 ms, so they fire in the order they were scheduled). */
  class AlertStore {
    var alerts: map<string, Alert>
    var alertCount: nat
    var pending: seq<string>

    /** Every pending id was issued by the counter, pending ids are in issue order (so distinct), and
        every shown alert still has its removal pending. */
    ghost predicate Valid()
      reads this
    {
      && (forall i :: 0 <= i < |pending| ==> IssuedBefore(pending[i], alertCount))
      && (forall i, j :: 0 <= i < j < |pending| ==> ParseDecimal(pending[i]) < ParseDecimal(pending[j]))
      && (forall id :: id in alerts ==> id in pending)
    }

    constructor ()
      ensures Valid()
      ensures alerts == map[] && alertCount == 0 && pending == []
    {
      alerts, alertCount, pending := map[], 0, [];
    }

    /** `removeAlert(id)`: deletes key `id` and nothing else; an absent id leaves the record as it was. */
    method RemoveAlert(id: string)
      requires Valid()
      modifies this
      ensures Valid()
      ensures alerts == old(alerts) - {id}
      ensures id !in old(alerts) ==> alerts == old(alerts)
      ensures alertCount == old(alertCount) && pending == old(pending)
    {
      alerts := alerts - {id};
    }

    /** `showAlert(type, text, subtext)`: one new entry under the counter's old value, which no alert
        has ever had, and one removal scheduled for it. */
    method ShowAlert(alertType: AlertType, text: string, subtext: Option<string>)
      requires Valid()
      modifies this
      ensures Valid()
      ensures var id := NatToString(old(alertCount));
              && id !in old(alerts)
              && (forall n: nat :: n < old(alertCount) ==> NatToString(n) != id)
              && alerts == old(alerts)[id := Alert(alertType, text, subtext)]
              && pending == old(pending) + [id]
      ensures alertCount == old(alertCount) + 1
      ensures |alerts| == |old(alerts)| + 1
    {
      var alertId := NatToString(alertCount);
      ParseNatToString(alertCount);
      forall n: nat | n < alertCount ensures NatToString(n) != alertId {
        NatToStringInjective(n, alertCount);
      }
      assert alertId !in pending by {
        forall i | 0 <= i < |pending| ensures pending[i] != alertId {
          assert ParseDecimal(pending[i]) < alertCount;
        }
      }
      alertCount := alertCount + 1;
      alerts := alerts[alertId := Alert(alertType, text, subtext)];
      pending := pending + [alertId];
    }

    /** The oldest scheduled timer fires and runs `removeAlert` on its id. */
    method ExpireOldest()
      requires Valid() && pending != []
      modifies this
      ensures Valid()
      ensures alerts == old(alerts) - {old(pending[0])}
      ensures pending == old(pending[1..]) && alertCount == old(alertCount)
    {
      var id := pending[0];
      pending := pending[1..];
      alerts := alerts - {id};
    }
  }
}
