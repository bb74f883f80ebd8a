/** The forecast side of `weather_service.py`: the status/`success` gate of
    `get_weather_forecast` and the response parser `_parse_weather_data`.

    The parser finds the record of the requested location, walks its weather
    elements, takes the FIRST time slot of each, copies the value of the five
    elements it knows into a flat record, and describes the time range of the
    slot it saw last.  Every failure on the way (a missing key, a value of the
    wrong shape, an empty list, a timestamp `datetime` rejects) is caught and
    becomes `None`.  The parser reads no other time slot and builds no list of
    periods: its record never has a `periods` key. */
module Forecast {
  import opened Results
  import opened JsonValues
  import opened Timestamps

  /** The flat dict `_parse_weather_data` returns. */
  type Record = map<string, Json>

  /** The keys the parser fills from weather elements. */
  const FieldKeys: set<string> := {"weather_description", "pop", "low_temp", "high_temp", "comfort"}

  /** The keys the parser adds from the time slot it saw last. */
  const TimeKeys: set<string> := {"start_time", "end_time", "description"}

  /** The record key an element fills, for the five element names the
      parser knows; any other name, or a name that is not a string, fills
      nothing. */
  function FieldFor(name: Json): (k: Option<string>)
    ensures k.Some? ==> k.value in FieldKeys
  {
    if name == JStr("Wx") then Some("weather_description")
    else if name == JStr("PoP") then Some("pop")
    else if name == JStr("MinT") then Some("low_temp")
    else if name == JStr("MaxT") then Some("high_temp")
    else if name == JStr("CI") then Some("comfort")
    else None
  }

  /** Exactly the five names fill a key, each its own, and together they
      fill every field key. */
  lemma FieldForOneToOne(a: Json, b: Json)
    ensures FieldFor(a).Some? <==> a in {JStr("Wx"), JStr("PoP"), JStr("MinT"), JStr("MaxT"), JStr("CI")}
    ensures FieldFor(a).Some? && FieldFor(a) == FieldFor(b) ==> a == b
    ensures forall k :: k in FieldKeys ==>
      k in {FieldFor(JStr("Wx")).value, FieldFor(JStr("PoP")).value, FieldFor(JStr("MinT")).value,
            FieldFor(JStr("MaxT")).value, FieldFor(JStr("CI")).value}
  {
  }

  /** `element['time'][0]`: the first time slot of an element. */
  function FirstSlot(element: Json): Option<Json> {
    var time :- Index(element, "time");
    First(time)
  }

  /** `slot['parameter']['parameterName']`. */
  function SlotValue(slot: Json): Option<Json> {
    var parameter :- Index(slot, "parameter");
    Index(parameter, "parameterName")
  }

  /** The key element `e` fills, if it has a name the parser knows. */
  function KeyOf(e: Json): (k: Option<string>)
    ensures k.Some? ==> k.value in FieldKeys
  {
    match Index(e, "elementName")
    case Some(name) => FieldFor(name)
    case None => None
  }

  /** One pass of the element loop: the element must have a name and a first
      time slot, and when its name is one of the five the slot must carry a
      parameter name.  Returns the updated record and the slot, which is the
      loop variable `time_data` the code reads after the loop. */
  function Step(info: Record, element: Json): Option<(Record, Json)> {
    var name :- Index(element, "elementName");
    var slot :- FirstSlot(element);
    match FieldFor(name)
    case None => Some((info, slot))
    case Some(key) =>
      var value :- SlotValue(slot);
      Some((info[key := value], slot))
  }

  /** The element loop, from record `info` and last slot `slot` onwards. */
  function Elements(info: Record, elements: seq<Json>, slot: Option<Json>): Option<(Record, Option<Json>)>
    decreases |elements|
  {
    if |elements| == 0 then Some((info, slot))
    else
      var (info', slot') :- Step(info, elements[0]);
      Elements(info', elements[1..], Some(slot'))
  }

  /** Outcome of the scan for the location record. */
  datatype Scan = Found(record: Json) | Absent | Failed

  /** The `for loc in records` scan: the first record whose `locationName`
      equals `location`; a record without a `locationName` (or that is not
      a dict) before it raises. */
  function FindLocation(rows: seq<Json>, location: string): Scan
    decreases |rows|
  {
    if |rows| == 0 then Absent
    else
      match Index(rows[0], "locationName")
      case None => Failed
      case Some(name) =>
        if name == JStr(location) then Found(rows[0]) else FindLocation(rows[1..], location)
  }

  /** `data['records']['location']`, the scan, and the `weatherElement` list
      of the record found. */
  function LocationElements(data: Json, location: string): Option<seq<Json>> {
    var locations :- Index(data, "records");
    var records :- Index(locations, "location");
    var rows :- Rows(records);
    match FindLocation(rows, location)
    case Found(record) =>
      var elements :- Index(record, "weatherElement");
      Rows(elements)
    case _ => None
  }

  /** The text `預報時間: MM/DD HH:MM - MM/DD HH:MM` for a time range. */
  function Describe(start: DateTime, end: DateTime): string
    requires Valid(start) && Valid(end)
  {
    "預報時間: " + MonthDayTime(start) + " - " + MonthDayTime(end)
  }

  /** The time-range entries the code adds after the loop, from `time_data`
      (the first slot of the last element): `start_time` and `end_time` as
      given (`''` when absent) and the description of both once
      `datetime.fromisoformat` has read them. */
  function TimeEntries(slot: Json): Option<(Json, Json, string)> {
    var start :- GetOr(slot, "startTime", JStr(""));
    var end :- GetOr(slot, "endTime", JStr(""));
    if !start.JStr? || !end.JStr? then None
    else
      var from :- FromIsoFormat(ReplaceZ(start.s));
      var to :- FromIsoFormat(ReplaceZ(end.s));
      Some((start, end, Describe(from, to)))
  }

  /** The part of `_parse_weather_data` after the element list is found:
      the loop, then the time entries. */
  function ParseElements(elements: seq<Json>): Option<Record> {
    var (info, last) :- Elements(map[], elements, None);
    // With no elements the loop variable was never bound: NameError.
    var slot :- last;
    var (start, end, description) :- TimeEntries(slot);
    Some(info["start_time" := start]["end_time" := end]["description" := JStr(description)])
  }

  /** `_parse_weather_data(data, location)`. */
  function ParseWeatherData(data: Json, location: string): Option<Record> {
    var elements :- LocationElements(data, location);
    ParseElements(elements)
  }

  /** What `session.get` produced: a transport failure, or a status and a
      body that `response.json()` either decoded or failed on. */
  datatype HttpReply = TransportFailed | Reply(status: int, body: Option<Json>)

  /** `get_weather_forecast(location)` with the HTTP round trip given as
      `reply`. */
  function GetWeatherForecast(reply: HttpReply, location: string): Option<Record> {
    match reply
    case TransportFailed => None
    case Reply(status, body) =>
      if status != 200 then None
      else
        var data :- body;
        var success :- GetOr(data, "success", JNull);
        if !Truthy(success) then None else ParseWeatherData(data, location)
  }

  // -----------------------------------------------------------------------
  // The response gate

  /** A forecast comes back exactly when the transfer succeeded with status
      200, the body decoded to a dict whose `success` is truthy, and the
      parser accepted it; the parser's answer is then passed on unchanged. */
  lemma GateIff(reply: HttpReply, location: string)
    ensures GetWeatherForecast(reply, location).Some? <==>
      && reply.Reply? && reply.status == 200
      && reply.body.Some? && reply.body.value.JObj?
      && "success" in reply.body.value.fields && Truthy(reply.body.value.fields["success"])
      && ParseWeatherData(reply.body.value, location).Some?
    ensures GetWeatherForecast(reply, location).Some? ==>
      GetWeatherForecast(reply, location) == ParseWeatherData(reply.body.value, location)
  {
  }

  // -----------------------------------------------------------------------
  // Finding the location

  /** The scan returns the first record named `location`: every record
      before it has a name, and a different one. */
  lemma {:induction false} FindLocationFirst(rows: seq<Json>, location: string)
    requires FindLocation(rows, location).Found?
    ensures exists i :: (0 <= i < |rows|
      && rows[i] == FindLocation(rows, location).record
      && Index(rows[i], "locationName") == Some(JStr(location))
      && forall j :: 0 <= j < i ==> Index(rows[j], "locationName").Some? && Index(rows[j], "locationName") != Some(JStr(location)))
    decreases |rows|
  {
    if Index(rows[0], "locationName") != Some(JStr(location)) {
      FindLocationFirst(rows[1..], location);
      var i :| 0 <= i < |rows[1..]|
        && rows[1..][i] == FindLocation(rows[1..], location).record
        && Index(rows[1..][i], "locationName") == Some(JStr(location))
        && forall j :: 0 <= j < i ==> Index(rows[1..][j], "locationName").Some? && Index(rows[1..][j], "locationName") != Some(JStr(location));
      assert forall j :: 1 <= j < i + 1 ==> rows[j] == rows[1..][j - 1];
    } else {
      assert rows[0] == FindLocation(rows, location).record;
    }
  }

  /** Conversely: when the first `i` records have names other than
      `location` and record `i` has that name, the scan returns record `i`. */
  lemma {:induction false} FindLocationReaches(rows: seq<Json>, location: string, i: nat)
    requires i < |rows|
    requires Index(rows[i], "locationName") == Some(JStr(location))
    requires forall j :: 0 <= j < i ==> Index(rows[j], "locationName").Some? && Index(rows[j], "locationName") != Some(JStr(location))
    ensures FindLocation(rows, location) == Found(rows[i])
    decreases i
  {
    if i > 0 {
      FindLocationReaches(rows[1..], location, i - 1);
    }
  }

  /** The scan reports no match exactly when every record has a name and
      none is `location`; it raises as soon as a record before the first
      match has no name. */
  lemma {:induction false} FindLocationAbsent(rows: seq<Json>, location: string)
    ensures FindLocation(rows, location) == Absent <==>
      forall j :: 0 <= j < |rows| ==> Index(rows[j], "locationName").Some? && Index(rows[j], "locationName") != Some(JStr(location))
    decreases |rows|
  {
    if |rows| > 0 {
      FindLocationAbsent(rows[1..], location);
      assert forall j :: 1 <= j < |rows| ==> rows[j] == rows[1..][j - 1];
    }
  }

  // -----------------------------------------------------------------------
  // The element loop

  /** Element `i` is the last one in `elements` that fills `key`. */
  predicate LastFilling(elements: seq<Json>, key: string, i: int) {
    && 0 <= i < |elements|
    && KeyOf(elements[i]) == Some(key)
    && forall j :: i < j < |elements| ==> KeyOf(elements[j]) != Some(key)
  }

  /** Every element the loop got through has a name and a first slot, and
      an element with a known name carries a parameter name there. */
  predicate WellFormed(e: Json) {
    && Index(e, "elementName").Some?
    && FirstSlot(e).Some?
    && (KeyOf(e).Some? ==> SlotValue(FirstSlot(e).value).Some?)
  }

  /** One pass that gets through: the loop goes on from the pass's record
      and slot. */
  lemma ElementsStep(info: Record, elements: seq<Json>, slot: Option<Json>)
    returns (info': Record, slot': Json)
    requires |elements| > 0 && Elements(info, elements, slot).Some?
    ensures Step(info, elements[0]) == Some((info', slot'))
    ensures Elements(info, elements, slot) == Elements(info', elements[1..], Some(slot'))
    ensures KeyOf(elements[0]).None? ==> info' == info
    ensures KeyOf(elements[0]).Some? ==>
      info' == info[KeyOf(elements[0]).value := SlotValue(slot').value] && slot' == FirstSlot(elements[0]).value
  {
    var r := Step(info, elements[0]).value;
    info', slot' := r.0, r.1;
  }

  /** The loop gets through exactly when every element is well formed, and
      leaves behind the first slot of the last element. */
  lemma {:induction false} ElementsOk(info: Record, elements: seq<Json>, slot: Option<Json>)
    ensures Elements(info, elements, slot).Some? <==> forall i :: 0 <= i < |elements| ==> WellFormed(elements[i])
    ensures Elements(info, elements, slot).Some? && |elements| == 0 ==> Elements(info, elements, slot).value.1 == slot
    ensures Elements(info, elements, slot).Some? && |elements| > 0 ==>
      Elements(info, elements, slot).value.1 == FirstSlot(elements[|elements| - 1])
    decreases |elements|
  {
    if |elements| > 0 {
      var e := elements[0];
      var rest := elements[1..];
      assert forall i :: 1 <= i < |elements| ==> elements[i] == rest[i - 1];
      match Step(info, e)
      case None =>
        assert !WellFormed(e);
      case Some((info', slot')) =>
        assert KeyOf(e) == FieldFor(Index(e, "elementName").value);
        assert WellFormed(e);
        ElementsOk(info', rest, Some(slot'));
    }
  }

  /** A key is in the loop's record exactly when it was there before or
      some element fills it. */
  lemma {:induction false} ElementsKeys(info: Record, elements: seq<Json>, slot: Option<Json>)
    requires Elements(info, elements, slot).Some?
    ensures forall k :: k in Elements(info, elements, slot).value.0 <==>
      k in info || exists i :: 0 <= i < |elements| && KeyOf(elements[i]) == Some(k)
    ensures Elements(info, elements, slot).value.0.Keys <= info.Keys + FieldKeys
    decreases |elements|
  {
    if |elements| > 0 {
      var rest := elements[1..];
      var info', slot' := ElementsStep(info, elements, slot);
      ElementsKeys(info', rest, Some(slot'));
      assert info'.Keys <= info.Keys + FieldKeys;
      var out := Elements(info, elements, slot).value.0;
      forall k
        ensures k in out <==> k in info || exists i :: 0 <= i < |elements| && KeyOf(elements[i]) == Some(k)
      {
        if exists i :: 0 <= i < |rest| && KeyOf(rest[i]) == Some(k) {
          var i :| 0 <= i < |rest| && KeyOf(rest[i]) == Some(k);
          assert KeyOf(elements[i + 1]) == Some(k);
        }
        if exists i :: 0 <= i < |elements| && KeyOf(elements[i]) == Some(k) {
          var i :| 0 <= i < |elements| && KeyOf(elements[i]) == Some(k);
          if i > 0 {
            assert KeyOf(rest[i - 1]) == Some(k);
          }
        }
      }
    }
  }

  /** A key no element fills keeps its value. */
  lemma {:induction false} ElementsUntouched(info: Record, elements: seq<Json>, slot: Option<Json>)
    requires Elements(info, elements, slot).Some?
    ensures forall k :: k in info && (forall i :: 0 <= i < |elements| ==> KeyOf(elements[i]) != Some(k)) ==>
      k in Elements(info, elements, slot).value.0 && Elements(info, elements, slot).value.0[k] == info[k]
    decreases |elements|
  {
    if |elements| > 0 {
      var rest := elements[1..];
      var info', slot' := ElementsStep(info, elements, slot);
      ElementsUntouched(info', rest, Some(slot'));
      var out := Elements(info, elements, slot).value.0;
      forall k | k in info && (forall i :: 0 <= i < |elements| ==> KeyOf(elements[i]) != Some(k))
        ensures k in out && out[k] == info[k]
      {
        assert KeyOf(elements[0]) != Some(k);
        forall j | 0 <= j < |rest|
          ensures KeyOf(rest[j]) != Some(k)
        {
          assert KeyOf(elements[j + 1]) != Some(k);
        }
      }
    }
  }

  /** A key holds the first-slot value of the last element that fills it. */
  lemma {:induction false} ElementsValues(info: Record, elements: seq<Json>, slot: Option<Json>)
    requires Elements(info, elements, slot).Some?
    ensures forall k, i :: LastFilling(elements, k, i) ==>
      k in Elements(info, elements, slot).value.0
      && FirstSlot(elements[i]).Some?
      && Some(Elements(info, elements, slot).value.0[k]) == SlotValue(FirstSlot(elements[i]).value)
    decreases |elements|
  {
    if |elements| > 0 {
      var rest := elements[1..];
      var info', slot' := ElementsStep(info, elements, slot);
      ElementsValues(info', rest, Some(slot'));
      ElementsUntouched(info', rest, Some(slot'));
      var out := Elements(info, elements, slot).value.0;
      forall k, i | LastFilling(elements, k, i)
        ensures k in out && FirstSlot(elements[i]).Some? && Some(out[k]) == SlotValue(FirstSlot(elements[i]).value)
      {
        if i > 0 {
          assert LastFilling(rest, k, i - 1);
        } else {
          forall j | 0 <= j < |rest|
            ensures KeyOf(rest[j]) != Some(k)
          {
            assert KeyOf(elements[j + 1]) != Some(k);
          }
        }
      }
    }
  }

  /** What the loop does, stated element by element: it gets through
      exactly when every element is well formed; a key is filled exactly
      when some element has the matching name or the key was there before;
      the value is the first slot's parameter name of the LAST such element
      (a repeated name: the last one wins); other keys keep their values;
      and the slot left behind is the first slot of the last element. */
  lemma ElementsSpec(info: Record, elements: seq<Json>, slot: Option<Json>)
    ensures Elements(info, elements, slot).Some? <==> forall i :: 0 <= i < |elements| ==> WellFormed(elements[i])
    ensures Elements(info, elements, slot).Some? ==>
      var (out, last) := Elements(info, elements, slot).value;
      && (|elements| == 0 ==> last == slot)
      && (|elements| > 0 ==> last == FirstSlot(elements[|elements| - 1]))
      && (forall k :: k in out <==> k in info || exists i :: 0 <= i < |elements| && KeyOf(elements[i]) == Some(k))
      && (forall k, i :: LastFilling(elements, k, i) ==> k in out && Some(out[k]) == SlotValue(FirstSlot(elements[i]).value))
      && (forall k :: k in info && (forall i :: 0 <= i < |elements| ==> KeyOf(elements[i]) != Some(k)) ==> k in out && out[k] == info[k])
  {
    ElementsOk(info, elements, slot);
    if Elements(info, elements, slot).Some? {
      ElementsKeys(info, elements, slot);
      ElementsValues(info, elements, slot);
      ElementsUntouched(info, elements, slot);
    }
  }

  // -----------------------------------------------------------------------
  // The parser as a whole

  /** The parser gets through the element list exactly when it is non-empty,
      every element is well formed, the first slot of the last element is a
      dict whose start and end times are strings, and `datetime` accepts
      both after the `Z` rewrite. */
  lemma ParseElementsIff(elements: seq<Json>)
    ensures ParseElements(elements).Some? <==>
      && |elements| > 0
      && (forall i :: 0 <= i < |elements| ==> WellFormed(elements[i]))
      && TimeEntries(FirstSlot(elements[|elements| - 1]).value).Some?
  {
    ElementsOk(map[], elements, None);
  }

  /** The parser's record, taken apart: the loop's record `info` plus the
      three time entries of `slot`, the first slot of the last element. */
  lemma ParseUnfold(elements: seq<Json>)
    returns (info: Record, slot: Json, start: Json, end: Json, description: string)
    requires ParseElements(elements).Some?
    ensures |elements| > 0 && FirstSlot(elements[|elements| - 1]) == Some(slot)
    ensures Elements(map[], elements, None) == Some((info, Some(slot)))
    ensures TimeEntries(slot) == Some((start, end, description))
    ensures ParseElements(elements).value
      == info["start_time" := start]["end_time" := end]["description" := JStr(description)]
  {
    ElementsOk(map[], elements, None);
    var (i, last) := Elements(map[], elements, None).value;
    info := i;
    slot := last.value;
    var (s, e, d) := TimeEntries(slot).value;
    start, end, description := s, e, d;
  }

  /** Every key the loop fills from an empty record is a field key, and it
      is filled exactly when some element has the matching name. */
  lemma LoopKeys(elements: seq<Json>, info: Record, slot: Option<Json>)
    requires Elements(map[], elements, None) == Some((info, slot))
    ensures info.Keys <= FieldKeys
    ensures forall k :: k in info <==> exists i :: 0 <= i < |elements| && KeyOf(elements[i]) == Some(k)
  {
    ElementsKeys(map[], elements, None);
  }

  /** Adding the three time entries to a record of field keys keeps the
      field entries as they were and adds nothing else. */
  lemma TimeEntryKeys(info: Record, start: Json, end: Json, description: string)
    requires info.Keys <= FieldKeys
    ensures var out := info["start_time" := start]["end_time" := end]["description" := JStr(description)];
      && TimeKeys <= out.Keys <= FieldKeys + TimeKeys
      && "periods" !in out
      && (forall k :: k in FieldKeys ==> (k in out <==> k in info))
      && forall k :: k in info ==> out[k] == info[k]
  {
    assert FieldKeys !! TimeKeys;
  }

  /** The keys of the parser's record are the three time keys plus the
      field keys of the elements present, so never `periods`; a field key is
      present exactly when some element has the matching name. */
  lemma ParseKeys(elements: seq<Json>)
    requires ParseElements(elements).Some?
    ensures TimeKeys <= ParseElements(elements).value.Keys <= FieldKeys + TimeKeys
    ensures "periods" !in ParseElements(elements).value
    ensures forall k :: k in FieldKeys ==>
      (k in ParseElements(elements).value <==> exists i :: 0 <= i < |elements| && KeyOf(elements[i]) == Some(k))
  {
    var info, slot, start, end, description := ParseUnfold(elements);
    LoopKeys(elements, info, Some(slot));
    TimeEntryKeys(info, start, end, description);
  }

  /** Each field of the parser's record holds the value in the FIRST time
      slot of the LAST element with the matching name: a repeated name
      means the last one wins. */
  lemma ParseFieldValues(elements: seq<Json>, k: string, i: int)
    requires ParseElements(elements).Some?
    requires LastFilling(elements, k, i)
    ensures FirstSlot(elements[i]).Some?
    ensures k in ParseElements(elements).value
    ensures Some(ParseElements(elements).value[k]) == SlotValue(FirstSlot(elements[i]).value)
  {
    var info, slot, start, end, description := ParseUnfold(elements);
    ElementsValues(map[], elements, None);
    LoopKeys(elements, info, Some(slot));
    TimeEntryKeys(info, start, end, description);
  }

  /** The time entries come from the first slot of the LAST element,
      whatever its name: `start_time` and `end_time` are that slot's
      `startTime` and `endTime` strings (`''` when absent), and the
      description shows the month, day, hour and minute characters of both,
      read positionally from the `YYYY-MM-DD HH:MM:SS` text. */
  lemma ParseTimes(elements: seq<Json>)
    requires ParseElements(elements).Some?
    ensures |elements| > 0 && FirstSlot(elements[|elements| - 1]).Some?
    ensures
      var out := ParseElements(elements).value;
      var slot := FirstSlot(elements[|elements| - 1]).value;
      && slot.JObj?
      && Some(out["start_time"]) == GetOr(slot, "startTime", JStr(""))
      && Some(out["end_time"]) == GetOr(slot, "endTime", JStr(""))
      && out["start_time"].JStr? && out["end_time"].JStr?
      && var from := ReplaceZ(out["start_time"].s);
      && var to := ReplaceZ(out["end_time"].s);
      && |from| >= 19 && |to| >= 19
      && out["description"] == JStr("預報時間: " + Positional(from) + " - " + Positional(to))
  {
    var info, slot, start, end, description := ParseUnfold(elements);
    MonthDayTimePositional(ReplaceZ(start.s));
    MonthDayTimePositional(ReplaceZ(end.s));
  }

  /** Failures collapse to `None`: an element list that is empty or not
      found, and an element without a first time slot, all give `None`,
      never a partial record. */
  lemma ParseFailures(data: Json, location: string)
    ensures LocationElements(data, location) == None ==> ParseWeatherData(data, location) == None
    ensures LocationElements(data, location) == Some([]) ==> ParseWeatherData(data, location) == None
    ensures LocationElements(data, location).Some? &&
      (exists i :: 0 <= i < |LocationElements(data, location).value| && FirstSlot(LocationElements(data, location).value[i]) == None)
      ==> ParseWeatherData(data, location) == None
  {
    if LocationElements(data, location).Some? {
      ParseElementsIff(LocationElements(data, location).value);
    }
  }

  /** A timestamp `datetime` rejects makes the whole parse fail, even when
      every element is in order. */
  lemma BadTimestampFails(elements: seq<Json>)
    requires |elements| > 0 && FirstSlot(elements[|elements| - 1]).Some?
    requires var slot := FirstSlot(elements[|elements| - 1]).value;
      slot.JObj? && "startTime" in slot.fields && slot.fields["startTime"].JStr? &&
      FromIsoFormat(ReplaceZ(slot.fields["startTime"].s)) == None
    ensures ParseElements(elements) == None
  {
    ParseElementsIff(elements);
  }
}
