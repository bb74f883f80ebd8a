/** The forecast card of `bot.py` (`create_weather_embed`) and the reply to
    a typed `/weather` command, put together from the other modules: the
    forecast service's record, the suggestion source and the display
    helpers.

    The card is reduced to what the program decides: its title, the
    heading of each period field, and the suggestion field if there is
    one. The service's record never has a `periods` entry, so a card built
    from it has no period fields, and the advisory that backs up the
    language model always sees an empty period list. */
module WeatherCard {
  import opened Results
  import opened Text
  import opened JsonValues
  import F = Forecast
  import A = Advisory
  import S = Suggestions
  import L = Locations
  import D = Display

  /** A period entry of the forecast as a dict of strings. */
  function AsPeriod(j: Json): Option<A.Period> {
    if j.JObj? && forall k :: k in j.fields ==> j.fields[k].JStr? then
      Some(map k | k in j.fields :: j.fields[k].s)
    else None
  }

  /** Every entry of a list read as a period, or `None` if one is not. */
  function AsPeriods(items: seq<Json>): (r: Option<seq<A.Period>>)
    ensures r.Some? <==> forall i :: 0 <= i < |items| ==> AsPeriod(items[i]).Some?
    ensures r.Some? ==> |r.value| == |items| && forall i :: 0 <= i < |items| ==> AsPeriod(items[i]) == Some(r.value[i])
  {
    if |items| == 0 then Some([])
    else
      assert forall i :: 1 <= i < |items| ==> items[i] == items[1..][i - 1];
      var p :- AsPeriod(items[0]);
      var rest :- AsPeriods(items[1..]);
      Some([p] + rest)
  }

  /** `weather_data.get('periods', [])` when the entry, if present, is a
      list of dicts of strings; `None` for any other value. */
  function PeriodsOf(w: F.Record): Option<seq<A.Period>> {
    if "periods" !in w then Some([])
    else match w["periods"]
      case JArr(items) => AsPeriods(items)
      case _ => None
  }

  /** `periods[:2]`. */
  function FirstTwo(ps: seq<A.Period>): (r: seq<A.Period>)
    ensures |r| == if |ps| < 2 then |ps| else 2
    ensures r == ps[..|r|]
  {
    if |ps| <= 2 then ps else ps[..2]
  }

  /** `period.get(key, default)`. */
  function Get(p: A.Period, key: string, default: string): string {
    if key in p then p[key] else default
  }

  /** The heading of each period field, numbering the periods from `idx`:
      its emoji, a space and its label. */
  function Headings(ps: seq<A.Period>, idx: nat): (r: seq<string>)
    ensures |r| == |ps|
    ensures forall i :: 0 <= i < |ps| ==>
      r[i] == D.PeriodEmoji(D.PeriodLabel(ps[i], idx + i)) + " " + D.PeriodLabel(ps[i], idx + i)
    decreases |ps|
  {
    if |ps| == 0 then []
    else
      assert forall i :: 1 <= i < |ps| ==> ps[i] == ps[1..][i - 1];
      var name := D.PeriodLabel(ps[0], idx);
      [D.PeriodEmoji(name) + " " + name] + Headings(ps[1..], idx + 1)
  }

  datatype Card = Card(title: string, headings: seq<string>, suggestion: Option<string>)

  /** What building the card ends in: the card, the `ValueError` raised for
      a missing forecast (with its message), or an exception raised on the
      way whose text the model does not carry. */
  datatype Outcome = Shown(card: Card) | Failed(message: string) | ErrorRaised

  /** `create_weather_embed(location, ...)` once the forecast has been
      fetched, with the model call's outcome `g`. */
  function CreateWeatherCard(location: string, forecast: Option<F.Record>, g: S.Generation): Outcome
    requires forecast.Some? ==> PeriodsOf(forecast.value).Some?
  {
    if forecast.None? || forecast.value == map[] then Failed("無法取得 " + location + " 的天氣資料")
    else
      var periods := PeriodsOf(forecast.value).value;
      var combined := FirstTwo(periods);
      match S.GetWeatherSuggestions(combined, g)
        case Raised => ErrorRaised
        case Returned(suggestion) =>
          var first := if |periods| > 0 then periods[0] else map[];
          var emoji := D.WeatherEmoji(Get(first, "weather_description", ""), Get(first, "pop", "0"));
          Shown(Card(D.Title(emoji, location), Headings(combined, 0), if suggestion != "" then Some(suggestion) else None))
  }

  /** The bot's answer to `/weather`: the menu, a text message, or a card. */
  datatype BotReply = Menu | Message(text: string) | CardShown(card: Card) | ErrorReported

  /** The record the service returns has the parser's keys and never a
      `periods` entry. */
  lemma ForecastHasNoPeriods(reply: F.HttpReply, location: string)
    requires F.GetWeatherForecast(reply, location).Some?
    ensures var w := F.GetWeatherForecast(reply, location).value;
      && "periods" !in w && F.TimeKeys <= w.Keys && w != map[]
      && PeriodsOf(w) == Some([])
  {
    F.GateIff(reply, location);
    var data := reply.body.value;
    var elements := F.LocationElements(data, location).value;
    assert F.ParseWeatherData(data, location) == F.ParseElements(elements);
    F.ParseKeys(elements);
    var w := F.GetWeatherForecast(reply, location).value;
    assert "start_time" in w;
  }

  /** `weather(interaction, location)` for a typed (or missing) location,
      with the HTTP round trip `reply` and the model call's outcome `g`. */
  function Respond(location: Option<string>, reply: F.HttpReply, g: S.Generation): BotReply {
    match L.WeatherCommand(location)
      case ShowMenu => Menu
      case NotFound(message) => Message(message)
      case Query(name) =>
        var forecast := F.GetWeatherForecast(reply, name);
        assert forecast.Some? ==> PeriodsOf(forecast.value).Some? by {
          if forecast.Some? {
            ForecastHasNoPeriods(reply, name);
          }
        }
        match CreateWeatherCard(name, forecast, g)
          case Shown(card) => CardShown(card)
          case Failed(message) => Message("❌ 發生錯誤: " + message)
          case ErrorRaised => ErrorReported
  }

  lemma EmptyDescriptionDefault()
    ensures D.WeatherEmoji("", "0") == D.Default
  {
    assert Lower("") == "";
    assert D.RainProbability("0") == 0 by {
      assert IsDigits("0");
      assert "0"[..0] == [];
    }
  }

  /** The suggestion a card shows for the model outcome `g` when there are
      no periods: the rule-based apology when the call fails, otherwise the
      model's text unless it is empty. */
  function ExpectedSuggestion(g: S.Generation): Option<string> {
    if S.CallFails(g) then Some("無法提供建議")
    else if S.GenerateAsync(g).value == "" then None
    else Some(S.GenerateAsync(g).value)
  }

  /** From any forecast the service returns, the card shows the default
      weather emoji (its first period is the empty dict), no period fields,
      and, whenever the model call fails, the advisory for an empty list. */
  lemma CardFromServiceForecast(location: string, reply: F.HttpReply, g: S.Generation)
    requires F.GetWeatherForecast(reply, location).Some?
    ensures var forecast := F.GetWeatherForecast(reply, location);
      && PeriodsOf(forecast.value) == Some([])
      && CreateWeatherCard(location, forecast, g) ==
           Shown(Card(D.Title(D.Default, location), [], ExpectedSuggestion(g)))
  {
    ForecastHasNoPeriods(reply, location);
    S.FallbackIff([], g);
    A.EmptyPeriods();
    EmptyDescriptionDefault();
  }

  /** End to end, when the service returns nothing: an accepted location
      gets the error message naming it. */
  lemma RespondNoForecast(input: string, reply: F.HttpReply, g: S.Generation)
    requires L.WeatherCommand(Some(input)).Query?
    requires F.GetWeatherForecast(reply, L.WeatherCommand(Some(input)).location).None?
    ensures Respond(Some(input), reply, g) ==
      Message("❌ 發生錯誤: " + ("無法取得 " + L.WeatherCommand(Some(input)).location + " 的天氣資料"))
  {
  }

  /** End to end, when the service returns a forecast: an accepted location
      gets the card above, so the advisory that backs up a failed model call
      is always the empty-list apology. */
  lemma RespondWithForecast(input: string, reply: F.HttpReply, g: S.Generation)
    requires L.WeatherCommand(Some(input)).Query?
    requires F.GetWeatherForecast(reply, L.WeatherCommand(Some(input)).location).Some?
    ensures var name := L.WeatherCommand(Some(input)).location;
      Respond(Some(input), reply, g) == CardShown(Card(D.Title(D.Default, name), [], ExpectedSuggestion(g)))
    ensures S.CallFails(g) ==> Respond(Some(input), reply, g).card.suggestion == Some("無法提供建議")
  {
    CardFromServiceForecast(L.WeatherCommand(Some(input)).location, reply, g);
  }

  /** A card built from a record that does carry periods gets one heading
      per period, for the first two only, whenever a suggestion comes back
      (from the model or from the rule-based fallback). */
  lemma HeadingsFirstTwo(location: string, w: F.Record, g: S.Generation)
    requires PeriodsOf(w).Some? && w != map[]
    requires S.GetWeatherSuggestions(FirstTwo(PeriodsOf(w).value), g).Returned?
    ensures CreateWeatherCard(location, Some(w), g).Shown?
    ensures |CreateWeatherCard(location, Some(w), g).card.headings| == if |PeriodsOf(w).value| < 2 then |PeriodsOf(w).value| else 2
  {
  }
}
