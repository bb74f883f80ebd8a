# Taiwan weather bot: a Dafny model of its decision logic

The bot answers a `/weather <location>` command with a forecast card for
one of Taiwan's 22 counties and cities. It pulls the 36-hour forecast from
the Central Weather Administration's open-data feed and asks a language
model for advice. When that call fails, it falls back to a rule-based
advisory. This project models the parts of the bot that make decisions:

- **`Advisory`** (`advisory.dfy`): `get_simple_suggestion`. It builds the
  rule-based advisory from a list of period records:
  - a temperature bracket for the first period's high;
  - a day/night swing check;
  - a bracket for the highest rain probability;
  - a line saying whether rain comes or clears in the second period.

  Python's `int()` may raise on a field. The model returns `Try`.
- **`Suggestions`** (`suggestions.dfy`): the outcome classification of
  `_generate_async` and the fallback of `get_weather_suggestions`.
  - The SDK call is an outcome value: it raised, or it returned these
    candidates and `response.text` behaved like this.
  - The model states which text comes back for each outcome.
- **`Forecast`** (`forecast.dfy`, over `JsonValues` and `Timestamps`):
  - the status/`success` gate of `get_weather_forecast`;
  - the response parser `_parse_weather_data`, with the decoded JSON as a
    datatype and `datetime.fromisoformat`/`strftime` written out.
- **`Locations`** (`locations.dfy`):
  - the two location tables;
  - the normalisation and acceptance of a typed location;
  - the autocomplete filter with its de-duplication and its cap of 25.
- **`Display`** (`display.dfy`):
  - the weather-emoji keyword cascade;
  - the period-label emoji;
  - the card title.
- **`WeatherCard`** (`card.dfy`): `create_weather_embed` and the `/weather`
  reply, composed from the modules above.

`Results` and `Text` hold the Python building blocks the modules share:
`Option` for `None`, `Try` for a raised exception, and `lower` (ASCII
letters only), `in`, `split`, `strip` (over Python's full set of whitespace
code points), `isdigit`, `int` and `str`.

Two facts about the code shape the model.
- The code computes no query time window and gives no period a label such
  as today or tonight. The parser reads only the first time slot of each
  element (`weather_service.py` lines 75-97) and returns one flat record.
  It never writes a `periods` list or a `period_label`. The card and the
  advisory both read `periods` from that record (`bot.py` line 188,
  `gemini_service.py` line 149), so they always see an empty list.
  `WeatherCard.RespondWithForecast` proves the consequence: every card
  built from the service's record has no period fields. When the language
  model fails, the suggestion is always the empty-list apology
  `無法提供建議`.
- The rule-based advisory can raise. It converts each field with `int()`
  (`gemini_service.py` lines 156-160), which raises on text such as `N/A`.
  The exception handler of `get_weather_suggestions` (lines 43-46) then
  calls the advisory a second time, which raises again. The model keeps
  that failure path (`Advisory.AdviceRaisesIff`).

## Model

| member | source | states |
|---|---|---|
| Advisory.EmptyPeriods | gemini_service.py:149-152 | An empty period list gives exactly the apology `無法提供建議`. |
| Advisory.AdviceRaisesIff | gemini_service.py:155-160 | For a non-empty list, building the advisory raises exactly when the conversions fail. These are the first period's high and low, every period's rain probability, and, with two or more periods, the second period's high. Missing fields take their defaults (25, 15, 0, 20) and never raise. |
| Advisory.Pops | gemini_service.py:160 | The rain-probability list succeeds exactly when every period's `pop` converts. A missing `pop` counts as 0. On success, entry i is period i's value. |
| Advisory.Max | gemini_service.py:160 | The maximum bounds every entry from above and is one of the entries. |
| Advisory.TemperatureBracket | gemini_service.py:155-176 | The first two lines are the hot, warm, mild or cold pair. The choice follows the first period's high (25 when missing): at least 30, at least 25, at least 20, below 20. Each pair appears exactly in its range. |
| Advisory.SwingRule | gemini_service.py:178-182 | The swing line is added exactly when there are at least two periods and their highs differ by 5 or more. In this check a missing high counts as 20. |
| Advisory.RainRule | gemini_service.py:159-188 | The rain line follows the highest rain probability over ALL periods. Some period at 70 or more gives the rain-gear line. Otherwise some period at 30 or more gives the umbrella line. Otherwise there is no line. |
| Advisory.DirectionRule | gemini_service.py:190-198 | The direction line appears exactly when there are at least two periods and their rain probabilities differ by 30 or more. It is the rain-coming line when the second is higher, else the clearing line. Both name the second period's label, `稍後` when missing. |
| Advisory.AdviceShape | gemini_service.py:162-200 | The advisory has 2 to 5 lines: the temperature pair plus one line for each rule that applies. Each rule's line sits at its fixed position. |
| Advisory.FixedLinesIff | gemini_service.py:178-188 | The swing, rain-gear and umbrella lines occur in the advisory exactly when their rules apply. None of them can be confused with a temperature or direction line. |
| Advisory.TemperatureLinesDiffer | gemini_service.py:164-188 | No temperature line is the swing line or a rain line. |
| Advisory.DirectionLinesDiffer | gemini_service.py:182-198 | Whatever label they name, the direction lines differ from the swing line and from both rain lines. |
| Advisory.LowTempIrrelevant | gemini_service.py:157 | Replacing a convertible low temperature with any other convertible one leaves the advisory unchanged. The low is converted but never used. |
| Advisory.AdviceTextSplits | gemini_service.py:200 | The advisory text is the lines joined with newlines. Splitting it at newlines gives back exactly the 2 to 5 lines, provided the label it names has no newline. |
| Suggestions.FallbackIff | gemini_service.py:29-46 | The rule-based advisory is used exactly when the model call raised, or reading the text raised something other than `ValueError`. Otherwise the model's outcome is returned unchanged. |
| Suggestions.NoFallbackCases | gemini_service.py:109-129 | No candidates gives `無法生成建議，請稍後再試。`. Finish reason 3 gives `抱歉，無法為此天氣生成建議。`. A non-empty text gives that text stripped. None of them falls back. |
| Suggestions.TruncatedLikeStopped | gemini_service.py:122-124 | A reply cut off at the token limit (finish reason 2) is handled exactly like a normal stop. |
| Suggestions.OnlyFirstCandidate | gemini_service.py:109-137 | With the same `response.text` outcome, `_generate_async` reads no candidate after the first: changing them never changes the result. |
| Suggestions.PartsJoined | gemini_service.py:130-137 | When `response.text` raises `ValueError`, the parts carrying text are joined in order and stripped. Without any such part the apology is returned. |
| Suggestions.BlankTextShownEmpty | gemini_service.py:128-129 | A non-empty text of whitespace is truthy. It is stripped to the empty string and returned, with no apology and no fallback. |
| Suggestions.ModelTextTrimmed | gemini_service.py:112-137 | Any text the model path returns has no surrounding whitespace. |
| Suggestions.Texts | gemini_service.py:133-134 | The list of part texts is non-empty exactly when some part has a text. |
| Forecast.GateIff | weather_service.py:33-47 | A forecast comes back exactly when all of these hold: the transfer succeeded, the status was 200, the body decoded to a dict with a truthy `success`, and the parser accepted it. The parser's record is then passed on unchanged. |
| Forecast.FindLocationFirst | weather_service.py:57-64 | The location found is the first record whose `locationName` equals the request. Every earlier record has a different name. |
| Forecast.FindLocationReaches | weather_service.py:59-64 | Conversely, the first record with that name, preceded only by records with other names, is the one found. |
| Forecast.FindLocationAbsent | weather_service.py:59-67 | No location is found exactly when every record has a name and none matches. A record without a name raises, and the parse gives `None`. |
| Forecast.ElementsSpec | weather_service.py:75-97 | The element loop gets through exactly when every element is well formed. A field key is filled exactly when an element of the matching name exists. The LAST such element wins, with the value in its FIRST time slot. Other names are ignored. The slot left over is the first slot of the last element. |
| Forecast.FieldFor | weather_service.py:79-97 | Every key an element name fills is one of the five field keys. |
| Forecast.FieldForOneToOne | weather_service.py:79-97 | Exactly the five element names Wx, PoP, MinT, MaxT and CI fill a key. Two names that fill the same key are the same name, and together the five fill every field key. |
| Forecast.ParseElementsIff | weather_service.py:69-109 | The parser succeeds exactly when three things hold: the element list is non-empty, every element is well formed, and the last element's first slot has start and end times that `datetime` reads after the `Z` rewrite. |
| Forecast.ParseKeys | weather_service.py:72-109 | The record holds the three time keys plus exactly the field keys of the elements present. It never has `periods`. |
| Forecast.ParseFieldValues | weather_service.py:75-97 | Each field holds the first-slot value of the last element with the matching name. |
| Forecast.ParseTimes | weather_service.py:99-107 | `start_time` and `end_time` are the last element's first slot's strings (`''` when absent). The description is `預報時間: MM/DD HH:MM - MM/DD HH:MM`, read positionally from both. |
| Forecast.ParseFailures | weather_service.py:56-113 | A missing location, an empty element list, or an element without a first time slot all give `None`. |
| Forecast.BadTimestampFails | weather_service.py:104-113 | A start time `datetime` rejects makes the whole parse `None`, even with every element in order. |
| Timestamps.FromIsoFormat | weather_service.py:104-105 | An accepted timestamp is a valid calendar moment. |
| Timestamps.FromIsoFormatIsoFormat | weather_service.py:104-105 | Reading back a timestamp written as `YYYY-MM-DD HH:MM:SS` gives the same moment. |
| Timestamps.OffsetRule | weather_service.py:104-105 | A `+HH:MM` or `-HH:MM` offset is accepted exactly when it comes to less than a day. The minutes may run past 59, so `+00:75` is accepted and `+24:00` is not. |
| Timestamps.OffsetKeepsFields | weather_service.py:104-105 | A timestamp followed by an accepted offset reads as the same wall-clock fields as the timestamp alone. |
| Timestamps.UtcMarkerAccepted | weather_service.py:104-105 | A timestamp with a trailing `Z` is accepted after the `+00:00` rewrite and keeps its fields. |
| Timestamps.MonthDayTimePositional | weather_service.py:107 | `strftime('%m/%d %H:%M')` of a parsed timestamp shows exactly the month, day, hour and minute characters of its text. |
| Locations.NameKeysDistinct | bot.py:15-38 | The canonical names are pairwise distinct. |
| Locations.AliasKeysDistinct | bot.py:41-68 | The alias keys are pairwise distinct and non-empty. |
| Locations.AliasTargetsCanonical | bot.py:41-68 | Every alias points at a canonical name. |
| Locations.CanonicalNotAlias | bot.py:15-68 | No canonical name is an alias key, and no canonical name has an ASCII letter. |
| Locations.Lookup | bot.py:207-338 | `dict.get` finds a value exactly when the key is in the table. With distinct keys, it finds the value listed beside the key. |
| Locations.NormalizeCases | bot.py:338 | An input whose lower-case form is an alias becomes that alias's canonical target. Any other input is kept as typed, without lower-casing. |
| Locations.NormalizeIdempotent | bot.py:338 | Normalising twice is the same as normalising once. |
| Locations.CanonicalFixed | bot.py:338 | A canonical name normalises to itself. |
| Locations.AcceptedIff | bot.py:332-345 | A non-empty input is accepted exactly when its lower-case form is an alias or it is itself canonical. Once accepted, the name queried is canonical. Otherwise the reply is the `找不到地點` message quoting the input. |
| Locations.AliasAnyCase | bot.py:338-341 | An input that matches an alias in any ASCII case queries that alias's target. |
| Locations.CanonicalAccepted | bot.py:338-341 | A canonical name is accepted as typed. It is the only spelling of itself that is. |
| Locations.ExampleEnglish | bot.py:46-341 | `Taipei` queries 臺北市. |
| Locations.ExampleChinese | bot.py:42-341 | `台北市` queries 臺北市. |
| Locations.ExampleMenu | bot.py:332-365 | A missing or empty location shows the menu. |
| Locations.ExampleRefused | bot.py:338-345 | `Taipei City` is refused: it is an English name, not an alias. |
| Locations.NamePassSpec | bot.py:304-310 | The first loop keeps exactly the entries matching the query in the Chinese or English name. Distinct names give distinct choices. |
| Locations.NamePassAppend | bot.py:305-310 | The first loop over two tables in a row is the loop over each, concatenated. |
| Locations.AliasPassPrefix | bot.py:312-318 | The alias loop only appends: the choices already there stay first and unchanged. |
| Locations.AliasPassAppends | bot.py:313-318 | Each appended choice is for a matching alias's target. Its value was not already among the choices. Its label is the target with its English name. |
| Locations.AliasPassDistinct | bot.py:314 | The alias loop keeps the values pairwise distinct. |
| Locations.AliasPassComplete | bot.py:313-318 | Every matching alias's target ends up among the values, and so does every earlier value. |
| Locations.PassesChooseKeys | bot.py:304-318 | Both loops together choose distinct canonical names, so there are no more choices than table entries. |
| Locations.PassesSound | bot.py:304-318 | A name is chosen only when the query matches its table entry or an alias pointing at it. |
| Locations.PassesComplete | bot.py:304-318 | A name whose entry or alias the query matches is chosen. |
| Locations.AutocompleteBounded | bot.py:296-321 | The suggestions are distinct canonical names, at most 22. So the cap of 25 never cuts anything. |
| Locations.AutocompleteLabels | bot.py:309-317 | Every suggestion is labelled `中文 (English)` from the names table. |
| Locations.AutocompleteComplete | bot.py:301-321 | A name is suggested exactly when the lower-case query occurs in its Chinese or English name, or in an alias pointing at it. |
| Locations.AutocompleteOrder | bot.py:304-318 | Direct matches come first, in table order. The alias-only matches come after them, and none of those matches directly. |
| Locations.AllMatch | bot.py:304-318 | When every entry matches, the result is every entry in table order, with no alias adding anything. |
| Locations.AutocompleteEmptyQuery | bot.py:301-321 | An empty query suggests all 22 locations in table order. |
| Display.HeavyRainIff | bot.py:82-87 | The heavy-rain emoji appears exactly when the description has 大雨 or 豪雨, whatever the rain probability. |
| Display.ShowersIff | bot.py:82-89 | Otherwise, 雨 in the description or a rain probability of 70 or more gives the showers emoji, and nothing else does. |
| Display.LightningUnreachable | bot.py:88-93 | The shower-with-lightning emoji is never returned. Every 陣雨 or 雷陣雨 description already stops at the 雨 branch. |
| Display.EmojiRange | bot.py:86-110 | The emoji is always one of the nine reachable ones. |
| Display.DefaultIff | bot.py:96-110 | The default emoji appears exactly when the description has none of 雨, 雷, 晴, 多雲, 陰, 霧, 雪 and the rain probability is below 70. 雲 without 晴 still reaches the default. |
| Display.PopOnlyThreshold | bot.py:83-88 | The rain probability matters only through the threshold of 70. It does not matter at all once the description has 雨. |
| Display.RainProbability | bot.py:83 | A rain probability that is not all digits counts as 0. |
| Display.RainProbabilityShow | bot.py:83 | A printed number is read back as itself. A signed, padded or empty text counts as 0. |
| Display.RainWordsHoldRain | bot.py:86-98 | Every rain keyword contains 雨, and 多雲 contains 雲. |
| Display.PeriodEmojiIff | bot.py:227-233 | The sun is chosen exactly for labels with 白天 or 今天. The moon is chosen for the others with 晚. The clock is chosen for the rest. |
| Display.UnlabelledPeriodClock | bot.py:225-233 | A period without a label is called `時段 n` and gets the clock. |
| Display.TitleCanonical | bot.py:206-211 | A canonical location's title carries its English name in parentheses. |
| Display.TitleOther | bot.py:206-211 | Any other location's title has no parentheses. |
| Display.EnglishOfEntry | bot.py:15-207 | Each canonical name's English name is the one listed beside it, and it is not empty. |
| WeatherCard.ForecastHasNoPeriods | weather_service.py:72-109 | Every record the service returns is non-empty, has the time keys, and has no `periods`. So the card reads an empty period list. |
| WeatherCard.CardFromServiceForecast | bot.py:182-264 | From any record the service returns, the card shows the default emoji and no period fields. When the model call fails, it shows the empty-list apology. Otherwise it shows the model's text, unless that text is empty. |
| WeatherCard.RespondNoForecast | bot.py:348-357 | An accepted location for which the service returns nothing gets `❌ 發生錯誤: 無法取得 <name> 的天氣資料`. |
| WeatherCard.RespondWithForecast | bot.py:329-357 | An accepted location with a forecast gets the card above. When the model call fails, the suggestion is `無法提供建議`. |
| WeatherCard.Headings | bot.py:222-233 | Heading i is the period emoji of period i's label followed by that label, `時段 n` when the label is missing, counted from the given start. |
| WeatherCard.HeadingsFirstTwo | bot.py:188-252 | A record that does carry periods is shown whenever a suggestion comes back, from the model or from the rule-based fallback. It gets one heading per period, for the first two only. |
| WeatherCard.EmptyDescriptionDefault | bot.py:200-204 | The empty first period, with description `''` and `pop` `'0'`, gets the default emoji. |
| Text.SplitJoin | gemini_service.py:200 | Splitting lines joined with newlines gives the lines back when none holds a newline. |
| Text.StripTrimmed | gemini_service.py:129-135 | `strip` leaves a string unchanged when neither end is whitespace. |
| Text.StripAllSpace | gemini_service.py:128-129 | `strip` gives the empty string exactly for strings made only of whitespace. |
| Text.ShowParse | gemini_service.py:156-160 | `int()` reads back every printed integer. |
| Text.SeparatorRaises | gemini_service.py:156-160 | `int()` skips surrounding spaces and newlines, but a file, group, record or unit separator (U+001C to U+001F) next to the number makes it raise, although `strip` counts them as whitespace. |

## Left out

- Discord wiring is left out as framework code: command registration, the
  select menu and its callback, the embed objects, the help command,
  `on_ready` and `main`. The model keeps only the decisions they make: the
  title, the period headings, whether a suggestion field is shown, and
  the text of each reply.
- The embed's period field bodies, its description and its footer are
  left out. They are fixed strings and field copies with no decisions.
- The HTTP transfer and `get_detailed_forecast` are left out: they are
  network I/O. The outcome of the transfer is the `Forecast.HttpReply`
  parameter.
- The language-model SDK call, its thread-pool executor and its
  generation settings are left out: they are foreign calls. Their outcome
  is the `Suggestions.Generation` parameter.
- The prompt text built by `_create_prompt` is left out. It is a string
  template with no decisions, and it cannot raise on the dict of lists of
  string dicts it is given.
- `print` logging is left out, as are the API-key checks of both service
  constructors.
- Locking and concurrency are left out: each request is independent.
- Text.Lower: lowers ASCII letters only. Python's `str.lower` also lowers
  other scripts, but the tables hold only ASCII and CJK. The one non-ASCII
  letter Python lowers to an ASCII one, U+212A KELVIN SIGN (to `k`), is not
  modelled: the bot accepts `\u212Aeelung` as Keelung, and the model refuses it.
- Text.ParseInt: reads ASCII digits only. Python's `int()` also takes
  underscores between digits and non-ASCII decimal digits, which the feed
  never sends. Surrounding whitespace is skipped as `int()` skips it, and
  the separators U+001C to U+001F make it raise.
- Display.RainProbability: `isdigit` is ASCII only. Python's `str.isdigit`
  also accepts other digits: `７０` (full-width) gives 70 in the bot but 0
  in the model, and `²` passes `isdigit`, so `int` raises in the bot,
  while the model gives 0.
- Timestamps.FromIsoFormat: accepts only `YYYY-MM-DD?HH:MM:SS`, optionally
  followed by a `+HH:MM`/`-HH:MM` offset of less than a day. Python also
  accepts other ISO 8601 forms (fractions of a second, dates alone, week
  dates, offsets written `+HHMM` or with seconds); the model gives `None`
  for them.
- JSON numbers are integers only: the feed sends every value as a string.
- WeatherCard.CreateWeatherCard: requires any `periods` entry of the
  record to be a list of dicts of strings. The parser never writes that
  key, so every record the service returns meets this.
- Suggestions.OnlyFirstCandidate: the outcome of reading `response.text`
  (`Suggestions.TextAccess`) is a parameter of its own. It is not computed
  from the candidates, because that accessor belongs to the language-model
  SDK. In the SDK it raises `ValueError` when there are several
  candidates. So in the bot, adding a second candidate to a reply whose
  single candidate has text `""` moves it from the apology
  `無法生成建議，請稍後再試。` to the parts path, which answers `""`.
- Advisory.AdviceTextSplits: assumes the label of the second period has no
  newline. A label with one would split into more lines than the advisory
  has.
