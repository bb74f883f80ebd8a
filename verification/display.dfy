/** The pure display helpers of `bot.py`: the keyword cascade that picks a
    weather emoji from a description and a rain probability, the emoji for
    a period label, and the title of the forecast card. */
module Display {
  import opened Results
  import opened Text
  import opened Locations

  const HeavyRain: string := "🌧️"
  const Showers: string := "🌦️"
  const Thunderstorm: string := "⛈️"
  const Lightning: string := "🌩️"
  const PartlyCloudy: string := "⛅"
  const Cloudy: string := "☁️"
  const Sunny: string := "☀️"
  const Fog: string := "🌫️"
  const Snow: string := "🌨️"
  const Default: string := "🌤️"

  /** `int(pop) if pop and pop.isdigit() else 0`. */
  function RainProbability(pop: string): (r: nat)
    ensures !IsDigits(pop) ==> r == 0
  {
    if IsDigits(pop) then DigitsValue(pop) else 0
  }

  /** Heavy-rain keywords: 大雨 (heavy rain) or 豪雨 (torrential rain). */
  predicate HeavyRainWords(d: string) {
    Contains(d, "大雨") || Contains(d, "豪雨")
  }

  /** `get_weather_emoji(weather_description, pop)`. */
  function WeatherEmoji(description: string, pop: string): string {
    var d := Lower(description);
    if HeavyRainWords(d) then HeavyRain
    else if Contains(d, "雨") || RainProbability(pop) >= 70 then Showers
    else if Contains(d, "雷") then Thunderstorm
    else if Contains(d, "陣雨") || Contains(d, "雷陣雨") then Lightning
    else if Contains(d, "晴") && Contains(d, "雲") then PartlyCloudy
    else if Contains(d, "多雲") || Contains(d, "陰") then Cloudy
    else if Contains(d, "晴") then Sunny
    else if Contains(d, "霧") then Fog
    else if Contains(d, "雪") then Snow
    else Default
  }

  /** A keyword that keeps the cascade from reaching its default. 雲 on its
      own is not one: it only counts together with 晴 or as part of 多雲. */
  predicate AnyKeyword(d: string) {
    || Contains(d, "雨") || Contains(d, "雷") || Contains(d, "晴") || Contains(d, "多雲")
    || Contains(d, "陰") || Contains(d, "霧") || Contains(d, "雪")
  }

  /** Any word that holds 雨 counts as rain. */
  lemma RainWordsHoldRain(d: string)
    ensures Contains(d, "陣雨") ==> Contains(d, "雨")
    ensures Contains(d, "雷陣雨") ==> Contains(d, "雨")
    ensures Contains(d, "大雨") ==> Contains(d, "雨")
    ensures Contains(d, "豪雨") ==> Contains(d, "雨")
    ensures Contains(d, "多雲") ==> Contains(d, "雲")
  {
    assert OccursAt("陣雨", "雨", 1);
    assert OccursAt("雷陣雨", "雨", 2);
    assert OccursAt("大雨", "雨", 1);
    assert OccursAt("豪雨", "雨", 1);
    assert OccursAt("多雲", "雲", 1);
    if Contains(d, "陣雨") { ContainsTransitive(d, "陣雨", "雨"); }
    if Contains(d, "雷陣雨") { ContainsTransitive(d, "雷陣雨", "雨"); }
    if Contains(d, "大雨") { ContainsTransitive(d, "大雨", "雨"); }
    if Contains(d, "豪雨") { ContainsTransitive(d, "豪雨", "雨"); }
    if Contains(d, "多雲") { ContainsTransitive(d, "多雲", "雲"); }
  }

  /** The shower-with-lightning emoji is never returned: every description
      with 陣雨 or 雷陣雨 already holds 雨 and stops at the showers branch. */
  lemma LightningUnreachable(description: string, pop: string)
    ensures WeatherEmoji(description, pop) != Lightning
  {
    RainWordsHoldRain(Lower(description));
  }

  /** The emoji is always one of nine fixed ones. */
  lemma EmojiRange(description: string, pop: string)
    ensures WeatherEmoji(description, pop) in
      {HeavyRain, Showers, Thunderstorm, PartlyCloudy, Cloudy, Sunny, Fog, Snow, Default}
  {
    LightningUnreachable(description, pop);
  }

  /** Heavy rain wins whatever the rain probability, and is the only way to
      get its emoji. */
  lemma HeavyRainIff(description: string, pop: string)
    ensures WeatherEmoji(description, pop) == HeavyRain <==> HeavyRainWords(Lower(description))
  {
  }

  /** Otherwise, 雨 in the description or a rain probability of 70 or more
      gives the showers emoji, and nothing else does. */
  lemma ShowersIff(description: string, pop: string)
    ensures WeatherEmoji(description, pop) == Showers <==>
      !HeavyRainWords(Lower(description)) && (Contains(Lower(description), "雨") || RainProbability(pop) >= 70)
  {
  }

  /** The default emoji is shown exactly when no keyword occurs and the
      rain probability is below 70. */
  lemma DefaultIff(description: string, pop: string)
    ensures WeatherEmoji(description, pop) == Default <==>
      !AnyKeyword(Lower(description)) && RainProbability(pop) < 70
  {
    var d := Lower(description);
    RainWordsHoldRain(d);
  }

  /** The rain probability only matters through the threshold of 70, and
      not at all once the description mentions rain. */
  lemma PopOnlyThreshold(description: string, pop: string, pop': string)
    requires (RainProbability(pop) >= 70) == (RainProbability(pop') >= 70) || Contains(Lower(description), "雨")
    ensures WeatherEmoji(description, pop) == WeatherEmoji(description, pop')
  {
  }

  /** A rain probability printed as a plain number is read back as that
      number; anything else that is not all digits (a sign, blanks, the
      empty string) counts as 0. */
  lemma RainProbabilityShow(n: nat)
    ensures RainProbability(Show(n)) == n
    ensures RainProbability("-" + Show(n)) == 0
    ensures RainProbability(" " + Show(n)) == 0
    ensures RainProbability("") == 0
  {
    NatDigitsValue(n);
    assert !IsDigit(("-" + Show(n))[0]);
    assert !IsDigit((" " + Show(n))[0]);
  }

  // -----------------------------------------------------------------------
  // Period emoji and title

  const Daytime: string := "☀️"
  const Night: string := "🌙"
  const Clock: string := "⏰"

  /** The emoji before a period's label: sun for a label naming the day
      (白天) or today (今天), moon for one naming the evening (晚), a clock
      otherwise. */
  function PeriodEmoji(name: string): string {
    if Contains(name, "白天") || Contains(name, "今天") then Daytime
    else if Contains(name, "晚") then Night
    else Clock
  }

  /** `period.get('period_label', f"時段 {idx + 1}")`. */
  function PeriodLabel(period: map<string, string>, idx: nat): string {
    if "period_label" in period then period["period_label"] else "時段 " + Show(idx + 1)
  }

  /** A substring's first character occurs in the string. */
  lemma ContainsHead(s: string, sub: string)
    requires |sub| > 0 && Contains(s, sub)
    ensures sub[0] in s
  {
    var i :| 0 <= i <= |s| - |sub| && OccursAt(s, sub, i);
    assert s[i] == s[i..i + |sub|][0];
  }

  /** The sun wins over the moon: a label naming both the day and the
      evening gets the sun; the moon needs 晚 without 白天 or 今天. */
  lemma PeriodEmojiIff(name: string)
    ensures PeriodEmoji(name) == Daytime <==> Contains(name, "白天") || Contains(name, "今天")
    ensures PeriodEmoji(name) == Night <==> !Contains(name, "白天") && !Contains(name, "今天") && Contains(name, "晚")
    ensures PeriodEmoji(name) == Clock <==> !Contains(name, "白天") && !Contains(name, "今天") && !Contains(name, "晚")
  {
  }

  /** A period without a label is numbered from 1 and gets the clock. */
  lemma UnlabelledPeriodClock(period: map<string, string>, idx: nat)
    requires "period_label" !in period
    ensures PeriodEmoji(PeriodLabel(period, idx)) == Clock
  {
    var s := PeriodLabel(period, idx);
    var digits := Show(idx + 1);
    assert IsDigits(digits);
    assert forall k :: 3 <= k < |s| ==> s[k] == digits[k - 3];
    if Contains(s, "白天") { ContainsHead(s, "白天"); }
    if Contains(s, "今天") { ContainsHead(s, "今天"); }
    if Contains(s, "晚") { ContainsHead(s, "晚"); }
  }

  /** The title of the forecast card for `location`, whose English name
      (empty when unknown) is `english`. */
  function TitleText(emoji: string, location: string, english: string): string {
    emoji + " " + location + (if english != "" then " (" + english + ")" else "") + " 天氣預報"
  }

  /** The title of the forecast card. */
  function Title(emoji: string, location: string): string {
    TitleText(emoji, location, EnglishName(location))
  }

  /** The English name of each table entry is the one listed beside it,
      and it is never empty. */
  lemma EnglishOfEntry(i: nat)
    requires i < |Names|
    ensures EnglishName(Names[i].0) == Names[i].1 && Names[i].1 != ""
  {
    NameKeysDistinct();
    assert Lookup(Names, Names[i].0) == Some(Names[i].1);
    EnglishNonEmpty();
  }

  /** Every English name in the table is non-empty. */
  lemma EnglishNonEmpty()
    ensures forall i :: 0 <= i < |Names| ==> Names[i].1 != ""
  {
  }

  /** A canonical location's title carries its English name from the
      table. */
  lemma TitleCanonical(emoji: string, i: nat)
    requires i < |Names|
    ensures Title(emoji, Names[i].0) == emoji + " " + Names[i].0 + " (" + Names[i].1 + ")" + " 天氣預報"
  {
    EnglishOfEntry(i);
    TitleWithEnglish(emoji, Names[i].0, Names[i].1);
  }

  lemma TitleWithEnglish(emoji: string, location: string, english: string)
    requires english != ""
    ensures TitleText(emoji, location, english) == emoji + " " + location + " (" + english + ")" + " 天氣預報"
  {
  }

  /** Any other location's title carries no parenthesis. */
  lemma TitleOther(emoji: string, location: string)
    requires !IsCanonical(location)
    ensures Title(emoji, location) == emoji + " " + location + " 天氣預報"
  {
    assert EnglishName(location) == "";
    assert TitleText(emoji, location, "") == emoji + " " + location + " 天氣預報";
  }
}
