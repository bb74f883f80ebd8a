/** The rule-based advisory of `gemini_service.py`
    (`GeminiService.get_simple_suggestion`): the text the bot shows when the
    language model cannot be used.

    From the list of period records it builds, in this order: two lines
    chosen by the first period's high temperature, a line about a large
    temperature swing between the first two periods, a line chosen by the
    highest rain probability over ALL periods, and a line about the rain
    probability changing between the first two periods.  The lines are
    joined with newlines.  Numeric fields are strings that `int()` converts;
    a field that does not convert raises `ValueError`. */
module Advisory {
  import opened Results
  import opened Text

  /** One period record, as the caller hands it over: a dict of strings. */
  type Period = map<string, string>

  const NoAdvice: string := "無法提供建議"

  const HotLines: seq<string> := ["🌡️ 天氣炎熱，記得多補充水分", "👕 建議穿著輕薄透氣的衣物"]
  const WarmLines: seq<string> := ["🌡️ 天氣溫暖舒適", "👕 短袖或薄長袖即可"]
  const MildLines: seq<string> := ["🌡️ 氣溫適中，早晚稍涼", "👔 建議洋蔥式穿搭"]
  const ColdLines: seq<string> := ["🌡️ 天氣偏冷，注意保暖", "🧥 建議穿著外套或厚衣物"]
  const SwingLine: string := "🌡️ 日夜溫差較大，建議洋蔥式穿搭"
  const RainGearLine: string := "☂️ 降雨機率高，務必攜帶雨具"
  const UmbrellaLine: string := "☂️ 可能下雨，建議帶傘備用"
  const DefaultLabel: string := "稍後"

  /** The line naming a later period in which rain becomes more likely. */
  function RainComingLine(name: string): string {
    "☂️ " + name + "降雨機率較高，記得帶傘"
  }

  /** The line naming a later period in which the weather clears. */
  function ClearingLine(name: string): string {
    "☀️ " + name + "天氣會轉好"
  }

  /** `int(p.get(key, default))`. */
  function IntField(p: Period, key: string, default: int): Try<int> {
    if key !in p then Returned(default)
    else match ParseInt(p[key])
      case Some(n) => Returned(n)
      case None => Raised
  }

  /** `p.get('period_label', '稍後')`. */
  function Label(p: Period): string {
    if "period_label" in p then p["period_label"] else DefaultLabel
  }

  function Abs(x: int): nat {
    if x < 0 then -x else x
  }

  /** `[int(p.get('pop', 0)) for p in periods]`. */
  function Pops(ps: seq<Period>): (r: Try<seq<int>>)
    ensures r.Returned? <==> forall i :: 0 <= i < |ps| ==> IntField(ps[i], "pop", 0).Returned?
    ensures r.Returned? ==> |r.value| == |ps| && forall i :: 0 <= i < |ps| ==> IntField(ps[i], "pop", 0) == Returned(r.value[i])
  {
    if |ps| == 0 then Returned([])
    else
      var first :- IntField(ps[0], "pop", 0);
      var rest :- Pops(ps[1..]);
      assert forall i :: 1 <= i < |ps| ==> ps[i] == ps[1..][i - 1];
      Returned([first] + rest)
  }

  /** Python's `max` of a non-empty list. */
  function Max(xs: seq<int>): (m: int)
    requires |xs| > 0
    ensures forall i :: 0 <= i < |xs| ==> xs[i] <= m
    ensures exists i :: 0 <= i < |xs| && xs[i] == m
  {
    if |xs| == 1 then xs[0]
    else
      var m := Max(xs[1..]);
      assert forall i :: 1 <= i < |xs| ==> xs[i] == xs[1..][i - 1];
      if xs[0] >= m then xs[0] else m
  }

  /** The two lines chosen by the first period's high temperature. */
  function TemperatureLines(high: int): seq<string> {
    if high >= 30 then HotLines
    else if high >= 25 then WarmLines
    else if high >= 20 then MildLines
    else ColdLines
  }

  /** The swing line, when the first two periods' highs differ by 5 or more
      (a missing high counts as 20 here). */
  function SwingLines(ps: seq<Period>): Try<seq<string>> {
    if |ps| < 2 then Returned([])
    else
      var h0 :- IntField(ps[0], "high_temp", 20);
      var h1 :- IntField(ps[1], "high_temp", 20);
      Returned(if Abs(h0 - h1) >= 5 then [SwingLine] else [])
  }

  /** The rain line for the highest rain probability. */
  function RainLines(maxPop: int): seq<string> {
    if maxPop >= 70 then [RainGearLine]
    else if maxPop >= 30 then [UmbrellaLine]
    else []
  }

  /** The line about rain probability changing by 30 or more between the
      first two periods. */
  function DirectionLines(ps: seq<Period>): Try<seq<string>> {
    if |ps| < 2 then Returned([])
    else
      var pop0 :- IntField(ps[0], "pop", 0);
      var pop1 :- IntField(ps[1], "pop", 0);
      Returned(
        if Abs(pop0 - pop1) >= 30 then
          (if pop1 > pop0 then [RainComingLine(Label(ps[1]))] else [ClearingLine(Label(ps[1]))])
        else [])
  }

  /** The list `suggestions` that `get_simple_suggestion` builds for a
      non-empty period list. `low_temp` is converted (and may raise) but
      never used. */
  function AdviceLines(ps: seq<Period>): Try<seq<string>>
    requires |ps| > 0
  {
    var high :- IntField(ps[0], "high_temp", 25);
    var low :- IntField(ps[0], "low_temp", 15);
    var pops :- Pops(ps);
    var swing :- SwingLines(ps);
    var direction :- DirectionLines(ps);
    Returned(TemperatureLines(high) + swing + RainLines(Max(pops)) + direction)
  }

  /** `get_simple_suggestion({'periods': ps})`. */
  function SimpleSuggestion(ps: seq<Period>): Try<string> {
    if |ps| == 0 then Returned(NoAdvice)
    else
      var lines :- AdviceLines(ps);
      Returned(Join(lines))
  }

  // -----------------------------------------------------------------------
  // The decisions, stated independently of how the list is built

  /** The first period's high temperature as the bracket reads it. */
  function High(ps: seq<Period>): Try<int>
    requires |ps| > 0
  {
    IntField(ps[0], "high_temp", 25)
  }

  /** Every field the advisory converts with `int()` converts. */
  predicate Convertible(ps: seq<Period>) {
    && |ps| > 0
    && IntField(ps[0], "high_temp", 25).Returned?
    && IntField(ps[0], "low_temp", 15).Returned?
    && (forall i :: 0 <= i < |ps| ==> IntField(ps[i], "pop", 0).Returned?)
    && (|ps| >= 2 ==> IntField(ps[1], "high_temp", 20).Returned?)
  }

  /** The swing check: two periods whose highs (20 when missing) differ by
      at least 5. */
  predicate SwingApplies(ps: seq<Period>)
    requires Convertible(ps)
  {
    |ps| >= 2 && Abs(IntField(ps[0], "high_temp", 20).value - IntField(ps[1], "high_temp", 20).value) >= 5
  }

  /** Some period, among all of them, has a rain probability of at least
      `threshold` (0 when missing). */
  predicate SomePopAtLeast(ps: seq<Period>, threshold: int)
    requires Convertible(ps)
  {
    exists i :: 0 <= i < |ps| && IntField(ps[i], "pop", 0).value >= threshold
  }

  /** The direction check: two periods whose rain probabilities differ by at
      least 30. */
  predicate DirectionApplies(ps: seq<Period>)
    requires Convertible(ps)
  {
    |ps| >= 2 && Abs(IntField(ps[0], "pop", 0).value - IntField(ps[1], "pop", 0).value) >= 30
  }

  /** An empty list gives the fixed apology and nothing else. */
  lemma EmptyPeriods()
    ensures SimpleSuggestion([]) == Returned("無法提供建議")
  {
  }

  /** The advisory raises exactly when some field it converts does not
      convert: the first period's high or low temperature, any period's
      rain probability, or the second period's high temperature. */
  lemma AdviceRaisesIff(ps: seq<Period>)
    requires |ps| > 0
    ensures AdviceLines(ps).Returned? <==> Convertible(ps)
  {
    if |ps| >= 2 && Convertible(ps) {
      assert IntField(ps[0], "high_temp", 20).Returned?;
      assert IntField(ps[1], "pop", 0).Returned?;
    }
  }

  /** The advisory's list is the temperature pair, then the swing, rain and
      direction parts, each as its own rule decides. */
  lemma AdviceUnfold(ps: seq<Period>) returns (high: int, pops: seq<int>, swing: seq<string>, direction: seq<string>)
    requires Convertible(ps)
    ensures High(ps) == Returned(high) && Pops(ps) == Returned(pops)
    ensures SwingLines(ps) == Returned(swing) && DirectionLines(ps) == Returned(direction)
    ensures AdviceLines(ps) == Returned(TemperatureLines(high) + swing + RainLines(Max(pops)) + direction)
  {
    AdviceRaisesIff(ps);
    high := High(ps).value;
    pops := Pops(ps).value;
    swing := SwingLines(ps).value;
    direction := DirectionLines(ps).value;
  }

  lemma SwingRule(ps: seq<Period>)
    requires Convertible(ps)
    ensures SwingLines(ps) == Returned(if SwingApplies(ps) then [SwingLine] else [])
  {
  }

  lemma DirectionRule(ps: seq<Period>)
    requires Convertible(ps)
    ensures DirectionApplies(ps) ==> |ps| >= 2
    ensures DirectionLines(ps) == Returned(
      if !DirectionApplies(ps) then []
      else if IntField(ps[1], "pop", 0).value > IntField(ps[0], "pop", 0).value then [RainComingLine(Label(ps[1]))]
      else [ClearingLine(Label(ps[1]))])
  {
    if |ps| >= 2 {
      assert IntField(ps[1], "pop", 0).Returned?;
    }
  }

  /** The rain line depends on the highest probability over all periods. */
  lemma RainRule(ps: seq<Period>)
    requires Convertible(ps)
    ensures Pops(ps).Returned? && |Pops(ps).value| > 0
    ensures RainLines(Max(Pops(ps).value)) ==
      if SomePopAtLeast(ps, 70) then [RainGearLine]
      else if SomePopAtLeast(ps, 30) then [UmbrellaLine]
      else []
  {
    var pops := Pops(ps).value;
    var m := Max(pops);
    assert SomePopAtLeast(ps, 70) <==> m >= 70 by {
      if m >= 70 {
        var i :| 0 <= i < |pops| && pops[i] == m;
        assert IntField(ps[i], "pop", 0).value >= 70;
      }
    }
    assert SomePopAtLeast(ps, 30) <==> m >= 30 by {
      if m >= 30 {
        var i :| 0 <= i < |pops| && pops[i] == m;
        assert IntField(ps[i], "pop", 0).value >= 30;
      }
    }
  }

  /** The shape of the advisory: two temperature lines, then the swing line
      if the swing check holds, then one rain line if any period's rain
      probability reaches 30 (the rain-gear line from 70 on, otherwise the
      umbrella line), then the direction line if the direction check holds,
      naming the second period's label and saying whether rain is coming
      (the second probability is higher) or the weather clears. So there are
      between 2 and 5 lines. */
  lemma AdviceShape(ps: seq<Period>)
    requires Convertible(ps)
    ensures AdviceLines(ps).Returned?
    ensures
      var lines := AdviceLines(ps).value;
      var s := if SwingApplies(ps) then 1 else 0;
      var r := if SomePopAtLeast(ps, 30) then 1 else 0;
      var d := if DirectionApplies(ps) then 1 else 0;
      && |lines| == 2 + s + r + d
      && 2 <= |lines| <= 5
      && lines[..2] == TemperatureLines(High(ps).value)
      && (SwingApplies(ps) ==> lines[2] == SwingLine)
      && (SomePopAtLeast(ps, 70) ==> lines[2 + s] == RainGearLine)
      && (SomePopAtLeast(ps, 30) && !SomePopAtLeast(ps, 70) ==> lines[2 + s] == UmbrellaLine)
      && (DirectionApplies(ps) && IntField(ps[1], "pop", 0).value > IntField(ps[0], "pop", 0).value ==>
            lines[|lines| - 1] == RainComingLine(Label(ps[1])))
      && (DirectionApplies(ps) && IntField(ps[1], "pop", 0).value <= IntField(ps[0], "pop", 0).value ==>
            lines[|lines| - 1] == ClearingLine(Label(ps[1])))
  {
    var high, pops, swing, direction := AdviceUnfold(ps);
    SwingRule(ps);
    DirectionRule(ps);
    RainRule(ps);
    PartsLayout(TemperatureLines(high), swing, RainLines(Max(pops)), direction);
  }

  /** Where each part lands in the concatenated list. */
  lemma PartsLayout(t: seq<string>, swing: seq<string>, rain: seq<string>, direction: seq<string>)
    requires |t| == 2 && |swing| <= 1 && |rain| <= 1 && |direction| <= 1
    ensures var lines := t + swing + rain + direction;
      && |lines| == 2 + |swing| + |rain| + |direction|
      && lines[..2] == t
      && (|swing| == 1 ==> lines[2] == swing[0])
      && (|rain| == 1 ==> lines[2 + |swing|] == rain[0])
      && (|direction| == 1 ==> lines[|lines| - 1] == direction[0])
  {
    var lines := t + swing + rain + direction;
    assert lines[..2] == t;
  }

  /** The temperature bracket: the first two lines are one of four fixed
      pairs, chosen by the first period's high (25 when missing) with
      inclusive lower bounds 30, 25 and 20. */
  lemma TemperatureBracket(ps: seq<Period>)
    requires Convertible(ps)
    ensures
      var lines := AdviceLines(ps).value;
      var h := High(ps).value;
      && |lines| >= 2
      && (lines[..2] == HotLines <==> h >= 30)
      && (lines[..2] == WarmLines <==> 25 <= h < 30)
      && (lines[..2] == MildLines <==> 20 <= h < 25)
      && (lines[..2] == ColdLines <==> h < 20)
  {
    AdviceShape(ps);
  }

  lemma TemperatureLinesDiffer(high: int)
    ensures SwingLine !in TemperatureLines(high)
    ensures RainGearLine !in TemperatureLines(high) && UmbrellaLine !in TemperatureLines(high)
  {
  }

  /** The last character of the direction lines tells them apart from every
      fixed line. */
  lemma DirectionLinesDiffer(name: string)
    ensures RainComingLine(name) != RainGearLine && RainComingLine(name) != UmbrellaLine
    ensures ClearingLine(name) != RainGearLine && ClearingLine(name) != UmbrellaLine
    ensures RainComingLine(name) != SwingLine && ClearingLine(name) != SwingLine
  {
    var up := RainComingLine(name);
    var clear := ClearingLine(name);
    assert up[|up| - 1] == '傘';
    assert clear[|clear| - 1] == '好';
  }

  /** The swing line appears exactly when the swing check holds, and the
      rain lines exactly when the maximum over ALL periods' rain
      probabilities reaches the threshold. */
  lemma FixedLinesIff(ps: seq<Period>)
    requires Convertible(ps)
    ensures AdviceLines(ps).Returned?
    ensures SwingLine in AdviceLines(ps).value <==> SwingApplies(ps)
    ensures RainGearLine in AdviceLines(ps).value <==> SomePopAtLeast(ps, 70)
    ensures UmbrellaLine in AdviceLines(ps).value <==> SomePopAtLeast(ps, 30) && !SomePopAtLeast(ps, 70)
  {
    var high, pops, swing, direction := AdviceUnfold(ps);
    SwingRule(ps);
    DirectionDistinct(ps);
    RainThresholds(ps);
    PartsMembership(high, swing, Max(pops), direction);
  }

  /** The direction line, when there is one, is none of the fixed lines. */
  lemma DirectionDistinct(ps: seq<Period>)
    requires Convertible(ps)
    ensures DirectionLines(ps).Returned?
    ensures var direction := DirectionLines(ps).value;
      forall k :: 0 <= k < |direction| ==>
        direction[k] != SwingLine && direction[k] != RainGearLine && direction[k] != UmbrellaLine
  {
    DirectionRule(ps);
    if |ps| >= 2 {
      DirectionLinesDiffer(Label(ps[1]));
    }
  }

  /** The highest rain probability crosses 70 or 30 exactly when some
      period's does. */
  lemma RainThresholds(ps: seq<Period>)
    requires Convertible(ps)
    ensures Pops(ps).Returned? && |Pops(ps).value| > 0
    ensures Max(Pops(ps).value) >= 70 <==> SomePopAtLeast(ps, 70)
    ensures 30 <= Max(Pops(ps).value) < 70 <==> SomePopAtLeast(ps, 30) && !SomePopAtLeast(ps, 70)
  {
    RainRule(ps);
  }

  /** Which fixed lines occur in a list assembled from its four parts. */
  lemma PartsMembership(high: int, swing: seq<string>, maxPop: int, direction: seq<string>)
    requires swing == [] || swing == [SwingLine]
    requires forall k :: 0 <= k < |direction| ==>
      direction[k] != SwingLine && direction[k] != RainGearLine && direction[k] != UmbrellaLine
    ensures var lines := TemperatureLines(high) + swing + RainLines(maxPop) + direction;
      && (SwingLine in lines <==> swing == [SwingLine])
      && (RainGearLine in lines <==> maxPop >= 70)
      && (UmbrellaLine in lines <==> 30 <= maxPop < 70)
  {
    var rain := RainLines(maxPop);
    var lines := TemperatureLines(high) + swing + rain + direction;
    TemperatureLinesDiffer(high);
    assert SwingLine in lines <==> SwingLine in swing;
    assert RainGearLine in lines <==> RainGearLine in rain;
    assert UmbrellaLine in lines <==> UmbrellaLine in rain;
  }

  /** `low_temp` never changes the text: replacing a convertible value by
      any other value `int()` accepts gives the same advisory (or the same
      exception). */
  lemma LowTempIrrelevant(ps: seq<Period>, low: string)
    requires |ps| > 0 && ParseInt(low).Some?
    requires IntField(ps[0], "low_temp", 15).Returned?
    ensures AdviceLines(ps[0 := ps[0]["low_temp" := low]]) == AdviceLines(ps)
  {
    var qs := ps[0 := ps[0]["low_temp" := low]];
    assert forall i :: 0 <= i < |ps| ==> IntField(qs[i], "pop", 0) == IntField(ps[i], "pop", 0);
    assert Pops(qs) == Pops(ps);
    assert IntField(qs[0], "high_temp", 25) == IntField(ps[0], "high_temp", 25);
    assert IntField(qs[0], "low_temp", 15).Returned?;
    assert |ps| >= 2 ==> qs[1] == ps[1];
    AdviceRaisesIff(ps);
    AdviceRaisesIff(qs);
    if Convertible(ps) {
      assert SwingLines(qs) == SwingLines(ps);
      assert DirectionLines(qs) == DirectionLines(ps);
      var high, pops, swing, direction := AdviceUnfold(ps);
      var high', pops', swing', direction' := AdviceUnfold(qs);
    }
  }

  /** No line of the advisory holds a newline when the label does not. */
  lemma PartsHaveNoNewline(high: int, swing: seq<string>, maxPop: int, direction: seq<string>)
    requires swing == [] || swing == [SwingLine]
    requires forall k :: 0 <= k < |direction| ==> NoNewline(direction[k])
    ensures var lines := TemperatureLines(high) + swing + RainLines(maxPop) + direction;
      forall k :: 0 <= k < |lines| ==> NoNewline(lines[k])
  {
    var t := TemperatureLines(high);
    var rain := RainLines(maxPop);
    assert forall k :: 0 <= k < |t| ==> NoNewline(t[k]);
    assert forall k :: 0 <= k < |rain| ==> NoNewline(rain[k]);
    assert NoNewline(SwingLine);
  }

  lemma DirectionHasNoNewline(name: string)
    requires NoNewline(name)
    ensures NoNewline(RainComingLine(name)) && NoNewline(ClearingLine(name))
  {
    assert forall i :: 3 <= i < 3 + |name| ==> RainComingLine(name)[i] == name[i - 3];
    assert forall i :: 3 <= i < 3 + |name| ==> ClearingLine(name)[i] == name[i - 3];
  }

  /** The advisory text reads back as its lines: splitting it on newlines
      gives exactly the lines the rules chose, as long as the second
      period's label holds no newline. */
  lemma AdviceTextSplits(ps: seq<Period>)
    requires Convertible(ps)
    requires |ps| >= 2 ==> NoNewline(Label(ps[1]))
    ensures SimpleSuggestion(ps).Returned? && AdviceLines(ps).Returned?
    ensures Split(SimpleSuggestion(ps).value) == AdviceLines(ps).value
    ensures 2 <= |Split(SimpleSuggestion(ps).value)| <= 5
  {
    var high, pops, swing, direction := AdviceUnfold(ps);
    AdviceShape(ps);
    SwingRule(ps);
    DirectionRule(ps);
    if |ps| >= 2 {
      DirectionHasNoNewline(Label(ps[1]));
    }
    PartsHaveNoNewline(high, swing, Max(pops), direction);
    var lines := TemperatureLines(high) + swing + RainLines(Max(pops)) + direction;
    SplitJoin(lines);
  }
}
