/** The location tables of `bot.py` and the `/weather` command's handling
    of a typed location: alias lookup on the lower-cased input, then a
    check against the canonical names the forecast feed uses.

    Python dicts keep insertion order, so each table is a sequence of
    (key, value) pairs with pairwise distinct keys. */
module Locations {
  import opened Results
  import opened Text

  type Table = seq<(string, string)>

  /** `LOCATION_NAMES`: the feed's name of each county or city, with its
      English name. */
  const Names: Table := [
    ("臺北市", "Taipei City"),
    ("新北市", "New Taipei City"),
    ("桃園市", "Taoyuan City"),
    ("臺中市", "Taichung City"),
    ("臺南市", "Tainan City"),
    ("高雄市", "Kaohsiung City"),
    ("基隆市", "Keelung City"),
    ("新竹市", "Hsinchu City"),
    ("新竹縣", "Hsinchu County"),
    ("苗栗縣", "Miaoli County"),
    ("彰化縣", "Changhua County"),
    ("南投縣", "Nantou County"),
    ("雲林縣", "Yunlin County"),
    ("嘉義市", "Chiayi City"),
    ("嘉義縣", "Chiayi County"),
    ("屏東縣", "Pingtung County"),
    ("宜蘭縣", "Yilan County"),
    ("花蓮縣", "Hualien County"),
    ("臺東縣", "Taitung County"),
    ("澎湖縣", "Penghu County"),
    ("金門縣", "Kinmen County"),
    ("連江縣", "Lienchiang County")
  ]

  /** `LOCATION_ALIASES`: common spellings, mapped to the feed's name. */
  const Aliases: Table := [
    ("台北市", "臺北市"),
    ("台中市", "臺中市"),
    ("台南市", "臺南市"),
    ("台東縣", "臺東縣"),
    ("taipei", "臺北市"),
    ("new taipei", "新北市"),
    ("taoyuan", "桃園市"),
    ("taichung", "臺中市"),
    ("tainan", "臺南市"),
    ("kaohsiung", "高雄市"),
    ("keelung", "基隆市"),
    ("hsinchu city", "新竹市"),
    ("hsinchu county", "新竹縣"),
    ("miaoli", "苗栗縣"),
    ("changhua", "彰化縣"),
    ("nantou", "南投縣"),
    ("yunlin", "雲林縣"),
    ("chiayi city", "嘉義市"),
    ("chiayi county", "嘉義縣"),
    ("pingtung", "屏東縣"),
    ("yilan", "宜蘭縣"),
    ("hualien", "花蓮縣"),
    ("taitung", "臺東縣"),
    ("penghu", "澎湖縣"),
    ("kinmen", "金門縣"),
    ("lienchiang", "連江縣")
  ]

  /** The keys of a table, in order. */
  function Keys(t: Table): (r: seq<string>)
    ensures |r| == |t| && forall i :: 0 <= i < |t| ==> r[i] == t[i].0
  {
    seq(|t|, i requires 0 <= i < |t| => t[i].0)
  }

  predicate Distinct(xs: seq<string>) {
    forall i, j :: 0 <= i < j < |xs| ==> xs[i] != xs[j]
  }

  /** `t.get(key)`. */
  function Lookup(t: Table, key: string): (r: Option<string>)
    ensures r.Some? <==> key in Keys(t)
    ensures r.Some? ==> (key, r.value) in t
    ensures Distinct(Keys(t)) ==> forall i :: 0 <= i < |t| && t[i].0 == key ==> r == Some(t[i].1)
  {
    if |t| == 0 then None
    else
      var rest := Lookup(t[1..], key);
      assert forall i :: 1 <= i < |t| ==> t[i] == t[1..][i - 1];
      assert Keys(t) == [t[0].0] + Keys(t[1..]);
      if t[0].0 == key then Some(t[0].1) else rest
  }

  /** A name the forecast feed knows: a key of `LOCATION_NAMES`. */
  predicate IsCanonical(name: string) {
    name in Keys(Names)
  }

  /** `LOCATION_NAMES.get(name, "")`. */
  function EnglishName(name: string): (r: string)
    ensures IsCanonical(name) ==> (name, r) in Names
    ensures !IsCanonical(name) ==> r == ""
  {
    match Lookup(Names, name)
      case Some(english) => english
      case None => ""
  }

  /** `LOCATION_ALIASES.get(location.lower(), location)`. */
  function Normalize(input: string): string {
    match Lookup(Aliases, Lower(input))
      case Some(name) => name
      case None => input
  }

  /** What the `/weather` command does with its `location` argument: show
      the menu when it is missing or empty, refuse a name it cannot
      normalise to a canonical one, or fetch the forecast for that name. */
  datatype Reply = ShowMenu | NotFound(message: string) | Query(location: string)

  function WeatherCommand(location: Option<string>): Reply {
    match location
      case None => ShowMenu
      case Some(input) =>
        if input == "" then ShowMenu
        else
          var name := Normalize(input);
          if IsCanonical(name) then Query(name)
          else NotFound("❌ 找不到地點: " + input + "\n請使用 `/weather` 查看所有可用地點")
  }

  // -----------------------------------------------------------------------
  // Table invariants

  predicate Letterless(s: string) {
    forall i :: 0 <= i < |s| ==> !IsAsciiLetter(s[i])
  }

  lemma NameKeysDistinct()
    ensures Distinct(Keys(Names))
  {
  }

  lemma AliasKeysDistinct()
    ensures Distinct(Keys(Aliases))
    ensures forall j :: 0 <= j < |Aliases| ==> |Aliases[j].0| > 0
  {
  }

  /** Every alias points at a canonical name. */
  lemma AliasTargetsCanonical()
    ensures forall j :: 0 <= j < |Aliases| ==> IsCanonical(Aliases[j].1)
  {
    var keys := Keys(Names);
    assert keys == [
      "臺北市", "新北市", "桃園市", "臺中市", "臺南市", "高雄市", "基隆市", "新竹市",
      "新竹縣", "苗栗縣", "彰化縣", "南投縣", "雲林縣", "嘉義市", "嘉義縣", "屏東縣",
      "宜蘭縣", "花蓮縣", "臺東縣", "澎湖縣", "金門縣", "連江縣"];
    forall j | 0 <= j < |Aliases|
      ensures Aliases[j].1 in keys
    {
    }
  }

  /** Every alias key starts with 台 or with an ASCII letter. */
  lemma AliasHeads()
    ensures forall j :: 0 <= j < |Aliases| ==>
      |Aliases[j].0| > 0 && (Aliases[j].0[0] == '台' || IsAsciiLetter(Aliases[j].0[0]))
  {
  }

  /** No canonical name has an ASCII letter, and none starts with 台 (the
      feed writes 臺). */
  lemma NameHeads()
    ensures forall i :: 0 <= i < |Names| ==> |Names[i].0| > 0 && Names[i].0[0] != '台' && Letterless(Names[i].0)
  {
  }

  /** No alias is itself a canonical name, and no canonical name has an
      ASCII letter (so lower-casing leaves it alone). */
  lemma CanonicalNotAlias()
    ensures forall i :: 0 <= i < |Names| ==> Names[i].0 !in Keys(Aliases)
    ensures forall i :: 0 <= i < |Names| ==> Letterless(Names[i].0)
  {
    AliasHeads();
    NameHeads();
    forall i, j | 0 <= i < |Names| && 0 <= j < |Aliases|
      ensures Keys(Aliases)[j] != Names[i].0
    {
      assert Names[i].0[0] != Aliases[j].0[0];
    }
  }

  // -----------------------------------------------------------------------
  // Normalisation and validation

  /** Normalisation either follows an alias of the lower-cased input to a
      canonical name, or returns the input exactly as typed. */
  lemma NormalizeCases(input: string)
    ensures Lower(input) in Keys(Aliases) ==>
      (Lower(input), Normalize(input)) in Aliases && IsCanonical(Normalize(input))
    ensures Lower(input) !in Keys(Aliases) ==> Normalize(input) == input
  {
    AliasTargetsCanonical();
  }

  /** A canonical name is its own normal form. */
  lemma CanonicalFixed(name: string)
    requires IsCanonical(name)
    ensures Normalize(name) == name
  {
    var i :| 0 <= i < |Names| && Keys(Names)[i] == name;
    CanonicalNotAlias();
    LowerFixesLetterless(name, name);
  }

  /** Normalising twice is normalising once. */
  lemma NormalizeIdempotent(input: string)
    ensures Normalize(Normalize(input)) == Normalize(input)
  {
    NormalizeCases(input);
    if Lower(input) in Keys(Aliases) {
      CanonicalFixed(Normalize(input));
    }
  }

  /** A non-empty input is accepted exactly when its lower-case form is an
      alias or it is a canonical name as typed; an accepted input is always
      queried under a canonical name, and a refused one gets the message
      that quotes it. */
  lemma AcceptedIff(input: string)
    requires input != ""
    ensures WeatherCommand(Some(input)).Query? <==> Lower(input) in Keys(Aliases) || IsCanonical(input)
    ensures WeatherCommand(Some(input)).Query? ==> IsCanonical(WeatherCommand(Some(input)).location)
    ensures !WeatherCommand(Some(input)).Query? ==>
      WeatherCommand(Some(input)) == NotFound("❌ 找不到地點: " + input + "\n請使用 `/weather` 查看所有可用地點")
  {
    NormalizeCases(input);
  }

  /** Aliases match whatever the case of the input's ASCII letters. */
  lemma AliasAnyCase(input: string, j: nat)
    requires j < |Aliases| && Lower(input) == Aliases[j].0
    ensures WeatherCommand(Some(input)) == Query(Aliases[j].1)
  {
    AliasKeysDistinct();
    var name := Aliases[j].1;
    assert Lookup(Aliases, Lower(input)) == Some(name);
    assert Normalize(input) == name;
    AliasTargetsCanonical();
    assert IsCanonical(name);
    assert input != "" by {
      assert |input| == |Aliases[j].0| > 0;
    }
  }

  /** Canonical names are accepted as they are, but only as they are: no
      other spelling of their ASCII letters exists, since they have none. */
  lemma CanonicalAccepted(name: string, input: string)
    requires IsCanonical(name)
    ensures WeatherCommand(Some(name)) == Query(name)
    ensures Lower(input) == name ==> input == name
  {
    var i :| 0 <= i < |Names| && Keys(Names)[i] == name;
    CanonicalNotAlias();
    LowerFixesLetterless(name, input);
    CanonicalFixed(name);
  }

  /** The command's documented examples: English and Chinese spellings are
      accepted in any case. */
  lemma ExampleEnglish()
    ensures WeatherCommand(Some("Taipei")) == Query("臺北市")
  {
    assert Lower("Taipei") == "taipei";
    assert Aliases[4] == ("taipei", "臺北市");
    AliasAnyCase("Taipei", 4);
  }

  lemma ExampleChinese()
    ensures WeatherCommand(Some("台北市")) == Query("臺北市")
  {
    LowerFixesLetterless("台北市", "台北市");
    assert Aliases[0] == ("台北市", "臺北市");
    AliasAnyCase("台北市", 0);
  }

  lemma ExampleMenu()
    ensures WeatherCommand(None) == ShowMenu && WeatherCommand(Some("")) == ShowMenu
  {
  }

  /** The English name from the table is not an alias, so "Taipei City" is
      refused. */
  lemma ExampleRefused()
    ensures WeatherCommand(Some("Taipei City")).NotFound?
  {
    LowerTaipeiCity();
    TaipeiCityNotAlias();
    assert Normalize("Taipei City") == "Taipei City";
    TaipeiCityNotCanonical();
  }

  lemma LowerTaipeiCity()
    ensures Lower("Taipei City") == "taipei city"
  {
  }

  lemma TaipeiCityNotAlias()
    ensures "taipei city" !in Keys(Aliases)
  {
    var keys := Keys(Aliases);
    forall k | 0 <= k < |keys|
      ensures keys[k] != "taipei city"
    {
      assert keys[k] == Aliases[k].0;
    }
  }

  lemma TaipeiCityNotCanonical()
    ensures !IsCanonical("Taipei City")
  {
    var keys := Keys(Names);
    forall k | 0 <= k < |keys|
      ensures keys[k] != "Taipei City"
    {
      assert keys[k] == Names[k].0;
    }
  }

  // -----------------------------------------------------------------------
  // Autocomplete

  /** An autocomplete choice: the text shown and the value submitted. */
  datatype Choice = Choice(name: string, value: string)

  function ChoiceFor(chinese: string, english: string): Choice {
    Choice(chinese + " (" + english + ")", chinese)
  }

  /** `[c.value for c in choices]`. */
  function Values(cs: seq<Choice>): (r: seq<string>)
    ensures |r| == |cs| && forall k :: 0 <= k < |cs| ==> r[k] == cs[k].value
  {
    seq(|cs|, k requires 0 <= k < |cs| => cs[k].value)
  }

  /** The lower-cased query occurs in the lower-cased Chinese or English
      name of a table entry. */
  predicate NameMatch(q: string, entry: (string, string)) {
    Contains(Lower(entry.0), q) || Contains(Lower(entry.1), q)
  }

  /** The first loop of `location_autocomplete`: a choice for each entry of
      the names table that matches, in table order. */
  function NamePass(q: string, t: Table): seq<Choice> {
    if |t| == 0 then []
    else (if NameMatch(q, t[0]) then [ChoiceFor(t[0].0, t[0].1)] else []) + NamePass(q, t[1..])
  }

  /** The second loop: for each alias that matches, a choice for its target,
      unless a choice with that value is already there. */
  function AliasPass(q: string, aliases: Table, choices: seq<Choice>): seq<Choice>
    decreases |aliases|
  {
    if |aliases| == 0 then choices
    else
      var name := aliases[0].1;
      var next :=
        if Contains(Lower(aliases[0].0), q) && name !in Values(choices)
        then choices + [ChoiceFor(name, EnglishName(name))]
        else choices;
      AliasPass(q, aliases[1..], next)
  }

  /** `location_autocomplete(interaction, current)`. */
  function Autocomplete(current: string): seq<Choice> {
    var q := Lower(current);
    var all := AliasPass(q, Aliases, NamePass(q, Names));
    if |all| <= 25 then all else all[..25]
  }

  /** Choice `c` is the one for some entry of `t` that matches `q`. */
  predicate FromEntry(q: string, t: Table, c: Choice) {
    exists i :: 0 <= i < |t| && NameMatch(q, t[i]) && c == ChoiceFor(t[i].0, t[i].1)
  }

  /** The name pass keeps exactly the matching entries, and distinct keys
      give distinct values. */
  lemma NamePassSpec(q: string, t: Table)
    ensures |NamePass(q, t)| <= |t|
    ensures forall k :: 0 <= k < |NamePass(q, t)| ==> FromEntry(q, t, NamePass(q, t)[k])
    ensures forall i :: 0 <= i < |t| && NameMatch(q, t[i]) ==> ChoiceFor(t[i].0, t[i].1) in NamePass(q, t)
    ensures Distinct(Keys(t)) ==> Distinct(Values(NamePass(q, t)))
  {
    NamePassSound(q, t);
    NamePassComplete(q, t);
    if Distinct(Keys(t)) {
      NamePassDistinct(q, t);
    }
  }

  /** Every choice of the name pass is for a matching entry. */
  lemma {:induction false} NamePassSound(q: string, t: Table)
    ensures |NamePass(q, t)| <= |t|
    ensures forall k :: 0 <= k < |NamePass(q, t)| ==> FromEntry(q, t, NamePass(q, t)[k])
  {
    if |t| > 0 {
      var rest := t[1..];
      NamePassSound(q, rest);
      var tail := NamePass(q, rest);
      var r := NamePass(q, t);
      var head := if NameMatch(q, t[0]) then [ChoiceFor(t[0].0, t[0].1)] else [];
      assert r == head + tail;
      forall k | 0 <= k < |r|
        ensures FromEntry(q, t, r[k])
      {
        if k < |head| {
          assert r[k] == ChoiceFor(t[0].0, t[0].1) && NameMatch(q, t[0]);
        } else {
          assert r[k] == tail[k - |head|];
          assert FromEntry(q, rest, tail[k - |head|]);
          var i :| 0 <= i < |rest| && NameMatch(q, rest[i]) && tail[k - |head|] == ChoiceFor(rest[i].0, rest[i].1);
          assert t[i + 1] == rest[i];
        }
      }
    }
  }

  /** Every matching entry gets a choice. */
  lemma {:induction false} NamePassComplete(q: string, t: Table)
    ensures forall i :: 0 <= i < |t| && NameMatch(q, t[i]) ==> ChoiceFor(t[i].0, t[i].1) in NamePass(q, t)
  {
    if |t| > 0 {
      var rest := t[1..];
      NamePassComplete(q, rest);
      var tail := NamePass(q, rest);
      var r := NamePass(q, t);
      var head := if NameMatch(q, t[0]) then [ChoiceFor(t[0].0, t[0].1)] else [];
      assert r == head + tail;
      forall i | 0 <= i < |t| && NameMatch(q, t[i])
        ensures ChoiceFor(t[i].0, t[i].1) in r
      {
        if i == 0 {
          assert r[0] == ChoiceFor(t[0].0, t[0].1);
        } else {
          assert t[i] == rest[i - 1];
          assert ChoiceFor(t[i].0, t[i].1) in tail;
        }
      }
    }
  }

  /** The values of the name pass are keys of the table. */
  lemma NamePassValues(q: string, t: Table)
    ensures forall k :: 0 <= k < |NamePass(q, t)| ==> NamePass(q, t)[k].value in Keys(t)
  {
    NamePassSound(q, t);
    var r := NamePass(q, t);
    forall k | 0 <= k < |r|
      ensures r[k].value in Keys(t)
    {
      assert FromEntry(q, t, r[k]);
      var i :| 0 <= i < |t| && NameMatch(q, t[i]) && r[k] == ChoiceFor(t[i].0, t[i].1);
      assert Keys(t)[i] == r[k].value;
    }
  }

  /** Distinct keys give distinct values. */
  lemma {:induction false} NamePassDistinct(q: string, t: Table)
    requires Distinct(Keys(t))
    ensures Distinct(Values(NamePass(q, t)))
  {
    if |t| > 0 {
      var rest := t[1..];
      assert Distinct(Keys(rest)) by {
        forall a, b | 0 <= a < b < |rest|
          ensures Keys(rest)[a] != Keys(rest)[b]
        {
          assert Keys(t)[a + 1] != Keys(t)[b + 1];
        }
      }
      NamePassDistinct(q, rest);
      NamePassValues(q, rest);
      var tail := NamePass(q, rest);
      var r := NamePass(q, t);
      if NameMatch(q, t[0]) {
        assert r == [ChoiceFor(t[0].0, t[0].1)] + tail;
        assert t[0].0 !in Keys(rest) by {
          forall k | 0 <= k < |rest|
            ensures Keys(rest)[k] != t[0].0
          {
            assert Keys(t)[0] != Keys(t)[k + 1];
          }
        }
        forall a, b | 0 <= a < b < |r|
          ensures Values(r)[a] != Values(r)[b]
        {
          if a == 0 {
            assert Values(r)[b] == tail[b - 1].value;
          } else {
            assert Values(r)[a] == Values(tail)[a - 1];
            assert Values(r)[b] == Values(tail)[b - 1];
          }
        }
      } else {
        assert r == tail;
      }
    }
  }

  /** The name pass keeps table order: it distributes over concatenation. */
  lemma {:induction false} NamePassAppend(q: string, a: Table, b: Table)
    ensures NamePass(q, a + b) == NamePass(q, a) + NamePass(q, b)
  {
    if |a| == 0 {
      assert a + b == b;
    } else {
      assert (a + b)[1..] == a[1..] + b;
      NamePassAppend(q, a[1..], b);
    }
  }

  /** When every entry matches, the name pass is the whole table in order. */
  lemma {:induction false} NamePassAll(q: string, t: Table)
    requires forall i :: 0 <= i < |t| ==> NameMatch(q, t[i])
    ensures NamePass(q, t) == seq(|t|, i requires 0 <= i < |t| => ChoiceFor(t[i].0, t[i].1))
  {
    if |t| > 0 {
      NamePassAll(q, t[1..]);
    }
  }

  /** The alias pass only appends. */
  lemma {:induction false} AliasPassPrefix(q: string, aliases: Table, choices: seq<Choice>)
    ensures |choices| <= |AliasPass(q, aliases, choices)|
    ensures AliasPass(q, aliases, choices)[..|choices|] == choices
    decreases |aliases|
  {
    if |aliases| > 0 {
      var name := aliases[0].1;
      var next :=
        if Contains(Lower(aliases[0].0), q) && name !in Values(choices)
        then choices + [ChoiceFor(name, EnglishName(name))]
        else choices;
      AliasPassPrefix(q, aliases[1..], next);
      var r := AliasPass(q, aliases[1..], next);
      assert r[..|choices|] == r[..|next|][..|choices|];
    }
  }

  /** Each choice the alias pass appends is for a matching alias's target
      not chosen before, labelled with that target's English name. */
  lemma {:induction false} AliasPassAppends(q: string, aliases: Table, choices: seq<Choice>)
    ensures var r := AliasPass(q, aliases, choices);
      forall k :: |choices| <= k < |r| ==>
        && r[k] == ChoiceFor(r[k].value, EnglishName(r[k].value))
        && r[k].value !in Values(choices)
        && exists j :: 0 <= j < |aliases| && aliases[j].1 == r[k].value && Contains(Lower(aliases[j].0), q)
    decreases |aliases|
  {
    if |aliases| > 0 {
      var name := aliases[0].1;
      var next :=
        if Contains(Lower(aliases[0].0), q) && name !in Values(choices)
        then choices + [ChoiceFor(name, EnglishName(name))]
        else choices;
      AliasPassAppends(q, aliases[1..], next);
      AliasPassPrefix(q, aliases[1..], next);
      var r := AliasPass(q, aliases[1..], next);
      assert forall v :: v in Values(choices) ==> v in Values(next) by {
        assert next[..|choices|] == choices;
      }
      forall k | |choices| <= k < |r|
        ensures r[k] == ChoiceFor(r[k].value, EnglishName(r[k].value))
        ensures r[k].value !in Values(choices)
        ensures exists j :: 0 <= j < |aliases| && aliases[j].1 == r[k].value && Contains(Lower(aliases[j].0), q)
      {
        if k < |next| {
          assert r[k] == r[..|next|][k] == next[k];
          assert aliases[0].1 == r[k].value;
        } else {
          var j :| 0 <= j < |aliases[1..]| && aliases[1..][j].1 == r[k].value && Contains(Lower(aliases[1..][j].0), q);
          assert aliases[j + 1] == aliases[1..][j];
        }
      }
    }
  }

  /** The alias pass keeps the values distinct. */
  lemma {:induction false} AliasPassDistinct(q: string, aliases: Table, choices: seq<Choice>)
    requires Distinct(Values(choices))
    ensures Distinct(Values(AliasPass(q, aliases, choices)))
    decreases |aliases|
  {
    if |aliases| > 0 {
      var name := aliases[0].1;
      var next :=
        if Contains(Lower(aliases[0].0), q) && name !in Values(choices)
        then choices + [ChoiceFor(name, EnglishName(name))]
        else choices;
      assert Distinct(Values(next)) by {
        if next != choices {
          forall a, b | 0 <= a < b < |next|
            ensures Values(next)[a] != Values(next)[b]
          {
            if b == |choices| {
              assert Values(next)[a] == Values(choices)[a];
            } else {
              assert Values(choices)[a] != Values(choices)[b];
            }
          }
        }
      }
      AliasPassDistinct(q, aliases[1..], next);
    }
  }

  /** Every matching alias's target ends up among the values. */
  lemma {:induction false} AliasPassComplete(q: string, aliases: Table, choices: seq<Choice>)
    ensures forall j :: 0 <= j < |aliases| && Contains(Lower(aliases[j].0), q) ==>
      aliases[j].1 in Values(AliasPass(q, aliases, choices))
    ensures forall v :: v in Values(choices) ==> v in Values(AliasPass(q, aliases, choices))
    decreases |aliases|
  {
    if |aliases| > 0 {
      var name := aliases[0].1;
      var next :=
        if Contains(Lower(aliases[0].0), q) && name !in Values(choices)
        then choices + [ChoiceFor(name, EnglishName(name))]
        else choices;
      AliasPassComplete(q, aliases[1..], next);
      var r := AliasPass(q, aliases, choices);
      assert forall v :: v in Values(choices) ==> v in Values(next) by {
        assert next[..|choices|] == choices;
      }
      forall j | 0 <= j < |aliases| && Contains(Lower(aliases[j].0), q)
        ensures aliases[j].1 in Values(r)
      {
        if j == 0 {
          assert name in Values(next) by {
            if name !in Values(choices) {
              assert Values(next)[|choices|] == name;
            }
          }
        } else {
          assert aliases[j] == aliases[1..][j - 1];
        }
      }
    }
  }

  /** The set of a sequence's elements; it has as many members as the
      sequence has entries when they are pairwise distinct. */
  function Elements(xs: seq<string>): (r: set<string>)
    ensures forall x :: x in r <==> x in xs
    ensures |r| <= |xs|
    ensures Distinct(xs) ==> |r| == |xs|
  {
    if |xs| == 0 then {}
    else
      var rest := xs[1..];
      assert forall k :: 1 <= k < |xs| ==> xs[k] == rest[k - 1];
      assert Distinct(xs) ==> Distinct(rest) && xs[0] !in rest by {
        if Distinct(xs) {
          forall a, b | 0 <= a < b < |rest|
            ensures rest[a] != rest[b]
          {
            assert xs[a + 1] != xs[b + 1];
          }
        }
      }
      {xs[0]} + Elements(rest)
  }

  /** A sequence of distinct members of `universe` is no longer than it. */
  lemma DistinctBound(xs: seq<string>, universe: seq<string>)
    requires Distinct(xs)
    requires forall k :: 0 <= k < |xs| ==> xs[k] in universe
    ensures |xs| <= |universe|
  {
    var a := Elements(xs);
    var b := Elements(universe);
    assert a <= b;
    SubsetCard(a, b);
  }

  lemma {:induction false} SubsetCard(a: set<string>, b: set<string>)
    requires a <= b
    ensures |a| <= |b|
    decreases |a|
  {
    if a != {} {
      var x :| x in a;
      SubsetCard(a - {x}, b - {x});
    }
  }

  /** For any names table with distinct keys and any aliases into it, the
      two passes choose distinct keys of the names table. */
  lemma {:induction false} PassesChooseKeys(q: string, names: Table, aliases: Table)
    requires Distinct(Keys(names))
    requires forall j :: 0 <= j < |aliases| ==> aliases[j].1 in Keys(names)
    ensures var all := AliasPass(q, aliases, NamePass(q, names));
      && Distinct(Values(all))
      && (forall k :: 0 <= k < |all| ==> all[k].value in Keys(names))
      && |all| <= |names|
  {
    var n := NamePass(q, names);
    var all := AliasPass(q, aliases, n);
    NamePassSpec(q, names);
    AliasPassDistinct(q, aliases, n);
    AliasPassPrefix(q, aliases, n);
    AliasPassAppends(q, aliases, n);
    forall k | 0 <= k < |all|
      ensures all[k].value in Keys(names)
    {
      if k < |n| {
        assert all[k] == all[..|n|][k] == n[k];
        assert FromEntry(q, names, n[k]);
        var i :| 0 <= i < |names| && NameMatch(q, names[i]) && n[k] == ChoiceFor(names[i].0, names[i].1);
        assert Keys(names)[i] == all[k].value;
      } else {
        var j :| 0 <= j < |aliases| && aliases[j].1 == all[k].value && Contains(Lower(aliases[j].0), q);
      }
    }
    DistinctBound(Values(all), Keys(names));
  }

  /** The choices are for pairwise distinct canonical names, so there are
      at most as many as table entries and the cap of 25 never cuts
      anything off. */
  lemma AutocompleteBounded(current: string)
    ensures var r := Autocomplete(current);
      && Distinct(Values(r))
      && (forall k :: 0 <= k < |r| ==> IsCanonical(r[k].value))
      && |r| <= |Names| < 25
      && r == AliasPass(Lower(current), Aliases, NamePass(Lower(current), Names))
  {
    NameKeysDistinct();
    AliasTargetsCanonical();
    PassesChooseKeys(Lower(current), Names, Aliases);
  }

  /** Every choice shows its canonical name followed by the table's English
      name in parentheses. */
  lemma AutocompleteLabels(current: string)
    ensures var r := Autocomplete(current);
      forall k :: 0 <= k < |r| ==> r[k] == ChoiceFor(r[k].value, EnglishName(r[k].value))
  {
    var q := Lower(current);
    var n := NamePass(q, Names);
    var all := AliasPass(q, Aliases, n);
    AutocompleteBounded(current);
    NameKeysDistinct();
    NamePassSpec(q, Names);
    AliasPassPrefix(q, Aliases, n);
    AliasPassAppends(q, Aliases, n);
    forall k | 0 <= k < |all| && k < |n|
      ensures all[k] == ChoiceFor(all[k].value, EnglishName(all[k].value))
    {
      assert all[k] == all[..|n|][k] == n[k];
      assert FromEntry(q, Names, n[k]);
      var i :| 0 <= i < |Names| && NameMatch(q, Names[i]) && n[k] == ChoiceFor(Names[i].0, Names[i].1);
      assert Lookup(Names, Names[i].0) == Some(Names[i].1);
    }
  }

  /** The query matches the entry of `name` in the names table. */
  predicate NameHit(q: string, names: Table, name: string) {
    exists i :: 0 <= i < |names| && names[i].0 == name && NameMatch(q, names[i])
  }

  /** The query matches an alias that points at `name`. */
  predicate AliasHit(q: string, aliases: Table, name: string) {
    exists j :: 0 <= j < |aliases| && aliases[j].1 == name && Contains(Lower(aliases[j].0), q)
  }

  /** For any tables, a name is chosen only when the query matches its
      entry in the names table or an alias that points at it. */
  lemma PassesSound(q: string, names: Table, aliases: Table, name: string)
    requires name in Values(AliasPass(q, aliases, NamePass(q, names)))
    ensures NameHit(q, names, name) || AliasHit(q, aliases, name)
  {
    var n := NamePass(q, names);
    var all := AliasPass(q, aliases, n);
    NamePassSound(q, names);
    AliasPassPrefix(q, aliases, n);
    AliasPassAppends(q, aliases, n);
    var k :| 0 <= k < |all| && Values(all)[k] == name;
    if k < |n| {
      assert all[k] == all[..|n|][k] == n[k];
      assert FromEntry(q, names, n[k]);
      var i :| 0 <= i < |names| && NameMatch(q, names[i]) && n[k] == ChoiceFor(names[i].0, names[i].1);
      assert names[i].0 == name;
    } else {
      var j :| 0 <= j < |aliases| && aliases[j].1 == all[k].value && Contains(Lower(aliases[j].0), q);
      assert aliases[j].1 == name;
    }
  }

  /** For any tables, a name whose entry or alias the query matches is
      chosen. */
  lemma PassesComplete(q: string, names: Table, aliases: Table, name: string)
    requires NameHit(q, names, name) || AliasHit(q, aliases, name)
    ensures name in Values(AliasPass(q, aliases, NamePass(q, names)))
  {
    var n := NamePass(q, names);
    AliasPassComplete(q, aliases, n);
    if NameHit(q, names, name) {
      var i :| 0 <= i < |names| && names[i].0 == name && NameMatch(q, names[i]);
      NamePassComplete(q, names);
      var k :| 0 <= k < |n| && n[k] == ChoiceFor(names[i].0, names[i].1);
      assert Values(n)[k] == name;
    }
  }

  /** A canonical name is offered exactly when the query occurs in its
      Chinese or English name, or in an alias that points at it. */
  lemma AutocompleteComplete(current: string, name: string)
    ensures name in Values(Autocomplete(current)) <==>
      NameHit(Lower(current), Names, name) || AliasHit(Lower(current), Aliases, name)
  {
    AutocompleteBounded(current);
    if name in Values(Autocomplete(current)) {
      PassesSound(Lower(current), Names, Aliases, name);
    }
    if NameHit(Lower(current), Names, name) || AliasHit(Lower(current), Aliases, name) {
      PassesComplete(Lower(current), Names, Aliases, name);
    }
  }

  /** Choices from the names table come first, in table order; what
      follows comes only from aliases, for names whose own Chinese and
      English names do not match. */
  lemma AutocompleteOrder(current: string)
    ensures var q := Lower(current); var r := Autocomplete(current); var n := NamePass(q, Names);
      && |n| <= |r| && r[..|n|] == n
      && forall k, i :: |n| <= k < |r| && 0 <= i < |Names| && Names[i].0 == r[k].value ==> !NameMatch(q, Names[i])
  {
    var q := Lower(current);
    var n := NamePass(q, Names);
    var all := AliasPass(q, Aliases, n);
    AutocompleteBounded(current);
    NamePassSpec(q, Names);
    AliasPassPrefix(q, Aliases, n);
    AliasPassAppends(q, Aliases, n);
    forall k, i | |n| <= k < |all| && 0 <= i < |Names| && Names[i].0 == all[k].value
      ensures !NameMatch(q, Names[i])
    {
    }
  }

  /** When every name matches, the alias pass adds nothing and the result
      is the names table in order. */
  lemma AllMatch(q: string, names: Table, aliases: Table)
    requires Distinct(Keys(names))
    requires forall i :: 0 <= i < |names| ==> NameMatch(q, names[i])
    requires forall j :: 0 <= j < |aliases| ==> aliases[j].1 in Keys(names)
    ensures AliasPass(q, aliases, NamePass(q, names)) ==
      seq(|names|, i requires 0 <= i < |names| => ChoiceFor(names[i].0, names[i].1))
  {
    NamePassAll(q, names);
    var n := NamePass(q, names);
    var all := AliasPass(q, aliases, n);
    assert |n| == |names|;
    AliasPassPrefix(q, aliases, n);
    PassesChooseKeys(q, names, aliases);
    assert |all| == |n|;
    assert all == all[..|n|] == n;
  }

  /** An empty query offers every canonical name, in table order. */
  lemma AutocompleteEmptyQuery()
    ensures Autocomplete("") == seq(|Names|, i requires 0 <= i < |Names| => ChoiceFor(Names[i].0, Names[i].1))
  {
    var q := Lower("");
    assert q == "";
    forall i | 0 <= i < |Names|
      ensures NameMatch(q, Names[i])
    {
      ContainsEmpty(Lower(Names[i].0));
    }
    AliasTargetsCanonical();
    NameKeysDistinct();
    AllMatch(q, Names, Aliases);
  }
}
