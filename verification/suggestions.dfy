/** Where the suggestion text comes from (`gemini_service.py`,
    `get_weather_suggestions` and `_generate_async`): the language model's
    answer, one of two fixed apologies, or the rule-based advisory.

    The model call itself is outside the model: its outcome is the
    `Generation` value, which records whether the call raised, the
    candidates it returned and what reading `response.text` gives.  The
    last is not derived from the candidates: the accessor belongs to the
    SDK. */
module Suggestions {
  import opened Results
  import opened Text
  import opened Advisory

  const NoSuggestion: string := "無法生成建議，請稍後再試。"
  const SafetyBlocked: string := "抱歉，無法為此天氣生成建議。"

  /** The finish reason the model reports when safety filters stop it. */
  const SafetyFinish: int := 3

  /** What reading `response.text` does: return a string, raise
      `ValueError` (the accessor's way of saying there is no single text), or
      raise anything else. */
  datatype TextAccess = TextReturned(text: string) | TextValueError | TextOtherError

  /** A candidate answer: its finish reason and the parts of its content;
      `None` stands for a part without a `text` attribute. A candidate
      without content has no parts. */
  datatype Candidate = Candidate(finishReason: int, parts: seq<Option<string>>)

  /** The outcome of the model call. */
  datatype Generation =
    | CallRaised
    | Response(candidates: seq<Candidate>, text: TextAccess)

  /** `[part.text for part in parts if hasattr(part, 'text')]`. */
  function Texts(parts: seq<Option<string>>): (r: seq<string>)
    ensures |r| <= |parts|
    ensures |r| > 0 <==> exists i :: 0 <= i < |parts| && parts[i].Some?
  {
    if |parts| == 0 then []
    else
      var rest := Texts(parts[1..]);
      assert forall i :: 1 <= i < |parts| ==> parts[i] == parts[1..][i - 1];
      match parts[0]
        case Some(t) => [t] + rest
        case None => rest
  }

  /** `''.join(texts)`. */
  function Concat(texts: seq<string>): string {
    if |texts| == 0 then "" else texts[0] + Concat(texts[1..])
  }

  /** `_generate_async` after the call: the text to show, or `None` to ask
      for the rule-based fallback. */
  function GenerateAsync(g: Generation): Option<string> {
    match g
      case CallRaised => None
      case Response(candidates, text) =>
        if |candidates| == 0 then Some(NoSuggestion)
        else if candidates[0].finishReason == SafetyFinish then Some(SafetyBlocked)
        else match text
          case TextReturned(t) =>
            if |t| > 0 then Some(Strip(t)) else Some(NoSuggestion)
          case TextValueError =>
            var texts := Texts(candidates[0].parts);
            if |texts| > 0 then Some(Strip(Concat(texts))) else Some(NoSuggestion)
          case TextOtherError => None
  }

  /** `get_weather_suggestions(location, {'periods': ps})`. When the model
      asks for the fallback, the advisory is computed; if it raises, the
      handler computes it a second time, which raises again and escapes. */
  function GetWeatherSuggestions(ps: seq<Period>, g: Generation): Try<string> {
    match GenerateAsync(g)
      case Some(t) => Returned(t)
      case None => SimpleSuggestion(ps)
  }

  /** The model call fails exactly when it raised or reading the text raised
      something other than `ValueError` past the candidate checks. */
  predicate CallFails(g: Generation) {
    || g.CallRaised?
    || (|g.candidates| > 0 && g.candidates[0].finishReason != SafetyFinish && g.text.TextOtherError?)
  }

  /** The rule-based advisory is used exactly when the model call fails;
      otherwise the model's outcome is returned as is. */
  lemma FallbackIff(ps: seq<Period>, g: Generation)
    ensures GenerateAsync(g).None? <==> CallFails(g)
    ensures CallFails(g) ==> GetWeatherSuggestions(ps, g) == SimpleSuggestion(ps)
    ensures !CallFails(g) ==> GetWeatherSuggestions(ps, g) == Returned(GenerateAsync(g).value)
  {
  }

  /** The outcomes that never fall back, whatever the periods: no
      candidates, a safety stop, and a non-empty text. */
  lemma NoFallbackCases(ps: seq<Period>, candidates: seq<Candidate>, text: TextAccess)
    ensures |candidates| == 0 ==>
      GetWeatherSuggestions(ps, Response(candidates, text)) == Returned("無法生成建議，請稍後再試。")
    ensures |candidates| > 0 && candidates[0].finishReason == 3 ==>
      GetWeatherSuggestions(ps, Response(candidates, text)) == Returned("抱歉，無法為此天氣生成建議。")
    ensures |candidates| > 0 && candidates[0].finishReason != 3 && text.TextReturned? && |text.text| > 0 ==>
      GetWeatherSuggestions(ps, Response(candidates, text)) == Returned(Strip(text.text))
  {
  }

  /** Whatever the model gives back is shown without surrounding
      whitespace, and showing it again would not change it. */
  lemma ModelTextTrimmed(g: Generation)
    requires GenerateAsync(g).Some?
    ensures Trimmed(GenerateAsync(g).value)
    ensures Strip(GenerateAsync(g).value) == GenerateAsync(g).value
  {
    StripTrimmed(GenerateAsync(g).value);
  }

  /** A reply cut off at the token limit (finish reason 2) is treated like a
      normal stop (finish reason 1): its partial text is still used. */
  lemma TruncatedLikeStopped(c: Candidate, rest: seq<Candidate>, text: TextAccess)
    ensures GenerateAsync(Response([c.(finishReason := 2)] + rest, text))
         == GenerateAsync(Response([c.(finishReason := 1)] + rest, text))
  {
  }

  /** With the same `response.text` outcome, no candidate after the first is
      ever looked at. */
  lemma OnlyFirstCandidate(c: Candidate, rest: seq<Candidate>, rest': seq<Candidate>, text: TextAccess)
    ensures GenerateAsync(Response([c] + rest, text)) == GenerateAsync(Response([c] + rest', text))
  {
  }

  /** A text of blanks is not empty, so it is stripped to nothing and shown
      as an empty suggestion instead of the apology or the fallback. */
  lemma BlankTextShownEmpty(ps: seq<Period>, c: Candidate, t: string)
    requires c.finishReason != SafetyFinish
    requires |t| > 0 && AllSpace(t)
    ensures GetWeatherSuggestions(ps, Response([c], TextReturned(t))) == Returned("")
  {
    StripAllSpace(t);
  }

  /** When `response.text` raises `ValueError`, the parts that carry text
      are joined in order; without any such part the apology is shown. */
  lemma PartsJoined(c: Candidate, rest: seq<Candidate>)
    requires c.finishReason != SafetyFinish
    ensures (exists i :: 0 <= i < |c.parts| && c.parts[i].Some?) ==>
      GenerateAsync(Response([c] + rest, TextValueError)) == Some(Strip(Concat(Texts(c.parts))))
    ensures (forall i :: 0 <= i < |c.parts| ==> c.parts[i].None?) ==>
      GenerateAsync(Response([c] + rest, TextValueError)) == Some(NoSuggestion)
  {
  }
}
