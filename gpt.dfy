/** Structured extraction (backend/app/core/gpt.py): build the prompt from the OCR text, ask the
    language model, cut the JSON candidate out of its reply and parse it. The completion endpoint and
    `json.loads` are parameters; any failure on the way makes the whole call return None. */
module Gpt {

  import opened Wrappers
  import opened Json

  /** Python's `str.isspace`. */
  predicate IsSpace(c: char) {
    || c == ' ' || '\t' <= c <= '\r' || '\U{1c}' <= c <= '\U{1f}' || c == '\U{85}' || c == '\U{a0}'
    || c == '\U{1680}' || '\U{2000}' <= c <= '\U{200a}' || c == '\U{2028}' || c == '\U{2029}'
    || c == '\U{202f}' || c == '\U{205f}' || c == '\U{3000}'
  }

  predicate AllSpace(s: string) {
    forall i :: 0 <= i < |s| ==> IsSpace(s[i])
  }

  /** Neither end of `s` is whitespace. */
  predicate Trimmed(s: string) {
    s == [] || (!IsSpace(s[0]) && !IsSpace(s[|s| - 1]))
  }

  lemma AllSpaceConcat(a: string, b: string)
    requires AllSpace(a) && AllSpace(b)
    ensures AllSpace(a + b)
  {
  }

  /** The length of the whitespace run that starts `s`. */
  function LeadingSpaces(s: string): (n: nat)
    ensures n <= |s| && AllSpace(s[..n])
    ensures n < |s| ==> !IsSpace(s[n])
  {
    if s == [] || !IsSpace(s[0]) then 0
    else
      var m := LeadingSpaces(s[1..]);
      assert s[..m + 1] == [s[0]] + s[1..][..m];
      AllSpaceConcat([s[0]], s[1..][..m]);
      m + 1
  }

  /** The length of the whitespace run that ends `s`. */
  function TrailingSpaces(s: string): (n: nat)
    ensures n <= |s| && AllSpace(s[|s| - n..])
    ensures n < |s| ==> !IsSpace(s[|s| - 1 - n])
  {
    if s == [] || !IsSpace(s[|s| - 1]) then 0
    else
      var init := s[..|s| - 1];
      var m := TrailingSpaces(init);
      assert s[|s| - (m + 1)..] == init[|init| - m..] + [s[|s| - 1]];
      AllSpaceConcat(init[|init| - m..], [s[|s| - 1]]);
      m + 1
  }

  /** Python's `str.strip()` with no argument: `s` with the whitespace runs at both ends removed.
      What is left is trimmed, and it sits in `s` between two runs of whitespace. */
  function Strip(s: string): (r: string)
    ensures Trimmed(r)
    ensures LeadingSpaces(s) + |r| <= |s|
    ensures s[LeadingSpaces(s)..LeadingSpaces(s) + |r|] == r
    ensures AllSpace(s[..LeadingSpaces(s)]) && AllSpace(s[LeadingSpaces(s) + |r|..])
  {
    var a := LeadingSpaces(s);
    var t := s[a..];
    var n := TrailingSpaces(t);
    var r := t[..|t| - n];
    assert s[a + |r|..] == t[|t| - n..];
    assert r != [] ==> r[0] == s[a] && n < |t| && r[|r| - 1] == t[|t| - 1 - n];
    r
  }

  /** Whatever whitespace surrounds a trimmed middle, `strip()` returns that middle. */
  lemma {:induction false} StripUnique(p: string, r: string, q: string)
    requires AllSpace(p) && AllSpace(q) && Trimmed(r)
    ensures Strip(p + r + q) == r
  {
    var x := p + r + q;
    var a := LeadingSpaces(x);
    if r == [] {
      assert x == p + q;
      AllSpaceConcat(p, q);
      assert a == |x|;
    } else {
      assert x[|p|] == r[0];
      assert forall i :: 0 <= i < |p| ==> x[i] == p[i];
      assert a == |p|;
      var t := x[a..];
      assert t == r + q;
      var b := TrailingSpaces(t);
      assert t[|t| - 1 - |q|] == r[|r| - 1];
      assert forall i :: |r| <= i < |t| ==> t[i] == q[i - |r|];
      assert b == |q|;
      assert t[..|t| - b] == r;
    }
  }

  lemma StripIdempotent(s: string)
    ensures Strip(Strip(s)) == Strip(s)
  {
    StripUnique([], Strip(s), []);
    assert [] + Strip(s) + [] == Strip(s);
  }

  lemma SplitAround(s: string, a: nat, r: string)
    requires a + |r| <= |s| && s[a..a + |r|] == r
    ensures s == s[..a] + r + s[a + |r|..]
  {
  }

  lemma Regroup(w1: string, x1: string, r: string, x3: string, w2: string)
    ensures w1 + (x1 + r + x3) + w2 == (w1 + x1) + r + (x3 + w2)
  {
  }

  /** Whitespace added around text leaves its stripped form unchanged. */
  lemma {:induction false} StripIgnoresSurroundingSpace(ws1: string, s: string, ws2: string)
    requires AllSpace(ws1) && AllSpace(ws2)
    ensures Strip(ws1 + s + ws2) == Strip(s)
  {
    var r := Strip(s);
    var a := LeadingSpaces(s);
    var s1, s3 := s[..a], s[a + |r|..];
    SplitAround(s, a, r);
    Regroup(ws1, s1, r, s3, ws2);
    AllSpaceConcat(ws1, s1);
    AllSpaceConcat(s3, ws2);
    StripUnique(ws1 + s1, r, s3 + ws2);
  }

  // ---- The JSON candidate: re.search(r"\{[\s\S]*\}", content) ----

  /** The first position at or after `from` holding `c`. */
  function FirstIndexFrom(s: string, c: char, from: nat): (r: Option<nat>)
    requires from <= |s|
    ensures r.Some? ==> from <= r.value < |s| && s[r.value] == c && forall k :: from <= k < r.value ==> s[k] != c
    ensures r.None? ==> forall k :: from <= k < |s| ==> s[k] != c
    decreases |s| - from
  {
    if from == |s| then None
    else if s[from] == c then Some(from)
    else FirstIndexFrom(s, c, from + 1)
  }

  /** The last position before `upto` holding `c`. */
  function LastIndexBefore(s: string, c: char, upto: nat): (r: Option<nat>)
    requires upto <= |s|
    ensures r.Some? ==> r.value < upto && s[r.value] == c && forall k :: r.value < k < upto ==> s[k] != c
    ensures r.None? ==> forall k :: 0 <= k < upto ==> s[k] != c
  {
    if upto == 0 then None
    else if s[upto - 1] == c then Some(upto - 1)
    else LastIndexBefore(s, c, upto - 1)
  }

  predicate HasBracePair(s: string) {
    exists i, j :: 0 <= i < j < |s| && s[i] == '{' && s[j] == '}'
  }

  /** The span of the regex match: the earliest `{` and, greedily, the last `}`; it exists exactly when
      some `{` has a `}` after it. */
  function CandidateSpan(s: string): (r: Option<(nat, nat)>)
    ensures r.Some? <==> HasBracePair(s)
    ensures r.Some? ==>
      && r.value.0 < r.value.1 < |s| && s[r.value.0] == '{' && s[r.value.1] == '}'
      && (forall k :: 0 <= k < r.value.0 ==> s[k] != '{')
      && (forall k :: r.value.1 < k < |s| ==> s[k] != '}')
  {
    var first := FirstIndexFrom(s, '{', 0);
    var last := LastIndexBefore(s, '}', |s|);
    if first.Some? && last.Some? && first.value < last.value then Some((first.value, last.value))
    else None
  }

  /** `match.group(0)`: the text of that span, both braces included, newlines and all. */
  function JsonCandidate(s: string): (r: Option<string>)
    ensures r.Some? <==> HasBracePair(s)
    ensures r.Some? ==> |r.value| >= 2 && r.value[0] == '{' && r.value[|r.value| - 1] == '}'
    ensures r.Some? ==> CandidateSpan(s).Some? && r.value == s[CandidateSpan(s).value.0..CandidateSpan(s).value.1 + 1]
  {
    match CandidateSpan(s)
    case None => None
    case Some((i, j)) => Some(s[i..j + 1])
  }

  /** The `.strip()` applied to a candidate changes nothing: it starts with `{` and ends with `}`. */
  lemma CandidateIsStripped(s: string)
    requires JsonCandidate(s).Some?
    ensures Strip(JsonCandidate(s).value) == JsonCandidate(s).value
  {
    var c := JsonCandidate(s).value;
    StripUnique([], c, []);
    assert [] + c + [] == c;
  }

  // ---- Prompt and model call ----

  datatype Message = Message(role: string, content: string)

  /** `message.content` may be None in a reply. */
  datatype Choice = Choice(content: Option<string>)

  /** What the completion call gives back: it raised; it returned an object with no `choices` attribute
      at all; or it returned an object whose `choices` is None (`None` here) or a list. */
  datatype Reply = Raised | WithoutChoices | Completion(choices: Option<seq<Choice>>)

  const SystemPrompt: string := "You are an intelligent receipt parser."

  /** The prompt template up to its `{ocr_text_data}` placeholder, with `{{`/`}}` already unescaped. */
  const PromptHead: string :=
    "\nYou will be given raw OCR text from a receipt. Extract and return the following fields in strict JSON format:\n\n" +
    "{\n  \"merchant\": string,\n  \"date\": string (YYYY-MM-DD),\n" +
    "  \"items\": [{ \"name\": string, \"quantity\": int, \"price\": float }],\n  \"total\": float\n}\n\n" +
    "Respond with only valid JSON.\n\nIf the receipt date is missing, set \"date\" to \"2025-08-01\".\n\nText:\n---\n"

  /** `prompt_template.format(ocr_text_data=ocr_text.strip())`: the template text, then the stripped OCR
      text, then the template's closing newline. */
  function Prompt(ocrText: string): (p: string)
    ensures |p| == |PromptHead| + |Strip(ocrText)| + 1
    ensures p[..|PromptHead|] == PromptHead && p[|p| - 1] == '\n'
    ensures p[|PromptHead|..|p| - 1] == Strip(ocrText)
  {
    PromptHead + Strip(ocrText) + "\n"
  }

  /** Two OCR texts give the same prompt exactly when they strip to the same text. */
  lemma PromptDeterminedByStrippedText(a: string, b: string)
    ensures Prompt(a) == Prompt(b) <==> Strip(a) == Strip(b)
  {
    if Prompt(a) == Prompt(b) {
      assert Strip(a) == Prompt(a)[|PromptHead|..|Prompt(a)| - 1];
    }
  }

  /** The message list sent to the model: the fixed system message, then the prompt. */
  function Messages(ocrText: string): (m: seq<Message>)
    ensures |m| == 2 && m[0].role == "system" && m[1].role == "user"
    ensures m[0].content == SystemPrompt && m[1].content == Prompt(ocrText)
  {
    [Message("system", SystemPrompt), Message("user", Prompt(ocrText))]
  }

  /** The model sees the OCR text only after stripping: whitespace around it does not change the request. */
  lemma PromptIgnoresSurroundingSpace(ws1: string, ocrText: string, ws2: string)
    requires AllSpace(ws1) && AllSpace(ws2)
    ensures Messages(ws1 + ocrText + ws2) == Messages(ocrText)
  {
    StripIgnoresSurroundingSpace(ws1, ocrText, ws2);
  }

  /** The exceptions raised inside the `try`. */
  datatype GptFailure =
    | ApiError          // the completion call raised
    | MissingAttribute  // AttributeError: the debug print reads a missing `choices`, or `.strip()` meets a None content
    | NoChoices         // ValueError("No choices in OpenAI response."): `choices` is None or empty
    | NoJson            // ValueError("GPT output does not contain valid JSON.")
    | BadJson           // json.loads raised

  /** The body of the `try`, with each `raise` as a Failure. */
  function ExtractOrRaise(ocrText: string, complete: seq<Message> -> Reply, loads: string -> Option<Json>): (r: Result<Json, GptFailure>)
    ensures r == Failure(ApiError) <==> complete(Messages(ocrText)).Raised?
    ensures r == Failure(NoChoices) <==>
      (var reply := complete(Messages(ocrText));
       reply.Completion? && (reply.choices.None? || |reply.choices.value| == 0))
    ensures r == Failure(MissingAttribute) <==>
      (var reply := complete(Messages(ocrText));
       || reply.WithoutChoices?
       || (reply.Completion? && reply.choices.Some? && |reply.choices.value| > 0 && reply.choices.value[0].content.None?))
    ensures r == Failure(NoJson) <==>
      (var reply := complete(Messages(ocrText));
       reply.Completion? && reply.choices.Some? && |reply.choices.value| > 0 &&
       reply.choices.value[0].content.Some? && !HasBracePair(Strip(reply.choices.value[0].content.value)))
    ensures r == Failure(BadJson) <==>
      (var reply := complete(Messages(ocrText));
       reply.Completion? && reply.choices.Some? && |reply.choices.value| > 0 &&
       reply.choices.value[0].content.Some? &&
       var candidate := JsonCandidate(Strip(reply.choices.value[0].content.value));
       candidate.Some? && loads(candidate.value).None?)
    ensures r.Success? <==>
      (var reply := complete(Messages(ocrText));
       reply.Completion? && reply.choices.Some? && |reply.choices.value| > 0 &&
       reply.choices.value[0].content.Some? &&
       var candidate := JsonCandidate(Strip(reply.choices.value[0].content.value));
       candidate.Some? && loads(candidate.value).Some?)
    ensures r.Success? ==>
      (var reply := complete(Messages(ocrText));
       reply.Completion? && reply.choices.Some? && |reply.choices.value| > 0 &&
       reply.choices.value[0].content.Some? &&
       var candidate := JsonCandidate(Strip(reply.choices.value[0].content.value));
       candidate.Some? && loads(candidate.value) == Some(r.value))
  {
    match complete(Messages(ocrText))
    case Raised => Failure(ApiError)
    case WithoutChoices => Failure(MissingAttribute)
    case Completion(choices) =>
      if choices.None? || |choices.value| == 0 then Failure(NoChoices)
      else if choices.value[0].content.None? then Failure(MissingAttribute)
      else
        var content := Strip(choices.value[0].content.value);
        match JsonCandidate(content)
        case None => Failure(NoJson)
        case Some(candidate) =>
          CandidateIsStripped(content);
          match loads(Strip(candidate))
          case None => Failure(BadJson)
          case Some(j) => Success(j)
  }

  /** `extract_structured_data`: the parsed reply, or None after any exception, since the `except`
      block logs and falls off the end of the function. */
  function ExtractStructuredData(ocrText: string, complete: seq<Message> -> Reply, loads: string -> Option<Json>): (r: Option<Json>)
    ensures r.None? <==> ExtractOrRaise(ocrText, complete, loads).Failure?
    ensures r.Some? ==> Success(r.value) == ExtractOrRaise(ocrText, complete, loads)
  {
    match ExtractOrRaise(ocrText, complete, loads)
    case Success(j) => Some(j)
    case Failure(_) => None
  }
}
