/** The text-handling half of the enrichment client: from the generative
    model's response to the candidate JSON text, before it is parsed
    (enrichmentService.js, lines 45-72). */
module Extraction {
  import opened Wrappers
  import JsString

  /** The response of the generative model, as far as the client reads it:
      candidates, each with content made of parts, each part maybe with text.
      A missing or `null` list or object is `None`. */
  datatype Part = Part(text: Option<string>)
  datatype Content = Content(parts: Option<seq<Part>>)
  datatype Candidate = Candidate(content: Option<Content>)
  datatype Response = Response(candidates: Option<seq<Candidate>>)

  /** The outcome of the awaited request: it threw (transport failure,
      rejected request), or it returned a response that may be `null`. */
  datatype CallResult = Threw | Returned(response: Option<Response>)

  /** The text of the first part of the first candidate, when the response
      has that shape and the text is truthy; `None` for each of the
      conditions that make the client throw "did not return a valid text
      candidate". */
  function CandidateText(result: Option<Response>): (r: Option<string>)
    ensures result.None? ==> r.None?
    ensures result.Some? && (result.value.candidates.None? || result.value.candidates.value == []) ==> r.None?
    ensures r.Some? ==>
      && result.Some? && result.value.candidates.Some? && |result.value.candidates.value| > 0
      && result.value.candidates.value[0].content.Some?
      && result.value.candidates.value[0].content.value.parts.Some?
      && |result.value.candidates.value[0].content.value.parts.value| > 0
      && result.value.candidates.value[0].content.value.parts.value[0].text == r
      && r.value != ""
    ensures && result.Some? && result.value.candidates.Some? && |result.value.candidates.value| > 0
            && result.value.candidates.value[0].content.Some?
            && result.value.candidates.value[0].content.value.parts.Some?
            && |result.value.candidates.value[0].content.value.parts.value| > 0
            && result.value.candidates.value[0].content.value.parts.value[0].text.Some?
            && result.value.candidates.value[0].content.value.parts.value[0].text.value != ""
            ==> r == result.value.candidates.value[0].content.value.parts.value[0].text
  {
    if result.None? then None
    else
      var candidates := result.value.candidates;
      if candidates.None? || |candidates.value| == 0 then None
      else
        var content := candidates.value[0].content;
        if content.None? || content.value.parts.None? || |content.value.parts.value| == 0 then None
        else
          var text := content.value.parts.value[0].text;
          if text.None? || text.value == "" then None else text
  }

  predicate StartsWith(s: string, p: string) {
    |p| <= |s| && s[..|p|] == p
  }

  predicate EndsWith(s: string, p: string) {
    |p| <= |s| && s[|s| - |p|..] == p
  }

  /** A concatenation starts with its first part and ends with its last. */
  lemma ConcatEnds(a: string, b: string)
    ensures StartsWith(a + b, a) && EndsWith(a + b, b)
  {
    assert (a + b)[..|a|] == a;
    assert (a + b)[|a|..] == b;
  }

  /** The opening and closing markers of a fenced JSON code block. */
  const FenceOpen: string := "```json\n"
  const FenceClose: string := "\n```"

  /** `text.replace(/^```json\n|\n```$/g, '')`. Without the `m` flag the two
      anchors refer to the whole text, so the opening marker can only be
      removed from the very start and the closing marker from the very end;
      the two are removed independently of each other, and, since a global
      replace resumes after each match, the closing marker is removed only
      when it lies wholly after a removed opening marker. */
  function StripFences(text: string): (r: string)
    ensures var lead := if StartsWith(text, FenceOpen) then |FenceOpen| else 0;
            && lead + |r| <= |text|
            && r == text[lead..lead + |r|]
            && (if EndsWith(text[lead..], FenceClose)
                then |r| == |text| - lead - |FenceClose|
                else |r| == |text| - lead)
  {
    var rest := if StartsWith(text, FenceOpen) then text[|FenceOpen|..] else text;
    if EndsWith(rest, FenceClose) then rest[..|rest| - |FenceClose|] else rest
  }

  /** A body wrapped in a fenced JSON block comes back out exactly. */
  lemma StripFencesOfWrapped(body: string)
    ensures StripFences(FenceOpen + body + FenceClose) == body
  {
    var text := FenceOpen + body + FenceClose;
    assert text[..|FenceOpen|] == FenceOpen;
    assert text[|FenceOpen|..] == body + FenceClose;
    assert (body + FenceClose)[|body|..] == FenceClose;
    assert (body + FenceClose)[..|body|] == body;
  }

  /** Only an opening marker: it is removed on its own. */
  lemma StripFencesOpenOnly(body: string)
    requires !EndsWith(body, FenceClose)
    ensures StripFences(FenceOpen + body) == body
  {
    var text := FenceOpen + body;
    assert text[..|FenceOpen|] == FenceOpen;
    assert text[|FenceOpen|..] == body;
  }

  /** Only a closing marker: it is removed on its own. */
  lemma StripFencesCloseOnly(body: string)
    requires !StartsWith(body + FenceClose, FenceOpen)
    ensures StripFences(body + FenceClose) == body
  {
    var text := body + FenceClose;
    assert text[|text| - |FenceClose|..] == FenceClose;
    assert text[..|body|] == body;
  }

  /** Text with neither marker is left as it is. */
  lemma StripFencesUnfenced(text: string)
    requires !StartsWith(text, FenceOpen) && !EndsWith(text, FenceClose)
    ensures StripFences(text) == text
  {
  }

  /** Text that opens with `{` and closes with `}` carries neither marker. */
  lemma BracedUnfenced(text: string)
    requires |text| >= 1 && text[0] == '{' && text[|text| - 1] == '}'
    ensures !StartsWith(text, FenceOpen) && !EndsWith(text, FenceClose)
  {
    assert |text| < |FenceOpen| || text[..|FenceOpen|][0] != FenceOpen[0];
    assert |text| < |FenceClose| || text[|text| - |FenceClose|..][|FenceClose| - 1] != FenceClose[|FenceClose| - 1];
  }

  /** A closing marker that overlaps the opening one is not removed: the
      opening marker followed directly by three backquotes leaves those
      three backquotes. */
  lemma StripFencesOverlap()
    ensures StripFences(FenceOpen + "```") == "```"
  {
    var text := FenceOpen + "```";
    assert text[..|FenceOpen|] == FenceOpen;
    assert text[|FenceOpen|..] == "```";
  }

  /** The text the client searches for JSON: fences stripped, then trimmed. */
  function CleanText(text: string): (r: string)
    ensures r == JsString.Trim(StripFences(text))
    ensures r == [] || (!JsString.IsWhitespace(r[0]) && !JsString.IsWhitespace(r[|r| - 1]))
  {
    JsString.Trim(StripFences(text))
  }

  /** Text that opens with `{` and closes with `}` is cleaned to itself,
      bare or in a fenced block. */
  lemma CleanBraced(obj: string)
    requires |obj| >= 2 && obj[0] == '{' && obj[|obj| - 1] == '}'
    ensures CleanText(obj) == obj
    ensures CleanText(FenceOpen + obj + FenceClose) == obj
  {
    BracedUnfenced(obj);
    StripFencesUnfenced(obj);
    StripFencesOfWrapped(obj);
    JsString.TrimOfTrimmed(obj);
  }

  /** There is an opening brace strictly before a closing brace. */
  predicate HasBracePair(s: string) {
    exists i, j :: 0 <= i < j < |s| && s[i] == '{' && s[j] == '}'
  }

  /** The slice from the first `{` through the last `}`, inclusive, when the
      last `}` comes after the first `{`; `None` where the client throws
      "Could not find valid JSON". */
  function JsonSlice(s: string): (r: Option<string>)
    ensures r.Some? ==>
      var i, j := JsString.IndexOf(s, '{'), JsString.LastIndexOf(s, '}');
      && 0 <= i < j < |s|
      && r.value == s[i..j + 1]
      && (forall k :: 0 <= k < i ==> s[k] != '{')
      && (forall k :: j < k < |s| ==> s[k] != '}')
    ensures r.Some? ==> |r.value| >= 2 && r.value[0] == '{' && r.value[|r.value| - 1] == '}'
  {
    var start := JsString.IndexOf(s, '{');
    var end := JsString.LastIndexOf(s, '}');
    if start != -1 && end != -1 && end > start then Some(s[start..end + 1]) else None
  }

  /** The slice exists exactly when some `{` comes before some `}`. */
  lemma JsonSliceExists(s: string)
    ensures JsonSlice(s).Some? <==> HasBracePair(s)
  {
    var start := JsString.IndexOf(s, '{');
    var end := JsString.LastIndexOf(s, '}');
    if JsonSlice(s).Some? {
      assert s[start] == '{' && s[end] == '}';
    }
    if HasBracePair(s) {
      var i, j :| 0 <= i < j < |s| && s[i] == '{' && s[j] == '}';
      assert start != -1 && end != -1;
      assert start <= i < j <= end;
    }
  }

  /** Text with no `{`, or no `}`, has no slice. */
  lemma NoBracesNoSlice(s: string)
    requires '{' !in s || '}' !in s
    ensures JsonSlice(s).None?
  {
  }

  /** Prose before and after a JSON object is cut away: when the object
      text holds the only braces, the slice is the object text. */
  lemma JsonSliceDropsProse(before: string, obj: string, after: string)
    requires '{' !in before && '}' !in after
    requires |obj| >= 2 && obj[0] == '{' && obj[|obj| - 1] == '}'
    ensures JsonSlice(before + obj + after) == Some(obj)
  {
    var s := before + obj + after;
    var i := JsString.IndexOf(s, '{');
    var j := JsString.LastIndexOf(s, '}');
    assert s[|before|] == '{';
    assert s[|before| + |obj| - 1] == '}';
    assert forall k :: 0 <= k < |before| ==> s[k] == before[k];
    assert forall k :: |before| + |obj| <= k < |s| ==> s[k] == after[k - |before| - |obj|];
    assert i == |before| && j == |before| + |obj| - 1;
    assert s[|before|..|before| + |obj|] == obj;
  }

  /** Text that opens with `{` and closes with `}` is its own slice. */
  lemma JsonSliceOfBraced(obj: string)
    requires |obj| >= 2 && obj[0] == '{' && obj[|obj| - 1] == '}'
    ensures JsonSlice(obj) == Some(obj)
  {
    JsonSliceDropsProse("", obj, "");
    assert "" + obj + "" == obj;
  }
}
