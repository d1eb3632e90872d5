/** The enrichment client, `getGeminiEnrichment` in enrichmentService.js:
    build the prompt for one work, take the model's answer, find and parse
    the JSON object in it, and normalise five fields into `ai_`-prefixed
    values, or return one fixed fallback record when any step fails. */
module EnrichmentService {
  import opened Wrappers
  import JsString
  import opened JsonValue
  import opened Extraction

  /** The five `ai_` fields. A list holds whatever the model put in it (or
      the pieces of a split string); a description is the model's value, or
      `null` when that value is falsy. */
  datatype Enrichment = Enrichment(
    description: Json,
    mood: seq<Json>,
    keywords: seq<Json>,
    semanticTags: seq<Json>,
    similarWorksDescription: Json)

  /** The record returned whenever enrichment fails, whatever the cause. */
  const Fallback: Enrichment := Enrichment(
    JStr("AI enrichment failed."), [], [], [], JStr("AI analysis unavailable."))

  /** Why an attempt ended in the fallback: the request threw, the response
      had no usable text candidate, no `{`...`}` span was found, `JSON.parse`
      threw, a property was read from a parsed `null`, or `split` was called
      on a value that has none. */
  datatype Failure =
    | RequestFailed
    | NoValidCandidate
    | NoJsonBoundaries(cleaned: string)
    | InvalidJson
    | NullDereference
    | NotSplittable(field: string)

  // ---------------------------------------------------------------------
  // Field normalisation (enrichmentService.js, lines 77-84)
  // ---------------------------------------------------------------------

  /** `value || null`: the value when truthy, otherwise `null`. */
  function DescriptionValue(v: Option<Json>): (r: Json)
    ensures Present(v) ==> r == v.value
    ensures !Present(v) ==> r == JNull
    ensures r == JNull || Truthy(r)
  {
    if Present(v) then v.value else JNull
  }

  /** `ai_mood`: an array as it is, any other truthy value as a one-element
      list (a string is never split), a falsy or missing value as `[]`. */
  function MoodList(v: Option<Json>): (r: seq<Json>)
    ensures v.Some? && v.value.JArr? ==> r == v.value.items
    ensures Present(v) && !v.value.JArr? ==> r == [v.value]
    ensures !Present(v) ==> r == []
  {
    if v.Some? && v.value.JArr? then v.value.items
    else if Present(v) then [v.value]
    else []
  }

  /** `s.split(',').map(k => k.trim())`: every comma separates, empty pieces
      are kept, and each piece is trimmed. */
  function SplitTrimmed(s: string): (r: seq<string>)
    ensures |r| == |JsString.Split(s, ',')| == JsString.Count(s, ',') + 1
    ensures forall i :: 0 <= i < |r| ==> r[i] == JsString.Trim(JsString.Split(s, ',')[i])
    ensures forall i :: 0 <= i < |r| ==> ',' !in r[i]
  {
    var parts := JsString.Split(s, ',');
    JsString.SplitCount(s, ',');
    var r := seq(|parts|, i requires 0 <= i < |parts| => JsString.Trim(parts[i]));
    forall i | 0 <= i < |r| ensures ',' !in r[i] {
      JsString.TrimAddsNothing(parts[i], ',');
    }
    r
  }

  /** `ai_keywords` and `ai_semantic_tags`: an array as it is, a truthy
      string split on commas with each piece trimmed, a falsy or missing
      value as `[]`; any other truthy value has no `split` and makes the
      client throw, which is `None`. */
  function CommaList(v: Option<Json>): (r: Option<seq<Json>>)
    ensures v.Some? && v.value.JArr? ==> r == Some(v.value.items)
    ensures Present(v) && v.value.JStr? ==>
      r.Some? && |r.value| == JsString.Count(v.value.s, ',') + 1
      && forall i :: 0 <= i < |r.value| ==> r.value[i] == JStr(SplitTrimmed(v.value.s)[i])
    ensures !Present(v) ==> r == Some([])
    ensures r.None? <==> Present(v) && !v.value.JArr? && !v.value.JStr?
  {
    if v.Some? && v.value.JArr? then Some(v.value.items)
    else if !Present(v) then Some([])
    else if v.value.JStr? then
      var pieces := SplitTrimmed(v.value.s);
      Some(seq(|pieces|, i requires 0 <= i < |pieces| => JStr(pieces[i])))
    else None
  }

  /** The returned object literal built from the parsed value. Reading a
      property of a parsed `null` throws, and so does `split` on a keywords
      or semantic-tags value that is neither an array nor a string. */
  function Normalize(parsed: Json): (r: Result<Enrichment, Failure>)
    ensures parsed == JNull ==> r == Err(NullDereference)
    ensures parsed != JNull ==>
      (r.Ok? <==> CommaList(Property(parsed, "keywords")).Some?
                  && CommaList(Property(parsed, "semantic_tags")).Some?)
    ensures r.Ok? ==>
      && r.value.description == DescriptionValue(Property(parsed, "description"))
      && r.value.mood == MoodList(Property(parsed, "mood"))
      && Some(r.value.keywords) == CommaList(Property(parsed, "keywords"))
      && Some(r.value.semanticTags) == CommaList(Property(parsed, "semantic_tags"))
      && r.value.similarWorksDescription == DescriptionValue(Property(parsed, "similar_works_description"))
  {
    if parsed == JNull then Err(NullDereference)
    else
      var keywords := CommaList(Property(parsed, "keywords"));
      var tags := CommaList(Property(parsed, "semantic_tags"));
      if keywords.None? then Err(NotSplittable("keywords"))
      else if tags.None? then Err(NotSplittable("semantic_tags"))
      else Ok(Enrichment(
        DescriptionValue(Property(parsed, "description")),
        MoodList(Property(parsed, "mood")),
        keywords.value,
        tags.value,
        DescriptionValue(Property(parsed, "similar_works_description"))))
  }

  /** No piece contains a comma and none has whitespace at either end. */
  predicate CleanPieces(pieces: seq<string>) {
    forall i :: 0 <= i < |pieces| ==>
      ',' !in pieces[i]
      && (pieces[i] == [] || (!JsString.IsWhitespace(pieces[i][0])
                              && !JsString.IsWhitespace(pieces[i][|pieces[i]| - 1])))
  }

  /** A list the model writes out as ", "-separated text is read back as
      exactly that list, when no item has a comma or surrounding
      whitespace. */
  lemma SplitTrimmedOfJoined(pieces: seq<string>)
    requires |pieces| >= 1
    requires CleanPieces(pieces)
    ensures SplitTrimmed(JsString.Join(pieces, ", ")) == pieces
  {
    var parts := CommaParts(pieces);
    JoinCommaParts(pieces);
    forall i | 0 <= i < |parts| ensures ',' !in parts[i] {
      if i > 0 {
        assert parts[i] == [' '] + pieces[i];
      }
    }
    JsString.SplitJoin(parts, ',');
    var r := SplitTrimmed(JsString.Join(pieces, ", "));
    assert |r| == |pieces|;
    forall i | 0 <= i < |pieces| ensures r[i] == pieces[i] {
      if i == 0 {
        JsString.TrimOfTrimmed(pieces[0]);
      } else {
        TrimOfSpaced(pieces[i]);
      }
    }
  }

  /** Each item with one space in front. */
  function Spaced(items: seq<string>): (r: seq<string>)
    ensures |r| == |items|
    ensures forall i :: 0 <= i < |r| ==> r[i] == " " + items[i]
  {
    seq(|items|, i requires 0 <= i < |items| => " " + items[i])
  }

  /** The pieces of `Join(pieces, ", ")` between commas: the first item, then
      every other item with its leading space. */
  function CommaParts(pieces: seq<string>): (r: seq<string>)
    requires |pieces| >= 1
    ensures |r| == |pieces| && r[0] == pieces[0]
    ensures forall i :: 0 < i < |r| ==> r[i] == " " + pieces[i]
  {
    [pieces[0]] + Spaced(pieces[1..])
  }

  /** Joining with ", " is joining the comma parts with ",". */
  lemma JoinCommaParts(pieces: seq<string>)
    requires |pieces| >= 1
    ensures JsString.Join(pieces, ", ") == JsString.Join(CommaParts(pieces), [','])
  {
    var parts := CommaParts(pieces);
    if |pieces| == 1 {
      assert parts == [pieces[0]];
    } else {
      var rest := pieces[1..];
      var x := JsString.Join(rest, ", ");
      JoinSpaced(rest);
      assert parts[1..] == Spaced(rest);
      calc {
        JsString.Join(parts, [',']);
        parts[0] + [','] + JsString.Join(parts[1..], [',']);
        pieces[0] + [','] + (" " + x);
        { CommaThenSpace(pieces[0], x); }
        pieces[0] + ", " + x;
        JsString.Join(pieces, ", ");
      }
    }
  }

  lemma CommaThenSpace(a: string, x: string)
    ensures a + [','] + (" " + x) == a + ", " + x
  {
    assert [','] + " " == ", ";
    assert a + [','] + (" " + x) == a + ([','] + " ") + x;
  }

  /** Joining space-prefixed items with "," is joining the items with ", "
      after one leading space. */
  lemma {:induction false} JoinSpaced(items: seq<string>)
    requires |items| >= 1
    ensures JsString.Join(Spaced(items), [',']) == " " + JsString.Join(items, ", ")
  {
    if |items| > 1 {
      var tail := items[1..];
      JoinSpaced(tail);
      assert Spaced(items)[1..] == Spaced(tail);
    }
  }

  /** One space in front of a trimmed string is trimmed away again. */
  lemma TrimOfSpaced(s: string)
    requires s == [] || (!JsString.IsWhitespace(s[0]) && !JsString.IsWhitespace(s[|s| - 1]))
    ensures JsString.Trim(" " + s) == s
  {
    assert (" " + s)[1..] == s;
    assert JsString.TrimStart(" " + s) == JsString.TrimStart(s);
  }

  // ---------------------------------------------------------------------
  // The whole attempt and the fallback (lines 36-95)
  // ---------------------------------------------------------------------

  /** `JSON.parse` on the sliced text, then normalisation. `parse` stands
      for `JSON.parse`, `None` where it throws. */
  function ParseFields(jsonString: string, parse: string -> Option<Json>): (r: Result<Enrichment, Failure>)
    ensures parse(jsonString).None? ==> r == Err(InvalidJson)
    ensures parse(jsonString).Some? ==> r == Normalize(parse(jsonString).value)
  {
    match parse(jsonString)
    case None => Err(InvalidJson)
    case Some(parsed) => Normalize(parsed)
  }

  /** From the model's text to the normalised fields: strip fences and trim,
      slice from the first `{` to the last `}`, parse, normalise. */
  function Interpret(text: string, parse: string -> Option<Json>): (r: Result<Enrichment, Failure>)
    ensures JsonSlice(CleanText(text)).None? ==> r == Err(NoJsonBoundaries(CleanText(text)))
    ensures JsonSlice(CleanText(text)).Some? ==> r == ParseFields(JsonSlice(CleanText(text)).value, parse)
  {
    var cleaned := CleanText(text);
    match JsonSlice(cleaned)
    case None => Err(NoJsonBoundaries(cleaned))
    case Some(jsonString) => ParseFields(jsonString, parse)
  }

  /** A bare JSON object text, and the same text in a fenced block, are
      both handed to `JSON.parse` unchanged. */
  lemma InterpretObjectText(obj: string, parse: string -> Option<Json>)
    requires |obj| >= 2 && obj[0] == '{' && obj[|obj| - 1] == '}'
    ensures Interpret(obj, parse) == ParseFields(obj, parse)
    ensures Interpret(FenceOpen + obj + FenceClose, parse) == ParseFields(obj, parse)
  {
    CleanBraced(obj);
    JsonSliceOfBraced(obj);
  }

  /** One attempt from the awaited request's outcome. */
  function Attempt(call: CallResult, parse: string -> Option<Json>): (r: Result<Enrichment, Failure>)
    ensures call == Threw ==> r == Err(RequestFailed)
    ensures call.Returned? && CandidateText(call.response).None? ==> r == Err(NoValidCandidate)
    ensures call.Returned? && CandidateText(call.response).Some? ==>
              r == Interpret(CandidateText(call.response).value, parse)
  {
    match call
    case Threw => Err(RequestFailed)
    case Returned(response) =>
      match CandidateText(response)
      case None => Err(NoValidCandidate)
      case Some(text) => Interpret(text, parse)
  }

  /** The `try`/`catch` around the attempt: every failure becomes the
      fallback record; the function never fails. */
  function EnrichFromCall(call: CallResult, parse: string -> Option<Json>): (r: Enrichment)
    ensures Attempt(call, parse).Err? ==> r == Fallback
    ensures Attempt(call, parse).Ok? ==> r == Attempt(call, parse).value
  {
    match Attempt(call, parse)
    case Ok(e) => e
    case Err(_) => Fallback
  }

  /** Each way the model's text can fail to yield the fields: the cleaned
      text has no `{` before a `}`, the slice is not JSON, it parses to
      `null`, or keywords/semantic tags are truthy but neither array nor
      string. */
  lemma InterpretFailures(text: string, parse: string -> Option<Json>)
    ensures !HasBracePair(CleanText(text)) ==> Interpret(text, parse) == Err(NoJsonBoundaries(CleanText(text)))
    ensures HasBracePair(CleanText(text)) ==> JsonSlice(CleanText(text)).Some?
    ensures HasBracePair(CleanText(text)) && parse(JsonSlice(CleanText(text)).value).None? ==>
              Interpret(text, parse) == Err(InvalidJson)
    ensures HasBracePair(CleanText(text)) && parse(JsonSlice(CleanText(text)).value) == Some(JNull) ==>
              Interpret(text, parse) == Err(NullDereference)
    ensures HasBracePair(CleanText(text)) && parse(JsonSlice(CleanText(text)).value).Some?
            && parse(JsonSlice(CleanText(text)).value) != Some(JNull)
            && (Unsplittable(Property(parse(JsonSlice(CleanText(text)).value).value, "keywords"))
                || Unsplittable(Property(parse(JsonSlice(CleanText(text)).value).value, "semantic_tags")))
            ==> Interpret(text, parse).Err?
  {
    var cleaned := CleanText(text);
    JsonSliceExists(cleaned);
    if HasBracePair(cleaned) {
      var parsed := parse(JsonSlice(cleaned).value);
      if parsed.Some? && parsed != Some(JNull) {
        var keywords := Property(parsed.value, "keywords");
        var tags := Property(parsed.value, "semantic_tags");
        assert Unsplittable(keywords) ==> CommaList(keywords).None?;
        assert Unsplittable(tags) ==> CommaList(tags).None?;
      }
    }
  }

  /** Whatever goes wrong, the client returns exactly the fallback record:
      a request that throws, a response without a truthy first text part,
      or a text that fails as `InterpretFailures` lists. */
  lemma FailuresGiveFallback(call: CallResult, parse: string -> Option<Json>)
    ensures call == Threw ==> EnrichFromCall(call, parse) == Fallback
    ensures call.Returned? && CandidateText(call.response).None? ==> EnrichFromCall(call, parse) == Fallback
    ensures call.Returned? && CandidateText(call.response).Some?
            && Interpret(CandidateText(call.response).value, parse).Err?
            ==> EnrichFromCall(call, parse) == Fallback
    ensures EnrichFromCall(call, parse) != Fallback ==> Attempt(call, parse).Ok?
  {
  }

  /** A truthy value that is neither an array nor a string: `split` on it
      throws. */
  predicate Unsplittable(v: Option<Json>) {
    Present(v) && !v.value.JArr? && !v.value.JStr?
  }

  /** A single-candidate, single-part response carrying `text`. */
  function TextResponse(text: string): (r: CallResult)
    ensures r.Returned? && r.response.Some?
    ensures text != "" ==> CandidateText(r.response) == Some(text)
  {
    Returned(Some(Response(Some([Candidate(Some(Content(Some([Part(Some(text))]))))]))))
  }

  /** A response whose only part carries a non-empty text is interpreted
      as that text. */
  lemma AttemptOfText(text: string, parse: string -> Option<Json>)
    requires text != ""
    ensures Attempt(TextResponse(text), parse) == Interpret(text, parse)
    ensures Attempt(TextResponse(text), parse).Ok? ==>
              EnrichFromCall(TextResponse(text), parse) == Interpret(text, parse).value
  {
  }

  /** A parsed answer that carries the fallback's two descriptions and
      nothing else. */
  const FallbackLookalike: Json := JObj(map[
    "description" := JStr("AI enrichment failed."),
    "similar_works_description" := JStr("AI analysis unavailable.")])

  lemma NormalizeFallbackLookalike()
    ensures Normalize(FallbackLookalike) == Ok(Fallback)
  {
    var m := FallbackLookalike.fields;
    assert "mood" !in m && "keywords" !in m && "semantic_tags" !in m;
  }

  /** The JSON text of `FallbackLookalike`, as the model would write it. */
  const LookalikeText: string :=
    "{" + "\"description\":\"AI enrichment failed.\"," + "\"similar_works_description\":\"AI analysis unavailable.\"" + "}"

  /** The result of a successful attempt has the same shape as the
      fallback: when the model itself answers with the fallback's two
      descriptions, the enriched record cannot be told apart from a
      degraded one. */
  lemma DegradedIndistinguishable(parse: string -> Option<Json>)
    requires parse(LookalikeText) == Some(FallbackLookalike)
    ensures Attempt(TextResponse(LookalikeText), parse).Ok?
    ensures EnrichFromCall(TextResponse(LookalikeText), parse) == Fallback
  {
    NormalizeFallbackLookalike();
    InterpretObjectText(LookalikeText, parse);
    AttemptOfText(LookalikeText, parse);
  }

  /** An answer that is an empty object succeeds, with every field `null`
      or empty: it is not the fallback. */
  lemma EmptyObjectAnswer(parse: string -> Option<Json>)
    requires parse("{}") == Some(JObj(map[]))
    ensures Attempt(TextResponse("{}"), parse).Ok?
    ensures EnrichFromCall(TextResponse("{}"), parse) == Enrichment(JNull, [], [], [], JNull)
    ensures EnrichFromCall(TextResponse("{}"), parse) != Fallback
  {
    NormalizeEmptyObject();
    InterpretObjectText("{}", parse);
    AttemptOfText("{}", parse);
  }

  lemma NormalizeEmptyObject()
    ensures Normalize(JObj(map[])) == Ok(Enrichment(JNull, [], [], [], JNull))
  {
    var m: map<string, Json> := map[];
    assert "description" !in m && "mood" !in m && "keywords" !in m;
    assert "semantic_tags" !in m && "similar_works_description" !in m;
  }

  /** A parsed answer whose only normalised fields are a mood string and a
      keywords string. */
  predicate MoodKeywordsAnswer(answer: Json, mood: string, keywords: string) {
    && answer.JObj?
    && Get(answer.fields, "mood") == Some(JStr(mood))
    && Get(answer.fields, "keywords") == Some(JStr(keywords))
    && "description" !in answer.fields
    && "semantic_tags" !in answer.fields
    && "similar_works_description" !in answer.fields
  }

  /** The items of a list, each as a JSON string. */
  function Strings(items: seq<string>): (r: seq<Json>)
    ensures |r| == |items|
    ensures forall i :: 0 <= i < |r| ==> r[i] == JStr(items[i])
  {
    seq(|items|, i requires 0 <= i < |items| => JStr(items[i]))
  }

  /** A mood string stays whole, commas and all, while a keywords string
      written as ", "-separated items comes back as those items; the fields
      the answer lacks are `null` or empty. */
  lemma NormalizeMoodKeywords(answer: Json, mood: string, keywords: seq<string>)
    requires mood != ""
    requires |keywords| >= 1 && CleanPieces(keywords) && keywords[0] != ""
    requires MoodKeywordsAnswer(answer, mood, JsString.Join(keywords, ", "))
    ensures Normalize(answer) == Ok(Enrichment(JNull, [JStr(mood)], Strings(keywords), [], JNull))
  {
    CommaListOfJoined(keywords);
    NormalizeMoodKeywordsText(answer, mood, JsString.Join(keywords, ", "), Strings(keywords));
  }

  /** Normalising a mood-and-keywords answer, given how the keywords text
      is read. */
  lemma NormalizeMoodKeywordsText(answer: Json, mood: string, text: string, items: seq<Json>)
    requires mood != ""
    requires MoodKeywordsAnswer(answer, mood, text)
    requires CommaList(Some(JStr(text))) == Some(items)
    ensures Normalize(answer) == Ok(Enrichment(JNull, [JStr(mood)], items, [], JNull))
  {
    assert Property(answer, "mood") == Some(JStr(mood));
    assert Property(answer, "keywords") == Some(JStr(text));
    assert Property(answer, "semantic_tags") == None;
  }

  /** Keywords written as ", "-separated items are read back as the items. */
  lemma CommaListOfJoined(keywords: seq<string>)
    requires |keywords| >= 1 && CleanPieces(keywords) && keywords[0] != ""
    ensures CommaList(Some(JStr(JsString.Join(keywords, ", ")))) == Some(Strings(keywords))
  {
    JoinNonEmpty(keywords, ", ");
    SplitTrimmedOfJoined(keywords);
    CommaListOfString(JsString.Join(keywords, ", "));
  }

  /** A truthy string is read as its trimmed comma-separated pieces. */
  lemma CommaListOfString(s: string)
    requires s != ""
    ensures CommaList(Some(JStr(s))) == Some(Strings(SplitTrimmed(s)))
  {
  }

  /** A join whose first part is non-empty is non-empty. */
  lemma JoinNonEmpty(parts: seq<string>, sep: string)
    requires |parts| >= 1 && parts[0] != ""
    ensures JsString.Join(parts, sep) != ""
  {
    assert |parts| == 1 || JsString.Join(parts, sep) == parts[0] + sep + JsString.Join(parts[1..], sep);
  }

  /** A fenced JSON answer with a mood string and ", "-separated keywords is
      enriched with the mood as one string and the keywords as a list. */
  lemma FencedAnswerScenario(obj: string, parse: string -> Option<Json>, mood: string, keywords: seq<string>)
    requires |obj| >= 2 && obj[0] == '{' && obj[|obj| - 1] == '}'
    requires mood != ""
    requires |keywords| >= 1 && CleanPieces(keywords) && keywords[0] != ""
    requires parse(obj).Some? && MoodKeywordsAnswer(parse(obj).value, mood, JsString.Join(keywords, ", "))
    ensures EnrichFromCall(TextResponse(FenceOpen + obj + FenceClose), parse)
            == Enrichment(JNull, [JStr(mood)], Strings(keywords), [], JNull)
  {
    NormalizeMoodKeywords(parse(obj).value, mood, keywords);
    InterpretObjectText(obj, parse);
    AttemptOfText(FenceOpen + obj + FenceClose, parse);
  }

  // ---------------------------------------------------------------------
  // The prompt (lines 16-34)
  // ---------------------------------------------------------------------

  /** The fixed text before the work's fields, one template line after
      another (lines 16-19). */
  const PromptIntro: string :=
    "\n"

    + "    You are an expert "
    + "in classical and choral "
    + "music. Your task is to "
    + "provide concise, "
    + "structured metadata for "
    + "a musical work.\n"
    + "\n"

    + "    Given the following "
    + "information about a "
    + "classical music piece:\n"

  /** The fixed text after the work's fields, one template line after
      another (lines 25-34). */
  const PromptOutro: string :=
    "\n"

    + "    Please provide the "
    + "following in JSON "
    + "format:\n"

    + "    1.  "
    + "**description**: A 1-2 "
    + "sentence contextual "
    + "description, including "
    + "style period (e.g., "
    + "Baroque, Romantic), "
    + "typical performance "
    + "context (e.g., sacred, "
    + "secular, opera, "
    + "chamber), and a unique "
    + "characteristic.\n"

    + "    2.  **mood**: A "
    + "single general mood or "
    + "a short list of primary "
    + "moods (e.g., \"Joyful\", "
    + "\"Solemn\", \"Dramatic\", "
    + "\"Meditative\").\n"

    + "    3.  **keywords**: "
    + "5-7 relevant keywords "
    + "(e.g., \"Cantata\", "
    + "\"Oratorio\", \"Symphony\", "
    + "\"Aria\", \"Choral\", "
    + "\"Soloist\", "
    + "\"Orchestral\").\n"

    + "    4.  "
    + "**semantic_tags**: 3-5 "
    + "high-level semantic "
    + "tags related to its "
    + "meaning or common "
    + "themes (e.g., "
    + "\"Resurrection\", \"Love\", "
    + "\"Nature\", \"Devotion\", "
    + "\"Celebration\", "
    + "\"Tragedy\"). If lyrics "
    + "are available later, "
    + "these would be based on "
    + "them. For now, infer "
    + "from "
    + "title/composer/type.\n"

    + "    5.  "
    + "**similar_works_description**: "
    + "A brief description of "
    + "what kind of works it "
    + "is similar to, "
    + "conceptually, if you "
    + "can infer, without "
    + "naming specific pieces "
    + "yet (e.g., \"Similar to "
    + "other contrapuntal "
    + "works of the Baroque "
    + "era\", \"Resembles late "
    + "Romantic orchestral "
    + "pieces\").\n"
    + "\n"

    + "    Ensure the output "
    + "is ONLY the JSON "
    + "object. Do not include "
    + "any other text or "
    + "markdown outside the "
    + "JSON.\n"
    + "    "

  /** One quoted line of the prompt: `    Label: "value"`. */
  function PromptLine(name: string, value: string): string {
    "    " + name + ": \"" + value + "\"\n"
  }

  /** A sufficient condition for the attributes value to be rendered without
      throwing: it is not a non-empty string (which has a length but no
      `join`) and not an object with a `length` key. Only an object whose
      `length` is greater than 0 throws; the others with that key are
      excluded as well. */
  predicate AttributesRenderable(attributes: Option<Json>) {
    attributes.None?
    || (match attributes.value
        case JStr(s) => s == ""
        case JObj(fields) => "length" !in fields
        case _ => true)
  }

  /** `(a && a.length > 0) ? a.join(', ') : 'N/A'`. */
  function AttributesText(attributes: Option<Json>): (r: string)
    requires AttributesRenderable(attributes)
    ensures attributes.Some? && attributes.value.JArr? && |attributes.value.items| > 0 ==>
              r == JsString.Join(seq(|attributes.value.items|, i requires 0 <= i < |attributes.value.items|
                                       => ElementText(attributes.value.items[i])), ", ")
    ensures !(attributes.Some? && attributes.value.JArr? && |attributes.value.items| > 0) ==> r == "N/A"
  {
    if attributes.Some? && attributes.value.JArr? && |attributes.value.items| > 0 then
      var items := attributes.value.items;
      JsString.Join(seq(|items|, i requires 0 <= i < |items| => ElementText(items[i])), ", ")
    else "N/A"
  }

  /** `${value || 'N/A'}`. */
  function OrNotAvailable(v: Option<Json>): (r: string)
    ensures !Present(v) ==> r == "N/A"
    ensures Present(v) ==> r == Display(v.value)
  {
    if Present(v) then Display(v.value) else "N/A"
  }

  /** `    Title: "${work.title}"`: a missing title reads "undefined". */
  function TitleLine(work: Record): string {
    PromptLine("Title", DisplayProperty(Get(work, "title")))
  }

  /** `    Composer: "${work.composer}"`. */
  function ComposerLine(work: Record): string {
    PromptLine("Composer", DisplayProperty(Get(work, "composer")))
  }

  /** `    Type: "${work.type || 'N/A'}"`. */
  function TypeLine(work: Record): string {
    PromptLine("Type", OrNotAvailable(Get(work, "type")))
  }

  /** `    Attributes: "..."`, the attributes joined with ", " or "N/A". */
  function AttributesLine(work: Record): string
    requires AttributesRenderable(Get(work, "attributes"))
  {
    PromptLine("Attributes", AttributesText(Get(work, "attributes")))
  }

  /** `    Language: "${work.language || 'N/A'}"`. */
  function LanguageLine(work: Record): string {
    PromptLine("Language", OrNotAvailable(Get(work, "language")))
  }

  /** The prompt for one work: the fixed introduction, the five quoted
      lines about the work, the fixed request for the five JSON fields. */
  function Prompt(work: Record): string
    requires AttributesRenderable(Get(work, "attributes"))
  {
    PromptIntro + TitleLine(work) + ComposerLine(work) + TypeLine(work)
    + AttributesLine(work) + LanguageLine(work) + PromptOutro
  }

  /** The prompt opens with the introduction and the five lines, title,
      composer, type, attributes and language, one after the other, and
      closes with the language line and the request. */
  lemma PromptLayout(work: Record)
    requires AttributesRenderable(Get(work, "attributes"))
    ensures StartsWith(Prompt(work), PromptIntro + TitleLine(work) + ComposerLine(work) + TypeLine(work)
                                     + AttributesLine(work) + LanguageLine(work))
    ensures EndsWith(Prompt(work), LanguageLine(work) + PromptOutro)
  {
    var opening := PromptIntro + TitleLine(work) + ComposerLine(work) + TypeLine(work) + AttributesLine(work);
    ConcatEnds(opening + LanguageLine(work), PromptOutro);
    EndsWithLastTwo(opening, LanguageLine(work), PromptOutro);
  }

  /** A concatenation of three ends with its last two parts. */
  lemma EndsWithLastTwo(h: string, l: string, o: string)
    ensures EndsWith(h + l + o, l + o)
  {
    assert (h + l + o)[|h|..] == l + o;
  }

  /** A prefix of a prefix is a prefix. */
  lemma StartsWithHead(s: string, p: string, q: string)
    requires StartsWith(s, p + q)
    ensures StartsWith(s, p)
  {
    assert s[..|p|] == (p + q)[..|p|];
  }

  /** A string title appears verbatim on the line after the introduction. */
  lemma PromptTitleVerbatim(work: Record, title: string)
    requires AttributesRenderable(Get(work, "attributes"))
    requires Get(work, "title") == Some(JStr(title))
    ensures StartsWith(Prompt(work), PromptIntro + PromptLine("Title", title))
  {
    var p, t, c := Prompt(work), TitleLine(work), ComposerLine(work);
    PromptLayout(work);
    StartsWithHead(p, PromptIntro + t + c + TypeLine(work) + AttributesLine(work), LanguageLine(work));
    StartsWithHead(p, PromptIntro + t + c + TypeLine(work), AttributesLine(work));
    StartsWithHead(p, PromptIntro + t + c, TypeLine(work));
    StartsWithHead(p, PromptIntro + t, c);
  }

  /** A string composer appears verbatim on the line after the title. */
  lemma PromptComposerVerbatim(work: Record, composer: string)
    requires AttributesRenderable(Get(work, "attributes"))
    requires Get(work, "composer") == Some(JStr(composer))
    ensures StartsWith(Prompt(work), PromptIntro + TitleLine(work) + PromptLine("Composer", composer))
  {
    var p, t, c := Prompt(work), TitleLine(work), ComposerLine(work);
    PromptLayout(work);
    StartsWithHead(p, PromptIntro + t + c + TypeLine(work) + AttributesLine(work), LanguageLine(work));
    StartsWithHead(p, PromptIntro + t + c + TypeLine(work), AttributesLine(work));
    StartsWithHead(p, PromptIntro + t + c, TypeLine(work));
  }

  /** A prefix whose last part is spelled differently. */
  lemma StartsWithReplaced(s: string, p: string, x: string, y: string)
    requires StartsWith(s, p + x) && x == y
    ensures StartsWith(s, p + y)
  {
  }

  /** A work without a truthy type is asked about with type "N/A", on the
      line after the composer. */
  lemma PromptWithoutType(work: Record)
    requires AttributesRenderable(Get(work, "attributes"))
    requires !Present(Get(work, "type"))
    ensures StartsWith(Prompt(work), PromptIntro + TitleLine(work) + ComposerLine(work) + PromptLine("Type", "N/A"))
  {
    PromptTypeLine(work);
    StartsWithReplaced(Prompt(work), PromptIntro + TitleLine(work) + ComposerLine(work), TypeLine(work), PromptLine("Type", "N/A"));
  }

  /** A non-empty string type appears verbatim on the line after the
      composer. */
  lemma PromptTypeVerbatim(work: Record, kind: string)
    requires AttributesRenderable(Get(work, "attributes"))
    requires kind != "" && Get(work, "type") == Some(JStr(kind))
    ensures StartsWith(Prompt(work), PromptIntro + TitleLine(work) + ComposerLine(work) + PromptLine("Type", kind))
  {
    TypeLineOf(work, kind);
    PromptTypeLine(work);
    StartsWithReplaced(Prompt(work), PromptIntro + TitleLine(work) + ComposerLine(work), TypeLine(work), PromptLine("Type", kind));
  }

  /** A non-empty string type is written as it is. */
  lemma TypeLineOf(work: Record, kind: string)
    requires kind != "" && Get(work, "type") == Some(JStr(kind))
    ensures TypeLine(work) == PromptLine("Type", kind)
  {
  }

  /** A non-empty list of string attributes is written joined with ", ". */
  lemma AttributesLineOf(work: Record, names: seq<string>)
    requires |names| > 0 && Get(work, "attributes") == Some(JArr(Strings(names)))
    ensures AttributesRenderable(Get(work, "attributes"))
    ensures AttributesLine(work) == PromptLine("Attributes", JsString.Join(names, ", "))
  {
    var items := Strings(names);
    assert seq(|items|, i requires 0 <= i < |items| => ElementText(items[i])) == names;
  }

  /** Missing, falsy or empty attributes are written as "N/A". */
  lemma NoAttributesLine(work: Record)
    requires AttributesRenderable(Get(work, "attributes"))
    requires !Present(Get(work, "attributes")) || Get(work, "attributes") == Some(JArr([]))
    ensures AttributesLine(work) == PromptLine("Attributes", "N/A")
  {
  }

  /** The type line comes right after the composer line. */
  lemma PromptTypeLine(work: Record)
    requires AttributesRenderable(Get(work, "attributes"))
    ensures StartsWith(Prompt(work), PromptIntro + TitleLine(work) + ComposerLine(work) + TypeLine(work))
  {
    var p, t, c := Prompt(work), TitleLine(work), ComposerLine(work);
    PromptLayout(work);
    StartsWithHead(p, PromptIntro + t + c + TypeLine(work) + AttributesLine(work), LanguageLine(work));
    StartsWithHead(p, PromptIntro + t + c + TypeLine(work), AttributesLine(work));
  }

  /** The attributes line comes right after the type line. */
  lemma PromptAttributesLine(work: Record)
    requires AttributesRenderable(Get(work, "attributes"))
    ensures StartsWith(Prompt(work), PromptIntro + TitleLine(work) + ComposerLine(work) + TypeLine(work) + AttributesLine(work))
  {
    PromptLayout(work);
    StartsWithHead(Prompt(work), PromptIntro + TitleLine(work) + ComposerLine(work) + TypeLine(work)
                                 + AttributesLine(work), LanguageLine(work));
  }

  /** A non-empty list of string attributes is written joined with ", " on
      the line after the type. */
  lemma PromptAttributesJoined(work: Record, names: seq<string>)
    requires |names| > 0 && Get(work, "attributes") == Some(JArr(Strings(names)))
    ensures AttributesRenderable(Get(work, "attributes"))
    ensures StartsWith(Prompt(work), PromptIntro + TitleLine(work) + ComposerLine(work) + TypeLine(work)
                                     + PromptLine("Attributes", JsString.Join(names, ", ")))
  {
    AttributesLineOf(work, names);
    PromptAttributesLine(work);
    StartsWithReplaced(Prompt(work), PromptIntro + TitleLine(work) + ComposerLine(work) + TypeLine(work),
                       AttributesLine(work), PromptLine("Attributes", JsString.Join(names, ", ")));
  }

  /** Attributes that are missing, falsy or an empty list are written as
      "N/A" on the line after the type. */
  lemma PromptWithoutAttributes(work: Record)
    requires AttributesRenderable(Get(work, "attributes"))
    requires !Present(Get(work, "attributes")) || Get(work, "attributes") == Some(JArr([]))
    ensures StartsWith(Prompt(work), PromptIntro + TitleLine(work) + ComposerLine(work) + TypeLine(work)
                                     + PromptLine("Attributes", "N/A"))
  {
    NoAttributesLine(work);
    PromptAttributesLine(work);
    StartsWithReplaced(Prompt(work), PromptIntro + TitleLine(work) + ComposerLine(work) + TypeLine(work),
                       AttributesLine(work), PromptLine("Attributes", "N/A"));
  }

  /** A work without a truthy language is asked about with language "N/A",
      on the line before the fixed request. */
  lemma PromptWithoutLanguage(work: Record)
    requires AttributesRenderable(Get(work, "attributes"))
    requires !Present(Get(work, "language"))
    ensures EndsWith(Prompt(work), PromptLine("Language", "N/A") + PromptOutro)
  {
    PromptLayout(work);
  }

  /** `getGeminiEnrichment(work)`: the model is asked with the work's
      prompt, and its answer is turned into the five fields or the
      fallback. `generate` stands for the awaited `generateContent` call. */
  function GetGeminiEnrichment(work: Record, generate: string -> CallResult, parse: string -> Option<Json>): (r: Enrichment)
    requires AttributesRenderable(Get(work, "attributes"))
    ensures Attempt(generate(Prompt(work)), parse).Err? ==> r == Fallback
    ensures Attempt(generate(Prompt(work)), parse).Ok? ==> r == Attempt(generate(Prompt(work)), parse).value
  {
    EnrichFromCall(generate(Prompt(work)), parse)
  }

  /** A request that throws gives the fallback. */
  lemma UnreachableGivesFallback(work: Record, generate: string -> CallResult, parse: string -> Option<Json>)
    requires AttributesRenderable(Get(work, "attributes"))
    requires generate(Prompt(work)) == Threw
    ensures GetGeminiEnrichment(work, generate, parse) == Fallback
  {
  }
}
