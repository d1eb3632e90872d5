# classical-music-ai-enrichment, modelled in Dafny

The repository is a small Node.js pipeline. It has two stages.

- **Ingestion** (`ingestMusicData.js`). It checks the MusicBrainz user agent and splits it into the client's identity. It then looks up a composer's works and turns each work into a flat record with an `objectID`.
- **Enrichment** (`enrichmentService.js`). For every record it asks a generative model for metadata and reads back five fields. It merges them into the record as `ai_description`, `ai_mood`, `ai_keywords`, `ai_semantic_tags` and `ai_similar_works_description`.

This project models the logic of both stages and proves properties of it.

- Enrichment: prompt building, the response-shape check, fence stripping, JSON slicing, field normalisation, the fallback record and the batch loop.
- Ingestion: user-agent parsing, composer selection, the limit and the work-to-record mapping.

The modules follow the source:

| file | module | what |
|---|---|---|
| `js_string.dfy` | `JsString` | `trim`, `indexOf`, `lastIndexOf`, `substring`, `split`, `join`, number-to-string, with ECMAScript semantics |
| `json.dfy` | `Wrappers`, `JsonValue` | `Option`/`Result`; the JSON value `JSON.parse` yields, truthiness, property reads, `String(v)` |
| `extraction.dfy` | `Extraction` | the model response, the candidate text, fence stripping and trimming, the `{`…`}` slice |
| `enrichment.dfy` | `EnrichmentService` | normalisation, the attempt and its fallback, the prompt, `getGeminiEnrichment` |
| `batch.dfy` | `Batch` | the merge and `processMusicData`, an imperative loop proved against `EnrichAll` |
| `ingest.dfy` | `Ingest` | the user agent, `find`, `slice` and `map` in `fetchComposerWorks` |
| `pipeline.dfy` | `Pipeline` | how the records ingestion writes feed the batch step |

Some things the code does not do itself are parameters of the model:

- the generative-model request (`generate: string -> CallResult`);
- `JSON.parse` (`parse: string -> Option<Json>`, where `None` means it throws);
- the MusicBrainz search result (`artists`) and lookup (`lookup`);
- the clock (`now`);
- the loaded input file (`loaded`).

Points of the code's behaviour that are easy to miss:

- `mood` is never split on commas, unlike `keywords` and `semantic_tags`. A truthy non-array mood becomes a one-element list.
- The two fence markers are removed independently of each other. Either one alone is removed.
- A failed enrichment is not marked as degraded. It has the same shape as a successful one, and a model answer can reproduce it exactly (`DegradedIndistinguishable`).
- The JSON slice runs from the first `{` to the last `}`, wherever they are, even around prose.

## Model

| member | source | states |
|---|---|---|
| JsString.IsWhitespace | enrichmentService.js:62 | the characters `trim` removes: the ECMAScript white-space and line-terminator characters |
| JsString.Trim | enrichmentService.js:62 | the trim is the infix left after the longest whitespace prefix and suffix are removed; what is removed is whitespace; the result has none at either end |
| JsString.TrimOfTrimmed | enrichmentService.js:62 | a string with no whitespace at either end is its own trim |
| JsString.TrimIdempotent | enrichmentService.js:62 | trimming twice is trimming once |
| JsString.TrimAddsNothing | enrichmentService.js:81-82 | a character absent from a string is absent from its trim |
| JsString.IndexOf | enrichmentService.js:64 | `indexOf('{')` is -1 exactly when there is no `{`; otherwise it is the position of the first one |
| JsString.LastIndexOf | enrichmentService.js:65 | `lastIndexOf('}')` is -1 exactly when there is no `}`; otherwise it is the position of the last one |
| JsString.Substring | ingestMusicData.js:15 | arguments are clamped into the string; in order they give that slice, reversed they are swapped; the length is the distance between the clamped arguments |
| JsString.Split | enrichmentService.js:81-82 | `split` gives at least one piece and no piece contains the separator |
| JsString.JoinSplit | enrichmentService.js:81-82 | joining the pieces of a split with the separator gives the string back |
| JsString.SplitJoin | enrichmentService.js:81-82 | splitting a join of separator-free pieces gives the pieces back |
| JsString.SplitCount | enrichmentService.js:81-82 | a split has one more piece than the string has separators, so empty pieces are kept |
| JsString.Join | enrichmentService.js:23 | `join`: the pieces with the separator between consecutive ones, "" for no pieces; `JoinSplit` and `SplitJoin` show it inverts `split` |
| JsString.SplitNoSeparator | ingestMusicData.js:13-14 | a string without the separator splits into itself |
| JsString.SplitPrefix | ingestMusicData.js:13-14 | a separator-free head before the first separator is the first piece, followed by the pieces of the rest |
| JsString.NatToString | ingestMusicData.js:54 | `String(n)` for a natural number: a non-empty digit string without leading zeros whose decimal value (`DigitsValue`) is n |
| JsString.IntToString | enrichmentService.js:20-24 | a number in a template literal: a non-negative one is its digits, whose value is the number; a negative one is a minus sign followed by the digits of its magnitude |
| JsonValue.Truthy | enrichmentService.js:79-83 | JavaScript truthiness: `null`, `false`, `0` and `""` are falsy; every array and object is truthy |
| JsonValue.Present | ingestMusicData.js:54-59 | truthiness of a property read, where a missing property is `undefined` and falsy |
| JsonValue.Get | ingestMusicData.js:30 | a property read gives a value exactly when the key is present, and then the stored value |
| JsonValue.Property | enrichmentService.js:79-83 | a property of a parsed object is its field; any other non-null value has none of the read properties |
| JsonValue.Display | enrichmentService.js:20-24 | a string is interpolated as itself |
| JsonValue.ElementText | enrichmentService.js:23 | `join` writes a `null` element as the empty string |
| JsonValue.DisplayProperty | enrichmentService.js:20-21 | a missing title or composer is interpolated as "undefined" |
| Extraction.CandidateText | enrichmentService.js:46-56 | a missing result, or missing or empty candidates, gives no text; any text found is the truthy first part of the first candidate's content; and a response of that shape whose first part has non-empty text gives exactly that text |
| Extraction.StripFences | enrichmentService.js:62 | a leading "```json\n" is removed when present; then a trailing "\n```" is removed when the rest ends with it; the result is the infix in between |
| Extraction.StripFencesOfWrapped | enrichmentService.js:62 | a body in a fenced block comes back exactly |
| Extraction.StripFencesOpenOnly | enrichmentService.js:62 | an opening marker alone is removed |
| Extraction.StripFencesCloseOnly | enrichmentService.js:62 | a closing marker alone is removed |
| Extraction.StripFencesUnfenced | enrichmentService.js:62 | text with neither marker is unchanged |
| Extraction.StripFencesOverlap | enrichmentService.js:62 | a closing marker that overlaps the removed opening one stays |
| Extraction.BracedUnfenced | enrichmentService.js:62 | text from `{` to `}` carries no fence marker |
| Extraction.CleanText | enrichmentService.js:62 | the cleaned text is the trim of the fence-stripped text and has no whitespace at either end |
| Extraction.CleanBraced | enrichmentService.js:62 | a `{`…`}` text is cleaned to itself, bare or fenced |
| Extraction.JsonSlice | enrichmentService.js:64-72 | the slice exists only when the first `{` precedes the last `}`; it then runs from the first `{` to the last `}` inclusive |
| Extraction.JsonSliceExists | enrichmentService.js:64-72 | a slice exists exactly when some `{` comes before some `}` |
| Extraction.NoBracesNoSlice | enrichmentService.js:64-72 | without a `{` or without a `}` there is no slice |
| Extraction.JsonSliceDropsProse | enrichmentService.js:64-72 | prose without braces around an object text is cut away |
| Extraction.JsonSliceOfBraced | enrichmentService.js:64-72 | a `{`…`}` text is its own slice |
| EnrichmentService.Fallback | enrichmentService.js:88-94 | the fallback record: the two fixed failure descriptions and three empty lists |
| EnrichmentService.DescriptionValue | enrichmentService.js:79-83 | `value \|\| null`: a truthy value is kept, anything else is `null` |
| EnrichmentService.MoodList | enrichmentService.js:80 | an array passes through; any other truthy value becomes a one-element list and is never split; a falsy or missing value gives `[]` |
| EnrichmentService.SplitTrimmed | enrichmentService.js:81-82 | one piece per comma plus one, each the trim of the matching split piece, none containing a comma |
| EnrichmentService.CommaList | enrichmentService.js:81-82 | an array passes through; a truthy string is split on commas and trimmed; falsy gives `[]`; it throws exactly on a truthy non-array non-string |
| EnrichmentService.Normalize | enrichmentService.js:77-84 | parsed `null` fails; otherwise it succeeds exactly when keywords and semantic tags can be listed; the five fields are the per-field normalisations |
| EnrichmentService.SplitTrimmedOfJoined | enrichmentService.js:81-82 | items without commas or edge whitespace, written with ", ", are read back as exactly those items |
| EnrichmentService.ParseFields | enrichmentService.js:74 | a slice `JSON.parse` rejects fails as invalid JSON; otherwise the parsed value is normalised |
| EnrichmentService.Interpret | enrichmentService.js:62-74 | no slice in the cleaned text fails with that text; otherwise the slice is parsed and normalised |
| EnrichmentService.InterpretObjectText | enrichmentService.js:62-74 | an object text, bare or fenced, reaches `JSON.parse` unchanged |
| EnrichmentService.Attempt | enrichmentService.js:38-84 | a thrown request fails; a response without a valid text candidate fails; otherwise the text is interpreted |
| EnrichmentService.EnrichFromCall | enrichmentService.js:85-94 | a failed attempt gives exactly the fallback; a successful one gives its fields |
| EnrichmentService.InterpretFailures | enrichmentService.js:64-82 | no `{` before `}`, a slice that is not JSON, JSON `null`, or unsplittable keywords or tags each make the attempt fail |
| EnrichmentService.FailuresGiveFallback | enrichmentService.js:46-94 | every failure cause gives the fallback, and anything other than the fallback comes from a successful attempt |
| EnrichmentService.TextResponse | enrichmentService.js:46-58 | a one-candidate, one-part response yields its non-empty text |
| EnrichmentService.AttemptOfText | enrichmentService.js:58-84 | such a response is interpreted as its text |
| EnrichmentService.NormalizeFallbackLookalike | enrichmentService.js:77-94 | an answer holding only the fallback's two descriptions normalises to the fallback |
| EnrichmentService.DegradedIndistinguishable | enrichmentService.js:77-94 | when the model answers with the JSON text of the fallback's two descriptions, the attempt succeeds and yields exactly the fallback record, so the output does not tell a degraded record from a real one |
| EnrichmentService.NormalizeEmptyObject | enrichmentService.js:77-84 | an empty object normalises to `null` descriptions and empty lists |
| EnrichmentService.EmptyObjectAnswer | enrichmentService.js:58-94 | an answer `{}` succeeds with `null` descriptions and empty lists, which is not the fallback |
| EnrichmentService.NormalizeMoodKeywords | enrichmentService.js:77-84 | a mood string stays one item, ", "-separated keywords become the items, and absent fields become `null` or `[]` |
| EnrichmentService.NormalizeMoodKeywordsText | enrichmentService.js:77-84 | the same, given how the keywords text is read |
| EnrichmentService.CommaListOfJoined | enrichmentService.js:81-82 | keywords written with ", " are read back as the keyword strings |
| EnrichmentService.CommaListOfString | enrichmentService.js:81-82 | a truthy string is read as its trimmed comma pieces |
| EnrichmentService.FencedAnswerScenario | enrichmentService.js:58-84 | a fenced answer with a mood and ", "-separated keywords is enriched with that mood and those keywords |
| EnrichmentService.AttributesRenderable | enrichmentService.js:23 | a sufficient condition for the attributes expression not to throw: the value is not a non-empty string and not an object with a `length` key |
| EnrichmentService.AttributesText | enrichmentService.js:23 | a non-empty array is joined with ", "; anything else gives "N/A" |
| EnrichmentService.OrNotAvailable | enrichmentService.js:22-24 | `${v \|\| 'N/A'}`: a truthy value is displayed, anything else is "N/A" |
| EnrichmentService.PromptLine | enrichmentService.js:20-24 | one template line: four spaces, the label, a colon and the value in double quotes, then a line break |
| EnrichmentService.TitleLine | enrichmentService.js:20 | the title line, with a missing title written "undefined" |
| EnrichmentService.ComposerLine | enrichmentService.js:21 | the composer line, with a missing composer written "undefined" |
| EnrichmentService.TypeLine | enrichmentService.js:22 | the type line, "N/A" for a falsy or missing type |
| EnrichmentService.AttributesLine | enrichmentService.js:23 | the attributes line, joined with ", " or "N/A" |
| EnrichmentService.LanguageLine | enrichmentService.js:24 | the language line, "N/A" for a falsy or missing language |
| EnrichmentService.Prompt | enrichmentService.js:16-34 | the introduction, the title, composer, type, attributes and language lines, then the request for the five fields; `PromptLayout` and the line lemmas state it |
| EnrichmentService.PromptLayout | enrichmentService.js:16-34 | the prompt opens with the introduction and the five lines in the template's order, and closes with the language line and the request |
| EnrichmentService.PromptTitleVerbatim | enrichmentService.js:20 | a string title appears verbatim on the line right after the introduction |
| EnrichmentService.PromptComposerVerbatim | enrichmentService.js:21 | a string composer appears verbatim on the line right after the title |
| EnrichmentService.PromptTypeLine | enrichmentService.js:22 | the type line comes right after the composer line |
| EnrichmentService.TypeLineOf | enrichmentService.js:22 | a non-empty string type is written as it is |
| EnrichmentService.PromptTypeVerbatim | enrichmentService.js:22 | a non-empty string type appears verbatim on the line right after the composer |
| EnrichmentService.PromptWithoutType | enrichmentService.js:22 | a work without a truthy type is sent with type "N/A", right after the composer |
| EnrichmentService.PromptAttributesLine | enrichmentService.js:23 | the attributes line comes right after the type line |
| EnrichmentService.AttributesLineOf | enrichmentService.js:23 | a non-empty list of string attributes is written joined with ", " |
| EnrichmentService.NoAttributesLine | enrichmentService.js:23 | missing, falsy or empty attributes are written as "N/A" |
| EnrichmentService.PromptAttributesJoined | enrichmentService.js:23 | a non-empty list of string attributes appears joined with ", " on the line right after the type |
| EnrichmentService.PromptWithoutAttributes | enrichmentService.js:23 | missing, falsy or empty attributes appear as "N/A" on the line right after the type |
| EnrichmentService.PromptWithoutLanguage | enrichmentService.js:24-34 | a work without a truthy language is sent with language "N/A", on the line right before the request |
| EnrichmentService.GetGeminiEnrichment | enrichmentService.js:15-95 | the model is asked with the work's prompt; a failed attempt gives the fallback and a successful one its fields |
| EnrichmentService.UnreachableGivesFallback | enrichmentService.js:40-94 | a request that throws gives the fallback |
| Batch.AiFields | enrichmentService.js:116-123 | the enrichment is exactly the five `ai_` properties |
| Batch.Merge | enrichmentService.js:116-123 | the merged record has the work's keys plus the five `ai_` keys; every other key keeps the work's value; the `ai_` keys hold the enrichment |
| Batch.MergeThenDrop | enrichmentService.js:116-123 | dropping the `ai_` keys after the merge gives the work without its own `ai_` keys |
| Batch.MergeIdempotent | enrichmentService.js:116-123 | merging the same enrichment twice is merging it once |
| Batch.Enricher | enrichmentService.js:114 | `getGeminiEnrichment` as a value applies to every work whose prompt can be rendered |
| Batch.EnrichAll | enrichmentService.js:111-131 | the loop's result: record i merged with its enrichment, for every i, in order; `ProcessMusicData` is proved equal to it |
| Batch.EnrichAllKeepsWorks | enrichmentService.js:111-127 | the output has as many records as the input, and record i is input i with the `ai_` keys added and every other property unchanged |
| Batch.EnrichAllAppend | enrichmentService.js:111-127 | enriching a concatenation is enriching each part, so records are handled independently and in order |
| Batch.EnrichAllStep | enrichmentService.js:111-127 | enriching one more record appends its merged record |
| Batch.EnrichAllUnreachable | enrichmentService.js:111-127 | when every request throws, every record is merged with the fallback |
| Batch.ProcessMusicData | enrichmentService.js:99-135 | a load failure gives `[]`; otherwise the loop returns `EnrichAll` of the loaded records, one merged record per record, in order |
| Ingest.UserAgentRejected | ingestMusicData.js:7 | the start-up check: the program stops when the user agent is unset, empty or the placeholder; `Configure` states the consequence |
| Ingest.ContactToken | ingestMusicData.js:13 | the second space-separated token, or "" when there is none |
| Ingest.ContactOf | ingestMusicData.js:15 | an empty or missing token gives the default contact; a longer one loses its first and last characters; a one-character one comes back whole |
| Ingest.ParseUserAgent | ingestMusicData.js:13-19 | name and version are never empty: a missing or empty part takes its default; the lemmas below pin each case |
| Ingest.Configure | ingestMusicData.js:7-19 | the client is configured exactly when the user agent is set, non-empty and not the placeholder |
| Ingest.ParseUserAgentRoundTrip | ingestMusicData.js:13-19 | parsing `name/version (contact)` gives back that identity when the parts carry no separators |
| Ingest.ConfigureAccepts | ingestMusicData.js:7-19 | a well-formed user agent other than the placeholder configures exactly the identity it spells out |
| Ingest.PlaceholderParses | ingestMusicData.js:7-15 | the placeholder would parse into a usable identity; only the explicit comparison rejects it |
| Ingest.ExtraTokensIgnored | ingestMusicData.js:13 | tokens after the second are ignored |
| Ingest.NoContactToken | ingestMusicData.js:15 | without a second token, or with an empty one, the contact is the default address |
| Ingest.ContactTokenEnds | ingestMusicData.js:15 | the contact token loses its first and last characters; one character comes back whole and two give "" |
| Ingest.EmptyNameAndVersion | ingestMusicData.js:14-19 | an empty name and version take the defaults 'my-app' and '1.0.0' |
| Ingest.TwoTokens | ingestMusicData.js:13 | a user agent of two space-free tokens splits into exactly those two |
| Ingest.VersionWithoutSlash | ingestMusicData.js:14-18 | a first token without a slash is the name, and the version is the default '1.0.0' |
| Ingest.ThirdSlashPartIgnored | ingestMusicData.js:14-18 | only the first two slash-separated parts are read; a third part is ignored |
| Ingest.EmptyName | ingestMusicData.js:14-18 | an empty name before the slash takes the default 'my-app' and the version is kept |
| Ingest.EmptyVersion | ingestMusicData.js:14-18 | an empty version after the slash takes the default '1.0.0' and the name is kept |
| Ingest.IsComposerMatch | ingestMusicData.js:30 | the `find` predicate: the name is strictly equal to the query and the type is 'Person'; `FindComposer` states what it selects |
| Ingest.FindComposer | ingestMusicData.js:30 | the first artist whose name is the query and whose type is 'Person'; none exactly when no artist matches |
| Ingest.SelectWorks | ingestMusicData.js:45 | with a positive limit, the first min(limit, n) works; otherwise all of them; always a prefix |
| Ingest.SelectWorksIdempotent | ingestMusicData.js:45 | applying the same limit twice keeps the same works |
| Ingest.SelectWorksAll | ingestMusicData.js:45 | a limit of at least the number of works keeps them all |
| Ingest.ObjectId | ingestMusicData.js:54 | "music_" and the id when the id is truthy; otherwise "music_", the clock reading, "_" and the index |
| Ingest.Copy | ingestMusicData.js:55-60 | a copied property holds the value read, and is absent when the read is `undefined` |
| Ingest.OrEmptyList | ingestMusicData.js:58-59 | `value \|\| []` |
| Ingest.WorkFields | ingestMusicData.js:55-60 | `mbid` is the work's id; `title`, `type` and `language` are copied |
| Ingest.ComposerFields | ingestMusicData.js:61-62 | `composer` and `composer_mbid` are the chosen artist's name and id |
| Ingest.GeneratedFields | ingestMusicData.js:54-65 | the object id, the two lists defaulting to `[]`, and the three `null` placeholders |
| Ingest.FormatWorkFields | ingestMusicData.js:53-66 | every record has the object id, `iswcs` and `attributes` defaulting to `[]`, and `null` lyrics, score and audio URLs |
| Ingest.FormatWorkCopies | ingestMusicData.js:53-66 | the copied properties of the record carry the work's and the artist's values |
| Ingest.FetchComposerWorks | ingestMusicData.js:25-75 | a failed search, a missing composer, or a lookup that throws or lists no works gives `[]`; there are never more records than a positive limit |
| Ingest.FormatWork | ingestMusicData.js:53-66 | the map callback: the work's, the artist's and the generated properties; `FormatWorkFields` and `FormatWorkCopies` state each value |
| Ingest.FormatWorks | ingestMusicData.js:53-66 | `map` over the selected works: one record per work, with its index; `FetchedRecords` states it |
| Ingest.FetchedRecords | ingestMusicData.js:45-66 | once the composer is found, there is one record per selected work, in order |
| Ingest.FetchedWithDefaultLimit | ingestMusicData.js:25-45 | with the default limit of 10, the number of records is min(10, n) once the composer and its works are found |
| Ingest.FetchedComposerName | ingestMusicData.js:30-66 | every fetched record names the composer that was asked for |
| Ingest.ObjectIdsOfDistinctIds | ingestMusicData.js:54 | works with different string ids get different object ids |
| Ingest.ObjectIdsOfPositions | ingestMusicData.js:54 | two id-less works at different positions get different object ids, whatever the clock says |
| Ingest.NatToStringInjective | ingestMusicData.js:54 | different indices are spelled differently |
| Pipeline.FormattedRenderable | ingestMusicData.js:59 | a formatted record's attributes can be rendered into a prompt when the work's could |
| Pipeline.FormattedAllRenderable | ingestMusicData.js:53-66 | the same for every record of the mapping |
| Pipeline.FetchedRenderable | ingestMusicData.js:25-75 | when the listed works have renderable attributes, every fetched record can be enriched |
| Pipeline.EnrichedKeepsIdentity | enrichmentService.js:116-123 | enrichment leaves each record's object id and composer as ingestion set them |

## Left out

- indexAlgoliaMusic.js is not part of this model. It is a sequence of Algolia SDK calls.
- The network calls are parameters:
  - `generateContent` is a function from the prompt to the awaited outcome.
  - The MusicBrainz search is its artist list.
  - The MusicBrainz lookup is a function from the artist id to the work list.
- Safety-rating debug output is not modelled. It is logging only.
- dotenv, the `process.exit` calls, console logging, the 500 ms pause between records and file reading and writing are not modelled.
  - The start-up checks are modelled as `Configure`, where `None` means the program stops.
  - Reading and parsing the input file is `loaded`, where `None` means it failed.
- `JSON.parse` is an abstract partial function. The JSON grammar and `JSON.stringify` are not modelled, and numbers are integers.
- Key order in records is not modelled. Records are maps.
- Strings are sequences of characters, without UTF-16 details.
- `Date.now()` is a parameter: `now(i)` is the clock reading while work `i` is mapped.
- A property read as `undefined` is an absent key. The records are saved with `JSON.stringify`, which drops such keys.
- Artists, works and input records are modelled as objects, and the loaded input file as a list of them. These outcomes of other values are not modelled:
  - a `null` artist or work makes `find` or `map` throw inside the `try` of `fetchComposerWorks`, which then returns `[]`;
  - an input file holding `null` fails when its length is logged, inside the `try` of `processMusicData`, which then returns `[]`;
  - an input file holding a string is walked character by character by `for...of`, and each character is enriched as a work;
  - a `null` record in the loaded list makes the prompt throw at its first property read, outside any `try`, so the whole `processMusicData` call fails;
  - a number or boolean record is enriched with every property read as `undefined`, and spreads as `{}`, so its result holds only the five `ai_` keys.
- The prompt throws, outside any `try`, on attributes whose `length` compares greater than 0 but which have no `join`: a non-empty string, or an object whose `length` property compares greater than 0. The whole `processMusicData` call then fails. `AttributesRenderable` is a precondition that excludes every non-empty string and every object with a `length` key. That is more than the throwing cases: an object whose `length` does not compare greater than 0, such as 0, `null` or "x", is written as "N/A" by the source, but the model does not admit it.
- `limit` is an integer. Its default of 10 is `DefaultLimit`. Fractional limits are not modelled.
- `main` is not modelled. It calls the fetch with fixed arguments and writes the file.
- `generateContent` is modelled as deterministic, although the real service samples its answers. This restricts the model:
  - two works with the same prompt always get the same enrichment;
  - a transient failure that hits only one of two such works cannot be expressed;
  - `Batch.EnrichAllAppend` ("records are handled independently") relies on this.
- Batch.Enricher: states only the direction its callers need, that every renderable work is accepted. The converse holds by construction but is not stated.

