/** The batch step, `processMusicData` in enrichmentService.js: load the
    work records, enrich each one in order, and merge the five `ai_` fields
    into a copy of the record. */
module Batch {
  import opened Wrappers
  import opened JsonValue
  import opened Extraction
  import opened EnrichmentService

  /** The five keys the merge sets. */
  const AiKeys: set<string> := {"ai_description", "ai_mood", "ai_keywords", "ai_semantic_tags", "ai_similar_works_description"}

  /** The enrichment as the five `ai_` properties of a record; the lists
      become JSON arrays. */
  function AiFields(e: Enrichment): (r: Record)
    ensures r.Keys == AiKeys
  {
    map[
      "ai_description" := e.description,
      "ai_mood" := JArr(e.mood),
      "ai_keywords" := JArr(e.keywords),
      "ai_semantic_tags" := JArr(e.semanticTags),
      "ai_similar_works_description" := e.similarWorksDescription]
  }

  /** `{...work, ai_description: …, …}`: every property of the work is
      copied, then the five `ai_` keys are set, replacing any the work
      already had. */
  function Merge(work: Record, e: Enrichment): (r: Record)
    ensures r.Keys == work.Keys + AiKeys
    ensures forall k :: k in work && k !in AiKeys ==> r[k] == work[k]
    ensures r["ai_description"] == e.description
    ensures r["ai_mood"] == JArr(e.mood)
    ensures r["ai_keywords"] == JArr(e.keywords)
    ensures r["ai_semantic_tags"] == JArr(e.semanticTags)
    ensures r["ai_similar_works_description"] == e.similarWorksDescription
  {
    work + AiFields(e)
  }

  /** The record without its `ai_` properties. */
  function WithoutAi(r: Record): Record {
    map k | k in r && k !in AiKeys :: r[k]
  }

  /** Merging loses nothing of the work: dropping the `ai_` keys from the
      merged record gives the work without its own `ai_` keys. */
  lemma MergeThenDrop(work: Record, e: Enrichment)
    ensures WithoutAi(Merge(work, e)) == WithoutAi(work)
  {
    var m := Merge(work, e);
    assert forall k :: k in WithoutAi(m) <==> k in WithoutAi(work);
  }

  /** Merging the same enrichment again changes nothing. */
  lemma MergeIdempotent(work: Record, e: Enrichment)
    ensures Merge(Merge(work, e), e) == Merge(work, e)
  {
    var once := Merge(work, e);
    var twice := Merge(once, e);
    assert twice.Keys == once.Keys;
    forall k | k in once ensures twice[k] == once[k] {
      if k !in AiKeys {
      } else {
        assert twice[k] == AiFields(e)[k];
      }
    }
  }

  /** Every record can be rendered into a prompt. */
  predicate AllRenderable(works: seq<Record>) {
    forall i :: 0 <= i < |works| ==> AttributesRenderable(Get(works[i], "attributes"))
  }

  /** `getGeminiEnrichment` as a value: the enrichment of one work, defined
      for the works whose prompt can be rendered. */
  function Enricher(generate: string -> CallResult, parse: string -> Option<Json>): (enrich: Record --> Enrichment)
    ensures forall work :: AttributesRenderable(Get(work, "attributes")) ==> enrich.requires(work)
  {
    work requires AttributesRenderable(Get(work, "attributes")) => GetGeminiEnrichment(work, generate, parse)
  }

  /** `enrich` can be applied to every record of `works`. */
  ghost predicate Applicable(works: seq<Record>, enrich: Record --> Enrichment) {
    forall i :: 0 <= i < |works| ==> enrich.requires(works[i])
  }

  /** The enriched list, one merged record per work, in order. */
  function EnrichAll(works: seq<Record>, enrich: Record --> Enrichment): seq<Record>
    requires Applicable(works, enrich)
  {
    seq(|works|, i requires 0 <= i < |works| => Merge(works[i], enrich(works[i])))
  }

  /** Enrichment keeps every record's own properties: the same number of
      records, each with the work's keys plus the `ai_` keys, and every
      key other than the `ai_` ones carrying the work's value. */
  lemma EnrichAllKeepsWorks(works: seq<Record>, enrich: Record --> Enrichment)
    requires Applicable(works, enrich)
    ensures |EnrichAll(works, enrich)| == |works|
    ensures forall i :: 0 <= i < |works| ==>
              && EnrichAll(works, enrich)[i].Keys == works[i].Keys + AiKeys
              && WithoutAi(EnrichAll(works, enrich)[i]) == WithoutAi(works[i])
  {
    forall i | 0 <= i < |works|
      ensures WithoutAi(EnrichAll(works, enrich)[i]) == WithoutAi(works[i])
    {
      MergeThenDrop(works[i], enrich(works[i]));
    }
  }

  /** Enriching a concatenation is enriching each part: records are handled
      one at a time, independently of their neighbours. */
  lemma EnrichAllAppend(a: seq<Record>, b: seq<Record>, enrich: Record --> Enrichment)
    requires Applicable(a, enrich) && Applicable(b, enrich)
    ensures Applicable(a + b, enrich)
    ensures EnrichAll(a + b, enrich) == EnrichAll(a, enrich) + EnrichAll(b, enrich)
  {
    assert forall i :: 0 <= i < |a + b| ==> (a + b)[i] == if i < |a| then a[i] else b[i - |a|];
  }

  /** Enriching the first `i + 1` records appends the merged record of
      record `i` to the enrichment of the first `i`. */
  lemma EnrichAllStep(works: seq<Record>, i: nat, enrich: Record --> Enrichment)
    requires Applicable(works, enrich) && i < |works|
    ensures Applicable(works[..i], enrich) && Applicable(works[..i + 1], enrich)
    ensures EnrichAll(works[..i + 1], enrich) == EnrichAll(works[..i], enrich) + [Merge(works[i], enrich(works[i]))]
  {
    assert works[..i + 1] == works[..i] + [works[i]];
    EnrichAllAppend(works[..i], [works[i]], enrich);
  }

  /** When every request throws, every record is merged with the fallback. */
  lemma EnrichAllUnreachable(works: seq<Record>, generate: string -> CallResult, parse: string -> Option<Json>)
    requires AllRenderable(works)
    requires forall prompt :: generate(prompt) == Threw
    ensures Applicable(works, Enricher(generate, parse))
    ensures forall i :: 0 <= i < |works| ==> EnrichAll(works, Enricher(generate, parse))[i] == Merge(works[i], Fallback)
  {
    forall i | 0 <= i < |works|
      ensures Enricher(generate, parse)(works[i]) == Fallback
    {
      UnreachableGivesFallback(works[i], generate, parse);
    }
  }

  /** `processMusicData`: `loaded` is the parsed input file, `None` when
      reading or parsing it failed, which gives the empty list; otherwise
      the records are enriched one after another and each merged record is
      appended. */
  method ProcessMusicData(loaded: Option<seq<Record>>, generate: string -> CallResult, parse: string -> Option<Json>)
    returns (enriched: seq<Record>)
    requires loaded.Some? ==> AllRenderable(loaded.value)
    ensures loaded.None? ==> enriched == []
    ensures loaded.Some? ==> Applicable(loaded.value, Enricher(generate, parse))
    ensures loaded.Some? ==> enriched == EnrichAll(loaded.value, Enricher(generate, parse))
  {
    if loaded.None? {
      return [];
    }
    var rawMusicData := loaded.value;
    ghost var enrich := Enricher(generate, parse);
    assert Applicable(rawMusicData, enrich);
    enriched := [];
    for i := 0 to |rawMusicData|
      invariant Applicable(rawMusicData[..i], enrich)
      invariant enriched == EnrichAll(rawMusicData[..i], enrich)
    {
      var work := rawMusicData[i];
      var aiData := GetGeminiEnrichment(work, generate, parse);
      var enrichedWork := Merge(work, aiData);
      EnrichAllStep(rawMusicData, i, enrich);
      enriched := enriched + [enrichedWork];
    }
    assert rawMusicData[..|rawMusicData|] == rawMusicData;
  }
}
