/** How the two scripts meet: the records ingestMusicData.js writes are the
    records processMusicData reads. */
module Pipeline {
  import opened Wrappers
  import opened JsonValue
  import opened EnrichmentService
  import opened Extraction
  import opened Batch
  import opened Ingest

  /** Formatting a work keeps its attributes renderable: a truthy value is
      kept and a falsy one becomes `[]`. */
  lemma FormattedRenderable(work: Record, index: nat, composer: Record, clock: nat)
    requires AttributesRenderable(Get(work, "attributes"))
    ensures AttributesRenderable(Get(FormatWork(work, index, composer, clock), "attributes"))
  {
    FormatWorkFields(work, index, composer, clock);
  }

  /** Formatting works with renderable attributes gives records with
      renderable attributes. */
  lemma FormattedAllRenderable(works: seq<Record>, composer: Record, now: nat -> nat)
    requires AllRenderable(works)
    ensures AllRenderable(FormatWorks(works, composer, now))
  {
    var r := FormatWorks(works, composer, now);
    forall i | 0 <= i < |r| ensures AttributesRenderable(Get(r[i], "attributes")) {
      FormattedRenderable(works[i], i, composer, now(i));
    }
  }

  /** When every work list the lookup can return has renderable
      attributes, every fetched record can be enriched. */
  lemma FetchedRenderable(composerName: string, limit: int, artists: Option<seq<Record>>,
                          lookup: Option<Json> -> Option<seq<Record>>, now: nat -> nat)
    requires forall id :: lookup(id).Some? ==> AllRenderable(lookup(id).value)
    ensures AllRenderable(FetchComposerWorks(composerName, limit, artists, lookup, now))
  {
    var r := FetchComposerWorks(composerName, limit, artists, lookup, now);
    if r != [] {
      var composer := artists.value[FindComposer(artists.value, composerName).value];
      var works := lookup(Get(composer, "id")).value;
      var selected := SelectWorks(works, limit);
      assert AllRenderable(selected) by {
        assert forall i :: 0 <= i < |selected| ==> selected[i] == works[i];
      }
      FormattedAllRenderable(selected, composer, now);
    }
  }

  /** Enrichment leaves the object id and the composer of every fetched
      record as ingestion set them. */
  lemma EnrichedKeepsIdentity(records: seq<Record>, enrich: Record --> Enrichment)
    requires Applicable(records, enrich)
    ensures forall i :: 0 <= i < |records| ==>
              && Get(EnrichAll(records, enrich)[i], "objectID") == Get(records[i], "objectID")
              && Get(EnrichAll(records, enrich)[i], "composer") == Get(records[i], "composer")
  {
    assert "objectID" !in AiKeys && "composer" !in AiKeys;
  }
}
