/**
 * `extract_chunk_metadata`, `_process_chunk_text` and `chunk_document`
 * (hybrid_chunker.py): turn the chunks an external splitter produces into
 * records holding the embedding text, the section title, a dense index, the
 * curated metadata and, on request, the splitter's full metadata dump.
 *
 * The splitter is not modelled: its chunks are the input sequence, each
 * with the headings and document items of its `meta`, the text its
 * `contextualize` gives and the value its `model_dump` gives.
 */
module HybridChunker {
  import opened Common
  import opened Strings
  import opened Sorting
  import opened Docling
  import opened TableSerializer

  /** A chunk's `meta`: its headings (missing or `None` is empty) and its
      document items (likewise). */
  datatype ChunkMeta = ChunkMeta(headings: seq<string>, docItems: seq<DocItem>)

  /** A chunk from the splitter; `dump` is what `model_dump()` returns. */
  datatype RawChunk<D> = RawChunk(meta: ChunkMeta, contextualized: string, dump: D)

  /** The `content_type` values. */
  datatype ContentType = TextContent | TableContent | ListContent | HeadingContent

  /** The curated `metadata` dictionary: a key that may be absent is an
      `Option`, and `has_table_structure`, present only as `True`, is a
      boolean. */
  datatype ChunkMetadata = ChunkMetadata(
    contentType: ContentType,
    headingPath: Option<string>,
    pages: Option<seq<int>>,
    hasTableStructure: bool,
    docItemsCount: Option<nat>)

  /** One record of `chunk_document`'s result. */
  datatype ChunkRecord<D> = ChunkRecord(
    text: string,
    sectionTitle: Option<string>,
    chunkIndex: nat,
    metadata: ChunkMetadata,
    fullMetadata: Option<D>)

  /** The `include_full_metadata` and `serialize_tables` flags. */
  datatype ChunkOptions = ChunkOptions(includeFullMetadata: bool, serializeTables: bool)

  const SearchPrefix := "search_document: "

  // ---------------------------------------------------------------------
  // Curated metadata, as functions

  /** The labels the items carry, items without a label ignored. */
  function LabelSet(items: seq<DocItem>): set<string>
  {
    if items == [] then {}
    else
      var last := items[|items| - 1];
      LabelSet(items[..|items| - 1]) + (if last.kind.Some? then {last.kind.value} else {})
  }

  /** The content type of a label set: table before list before heading,
      text otherwise. */
  function ContentTypeFor(labels: set<string>): ContentType
  {
    if "table" in labels then TableContent
    else if "list_item" in labels then ListContent
    else if "section_header" in labels then HeadingContent
    else TextContent
  }

  /** The page numbers some provenance records give, `None` ignored. */
  function ProvPages(provs: seq<Prov>): set<int>
  {
    if provs == [] then {}
    else
      var last := provs[|provs| - 1];
      ProvPages(provs[..|provs| - 1]) + (if last.pageNo.Some? then {last.pageNo.value} else {})
  }

  /** The page numbers over all items' provenance. */
  function PageSet(items: seq<DocItem>): set<int>
  {
    if items == [] then {}
    else PageSet(items[..|items| - 1]) + ProvPages(items[|items| - 1].prov)
  }

  /** The result of `extract_chunk_metadata`. */
  function CuratedMetadata(meta: ChunkMeta): (m: ChunkMetadata)
  {
    var items := meta.docItems;
    var contentType := if |items| > 0 then ContentTypeFor(LabelSet(items)) else TextContent;
    var pages := PageSet(items);
    ChunkMetadata(
      contentType,
      if |meta.headings| > 0 then Some(Join(" > ", meta.headings)) else None,
      if pages != {} then Some(SortedSet(pages)) else None,
      contentType == TableContent,
      if |items| > 0 then Some(|items|) else None)
  }

  // ---------------------------------------------------------------------
  // Properties of the curated metadata

  /** A label is collected exactly when some item carries it. */
  lemma {:induction false} LabelSetMembers(items: seq<DocItem>, l: string)
    ensures l in LabelSet(items) <==> exists i :: 0 <= i < |items| && items[i].kind == Some(l)
  {
    if items != [] {
      var prefix := items[..|items| - 1];
      LabelSetMembers(prefix, l);
      if exists i :: 0 <= i < |items| && items[i].kind == Some(l) {
        var i :| 0 <= i < |items| && items[i].kind == Some(l);
        if i < |items| - 1 {
          assert prefix[i] == items[i];
        }
      }
      if l in LabelSet(prefix) {
        var i :| 0 <= i < |prefix| && prefix[i].kind == Some(l);
        assert items[i] == prefix[i];
      }
    }
  }

  /** Some item is labelled `l`. */
  predicate HasLabel(items: seq<DocItem>, l: string)
  {
    exists i :: 0 <= i < |items| && items[i].kind == Some(l)
  }

  /** The content type follows the precedence table, list item, section
      header, text over the items' labels; unlabelled items play no part. */
  lemma ContentTypePrecedence(meta: ChunkMeta)
    ensures var items := meta.docItems; var t := CuratedMetadata(meta).contentType;
      && (t == TableContent <==> HasLabel(items, "table"))
      && (t == ListContent <==> !HasLabel(items, "table") && HasLabel(items, "list_item"))
      && (t == HeadingContent <==>
            !HasLabel(items, "table") && !HasLabel(items, "list_item") && HasLabel(items, "section_header"))
      && (t == TextContent <==>
            !HasLabel(items, "table") && !HasLabel(items, "list_item") && !HasLabel(items, "section_header"))
  {
    var items := meta.docItems;
    LabelSetMembers(items, "table");
    LabelSetMembers(items, "list_item");
    LabelSetMembers(items, "section_header");
  }

  /** A page number is collected exactly when some provenance record gives
      it. */
  lemma {:induction false} ProvPagesMembers(provs: seq<Prov>, p: int)
    ensures p in ProvPages(provs) <==> exists j :: 0 <= j < |provs| && provs[j].pageNo == Some(p)
  {
    if provs != [] {
      var prefix := provs[..|provs| - 1];
      ProvPagesMembers(prefix, p);
      if exists j :: 0 <= j < |provs| && provs[j].pageNo == Some(p) {
        var j :| 0 <= j < |provs| && provs[j].pageNo == Some(p);
        if j < |provs| - 1 {
          assert prefix[j] == provs[j];
        }
      }
      if p in ProvPages(prefix) {
        var j :| 0 <= j < |prefix| && prefix[j].pageNo == Some(p);
        assert provs[j] == prefix[j];
      }
    }
  }

  /** Some provenance record of some item gives page `p`. */
  predicate OnPage(items: seq<DocItem>, p: int)
  {
    exists i, j :: 0 <= i < |items| && 0 <= j < |items[i].prov| && items[i].prov[j].pageNo == Some(p)
  }

  lemma {:induction false} PageSetMembers(items: seq<DocItem>, p: int)
    ensures p in PageSet(items) <==> OnPage(items, p)
  {
    if items != [] {
      var prefix := items[..|items| - 1];
      var last := items[|items| - 1];
      PageSetMembers(prefix, p);
      ProvPagesMembers(last.prov, p);
      if OnPage(items, p) {
        var i, j :| 0 <= i < |items| && 0 <= j < |items[i].prov| && items[i].prov[j].pageNo == Some(p);
        if i < |items| - 1 {
          assert prefix[i] == items[i];
          assert OnPage(prefix, p);
        }
      }
      if p in PageSet(prefix) {
        var i, j :| 0 <= i < |prefix| && 0 <= j < |prefix[i].prov| && prefix[i].prov[j].pageNo == Some(p);
        assert items[i] == prefix[i];
      }
      if p in ProvPages(last.prov) {
        var j :| 0 <= j < |last.prov| && last.prov[j].pageNo == Some(p);
        assert items[|items| - 1].prov[j].pageNo == Some(p);
      }
    }
  }

  /** `pages` is strictly ascending, holds exactly the page numbers the
      items' provenance gives, and is absent when there are none. */
  lemma PagesSpec(meta: ChunkMeta)
    ensures var pages := CuratedMetadata(meta).pages;
      && (pages.None? <==> forall p :: !OnPage(meta.docItems, p))
      && (pages.Some? ==> StrictlyIncreasing(pages.value))
      && (pages.Some? ==> forall p :: p in pages.value <==> OnPage(meta.docItems, p))
  {
    var items := meta.docItems;
    forall p
      ensures p in PageSet(items) <==> OnPage(items, p)
    {
      PageSetMembers(items, p);
    }
    if PageSet(items) != {} {
      if forall p :: p !in PageSet(items) {
        assert false;
      }
      var p :| p in PageSet(items);
      assert OnPage(items, p);
    }
  }

  /** The breadcrumb is present exactly when there are headings; it is the
      headings in order, joined by ` > `; `has_table_structure` is set
      exactly for table content; the item count is present exactly for a
      chunk with items. */
  lemma MetadataKeys(meta: ChunkMeta)
    ensures var m := CuratedMetadata(meta);
      && (m.headingPath.Some? <==> |meta.headings| > 0)
      && (|meta.headings| == 1 ==> m.headingPath == Some(meta.headings[0]))
      && (m.hasTableStructure <==> HasLabel(meta.docItems, "table"))
      && (m.docItemsCount.Some? <==> |meta.docItems| > 0)
      && (m.docItemsCount.Some? ==> m.docItemsCount.value == |meta.docItems|)
  {
    ContentTypePrecedence(meta);
  }

  // ---------------------------------------------------------------------
  // Chunk records, as functions

  /** `_process_chunk_text`: the contextualized text and its prefixed form. */
  function ProcessChunkText(contextualized: string): (r: (string, string))
    ensures r.0 == contextualized
    ensures StartsWith(r.1, SearchPrefix) && r.1[|SearchPrefix|..] == contextualized
  {
    (contextualized, SearchPrefix + contextualized)
  }

  /** The most specific heading, or `None` when there are none. */
  function SectionTitle(meta: ChunkMeta): Option<string>
  {
    if |meta.headings| > 0 then Some(meta.headings[|meta.headings| - 1]) else None
  }

  /** The embedding text of a chunk. */
  function ChunkText<D>(chunk: RawChunk<D>, document: Document, options: ChunkOptions): string
  {
    var prefixed := ProcessChunkText(chunk.contextualized).1;
    var title := SectionTitle(chunk.meta);
    if options.serializeTables && CuratedMetadata(chunk.meta).contentType == TableContent then
      match SerializedTable(chunk.meta.docItems, Some(document))
      case Some(s) =>
        if s == "" then prefixed
        else if title.Some? && title.value != "" then SearchPrefix + title.value + "\n\n" + s
        else SearchPrefix + s
      case None => prefixed
    else prefixed
  }

  /** The record of the chunk at position `index`. */
  function RecordOf<D>(chunk: RawChunk<D>, index: nat, document: Document, options: ChunkOptions): ChunkRecord<D>
  {
    ChunkRecord(
      ChunkText(chunk, document, options),
      SectionTitle(chunk.meta),
      index,
      CuratedMetadata(chunk.meta),
      if options.includeFullMetadata then Some(chunk.dump) else None)
  }

  /** The records of some chunks, in order. */
  function Records<D>(chunks: seq<RawChunk<D>>, document: Document, options: ChunkOptions): (r: seq<ChunkRecord<D>>)
    ensures |r| == |chunks|
  {
    if chunks == [] then []
    else
      var n := |chunks| - 1;
      Records(chunks[..n], document, options) + [RecordOf(chunks[n], n, document, options)]
  }

  // ---------------------------------------------------------------------
  // Properties of the records

  /** Record `i` is built from chunk `i` at index `i`. */
  lemma {:induction false} RecordAt<D>(chunks: seq<RawChunk<D>>, i: nat, document: Document, options: ChunkOptions)
    requires i < |chunks|
    ensures Records(chunks, document, options)[i] == RecordOf(chunks[i], i, document, options)
  {
    var n := |chunks| - 1;
    var prefix := Records(chunks[..n], document, options);
    assert Records(chunks, document, options) == prefix + [RecordOf(chunks[n], n, document, options)];
    if i < n {
      RecordAt(chunks[..n], i, document, options);
      assert chunks[..n][i] == chunks[i];
    }
  }

  /** One record per chunk, in order, record `i` built from chunk `i` at
      index `i`: the indices are exactly `0 .. |chunks| - 1`. */
  lemma RecordsSpec<D>(chunks: seq<RawChunk<D>>, document: Document, options: ChunkOptions)
    ensures |Records(chunks, document, options)| == |chunks|
    ensures forall i :: 0 <= i < |chunks| ==>
      Records(chunks, document, options)[i] == RecordOf(chunks[i], i, document, options)
  {
    forall i | 0 <= i < |chunks|
      ensures Records(chunks, document, options)[i] == RecordOf(chunks[i], i, document, options)
    {
      RecordAt(chunks, i, document, options);
    }
  }

  /** The records of a prefix of the chunks are a prefix of the records:
      each record depends only on its chunk and its position. */
  lemma RecordsPrefix<D>(chunks: seq<RawChunk<D>>, k: nat, document: Document, options: ChunkOptions)
    requires k <= |chunks|
    ensures Records(chunks[..k], document, options) == Records(chunks, document, options)[..k]
  {
    RecordsSpec(chunks[..k], document, options);
    RecordsSpec(chunks, document, options);
  }

  /** Every text starts with `search_document: `. */
  lemma TextPrefixed<D>(chunk: RawChunk<D>, document: Document, options: ChunkOptions)
    ensures StartsWith(ChunkText(chunk, document, options), SearchPrefix)
  {
    var t := ChunkText(chunk, document, options);
    var p := SearchPrefix;
    assert forall x: string :: (p + x)[..|p|] == p;
    var title := SectionTitle(chunk.meta);
    if title.Some? {
      assert forall s: string :: p + title.value + "\n\n" + s == p + (title.value + "\n\n" + s);
    }
  }

  /** The serialized text replaces the contextualized text exactly when
      table serialization is on, the chunk is a table chunk and the
      serializer returns non-empty text; the section title, when non-empty,
      then comes first, followed by a blank line. */
  lemma TextChoice<D>(chunk: RawChunk<D>, document: Document, options: ChunkOptions)
    ensures var s := SerializedTable(chunk.meta.docItems, Some(document));
      var title := SectionTitle(chunk.meta);
      var t := ChunkText(chunk, document, options);
      if options.serializeTables && HasLabel(chunk.meta.docItems, "table") && s.Some? && s.value != "" then
        t == (if title.Some? && title.value != "" then SearchPrefix + title.value + "\n\n" + s.value
              else SearchPrefix + s.value)
      else
        t == SearchPrefix + chunk.contextualized
  {
    ContentTypePrecedence(chunk.meta);
  }

  /** A chunk that holds no table item keeps its contextualized text, even
      with table serialization on. */
  lemma NoTableKeepsText<D>(chunk: RawChunk<D>, document: Document, options: ChunkOptions)
    requires forall i :: 0 <= i < |chunk.meta.docItems| ==> !IsTable(chunk.meta.docItems[i])
    ensures ChunkText(chunk, document, options) == SearchPrefix + chunk.contextualized
  {
    ContentTypePrecedence(chunk.meta);
  }

  /** The section title is the last heading, present exactly when there are
      headings; the full metadata is present exactly when requested. */
  lemma RecordKeys<D>(chunk: RawChunk<D>, index: nat, document: Document, options: ChunkOptions)
    ensures var r := RecordOf(chunk, index, document, options);
      && r.chunkIndex == index
      && (r.sectionTitle.Some? <==> |chunk.meta.headings| > 0)
      && (r.sectionTitle.Some? ==> r.sectionTitle.value == chunk.meta.headings[|chunk.meta.headings| - 1])
      && (r.fullMetadata.Some? <==> options.includeFullMetadata)
      && (r.fullMetadata.Some? ==> r.fullMetadata.value == chunk.dump)
  {
  }

  // ---------------------------------------------------------------------
  // The imperative code

  /** Collects the labels of the items into a set. */
  method CollectLabels(items: seq<DocItem>) returns (types: set<string>)
    ensures types == LabelSet(items)
  {
    types := {};
    var i := 0;
    while i < |items|
      invariant 0 <= i <= |items|
      invariant types == LabelSet(items[..i])
    {
      assert items[..i + 1][..i] == items[..i];
      if items[i].kind.Some? {
        types := types + {items[i].kind.value};
      }
      i := i + 1;
    }
    assert items[..i] == items;
  }

  /** The inner loop over one item's provenance records. */
  method AddProvPages(pages: set<int>, provs: seq<Prov>) returns (r: set<int>)
    ensures r == pages + ProvPages(provs)
  {
    r := pages;
    var j := 0;
    while j < |provs|
      invariant 0 <= j <= |provs|
      invariant r == pages + ProvPages(provs[..j])
    {
      assert provs[..j + 1][..j] == provs[..j];
      if provs[j].pageNo.Some? {
        r := r + {provs[j].pageNo.value};
      }
      j := j + 1;
    }
    assert provs[..j] == provs;
  }

  /** Collects the page numbers of all items. */
  method CollectPages(items: seq<DocItem>) returns (pages: set<int>)
    ensures pages == PageSet(items)
  {
    pages := {};
    var i := 0;
    while i < |items|
      invariant 0 <= i <= |items|
      invariant pages == PageSet(items[..i])
    {
      assert items[..i + 1][..i] == items[..i];
      pages := AddProvPages(pages, items[i].prov);
      i := i + 1;
    }
    assert items[..i] == items;
  }

  /** `extract_chunk_metadata`. */
  method ExtractChunkMetadata(meta: ChunkMeta) returns (m: ChunkMetadata)
    ensures m == CuratedMetadata(meta)
  {
    var items := meta.docItems;
    var contentType := TextContent;
    if |items| > 0 {
      var types := CollectLabels(items);
      if "table" in types {
        contentType := TableContent;
      } else if "list_item" in types {
        contentType := ListContent;
      } else if "section_header" in types {
        contentType := HeadingContent;
      }
    }
    var headingPath: Option<string> := None;
    if |meta.headings| > 0 {
      headingPath := Some(Join(" > ", meta.headings));
    }
    var pageNumbers: set<int> := {};
    if |items| > 0 {
      pageNumbers := CollectPages(items);
    }
    var pages: Option<seq<int>> := None;
    if pageNumbers != {} {
      pages := Some(SortedSet(pageNumbers));
    }
    var count: Option<nat> := None;
    if |items| > 0 {
      count := Some(|items|);
    }
    m := ChunkMetadata(contentType, headingPath, pages, contentType == TableContent, count);
  }

  /** The body of `chunk_document`'s loop: the record of one chunk. */
  method MakeRecord<D>(chunk: RawChunk<D>, index: nat, document: Document, options: ChunkOptions)
    returns (record: ChunkRecord<D>)
    ensures record == RecordOf(chunk, index, document, options)
  {
    var sectionTitle: Option<string> := None;
    if |chunk.meta.headings| > 0 {
      sectionTitle := Some(chunk.meta.headings[|chunk.meta.headings| - 1]);
    }
    var metadata := ExtractChunkMetadata(chunk.meta);
    var finalText := MakeText(chunk, document, options, sectionTitle, metadata);
    var fullMetadata: Option<D> := None;
    if options.includeFullMetadata {
      fullMetadata := Some(chunk.dump);
    }
    record := ChunkRecord(finalText, sectionTitle, index, metadata, fullMetadata);
  }

  /** The text step of `chunk_document`'s loop: the prefixed text, replaced
      by the serialized table when there is one. */
  method MakeText<D>(chunk: RawChunk<D>, document: Document, options: ChunkOptions,
                     sectionTitle: Option<string>, metadata: ChunkMetadata)
    returns (finalText: string)
    requires sectionTitle == SectionTitle(chunk.meta)
    requires metadata == CuratedMetadata(chunk.meta)
    ensures finalText == ChunkText(chunk, document, options)
  {
    var texts := ProcessChunkText(chunk.contextualized);
    finalText := texts.1;
    if options.serializeTables && metadata.contentType == TableContent {
      var serialized := SerializeTableFromChunk(chunk.meta.docItems, Some(document));
      if serialized.Some? && serialized.value != "" {
        if sectionTitle.Some? && sectionTitle.value != "" {
          finalText := SearchPrefix + sectionTitle.value + "\n\n" + serialized.value;
        } else {
          finalText := SearchPrefix + serialized.value;
        }
      }
    }
  }

  /** `chunk_document`, the splitter's chunks given as `chunks`. */
  method ChunkDocument<D>(chunks: seq<RawChunk<D>>, document: Document, options: ChunkOptions)
    returns (records: seq<ChunkRecord<D>>)
    ensures records == Records(chunks, document, options)
  {
    records := [];
    var index := 0;
    while index < |chunks|
      invariant 0 <= index <= |chunks|
      invariant records == Records(chunks[..index], document, options)
    {
      assert chunks[..index + 1][..index] == chunks[..index];
      var record := MakeRecord(chunks[index], index, document, options);
      records := records + [record];
      index := index + 1;
    }
    assert chunks[..index] == chunks;
  }
}
