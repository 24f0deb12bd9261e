# vlm-docling chunking core, in Dafny

This project models the part of the vlm-docling service that turns a
converted document into records ready for embedding:

- **Table serialization** (`table_serializer.py`).
  - `extract_table_structure` recovers a table's header row and data rows.
    It tries the table grid's representations in a fixed order: a list of
    lists, a list of row objects, a dataframe export, a list export,
    addressed cells. The markdown export is the fallback.
  - `format_table_as_keyvalue` renders the rows as `Header: Value` pairs.
    The lines are preceded by an optional `Table: <caption>` line.
  - `serialize_table_from_chunk` finds the first table among a chunk's
    document items. It reads that table from the item's own data, or
    follows its `#/tables/<n>` reference into the owning document.
- **Chunk records** (`hybrid_chunker.py`).
  - `extract_chunk_metadata` computes the curated metadata: content type,
    heading breadcrumb, sorted pages, table flag and item count.
  - `_process_chunk_text` adds the `search_document: ` prefix.
  - `chunk_document` builds one record per chunk. With table serialization
    on, a table chunk's text is replaced by its serialized form.
- **Tokenizer cache** (`tokenizer_manager.py`).
  - `TokenizerManager` validates model names.
  - It serves tokenizers through a least-recently-used cache with hit and
    miss counters, like `functools.lru_cache`.
  - It can clear the cache and report its statistics.

## Form of the model

- Loops in the source are Dafny `method`s with loop invariants. Each one is
  proved equal to a specification function, for example
  `ensures r == ExtractedTable(data)` or
  `ensures records == Records(chunks, document, options)`.
- The properties the code promises are lemmas about those functions.
- `TokenizerManager` is a class whose fields are the cache entries (least
  recently used first) and the two counters. Its methods update them.
- The cache's behaviour on one call is a function, `CachedLoad`. The
  invariants and eviction rules are proved about that function.
- The Python `str` operations the code relies on are written out in
  `strings.dfy`: `strip()`, `strip('|')`, `split`, `join`, `count`,
  `startswith`, `int()` and `str()` of an integer. This makes their edge
  cases explicit.
- `sorted()` of a set of integers is written out in `sorting.dfy`.
- The duck-typed objects of the conversion library are datatypes in
  `docmodel.dfy`. An attribute that may be missing or `None` is an `Option`.

## Behaviour worth knowing

Behaviours of the code a reader may not expect:

- A list-of-lists grid whose first row is empty gives a structure with
  empty headers. That structure is returned as found, not replaced by
  `None` (`table_serializer.py:81-98`). The serializer then produces no
  text, because it requires non-empty headers.
- `doc_items_count` is present only for a chunk with items
  (`hybrid_chunker.py:166-167`).
- A reference `#/tables/-1` passes the `table_index < len(tables)` check.
  It is used as a Python list index, so it designates the last table.
  `TableSerializer.RefResolves` proves exactly when each index resolves,
  and to which table.
- The model name is stripped before the checks, and the stripped form is
  the cache key (`tokenizer_manager.py:111-123`).
- The miss counter is incremented before the tokenizer is loaded, so a
  failed load still counts as a miss and stores nothing.
- A negative `cache_size` behaves as `0`: nothing is ever cached.
- `int()` skips less whitespace than `strip()`. The ASCII information
  separators U+001C to U+001F are spaces for `strip()`, but a reference
  index that starts or ends with one does not parse, so the reference
  designates nothing (`TableSerializer.SeparatorRefUnresolved`).

## Model

| member | source | states |
|---|---|---|
| Strings.StripCharsSpec | table_serializer.py:268-269 | `strip` removes exactly the longest whitespace prefix and suffix; what remains neither starts nor ends with a stripped character |
| Strings.StripCharsIdempotent | table_serializer.py:197 | stripping an already stripped line changes nothing |
| Strings.Split | table_serializer.py:203 | splitting on one character gives at least one piece; no piece holds the separator; joining the pieces with it gives back the text |
| Strings.Count | table_serializer.py:198 | the count is the number of occurrences of the character (its multiplicity in the line); it is zero exactly when the character does not occur |
| Strings.IntStringParses | table_serializer.py:332 | `int(str(i)) == i` for every integer, negative ones included |
| Strings.IntSpaces | table_serializer.py:332 | `int()` skips ASCII whitespace and non-ASCII spaces around the digits, but raises on an ASCII information separator that `strip()` would remove |
| Sorting.SortedSet | hybrid_chunker.py:158 | `sorted(set)` is strictly ascending and holds exactly the set's elements, each once |
| TableStructure.FirstRest | table_serializer.py:96-97 | the headers are the first row and the rows are the rest, in order |
| TableStructure.RowTexts | table_serializer.py:86-93 | one text per cell, in cell order: the `text` attribute, the string itself, or `str(cell)` |
| TableStructure.ListRows | table_serializer.py:83-94 | a list-of-lists grid gives rows exactly when every entry is a list; row `i` is the texts of entry `i` |
| TableStructure.ExtractListRows | table_serializer.py:83-98 | the nested loops build exactly `ListRows`, and give up on the first entry that is not a list |
| TableStructure.NonListRaises | table_serializer.py:84-86 | one entry that is not a list makes the whole list-of-lists strategy fail |
| TableStructure.CollectObjectRows | table_serializer.py:102-109 | the loop keeps a list entry as it is, a row object as the texts of its cells, and skips anything else (`ObjectRows`) |
| TableStructure.BucketCells | table_serializer.py:156-167 | the loop fills `rows_dict` exactly as `CellBuckets` does |
| TableStructure.CellBucketsLastWins | table_serializer.py:159-167 | an address is bucketed exactly when some cell has it, and holds the text of the last such cell |
| TableStructure.CellBucketsNonEmpty | table_serializer.py:165-167 | every row bucket holds at least one column |
| TableStructure.RowsForSpec | table_serializer.py:171-176 | assembled row `i` is the bucket of the `i`-th key, in ascending column order |
| TableStructure.AssembleKeys | table_serializer.py:173-176 | the loop builds one row per key, in key order (`RowsFor`) |
| TableStructure.AssembleRows | table_serializer.py:171-176 | the buckets become rows in ascending row order |
| TableStructure.IterateCells | table_serializer.py:156-176 | cell iteration yields exactly `CellRows` |
| TableStructure.CellRowsSpec | table_serializer.py:169-176 | row `i` belongs to the `i`-th smallest row index present; its entry `j` is the last text written at that row's `j`-th smallest column |
| TableStructure.CellRowsEmpty | table_serializer.py:169-183 | cell iteration finds no rows exactly when no cell has both a row and a column |
| TableStructure.TryGrid | table_serializer.py:64-188 | the grid strategies run in the source's order with its emptiness tests (`GridAttempt`) |
| TableStructure.NonBlankLines | table_serializer.py:197 | every kept line is non-empty and already stripped; there are no more lines than in the input |
| TableStructure.NonBlankLinesMembers | table_serializer.py:197 | a line is kept exactly when it is the non-empty stripped form of some input line |
| TableStructure.NonBlankLinesAppend | table_serializer.py:197 | order is kept: the kept lines of two blocks are those of the first block followed by those of the second |
| TableStructure.DataLines | table_serializer.py:198 | a line is kept exactly when it is an input line with at least two pipes that is not a separator line |
| TableStructure.DataLinesAppend | table_serializer.py:198 | order is kept: the table lines of two blocks are those of the first block followed by those of the second |
| TableStructure.LineCells | table_serializer.py:203 | every table line gives at least one cell |
| TableStructure.LinesCells | table_serializer.py:201-204 | one row per table line, in order; row `k` is the cells of line `k` |
| TableStructure.CellsOfLines | table_serializer.py:201-204 | the markdown loop builds exactly `LinesCells` |
| TableStructure.MarkdownTableSpec | table_serializer.py:191-209 | a markdown result comes from stripped, non-blank lines with two or more pipes that are not separators; its headers are the cells of the first such line |
| TableStructure.ParseMarkdown | table_serializer.py:191-209 | the markdown fallback needs a pipe and a data line (`MarkdownTable`) |
| TableStructure.ExtractedTable | table_serializer.py:55-56 | missing table data gives `None` |
| TableStructure.GridBeforeMarkdown | table_serializer.py:72-191 | a grid strategy that succeeds or raises decides the result whatever the markdown says; the markdown decides it exactly when every grid strategy misses |
| TableStructure.ExtractTableStructure | table_serializer.py:42-224 | `extract_table_structure` equals `ExtractedTable` |
| KeyValueFormat.PairsUpToMembers | table_serializer.py:265-272 | a text is a pair of the first `n` columns exactly when some such column has a non-blank stripped header and value that render as it |
| KeyValueFormat.RowPairsMembers | table_serializer.py:264-272 | the pairs of a row are exactly the `header: value` texts of its columns whose stripped header and value are both non-empty |
| KeyValueFormat.PairsUpToSameCells | table_serializer.py:265-266 | the pairs depend only on the cells under the headers; a missing cell counts as `''` |
| KeyValueFormat.RowPairsIgnoreExtraAndMissing | table_serializer.py:266 | cells beyond the headers are ignored, and appending an empty cell changes nothing |
| KeyValueFormat.CleanPairsStep | table_serializer.py:265-272 | a column whose header and value need no stripping adds exactly its `header: value` pair |
| KeyValueFormat.PairAtEnd | table_serializer.py:268-272 | a kept pair is non-empty and ends in a non-space character |
| KeyValueFormat.RowLineEnd | table_serializer.py:268-275 | a row line is non-empty and ends in a non-space character |
| KeyValueFormat.RowLinesEnd | table_serializer.py:262-275 | every row line is non-empty and ends in a non-space character |
| KeyValueFormat.RowLinesAppend | table_serializer.py:262-275 | rows keep their order: the lines of two row blocks are the lines of each block, one after the other |
| KeyValueFormat.RowLinesBound | table_serializer.py:255-275 | each row gives at most one line, so there are at most one more line than rows, counting the caption |
| KeyValueFormat.CaptionLineIff | table_serializer.py:258-259 | the first line is `Table: <caption>` exactly when the caption is non-empty |
| KeyValueFormat.ThreePairLine | table_serializer.py:262-275 | three clean columns give the line `h0: v0, h1: v1, h2: v2` |
| KeyValueFormat.SalesDataLines | table_serializer.py:248-253 | the documented rows give `Region: North, Q1: 100, Q2: 150` and `Region: South, Q1: 120, Q2: 180` |
| KeyValueFormat.SalesDataExample | table_serializer.py:247-253 | the documented example renders as the caption line followed by those two lines |
| KeyValueFormat.ShortRowExample | table_serializer.py:266 | a row shorter than the headers keeps only the pairs of the cells it has |
| KeyValueFormat.CollectPairs | table_serializer.py:264-272 | the inner loop builds exactly the row's pairs (`RowPairs`) |
| KeyValueFormat.FormatTableAsKeyValue | table_serializer.py:255-277 | `format_table_as_keyvalue` equals `KeyValueText` |
| TableSerializer.FirstTableIndex | table_serializer.py:305-309 | the chosen item is a table, no earlier item is, and there is none exactly when no item is a table |
| TableSerializer.FindTableItem | table_serializer.py:305-309 | the search loop stops at the first item labelled `table` |
| TableSerializer.Texts | table_serializer.py:268-269 | `str()` of each value, in order |
| TableSerializer.ListIndex | table_serializer.py:336-337 | Python list indexing: `tables[k]` for `0 <= k < n`, `tables[n + k]` for `-n <= k < 0`, and nothing (an `IndexError`) otherwise |
| TableSerializer.ResolveRef | table_serializer.py:331-337 | a reference resolves only when it starts with `#/tables/` and the registry is non-empty, and then to one of the registry's tables |
| TableSerializer.RefLastPiece | table_serializer.py:331-332 | `#/tables/<d>` passes the prefix test, and its last `/` piece is `d` |
| TableSerializer.RefParses | table_serializer.py:331-332 | the last piece of `#/tables/<i>` parses back to `i` |
| TableSerializer.RefByIndex | table_serializer.py:331-337 | a well-prefixed reference whose last piece parses to `k` designates Python's `tables[k]` |
| TableSerializer.SeparatorRefUnresolved | table_serializer.py:331-332 | `#/tables/` followed by U+001C and `0` designates nothing, because `int()` raises on it |
| TableSerializer.RefResolves | table_serializer.py:320-341 | `#/tables/<i>` resolves to `tables[i]` for `0 <= i < n`, to `tables[n + i]` for `-n <= i < 0`, and to nothing otherwise |
| TableSerializer.SerializedTable | table_serializer.py:301-312 | no table item means no text |
| TableSerializer.FirstTableUnique | table_serializer.py:305-309 | the first table is the item that is a table with no table before it |
| TableSerializer.FirstTableDecides | table_serializer.py:306-309 | items after the first table do not change the result |
| TableSerializer.LeadingItemsIgnored | table_serializer.py:306-309 | non-table items before the first table do not change the result |
| TableSerializer.InlineDataIgnoresDocument | table_serializer.py:357-371 | a table item that has its own data is serialized without looking at the document |
| TableSerializer.CaptionEmpty | table_serializer.py:315-317 | the caption is empty exactly when there are no captions or a single empty one |
| TableSerializer.CaptionLeads | table_serializer.py:258-259 | a text with a non-empty caption starts with `Table: <caption>` |
| TableSerializer.RenderTableData | table_serializer.py:361-371 | extraction then formatting, with no text when extraction fails or the headers are empty (`Rendered`) |
| TableSerializer.SerializeTableFromChunk | table_serializer.py:280-373 | `serialize_table_from_chunk` equals `SerializedTable`, on both the inline-data path and the reference path |
| HybridChunker.LabelSetMembers | hybrid_chunker.py:130-133 | a label is collected exactly when some item carries it |
| HybridChunker.ContentTypePrecedence | hybrid_chunker.py:128-142 | the content type is `table`, `list`, `heading` or `text`, in that order of precedence over the items' labels, as four if-and-only-ifs |
| HybridChunker.ProvPagesMembers | hybrid_chunker.py:153-155 | a page is collected from one item exactly when one of its provenance records gives it |
| HybridChunker.PageSetMembers | hybrid_chunker.py:149-155 | a page is collected exactly when some provenance record of some item gives it |
| HybridChunker.PagesSpec | hybrid_chunker.py:149-158 | `pages` is strictly ascending, holds exactly the items' page numbers, and is absent exactly when there are none |
| HybridChunker.MetadataKeys | hybrid_chunker.py:144-167 | the breadcrumb is present exactly when there are headings (one heading is itself); the table flag is set exactly for a table item; the count is present exactly for a chunk with items, and is their number |
| HybridChunker.CollectLabels | hybrid_chunker.py:130-133 | the label loop builds `LabelSet` |
| HybridChunker.AddProvPages | hybrid_chunker.py:153-155 | the inner loop adds one item's pages |
| HybridChunker.CollectPages | hybrid_chunker.py:149-155 | the nested loops build `PageSet` |
| HybridChunker.ExtractChunkMetadata | hybrid_chunker.py:115-169 | `extract_chunk_metadata` equals `CuratedMetadata` |
| HybridChunker.ProcessChunkText | hybrid_chunker.py:80-83 | the contextualized text, and the same text behind `search_document: ` |
| HybridChunker.RecordAt | hybrid_chunker.py:240-280 | record `i` is built from chunk `i` with index `i` |
| HybridChunker.RecordsSpec | hybrid_chunker.py:240-280 | one record per chunk, in order, with indices `0 .. n-1` |
| HybridChunker.RecordsPrefix | hybrid_chunker.py:240-280 | the records of a prefix of the chunks are a prefix of the records |
| HybridChunker.TextPrefixed | hybrid_chunker.py:253-263 | every record text starts with `search_document: ` |
| HybridChunker.TextChoice | hybrid_chunker.py:252-266 | the serialized table replaces the text exactly when serialization is on, the chunk has a table item and serialization gives non-empty text; a non-empty section title then leads, followed by a blank line |
| HybridChunker.NoTableKeepsText | hybrid_chunker.py:254-255 | a chunk without a table item keeps its prefixed contextualized text |
| HybridChunker.RecordKeys | hybrid_chunker.py:244-278 | the section title is the last heading and is present exactly when there are headings; the full metadata dump is present exactly when requested |
| HybridChunker.MakeText | hybrid_chunker.py:253-266 | the text step equals `ChunkText` |
| HybridChunker.MakeRecord | hybrid_chunker.py:242-280 | the loop body builds `RecordOf` for its chunk and index |
| HybridChunker.ChunkDocument | hybrid_chunker.py:235-295 | `chunk_document` equals `Records` over the splitter's chunks |
| TokenizerManager.ValidateModelName | tokenizer_manager.py:107-120 | a name is accepted exactly when it is a string whose stripped form is non-empty, at most 200 characters, and neither starts nor ends with `/`; the key is the stripped form |
| TokenizerManager.ValidatedNameIsFixed | tokenizer_manager.py:111-123 | validating a key again gives the same key |
| TokenizerManager.SurroundingSpaceIgnored | tokenizer_manager.py:111 | surrounding whitespace does not change the outcome |
| TokenizerManager.LengthBoundary | tokenizer_manager.py:116-117 | 200 characters pass and 201 fail |
| TokenizerManager.Find | tokenizer_manager.py:46 | the cache lookup finds an entry for the key exactly when one is stored |
| TokenizerManager.CachedLoadKeepsInvariant | tokenizer_manager.py:46 | every call keeps the cache within its bound with one entry per key, and counts exactly one hit or one miss |
| TokenizerManager.HitAfterLoad | tokenizer_manager.py:46 | after a successful load, the next call for the key is a hit: same tokenizer, no load, one more hit, order kept |
| TokenizerManager.FailedLoadRetries | tokenizer_manager.py:84-89 | a failed load stores nothing and counts a miss, and the next call loads again |
| TokenizerManager.EvictsLeastRecent | tokenizer_manager.py:46 | a new key stored in a full cache replaces the least recently used key, and every other key stays |
| TokenizerManager.HitRefreshes | tokenizer_manager.py:46 | a hit returns the cached tokenizer and moves its entry to the most recent end, keeping the order of the others |
| TokenizerManager.ZeroBoundCachesNothing | tokenizer_manager.py:38-46 | with a bound of 0 every call is a miss that loads, and nothing is stored |
| TokenizerManager.TokenizerManager.constructor | tokenizer_manager.py:38-47 | an empty cache with zeroed counters; a negative size is clamped to 0 |
| TokenizerManager.TokenizerManager.GetTokenizer | tokenizer_manager.py:91-123 | a rejected name raises its error and leaves the cache as it was; a valid one performs exactly one `CachedLoad` under its stripped key, and a failed load raises `LoadFailed` |
| TokenizerManager.TokenizerManager.ClearCache | tokenizer_manager.py:125-128 | every entry is dropped and both counters are reset |
| TokenizerManager.TokenizerManager.GetCacheInfo | tokenizer_manager.py:130-143 | reports hits, misses, current size and bound, and the size never exceeds the bound |

## Left out

- Threads and `_tokenizer_lock`: calls to the manager are modelled one at a time. Per-key serialization of concurrent loads is not modelled.
- Loading a tokenizer: `AutoTokenizer.from_pretrained`, the `transformers` import and the `HF_CACHE_DIR` environment variable are I/O. They are the `loader` parameter, whose `None` is a failed load.
- `get_tokenizer_manager` and its global singleton: process-wide state with no logic beyond creating one `TokenizerManager` on first use.
- `cache_size=None`, which `lru_cache` treats as unbounded: the bound is an integer here.
- `_create_chunker` and the splitter: the chunks the splitter produces are the input of `ChunkDocument`. Each chunk carries the text of its `contextualize` call and the value of its `model_dump` call.
- Logging, timing, `_log_chunk_statistics` and the `tables_serialized`/`tables_failed` counters: they affect no result.
- pandas: a dataframe export is its column labels and rows. `df.empty` is read as "no columns or no rows".
- TableStructure.ExtractedTable: an export that raises is the same as an absent one. One edge of this is not captured: `df.columns` succeeds and `df.values` then raises, leaving headers set while the later strategies run.
- TableStructure.ListRows: a grid entry is a list, a row object or anything else. A later entry that is not a list but can still be iterated (a string, say) is treated as one that raises.
- HybridChunker.CuratedMetadata: a chunk whose `meta` lacks `doc_items` or `headings` is treated as one with an empty list.
- Docling.CellText: `str()` of an arbitrary object is a string carried with the value (`repr`), since the object's `__str__` is not visible.
- Strings.ParseInt: only ASCII decimal digits are accepted. Python's `int()` also accepts other Unicode decimal digits.
- Labels are compared as plain strings. Docling's label enumeration compares equal to its string value.
