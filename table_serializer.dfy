/**
 * `serialize_table_from_chunk` (table_serializer.py): find the first table
 * among a chunk's document items, recover its structure (from its own data,
 * or through its `#/tables/<n>` reference into the document) and render it
 * in the key-value format.
 *
 * A chunk is given by its `doc_items`; a chunk without `meta` or without
 * `doc_items` behaves as one with no items. The caption is a string, `""`
 * standing for the source's `None`: the formatter treats both alike.
 */
module TableSerializer {
  import opened Common
  import opened Strings
  import opened Docling
  import opened TableStructure
  import opened KeyValueFormat

  /** An item whose `label` equals `'table'`. */
  predicate IsTable(item: DocItem)
  {
    item.kind == Some("table")
  }

  /** The position of the first table item of `items`, if there is one. */
  function FirstTableIndex(items: seq<DocItem>): (r: Option<nat>)
    ensures r.Some? ==> r.value < |items| && IsTable(items[r.value])
    ensures r.Some? ==> forall j :: 0 <= j < r.value ==> !IsTable(items[j])
    ensures r.None? <==> forall j :: 0 <= j < |items| ==> !IsTable(items[j])
  {
    if items == [] then None
    else if IsTable(items[0]) then Some(0)
    else
      match FirstTableIndex(items[1..])
      case None => None
      case Some(k) => Some(k + 1)
  }

  /** `' '.join(str(cap) for cap in captions)`, or `""` when there are no
      captions. */
  function Caption(item: DocItem): string
  {
    Join(" ", item.captions)
  }

  /** `str(v)` for each value, in order. */
  function Texts(vs: seq<Value>): (r: seq<string>)
    ensures |r| == |vs|
    ensures forall i :: 0 <= i < |vs| ==> r[i] == ToStr(vs[i])
  {
    if vs == [] then [] else Texts(vs[..|vs| - 1]) + [ToStr(vs[|vs| - 1])]
  }

  /** `str(v)` for each value of each row. */
  function RowsTexts(rows: seq<seq<Value>>): (r: seq<seq<string>>)
    ensures |r| == |rows|
    ensures forall i :: 0 <= i < |rows| ==> r[i] == Texts(rows[i])
  {
    if rows == [] then [] else RowsTexts(rows[..|rows| - 1]) + [Texts(rows[|rows| - 1])]
  }

  /** The formatted text of an extracted structure: none when extraction
      failed or the headers are empty. */
  function Rendered(table: Option<Table>, caption: string): Option<string>
  {
    if table.Some? && |table.value.headers| > 0 then
      Some(KeyValueText(Texts(table.value.headers), RowsTexts(table.value.rows), caption))
    else None
  }

  /** The table a `cref` designates: the text after its last `/` parsed by
      `int(...)` and used as a Python list index into `tables`, so that a
      negative index counts from the end. A reference that does not start
      with `#/tables/`, an index that does not parse, an empty registry and
      an index out of range all give `None`. */
  function ResolveRef(cref: string, tables: seq<DocItem>): (r: Option<DocItem>)
    ensures r.Some? ==> StartsWith(cref, "#/tables/") && |tables| > 0 && r.value in tables
  {
    if !StartsWith(cref, "#/tables/") then None
    else
      var pieces := Split(cref, '/');
      match ParseInt(pieces[|pieces| - 1])
      case None => None
      case Some(k) => if |tables| == 0 || k >= |tables| then None else ListIndex(tables, k)
  }

  /** Python's `tables[k]`: a negative index counts from the end, and an
      index out of range (an `IndexError`) gives `None`. */
  function ListIndex(tables: seq<DocItem>, k: int): (r: Option<DocItem>)
    ensures 0 <= k < |tables| ==> r == Some(tables[k])
    ensures -|tables| <= k < 0 ==> r == Some(tables[|tables| + k])
    ensures r.None? <==> k < -|tables| || k >= |tables|
  {
    if k >= |tables| then None
    else if k >= 0 then Some(tables[k])
    else if k >= -|tables| then Some(tables[k + |tables|])
    else None
  }

  /** The reference path, taken when the table item has no `data`
      attribute. */
  function ReferencedTable(item: DocItem, document: Option<Document>, caption: string): Option<string>
  {
    if item.ref.None? || document.None? then None
    else
      match ResolveRef(item.ref.value, document.value.tables)
      case None => None
      case Some(actual) =>
        match actual.data
        case NoData => None
        case Data(d) => Rendered(ExtractedTable(d), caption)
  }

  /** The text of the chosen table item: from its own data when it has a
      `data` attribute (none when that is `None`), otherwise through its
      reference. */
  function ItemTable(item: DocItem, document: Option<Document>): Option<string>
  {
    var caption := Caption(item);
    match item.data
    case NoData => ReferencedTable(item, document, caption)
    case Data(None) => None
    case Data(Some(d)) => Rendered(ExtractedTable(Some(d)), caption)
  }

  /** The result of `serialize_table_from_chunk`. */
  function SerializedTable(items: seq<DocItem>, document: Option<Document>): (r: Option<string>)
    ensures (forall j :: 0 <= j < |items| ==> !IsTable(items[j])) ==> r.None?
  {
    match FirstTableIndex(items)
    case None => None
    case Some(i) => ItemTable(items[i], document)
  }

  // ---------------------------------------------------------------------
  // Properties

  /** Only the first table item counts: items after it, tables or not, do
      not change the result. */
  lemma FirstTableDecides(items: seq<DocItem>, more: seq<DocItem>, document: Option<Document>)
    requires exists j :: 0 <= j < |items| && IsTable(items[j])
    ensures SerializedTable(items + more, document) == SerializedTable(items, document)
  {
    var i := FirstTableIndex(items).value;
    var all := items + more;
    assert all[i] == items[i];
    assert forall j :: 0 <= j < i ==> all[j] == items[j];
    assert FirstTableIndex(all) == Some(i);
  }

  /** The first table is determined by its defining property. */
  lemma FirstTableUnique(items: seq<DocItem>, i: nat)
    requires i < |items| && IsTable(items[i])
    requires forall j :: 0 <= j < i ==> !IsTable(items[j])
    ensures FirstTableIndex(items) == Some(i)
  {
  }

  /** Items before the first table that are not tables do not change the
      result either. */
  lemma LeadingItemsIgnored(pre: seq<DocItem>, items: seq<DocItem>, document: Option<Document>)
    requires forall j :: 0 <= j < |pre| ==> !IsTable(pre[j])
    ensures SerializedTable(pre + items, document) == SerializedTable(items, document)
  {
    var all := pre + items;
    match FirstTableIndex(items)
    case None =>
      forall j | 0 <= j < |all|
        ensures !IsTable(all[j])
      {
        if j >= |pre| {
          assert all[j] == items[j - |pre|];
        }
      }
    case Some(i) =>
      forall j | 0 <= j < |pre| + i
        ensures !IsTable(all[j])
      {
        if j >= |pre| {
          assert all[j] == items[j - |pre|];
        }
      }
      assert all[|pre| + i] == items[i];
      FirstTableUnique(all, |pre| + i);
  }

  /** A table item that carries its data is serialized from it: the
      document and the item's reference play no part. */
  lemma InlineDataIgnoresDocument(items: seq<DocItem>, d1: Option<Document>, d2: Option<Document>)
    requires FirstTableIndex(items).Some?
    requires items[FirstTableIndex(items).value].data.Data?
    ensures SerializedTable(items, d1) == SerializedTable(items, d2)
  {
  }

  /** The last piece of `split(c)` is what follows the last `c`. */
  lemma {:induction false} SplitLastPiece(a: string, b: string, c: char)
    requires |a| > 0 && a[|a| - 1] == c && c !in b
    ensures var pieces := Split(a + b, c); |pieces| >= 2 && pieces[|pieces| - 1] == b
  {
    var s := a + b;
    assert s[1..] == a[1..] + b;
    if |a| == 1 {
      SplitWithout(b, c);
    } else {
      SplitLastPiece(a[1..], b, c);
    }
  }

  /** Text without the separator splits into itself alone. */
  lemma {:induction false} SplitWithout(s: string, c: char)
    requires c !in s
    ensures Split(s, c) == [s]
  {
    if s != [] {
      SplitWithout(s[1..], c);
      assert [s[0]] + s[1..] == s;
    }
  }

  /** A reference `#/tables/<d>` whose tail holds no `/` is split so that
      its last piece is `d`. */
  lemma RefLastPiece(d: string)
    requires forall j :: 0 <= j < |d| ==> d[j] != '/'
    ensures StartsWith("#/tables/" + d, "#/tables/")
    ensures var pieces := Split("#/tables/" + d, '/'); pieces[|pieces| - 1] == d
  {
    var p := "#/tables/";
    assert (p + d)[..|p|] == p;
    SplitLastPiece(p, d, '/');
  }

  /** The reference docling writes for the table at index `i`:
      `f"#/tables/{i}"`. */
  function TableRef(i: int): string
  {
    "#/tables/" + IntString(i)
  }

  /** A well-prefixed reference whose last piece parses to `k` designates
      `tables[k]` in Python's sense. */
  lemma RefByIndex(cref: string, tables: seq<DocItem>, k: int)
    requires StartsWith(cref, "#/tables/")
    requires var pieces := Split(cref, '/'); ParseInt(pieces[|pieces| - 1]) == Some(k)
    ensures ResolveRef(cref, tables) == if |tables| == 0 then None else ListIndex(tables, k)
  {
  }

  /** `#/tables/<i>` designates `tables[i]` with Python's list indexing:
      `tables[i]` for `0 <= i < |tables|`, `tables[|tables| + i]` for
      `-|tables| <= i < 0`, and nothing for any other index. */
  lemma RefResolves(i: int, tables: seq<DocItem>)
    ensures 0 <= i < |tables| ==> ResolveRef(TableRef(i), tables) == Some(tables[i])
    ensures -|tables| <= i < 0 ==> ResolveRef(TableRef(i), tables) == Some(tables[|tables| + i])
    ensures i >= |tables| || i < -|tables| ==> ResolveRef(TableRef(i), tables).None?
  {
    RefParses(i);
    RefByIndex(TableRef(i), tables, i);
  }

  /** `#/tables/<i>` is well-prefixed and its last piece parses to `i`. */
  lemma RefParses(i: int)
    ensures StartsWith(TableRef(i), "#/tables/")
    ensures var pieces := Split(TableRef(i), '/'); ParseInt(pieces[|pieces| - 1]) == Some(i)
  {
    var d := IntString(i);
    assert forall j :: 0 <= j < |d| ==> d[j] != '/';
    RefLastPiece(d);
    IntStringParses(i);
  }

  /** A reference whose index text starts with an ASCII information
      separator does not parse, so it designates nothing, whatever the
      registry holds. */
  lemma SeparatorRefUnresolved(tables: seq<DocItem>)
    ensures ResolveRef("#/tables/" + "\U{001C}0", tables).None?
  {
    var d := "\U{001C}0";
    RefLastPiece(d);
    var pieces := Split("#/tables/" + d, '/');
    assert pieces[|pieces| - 1] == d;
    assert !IsIntSpace(d[0]) && !IsIntSpace(d[|d| - 1]);
    StripCharsFixed(d, IntWhitespace);
    assert !IsDigit(d[0]);
    assert ParseInt(d) == None;
  }

  /** A caption is empty exactly when there are no captions, or a single
      empty one. */
  lemma CaptionEmpty(item: DocItem)
    ensures Caption(item) == "" <==> item.captions == [] || item.captions == [""]
  {
    var cs := item.captions;
    if |cs| > 1 {
      assert |Join(" ", cs)| >= 1;
    }
  }

  /** A joined text starts with the first part. */
  lemma {:induction false} JoinStartsWithFirst(sep: string, parts: seq<string>)
    requires |parts| > 0
    ensures StartsWith(Join(sep, parts), parts[0])
  {
  }

  /** A serialized table with a non-empty caption starts with the line
      `Table: <caption>`. */
  lemma CaptionLeads(headers: seq<string>, rows: seq<seq<string>>, caption: string)
    requires caption != ""
    ensures StartsWith(KeyValueText(headers, rows, caption), "Table: " + caption)
  {
    var lines := KeyValueLines(headers, rows, caption);
    assert lines[0] == "Table: " + caption;
    JoinStartsWithFirst("\n", lines);
  }

  // ---------------------------------------------------------------------
  // The imperative entry point

  /** The search loop: the first item whose label is `'table'`. */
  method FindTableItem(items: seq<DocItem>) returns (found: Option<nat>)
    ensures found == FirstTableIndex(items)
  {
    found := None;
    var i := 0;
    while i < |items|
      invariant 0 <= i <= |items|
      invariant forall j :: 0 <= j < i ==> !IsTable(items[j])
    {
      if items[i].kind == Some("table") {
        found := Some(i);
        break;
      }
      i := i + 1;
    }
  }

  /** Extracts the structure of some table data and formats it. */
  method RenderTableData(data: Option<TableData>, caption: string) returns (text: Option<string>)
    ensures text == Rendered(ExtractedTable(data), caption)
  {
    var table := ExtractTableStructure(data);
    if table.None? || |table.value.headers| == 0 {
      return None;
    }
    var formatted := FormatTableAsKeyValue(Texts(table.value.headers), RowsTexts(table.value.rows), caption);
    text := Some(formatted);
  }

  /** `serialize_table_from_chunk`. */
  method SerializeTableFromChunk(items: seq<DocItem>, document: Option<Document>) returns (text: Option<string>)
    ensures text == SerializedTable(items, document)
  {
    if |items| == 0 {
      return None;
    }
    var found := FindTableItem(items);
    if found.None? {
      return None;
    }
    var item := items[found.value];
    var caption := "";
    if |item.captions| > 0 {
      caption := Join(" ", item.captions);
    }
    match item.data
    case NoData =>
      text := None;
      if item.ref.Some? && document.Some? {
        var actual := ResolveRef(item.ref.value, document.value.tables);
        if actual.Some? && actual.value.data.Data? {
          text := RenderTableData(actual.value.data.value, caption);
        }
      }
    case Data(None) =>
      text := None;
    case Data(Some(d)) =>
      text := RenderTableData(Some(d), caption);
  }
}
