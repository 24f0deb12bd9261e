/**
 * `extract_table_structure` (table_serializer.py): recover a table's
 * header row and data rows from whichever representation its grid has,
 * trying the strategies in a fixed order and stopping at the first that
 * yields rows.
 */
module TableStructure {
  import opened Common
  import opened Strings
  import opened Sorting
  import opened Docling

  /** The extracted table: the first assembled row and the remaining rows. */
  datatype Table = Table(headers: seq<Value>, rows: seq<seq<Value>>)

  /** What one grid strategy did: found rows, missed, or raised an
      exception that the outer handler turns into `None`. */
  datatype Attempt = Found(table: Table) | Miss | Raised

  /** Headers are the first row, rows are the rest in order. */
  function FirstRest(rows: seq<seq<Value>>): (t: Table)
    requires |rows| > 0
    ensures [t.headers] + t.rows == rows
  {
    Table(rows[0], rows[1..])
  }

  // ---------------------------------------------------------------------
  // Grid given as a list whose first entry is a list

  /** The texts of one list row, in cell order. */
  function RowTexts(cells: seq<Value>): (r: seq<Value>)
    ensures |r| == |cells|
    ensures forall j :: 0 <= j < |r| ==> r[j] == Str(CellText(cells[j]))
  {
    if cells == [] then []
    else RowTexts(cells[..|cells| - 1]) + [Str(CellText(cells[|cells| - 1]))]
  }

  /** The extracted rows of a list-of-lists grid; iterating an entry that is
      not a list raises, which is `None` here. */
  function ListRows(items: seq<GridRow>): (r: Option<seq<seq<Value>>>)
    ensures r.Some? <==> forall i :: 0 <= i < |items| ==> items[i].ListRow?
    ensures r.Some? ==> |r.value| == |items|
    ensures r.Some? ==> forall i :: 0 <= i < |items| ==> r.value[i] == RowTexts(items[i].cells)
  {
    if items == [] then Some([])
    else
      var prefix := ListRows(items[..|items| - 1]);
      var last := items[|items| - 1];
      if prefix.Some? && last.ListRow? then Some(prefix.value + [RowTexts(last.cells)]) else None
  }

  // ---------------------------------------------------------------------
  // Grid given as a list of row objects

  /** What one entry adds to `rows_from_objects`: a list entry as it is, a
      row object as the texts of its cells, anything else nothing. */
  function ObjectRow'(item: GridRow): seq<seq<Value>>
  {
    match item
    case ListRow(cells) => [cells]
    case ObjectRow(cells) => [RowTexts(cells)]
    case OtherRow => []
  }

  function ObjectRows(items: seq<GridRow>): (r: seq<seq<Value>>)
    ensures |r| <= |items|
  {
    if items == [] then []
    else ObjectRows(items[..|items| - 1]) + ObjectRow'(items[|items| - 1])
  }

  /** The two list-grid strategies: a non-empty list whose first entry is a
      list is read as a list of lists, otherwise as row objects. */
  function ListGridAttempt(items: seq<GridRow>): Attempt
    requires |items| > 0
  {
    if items[0].ListRow? then
      var rows := ListRows(items);
      if rows.Some? then Found(FirstRest(rows.value)) else Raised
    else
      var rows := ObjectRows(items);
      if |rows| > 0 then Found(FirstRest(rows)) else Miss
  }

  // ---------------------------------------------------------------------
  // Grid given by addressed cells

  /** Files one cell into the row-indexed buckets (`rows_dict`); a later
      cell at the same address replaces an earlier one. */
  function Put(buckets: map<int, map<int, string>>, cell: AddressedCell): map<int, map<int, string>>
  {
    match cell.address
    case None => buckets
    case Some((r, c)) =>
      var row := if r in buckets then buckets[r] else map[];
      buckets[r := row[c := CellText(cell.value)]]
  }

  function CellBuckets(cells: seq<AddressedCell>): map<int, map<int, string>>
  {
    if cells == [] then map[]
    else Put(CellBuckets(cells[..|cells| - 1]), cells[|cells| - 1])
  }

  /** One bucket as a row: its texts in ascending column order. */
  function AssembleRow(row: map<int, string>): (r: seq<Value>)
  {
    var cols := SortedSet(row.Keys);
    seq(|cols|, j requires 0 <= j < |cols| => Str(row[cols[j]]))
  }

  /** The buckets of `keys`, in the order of `keys`. */
  function RowsFor(buckets: map<int, map<int, string>>, keys: seq<int>): (r: seq<seq<Value>>)
    requires forall i :: 0 <= i < |keys| ==> keys[i] in buckets
    ensures |r| == |keys|
  {
    if keys == [] then []
    else RowsFor(buckets, keys[..|keys| - 1]) + [AssembleRow(buckets[keys[|keys| - 1]])]
  }

  /** Row `i` is the bucket of the `i`-th key. */
  lemma {:induction false} RowsForSpec(buckets: map<int, map<int, string>>, keys: seq<int>, i: nat)
    requires forall i :: 0 <= i < |keys| ==> keys[i] in buckets
    requires i < |keys|
    ensures RowsFor(buckets, keys)[i] == AssembleRow(buckets[keys[i]])
  {
    if i < |keys| - 1 {
      RowsForSpec(buckets, keys[..|keys| - 1], i);
    }
  }

  /** The buckets as rows, in ascending row order. */
  function BucketRows(buckets: map<int, map<int, string>>): (r: seq<seq<Value>>)
  {
    RowsFor(buckets, SortedSet(buckets.Keys))
  }

  /** The rows of the cell strategy. */
  function CellRows(cells: seq<AddressedCell>): (r: seq<seq<Value>>)
  {
    BucketRows(CellBuckets(cells))
  }

  // Declarative view of the cell strategy, independent of the buckets.

  /** Some cell has address `(r, c)`. */
  predicate HasCellAt(cells: seq<AddressedCell>, r: int, c: int)
  {
    exists k :: 0 <= k < |cells| && cells[k].address == Some((r, c))
  }

  /** The text of the last cell with address `(r, c)`. */
  function LastTextAt(cells: seq<AddressedCell>, r: int, c: int): string
    requires HasCellAt(cells, r, c)
  {
    var last := cells[|cells| - 1];
    if last.address == Some((r, c)) then CellText(last.value)
    else LastTextAt(cells[..|cells| - 1], r, c)
  }

  /** Bucketing keeps, for every address that occurs, exactly the text of
      the last cell with that address, and holds no other address. */
  lemma {:induction false} CellBucketsLastWins(cells: seq<AddressedCell>, r: int, c: int)
    ensures (r in CellBuckets(cells) && c in CellBuckets(cells)[r]) <==> HasCellAt(cells, r, c)
    ensures HasCellAt(cells, r, c) ==> CellBuckets(cells)[r][c] == LastTextAt(cells, r, c)
  {
    if cells != [] {
      var prefix := cells[..|cells| - 1];
      var last := cells[|cells| - 1];
      CellBucketsLastWins(prefix, r, c);
      if HasCellAt(prefix, r, c) {
        var k :| 0 <= k < |prefix| && prefix[k].address == Some((r, c));
        assert cells[k] == prefix[k];
      }
      if HasCellAt(cells, r, c) && last.address != Some((r, c)) {
        var k :| 0 <= k < |cells| && cells[k].address == Some((r, c));
        assert k < |prefix| && prefix[k] == cells[k];
      }
      if last.address == Some((r, c)) {
        assert cells[|cells| - 1].address == Some((r, c));
      }
    }
  }

  /** Every bucket holds at least one column. */
  lemma {:induction false} CellBucketsNonEmpty(cells: seq<AddressedCell>)
    ensures forall r :: r in CellBuckets(cells) ==> exists c :: c in CellBuckets(cells)[r]
  {
    if cells != [] {
      var prefix := cells[..|cells| - 1];
      CellBucketsNonEmpty(prefix);
      var last := cells[|cells| - 1];
      if last.address.Some? {
        var (r, c) := last.address.value;
        assert c in CellBuckets(cells)[r];
      }
    }
  }

  /** The cell strategy read declaratively: row `i` belongs to the `i`-th
      smallest row index that occurs, and its entry `j` is the last text
      written at the `j`-th smallest column of that row. */
  lemma CellRowsSpec(cells: seq<AddressedCell>, i: nat, j: nat)
    requires i < |CellRows(cells)|
    ensures var rowKeys := SortedSet(CellBuckets(cells).Keys);
      && |rowKeys| == |CellRows(cells)|
      && var cols := SortedSet(CellBuckets(cells)[rowKeys[i]].Keys);
      && |CellRows(cells)[i]| == |cols|
      && (j < |cols| ==>
            && HasCellAt(cells, rowKeys[i], cols[j])
            && CellRows(cells)[i][j] == Str(LastTextAt(cells, rowKeys[i], cols[j])))
  {
    var buckets := CellBuckets(cells);
    var rowKeys := SortedSet(buckets.Keys);
    RowsForSpec(buckets, rowKeys, i);
    var row := buckets[rowKeys[i]];
    assert CellRows(cells)[i] == AssembleRow(row);
    var cols := SortedSet(row.Keys);
    if j < |cols| {
      assert CellRows(cells)[i][j] == Str(row[cols[j]]);
      CellBucketsLastWins(cells, rowKeys[i], cols[j]);
    }
  }

  /** The cell strategy finds rows exactly when some cell has an address. */
  lemma CellRowsEmpty(cells: seq<AddressedCell>)
    ensures CellRows(cells) == [] <==> forall k :: 0 <= k < |cells| ==> cells[k].address.None?
  {
    if exists k :: 0 <= k < |cells| && cells[k].address.Some? {
      var k :| 0 <= k < |cells| && cells[k].address.Some?;
      var (r, c) := cells[k].address.value;
      CellBucketsLastWins(cells, r, c);
      assert r in SortedSet(CellBuckets(cells).Keys);
    } else {
      forall r | r in CellBuckets(cells) ensures false {
        CellBucketsNonEmpty(cells);
        var c :| c in CellBuckets(cells)[r];
        CellBucketsLastWins(cells, r, c);
      }
      assert CellBuckets(cells).Keys == {};
    }
  }

  /** The object-grid strategies, in order: dataframe export (an empty frame
      is a miss), list export (an empty list is a miss), cell iteration. */
  function GridObjectAttempt(g: Grid): Attempt
    requires g.GridObject?
  {
    if g.dataframe.Some? && |g.dataframe.value.columns| > 0 && |g.dataframe.value.values| > 0 then
      Found(Table(g.dataframe.value.columns, g.dataframe.value.values))
    else if g.listExport.Some? && |g.listExport.value| > 0 then
      Found(FirstRest(g.listExport.value))
    else if g.cells.Some? && |CellRows(g.cells.value)| > 0 then
      Found(FirstRest(CellRows(g.cells.value)))
    else Miss
  }

  /** All grid strategies; a missing, `None` or empty-list grid is a miss. */
  function GridAttempt(grid: Option<Grid>): Attempt
  {
    match grid
    case None => Miss
    case Some(ListGrid(items)) => if |items| == 0 then Miss else ListGridAttempt(items)
    case Some(g) => GridObjectAttempt(g)
  }

  // ---------------------------------------------------------------------
  // Markdown fallback

  const SeparatorChars: set<char> := {'|', '-', ':', ' '}

  /** The stripped lines that are not blank, in order. */
  function NonBlankLines(lines: seq<string>): (r: seq<string>)
    ensures |r| <= |lines|
    ensures forall l :: l in r ==> l != "" && Strip(l) == l
  {
    if lines == [] then []
    else
      var l := Strip(lines[0]);
      StripCharsIdempotent(lines[0], Whitespace);
      (if l != "" then [l] else []) + NonBlankLines(lines[1..])
  }

  /** A line is kept exactly when it is the non-empty stripped form of some
      input line. */
  lemma {:induction false} NonBlankLinesMembers(lines: seq<string>, l: string)
    ensures l in NonBlankLines(lines) <==> l != "" && exists k :: 0 <= k < |lines| && Strip(lines[k]) == l
  {
    if lines != [] {
      var rest := lines[1..];
      NonBlankLinesMembers(rest, l);
      if exists k :: 0 <= k < |rest| && Strip(rest[k]) == l {
        var k :| 0 <= k < |rest| && Strip(rest[k]) == l;
        assert Strip(lines[k + 1]) == l;
      }
      if exists k :: 0 <= k < |lines| && Strip(lines[k]) == l {
        var k :| 0 <= k < |lines| && Strip(lines[k]) == l;
        if k > 0 {
          assert Strip(rest[k - 1]) == l;
        }
      }
    }
  }

  /** The kept lines keep their order: the lines of two blocks are the kept
      lines of each block, one after the other. */
  lemma {:induction false} NonBlankLinesAppend(a: seq<string>, b: seq<string>)
    ensures NonBlankLines(a + b) == NonBlankLines(a) + NonBlankLines(b)
  {
    if a == [] {
      assert a + b == b;
    } else {
      assert (a + b)[0] == a[0] && (a + b)[1..] == a[1..] + b;
      NonBlankLinesAppend(a[1..], b);
    }
  }

  /** A table line: at least two pipes, and not a separator line made only
      of pipes, dashes, colons and spaces. */
  predicate IsDataLine(l: string)
  {
    Count(l, '|') > 1 && !(forall k :: 0 <= k < |l| ==> l[k] in SeparatorChars)
  }

  /** The table lines among `lines`, in order. */
  function DataLines(lines: seq<string>): (r: seq<string>)
    ensures |r| <= |lines|
    ensures forall l :: l in r <==> IsDataLine(l) && l in lines
  {
    if lines == [] then []
    else
      assert forall l :: l in lines <==> l == lines[0] || l in lines[1..];
      (if IsDataLine(lines[0]) then [lines[0]] else []) + DataLines(lines[1..])
  }

  /** The table lines keep their order: those of two blocks are the table
      lines of each block, one after the other. */
  lemma {:induction false} DataLinesAppend(a: seq<string>, b: seq<string>)
    ensures DataLines(a + b) == DataLines(a) + DataLines(b)
  {
    if a == [] {
      assert a + b == b;
    } else {
      assert (a + b)[0] == a[0] && (a + b)[1..] == a[1..] + b;
      DataLinesAppend(a[1..], b);
    }
  }

  /** The cells of a table line: outer pipes stripped, split on `|`, each
      piece stripped. */
  function LineCells(l: string): (r: seq<Value>)
    ensures |r| >= 1
  {
    var pieces := Split(StripChars(l, OneOf({'|'})), '|');
    seq(|pieces|, k requires 0 <= k < |pieces| => Str(Strip(pieces[k])))
  }

  /** The rows of some table lines, one per line, in order. */
  function LinesCells(lines: seq<string>): (r: seq<seq<Value>>)
    ensures |r| == |lines|
    ensures forall k :: 0 <= k < |lines| ==> r[k] == LineCells(lines[k])
  {
    if lines == [] then []
    else LinesCells(lines[..|lines| - 1]) + [LineCells(lines[|lines| - 1])]
  }

  /** The table lines of a markdown export. */
  function MarkdownLines(markdown: string): (r: seq<string>)
  {
    DataLines(NonBlankLines(Split(Strip(markdown), '\n')))
  }

  function MarkdownRows(markdown: string): (r: seq<seq<Value>>)
  {
    LinesCells(MarkdownLines(markdown))
  }

  /** The markdown strategy: an export holding a pipe whose table lines are
      not all separators. */
  function MarkdownTable(markdown: Option<string>): Option<Table>
  {
    if markdown.Some? && '|' in markdown.value && |MarkdownRows(markdown.value)| > 0 then
      Some(FirstRest(MarkdownRows(markdown.value)))
    else None
  }

  /** What the markdown strategy keeps: each kept line is stripped, not
      blank, holds at least two pipes and is not a separator, and the
      headers are the cells of the first kept line. */
  lemma MarkdownTableSpec(markdown: string)
    requires MarkdownTable(Some(markdown)).Some?
    ensures var lines := MarkdownLines(markdown);
      && |lines| > 0
      && MarkdownTable(Some(markdown)).value.headers == LineCells(lines[0])
      && |MarkdownTable(Some(markdown)).value.rows| == |lines| - 1
      && forall l :: l in lines ==>
           l != "" && Strip(l) == l && Count(l, '|') >= 2
           && exists p :: 0 <= p < |l| && l[p] !in SeparatorChars
  {
    var nonBlank := NonBlankLines(Split(Strip(markdown), '\n'));
    var lines := DataLines(nonBlank);
    var rows := MarkdownRows(markdown);
    assert |rows| == |lines|;
    assert rows[0] == LineCells(lines[0]);
    forall l | l in lines
      ensures l != "" && Strip(l) == l && Count(l, '|') >= 2
      ensures exists p :: 0 <= p < |l| && l[p] !in SeparatorChars
    {
      assert IsDataLine(l) && l in nonBlank;
    }
  }

  // ---------------------------------------------------------------------
  // The whole chain

  /** The result of `extract_table_structure`: `None` for a falsy input,
      for a grid strategy that raised, and when every strategy misses;
      otherwise the table found by the first strategy that succeeded. */
  function ExtractedTable(data: Option<TableData>): (r: Option<Table>)
    ensures data.None? ==> r.None?
  {
    match data
    case None => None
    case Some(d) =>
      match GridAttempt(d.grid)
      case Found(t) => Some(t)
      case Raised => None
      case Miss => MarkdownTable(d.markdown)
  }

  /** Strategy order: a grid strategy that succeeds (or raises) decides the
      result whatever the markdown export holds, and the markdown export
      decides it exactly when every grid strategy misses. */
  lemma GridBeforeMarkdown(g: Option<Grid>, md1: Option<string>, md2: Option<string>)
    ensures GridAttempt(g) != Miss ==>
      ExtractedTable(Some(TableData(g, md1))) == ExtractedTable(Some(TableData(g, md2)))
    ensures GridAttempt(g) == Miss ==>
      ExtractedTable(Some(TableData(g, md1))) == MarkdownTable(md1)
  {
  }

  // ---------------------------------------------------------------------
  // The imperative extraction

  /** Builds the rows of a list-of-lists grid cell by cell; a non-list
      entry makes the iteration raise. */
  method ExtractListRows(items: seq<GridRow>) returns (rows: Option<seq<seq<Value>>>)
    ensures rows == ListRows(items)
  {
    var extracted: seq<seq<Value>> := [];
    var i := 0;
    while i < |items|
      invariant 0 <= i <= |items|
      invariant ListRows(items[..i]) == Some(extracted)
    {
      assert items[..i + 1][..i] == items[..i];
      if !items[i].ListRow? {
        NonListRaises(items, i);
        return None;
      }
      var cells := items[i].cells;
      var row: seq<Value> := [];
      var j := 0;
      while j < |cells|
        invariant 0 <= j <= |cells|
        invariant row == RowTexts(cells[..j])
      {
        assert cells[..j + 1][..j] == cells[..j];
        row := row + [Str(CellText(cells[j]))];
        j := j + 1;
      }
      assert cells[..j] == cells;
      extracted := extracted + [row];
      i := i + 1;
    }
    assert items[..i] == items;
    rows := Some(extracted);
  }

  lemma NonListRaises(items: seq<GridRow>, i: nat)
    requires i < |items| && !items[i].ListRow?
    ensures ListRows(items) == None
  {
  }

  /** Collects `rows_from_objects`. */
  method CollectObjectRows(items: seq<GridRow>) returns (rows: seq<seq<Value>>)
    ensures rows == ObjectRows(items)
  {
    rows := [];
    var i := 0;
    while i < |items|
      invariant 0 <= i <= |items|
      invariant rows == ObjectRows(items[..i])
    {
      assert items[..i + 1][..i] == items[..i];
      match items[i] {
        case ListRow(cells) =>
          rows := rows + [cells];
        case ObjectRow(cells) =>
          var row := RowTexts(cells);
          rows := rows + [row];
        case OtherRow =>
      }
      i := i + 1;
    }
    assert items[..i] == items;
  }

  /** Fills `rows_dict`, one bucket per row index. */
  method BucketCells(cells: seq<AddressedCell>) returns (buckets: map<int, map<int, string>>)
    ensures buckets == CellBuckets(cells)
  {
    buckets := map[];
    var i := 0;
    while i < |cells|
      invariant 0 <= i <= |cells|
      invariant buckets == CellBuckets(cells[..i])
    {
      assert cells[..i + 1][..i] == cells[..i];
      if cells[i].address.Some? {
        var (r, c) := cells[i].address.value;
        ghost var before := buckets;
        if r !in buckets {
          buckets := buckets[r := map[]];
        }
        buckets := buckets[r := buckets[r][c := CellText(cells[i].value)]];
        assert buckets == Put(before, cells[i]);
      }
      i := i + 1;
    }
    assert cells[..i] == cells;
  }

  /** Turns the buckets into rows (`all_rows`), in ascending row order. */
  method AssembleRows(buckets: map<int, map<int, string>>) returns (rows: seq<seq<Value>>)
    ensures rows == BucketRows(buckets)
  {
    rows := AssembleKeys(buckets, SortedSet(buckets.Keys));
  }

  /** The loop of `AssembleRows`: one row per key, in the order of `keys`. */
  method AssembleKeys(buckets: map<int, map<int, string>>, keys: seq<int>) returns (rows: seq<seq<Value>>)
    requires forall i :: 0 <= i < |keys| ==> keys[i] in buckets
    ensures rows == RowsFor(buckets, keys)
  {
    rows := [];
    var k := 0;
    while k < |keys|
      invariant 0 <= k <= |keys|
      invariant rows == RowsFor(buckets, keys[..k])
    {
      assert keys[..k + 1][..k] == keys[..k];
      rows := rows + [AssembleRow(buckets[keys[k]])];
      k := k + 1;
    }
    assert keys[..k] == keys;
  }

  /** Fills `rows_dict` and reassembles it in ascending row and column
      order. */
  method IterateCells(cells: seq<AddressedCell>) returns (rows: seq<seq<Value>>)
    ensures rows == CellRows(cells)
  {
    var buckets := BucketCells(cells);
    rows := AssembleRows(buckets);
  }

  /** Tries the strategies that read the grid, in the source's order. */
  method TryGrid(grid: Option<Grid>) returns (a: Attempt)
    ensures a == GridAttempt(grid)
  {
    if grid.None? {
      return Miss;
    }
    var g := grid.value;
    if g.ListGrid? {
      if |g.items| == 0 {
        return Miss;
      }
      if g.items[0].ListRow? {
        var rows := ExtractListRows(g.items);
        if rows.None? {
          return Raised;
        }
        return Found(Table(rows.value[0], rows.value[1..]));
      }
      var rowsFromObjects := CollectObjectRows(g.items);
      if |rowsFromObjects| > 0 {
        return Found(Table(rowsFromObjects[0], rowsFromObjects[1..]));
      }
      return Miss;
    }
    if g.dataframe.Some? {
      var df := g.dataframe.value;
      if |df.columns| > 0 && |df.values| > 0 {
        return Found(Table(df.columns, df.values));
      }
    }
    if g.listExport.Some? {
      var rows := g.listExport.value;
      if |rows| > 0 {
        return Found(Table(rows[0], rows[1..]));
      }
    }
    if g.cells.Some? {
      var allRows := IterateCells(g.cells.value);
      if |allRows| > 0 {
        return Found(Table(allRows[0], allRows[1..]));
      }
    }
    return Miss;
  }

  /** The markdown strategy: split, strip and filter the export's lines,
      then read the cells of each table line. */
  method ParseMarkdown(markdown: Option<string>) returns (t: Option<Table>)
    ensures t == MarkdownTable(markdown)
  {
    if markdown.None? || '|' !in markdown.value {
      return None;
    }
    var lines := MarkdownLines(markdown.value);
    if lines == [] {
      return None;
    }
    var rows := CellsOfLines(lines);
    t := Some(FirstRest(rows));
  }

  /** The markdown strategy's loop: the cells of each table line, appended
      one line at a time. */
  method CellsOfLines(lines: seq<string>) returns (rows: seq<seq<Value>>)
    ensures rows == LinesCells(lines)
  {
    rows := [];
    var i := 0;
    while i < |lines|
      invariant 0 <= i <= |lines|
      invariant rows == LinesCells(lines[..i])
    {
      assert lines[..i + 1][..i] == lines[..i];
      rows := rows + [LineCells(lines[i])];
      i := i + 1;
    }
    assert lines[..i] == lines;
  }

  /** `extract_table_structure`. */
  method ExtractTableStructure(data: Option<TableData>) returns (r: Option<Table>)
    ensures r == ExtractedTable(data)
  {
    if data.None? {
      return None;
    }
    var attempt := TryGrid(data.value.grid);
    match attempt
    case Found(t) =>
      r := Some(t);
    case Raised =>
      r := None;
    case Miss =>
      r := ParseMarkdown(data.value.markdown);
  }
}
