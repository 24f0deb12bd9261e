/**
 * `format_table_as_keyvalue` (table_serializer.py): renders a table as
 * embedding text, an optional `Table: <caption>` line followed by one line
 * of comma-joined `Header: Value` pairs per row, the lines joined by
 * newlines.
 */
module KeyValueFormat {
  import opened Common
  import opened Strings

  /** The value in column `i` of a row; a row too short for it gives `''`. */
  function CellAt(row: seq<string>, i: nat): string
  {
    if i < |row| then row[i] else ""
  }

  /** The pair for column `i`: `header: value` after stripping both, kept
      only when neither is empty. */
  function PairAt(headers: seq<string>, row: seq<string>, i: nat): (p: Option<string>)
    requires i < |headers|
  {
    var h := Strip(headers[i]);
    var v := Strip(CellAt(row, i));
    if h != "" && v != "" then Some(Pair(h, v)) else None
  }

  /** `f"{header}: {value}"`. */
  function Pair(header: string, value: string): string
  {
    header + ": " + value
  }

  /** The kept pairs of the first `n` columns, in column order. */
  function PairsUpTo(headers: seq<string>, row: seq<string>, n: nat): seq<string>
    requires n <= |headers|
  {
    if n == 0 then []
    else
      var p := PairAt(headers, row, n - 1);
      PairsUpTo(headers, row, n - 1) + (if p.Some? then [p.value] else [])
  }

  /** The `pairs` list of one row. */
  function RowPairs(headers: seq<string>, row: seq<string>): seq<string>
  {
    PairsUpTo(headers, row, |headers|)
  }

  /** The line for one row: its pairs joined by `, `, or no line at all
      when no pair is kept. */
  function RowLine(headers: seq<string>, row: seq<string>): Option<string>
  {
    var pairs := RowPairs(headers, row);
    if |pairs| == 0 then None else Some(Join(", ", pairs))
  }

  /** The lines of the rows, in row order. */
  function RowLines(headers: seq<string>, rows: seq<seq<string>>): seq<string>
  {
    if rows == [] then []
    else
      var line := RowLine(headers, rows[|rows| - 1]);
      RowLines(headers, rows[..|rows| - 1]) + (if line.Some? then [line.value] else [])
  }

  /** The caption line, present only for a non-empty caption. */
  function CaptionLines(caption: string): seq<string>
  {
    if caption != "" then ["Table: " + caption] else []
  }

  /** The `lines` list the formatter builds. */
  function KeyValueLines(headers: seq<string>, rows: seq<seq<string>>, caption: string): seq<string>
  {
    CaptionLines(caption) + RowLines(headers, rows)
  }

  /** The formatted table text. */
  function KeyValueText(headers: seq<string>, rows: seq<seq<string>>, caption: string): string
  {
    Join("\n", KeyValueLines(headers, rows, caption))
  }

  // ---------------------------------------------------------------------
  // Properties of the format

  /** The pairs of a row are exactly the kept columns, in column order:
      `x` is a pair iff some column `i < |headers|` has non-empty stripped
      header and value and renders as `x`. */
  lemma {:induction false} PairsUpToMembers(headers: seq<string>, row: seq<string>, n: nat, x: string)
    requires n <= |headers|
    ensures x in PairsUpTo(headers, row, n) <==> exists i :: 0 <= i < n && PairAt(headers, row, i) == Some(x)
  {
    if n > 0 {
      var p := PairAt(headers, row, n - 1);
      var prefix := PairsUpTo(headers, row, n - 1);
      var kept := if p.Some? then [p.value] else [];
      assert PairsUpTo(headers, row, n) == prefix + kept;
      PairsUpToMembers(headers, row, n - 1, x);
      if x in prefix {
        var i :| 0 <= i < n - 1 && PairAt(headers, row, i) == Some(x);
        assert 0 <= i < n && PairAt(headers, row, i) == Some(x);
      } else if x in kept {
        assert 0 <= n - 1 < n && PairAt(headers, row, n - 1) == Some(x);
      }
      if exists i :: 0 <= i < n && PairAt(headers, row, i) == Some(x) {
        var i :| 0 <= i < n && PairAt(headers, row, i) == Some(x);
        if i < n - 1 {
          assert 0 <= i < n - 1 && PairAt(headers, row, i) == Some(x);
          assert x in prefix;
        } else {
          assert x in kept;
        }
      }
    }
  }

  lemma RowPairsMembers(headers: seq<string>, row: seq<string>, x: string)
    ensures x in RowPairs(headers, row) <==>
      exists i :: 0 <= i < |headers| &&
        Strip(headers[i]) != "" && Strip(CellAt(row, i)) != "" &&
        x == Pair(Strip(headers[i]), Strip(CellAt(row, i)))
  {
    PairsUpToMembers(headers, row, |headers|, x);
    if x in RowPairs(headers, row) {
      var i :| 0 <= i < |headers| && PairAt(headers, row, i) == Some(x);
      assert Strip(headers[i]) != "" && Strip(CellAt(row, i)) != "" &&
        x == Pair(Strip(headers[i]), Strip(CellAt(row, i)));
    }
    if exists i :: 0 <= i < |headers| &&
        Strip(headers[i]) != "" && Strip(CellAt(row, i)) != "" &&
        x == Pair(Strip(headers[i]), Strip(CellAt(row, i))) {
      var i :| 0 <= i < |headers| &&
        Strip(headers[i]) != "" && Strip(CellAt(row, i)) != "" &&
        x == Pair(Strip(headers[i]), Strip(CellAt(row, i)));
      assert PairAt(headers, row, i) == Some(x);
    }
  }

  /** Only the first `|headers|` cells of a row matter, and a missing cell
      behaves as `''`. */
  lemma {:induction false} PairsUpToSameCells(headers: seq<string>, row1: seq<string>, row2: seq<string>, n: nat)
    requires n <= |headers|
    requires forall i :: 0 <= i < n ==> CellAt(row1, i) == CellAt(row2, i)
    ensures PairsUpTo(headers, row1, n) == PairsUpTo(headers, row2, n)
  {
    if n > 0 {
      PairsUpToSameCells(headers, row1, row2, n - 1);
      assert PairAt(headers, row1, n - 1) == PairAt(headers, row2, n - 1);
    }
  }

  lemma RowPairsIgnoreExtraAndMissing(headers: seq<string>, row: seq<string>)
    ensures |row| >= |headers| ==> RowPairs(headers, row) == RowPairs(headers, row[..|headers|])
    ensures RowPairs(headers, row) == RowPairs(headers, row + [""])
  {
    if |row| >= |headers| {
      PairsUpToSameCells(headers, row, row[..|headers|], |headers|);
    }
    PairsUpToSameCells(headers, row, row + [""], |headers|);
  }

  /** Rows keep their order: the lines of consecutive row blocks are the
      lines of each block, one after the other. */
  lemma {:induction false} RowLinesAppend(headers: seq<string>, rows1: seq<seq<string>>, rows2: seq<seq<string>>)
    ensures RowLines(headers, rows1 + rows2) == RowLines(headers, rows1) + RowLines(headers, rows2)
  {
    if rows2 == [] {
      assert rows1 + rows2 == rows1;
    } else {
      var all := rows1 + rows2;
      assert all[..|all| - 1] == rows1 + rows2[..|rows2| - 1];
      assert all[|all| - 1] == rows2[|rows2| - 1];
      RowLinesAppend(headers, rows1, rows2[..|rows2| - 1]);
    }
  }

  /** Each row gives at most one line, so there are at most `|rows| + 1`
      lines, the caption line included. */
  lemma {:induction false} RowLinesBound(headers: seq<string>, rows: seq<seq<string>>)
    ensures |RowLines(headers, rows)| <= |rows|
    ensures |KeyValueLines(headers, rows, "")| <= |rows|
    ensures forall caption :: |KeyValueLines(headers, rows, caption)| <= |rows| + 1
  {
    if rows != [] {
      RowLinesBound(headers, rows[..|rows| - 1]);
    }
  }

  /** The joined text ends with the last part. */
  lemma {:induction false} JoinEndsWithLast(sep: string, parts: seq<string>)
    requires |parts| > 0
    ensures |Join(sep, parts)| >= |parts[|parts| - 1]|
    ensures Join(sep, parts)[|Join(sep, parts)| - |parts[|parts| - 1]|..] == parts[|parts| - 1]
  {
    if |parts| > 1 {
      JoinEndsWithLast(sep, parts[1..]);
      assert parts[1..][|parts[1..]| - 1] == parts[|parts| - 1];
    }
  }

  /** A row line is never empty and never ends in whitespace, since it ends
      with a stripped, non-empty value. */
  lemma RowLineEnd(headers: seq<string>, row: seq<string>)
    requires RowLine(headers, row).Some?
    ensures var l := RowLine(headers, row).value; |l| > 0 && !IsSpace(l[|l| - 1])
  {
    var pairs := RowPairs(headers, row);
    var last := pairs[|pairs| - 1];
    PairsUpToMembers(headers, row, |headers|, last);
    var i :| 0 <= i < |headers| && PairAt(headers, row, i) == Some(last);
    PairAtEnd(headers, row, i);
    JoinEndsWithLast(", ", pairs);
    var l := Join(", ", pairs);
    assert l[|l| - 1] == l[|l| - |last|..][|last| - 1];
  }

  /** A kept pair ends with the last character of its stripped value. */
  lemma PairAtEnd(headers: seq<string>, row: seq<string>, i: nat)
    requires i < |headers| && PairAt(headers, row, i).Some?
    ensures var p := PairAt(headers, row, i).value; |p| > 0 && !IsSpace(p[|p| - 1])
  {
    var v := Strip(CellAt(row, i));
    StripCharsSpec(CellAt(row, i), Whitespace);
    var p := Pair(Strip(headers[i]), v);
    assert p[|p| - 1] == v[|v| - 1];
  }

  lemma {:induction false} RowLinesEnd(headers: seq<string>, rows: seq<seq<string>>)
    ensures forall l :: l in RowLines(headers, rows) ==> |l| > 0 && !IsSpace(l[|l| - 1])
  {
    if rows != [] {
      var prefix := rows[..|rows| - 1];
      var line := RowLine(headers, rows[|rows| - 1]);
      RowLinesEnd(headers, prefix);
      if line.Some? {
        RowLineEnd(headers, rows[|rows| - 1]);
        assert RowLines(headers, rows) == RowLines(headers, prefix) + [line.value];
      } else {
        assert RowLines(headers, rows) == RowLines(headers, prefix);
      }
    }
  }

  /** The text starts with the line `Table: <caption>` exactly when the
      caption is non-empty: with an empty caption no line can read
      `Table: `, because every row line ends in a non-space character. */
  lemma CaptionLineIff(headers: seq<string>, rows: seq<seq<string>>, caption: string)
    ensures var lines := KeyValueLines(headers, rows, caption);
      (|lines| > 0 && lines[0] == "Table: " + caption) <==> caption != ""
  {
    var lines := KeyValueLines(headers, rows, caption);
    if caption == "" && |lines| > 0 {
      RowLinesEnd(headers, rows);
      assert lines[0] in RowLines(headers, rows);
      var t := "Table: ";
      assert t[|t| - 1] == ' ';
    }
  }

  /** Non-empty, with no whitespace at either end. */
  predicate Trimmed(s: string)
  {
    s != [] && !IsSpace(s[0]) && !IsSpace(s[|s| - 1])
  }

  /** A trimmed value is unchanged by `strip()`. */
  lemma StripKeeps(s: string)
    requires Trimmed(s)
    ensures Strip(s) == s
  {
    StripCharsFixed(s, Whitespace);
  }

  /** The line of a row of three cells under three headers, none of which
      needs stripping. */
  lemma ThreePairLine(headers: seq<string>, row: seq<string>)
    requires |headers| == 3 && |row| == 3
    requires forall i :: 0 <= i < 3 ==> Trimmed(headers[i]) && Trimmed(row[i])
    ensures RowLine(headers, row) == Some(
      (Pair(headers[0], row[0])) + ", " + ((Pair(headers[1], row[1])) + ", " + (Pair(headers[2], row[2]))))
  {
    CleanPairsStep(headers, row, 0);
    CleanPairsStep(headers, row, 1);
    CleanPairsStep(headers, row, 2);
    var pairs := RowPairs(headers, row);
    assert pairs == [Pair(headers[0], row[0]), Pair(headers[1], row[1]), Pair(headers[2], row[2])];
    var tail := pairs[1..];
    assert tail[0] == pairs[1] && tail[1..] == [pairs[2]];
    assert Join(", ", tail) == pairs[1] + ", " + pairs[2];
    assert Join(", ", pairs) == pairs[0] + ", " + Join(", ", tail);
  }

  /** A trimmed column adds its pair, unchanged by stripping. */
  lemma CleanPairsStep(headers: seq<string>, row: seq<string>, n: nat)
    requires n < |headers| <= |row|
    requires Trimmed(headers[n]) && Trimmed(row[n])
    ensures PairsUpTo(headers, row, n + 1) == PairsUpTo(headers, row, n) + [Pair(headers[n], row[n])]
  {
    StripKeeps(headers[n]);
    StripKeeps(row[n]);
    assert PairAt(headers, row, n) == Some(Pair(headers[n], row[n]));
  }

  /** `"Region: North, Q1: 100, Q2: 150"` spelled out piece by piece. */
  lemma NorthLineText()
    ensures ("Region" + ": " + "North") + ", " + (("Q1" + ": " + "100") + ", " + ("Q2" + ": " + "150"))
      == "Region: North, Q1: 100, Q2: 150"
  {
  }

  lemma SouthLineText()
    ensures ("Region" + ": " + "South") + ", " + (("Q1" + ": " + "120") + ", " + ("Q2" + ": " + "180"))
      == "Region: South, Q1: 120, Q2: 180"
  {
  }

  /** The rows of the formatter's documented example, one line each. */
  lemma SalesDataLines(headers: seq<string>, north: seq<string>, south: seq<string>)
    requires headers == ["Region", "Q1", "Q2"]
    requires north == ["North", "100", "150"] && south == ["South", "120", "180"]
    ensures RowLine(headers, north) == Some("Region: North, Q1: 100, Q2: 150")
    ensures RowLine(headers, south) == Some("Region: South, Q1: 120, Q2: 180")
  {
    assert forall i :: 0 <= i < 3 ==> Trimmed(headers[i]) && Trimmed(north[i]) && Trimmed(south[i]);
    ThreePairLine(headers, north);
    ThreePairLine(headers, south);
    NorthLineText();
    SouthLineText();
  }

  /** The example of the formatter's documentation. */
  lemma SalesDataExample(headers: seq<string>, rows: seq<seq<string>>, caption: string)
    requires headers == ["Region", "Q1", "Q2"]
    requires rows == [["North", "100", "150"], ["South", "120", "180"]]
    requires caption == "Sales Data"
    ensures KeyValueText(headers, rows, caption) ==
      "Table: " + caption + "\n" + ("Region: North, Q1: 100, Q2: 150" + "\n" + "Region: South, Q1: 120, Q2: 180")
  {
    SalesDataLines(headers, rows[0], rows[1]);
    var north := "Region: North, Q1: 100, Q2: 150";
    var south := "Region: South, Q1: 120, Q2: 180";
    var first := rows[..1];
    assert first == [rows[0]] && first[..0] == [];
    assert RowLines(headers, first) == [north];
    assert RowLines(headers, rows) == RowLines(headers, first) + [south];
    var lines := ["Table: " + caption, north, south];
    assert KeyValueLines(headers, rows, caption) == lines;
    var tail := lines[1..];
    assert tail == [north, south] && tail[1..] == [south];
    assert Join("\n", tail) == north + "\n" + south;
    assert Join("\n", lines) == lines[0] + "\n" + Join("\n", tail);
  }

  /** A short row leaves out the pairs of its missing columns. */
  lemma ShortRowExample()
    ensures KeyValueText(["Region", "Q1", "Q2"], [["North"]], "") == "Region: North"
  {
    var headers := ["Region", "Q1", "Q2"];
    var row := ["North"];
    StripKeeps("Region"); StripKeeps("North");
    StripCharsFixed("", Whitespace);
    assert Strip(headers[0]) == "Region";
    assert Strip(CellAt(row, 0)) == "North";
    assert "Region" + ": " + "North" == "Region: North";
    assert PairAt(headers, row, 0) == Some("Region: North");
    assert PairAt(headers, row, 1) == None;
    assert PairAt(headers, row, 2) == None;
    assert PairsUpTo(headers, row, 1) == ["Region: North"];
    assert PairsUpTo(headers, row, 2) == ["Region: North"];
    assert RowLine(headers, row) == Some("Region: North");
    assert [row][..0] == [];
  }

  // ---------------------------------------------------------------------
  // The imperative formatter

  /** The inner loop of `format_table_as_keyvalue`: the `pairs` of one row. */
  method CollectPairs(headers: seq<string>, row: seq<string>) returns (pairs: seq<string>)
    ensures pairs == RowPairs(headers, row)
  {
    pairs := [];
    var i := 0;
    while i < |headers|
      invariant 0 <= i <= |headers|
      invariant pairs == PairsUpTo(headers, row, i)
    {
      var value := if i < |row| then row[i] else "";
      var headerClean := Strip(headers[i]);
      var valueClean := Strip(value);
      ghost var p := PairAt(headers, row, i);
      assert PairsUpTo(headers, row, i + 1) == PairsUpTo(headers, row, i) + (if p.Some? then [p.value] else []);
      if headerClean != "" && valueClean != "" {
        assert p == Some(Pair(headerClean, valueClean));
        pairs := pairs + [Pair(headerClean, valueClean)];
      }
      i := i + 1;
    }
  }

  /** `format_table_as_keyvalue`: builds `lines`, one row at a time, and
      joins them with newlines. */
  method FormatTableAsKeyValue(headers: seq<string>, rows: seq<seq<string>>, caption: string) returns (text: string)
    ensures text == KeyValueText(headers, rows, caption)
  {
    var lines: seq<string> := [];
    if caption != "" {
      lines := lines + ["Table: " + caption];
    }
    var r := 0;
    while r < |rows|
      invariant 0 <= r <= |rows|
      invariant lines == CaptionLines(caption) + RowLines(headers, rows[..r])
    {
      assert rows[..r + 1][..r] == rows[..r];
      ghost var line := RowLine(headers, rows[r]);
      ghost var kept := if line.Some? then [line.value] else [];
      assert RowLines(headers, rows[..r + 1]) == RowLines(headers, rows[..r]) + kept;
      assert CaptionLines(caption) + RowLines(headers, rows[..r + 1])
        == CaptionLines(caption) + RowLines(headers, rows[..r]) + kept;
      var pairs := CollectPairs(headers, rows[r]);
      if |pairs| > 0 {
        lines := lines + [Join(", ", pairs)];
      }
      r := r + 1;
    }
    assert rows[..r] == rows;
    text := Join("\n", lines);
  }
}
