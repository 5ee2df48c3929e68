/**
 * The text handling of `importArtist`. The query returns every artist row
 * as JSON, joined with ","; the handler splits that string at "}," and puts
 * back the "}" each piece lost, decodes each piece, and writes a CSV: the
 * column names, then one line per row with its fields in column order.
 * JSON decoding is two parameters: `parses(piece)` says whether
 * `JSON.parse` accepts the piece, and `field(piece, column)` is the text
 * that `join` writes for the decoded piece's value of that column.
 */
module ArtistExport {
  import opened Text
  import opened Http

  /** `"}"` put back on every piece but the last. */
  function Reappend(pieces: seq<string>): (r: seq<string>)
    ensures |r| == |pieces|
    ensures forall i :: 0 <= i < |pieces| - 1 ==> r[i] == pieces[i] + "}"
    ensures |pieces| > 0 ==> r[|pieces| - 1] == pieces[|pieces| - 1]
  {
    seq(|pieces|, i requires 0 <= i < |pieces| => if i < |pieces| - 1 then pieces[i] + "}" else pieces[i])
  }

  /** `data.split("},")` followed by the re-append. */
  function Chunks(data: string): (r: seq<string>)
    ensures |r| >= 1
    ensures forall i :: 0 <= i < |r| - 1 ==> |r[i]| >= 1 && r[i][|r[i]| - 1] == '}'
  {
    Reappend(Split(data, "},"))
  }

  lemma {:induction false} ReappendJoin(pieces: seq<string>)
    requires |pieces| >= 1
    ensures Join(Reappend(pieces), ",") == Join(pieces, "},")
    decreases |pieces|
  {
    if |pieces| > 1 {
      var r := Reappend(pieces);
      ReappendJoin(pieces[1..]);
      assert r[1..] == Reappend(pieces[1..]);
      assert r[0] + "," + Join(r[1..], ",") == pieces[0] + "}," + Join(pieces[1..], "},");
    }
  }

  /** Joining the chunks with "," gives back the string the query returned. */
  lemma {:induction false} ChunksRejoin(data: string)
    ensures Join(Chunks(data), ",") == data
  {
    ReappendJoin(Split(data, "},"));
    JoinSplit(data, "},");
  }

  /** One CSV line: the cells joined by "," and a newline. */
  function CsvLine(cells: seq<string>): (r: string)
    ensures |r| == |Join(cells, ",")| + 1 && r[|r| - 1] == '\n'
  {
    Join(cells, ",") + "\n"
  }

  /** Before its newline, a line holds exactly the cells joined by ",". */
  lemma CsvLineText(cells: seq<string>)
    ensures CsvLine(cells)[..|CsvLine(cells)| - 1] == Join(cells, ",")
  {
  }

  /** The row lines, in row order; empty exactly when there are no rows. */
  function CsvRows(rows: seq<seq<string>>): (r: string)
    ensures r == "" <==> rows == []
    ensures rows != [] ==> r[|r| - 1] == '\n'
    decreases |rows|
  {
    if rows == [] then "" else CsvRows(rows[..|rows| - 1]) + CsvLine(rows[|rows| - 1])
  }

  /** The CSV text: the header line, then one line per row. */
  function Csv(columns: seq<string>, rows: seq<seq<string>>): (r: string)
    ensures r == Join(Lines(columns, rows), "\n") + "\n"
  {
    CsvIsJoinOfLines(columns, rows);
    CsvLine(columns) + CsvRows(rows)
  }

  /** `let csv = header + "\n"; rows.forEach(row => csv += row.join(",") + "\n")`. */
  method BuildCsv(columns: seq<string>, rows: seq<seq<string>>) returns (csv: string)
    ensures csv == Csv(columns, rows)
  {
    csv := Join(columns, ",") + "\n";
    for i := 0 to |rows|
      invariant csv == CsvLine(columns) + CsvRows(rows[..i])
    {
      assert rows[..i + 1][..i] == rows[..i];
      csv := csv + Join(rows[i], ",") + "\n";
    }
    assert rows[..|rows|] == rows;
  }

  /** The cells of every line, each row's fields taken in column order. */
  function Table(chunks: seq<string>, columns: seq<string>, field: (string, string) -> string): (t: seq<seq<string>>)
    ensures |t| == |chunks|
    ensures forall i :: 0 <= i < |t| ==> |t[i]| == |columns|
    ensures forall i, j :: 0 <= i < |t| && 0 <= j < |columns| ==> t[i][j] == field(chunks[i], columns[j])
  {
    seq(|chunks|, i requires 0 <= i < |chunks| =>
      seq(|columns|, j requires 0 <= j < |columns| => field(chunks[i], columns[j])))
  }

  /** The answer when a chunk is not JSON and `JSON.parse` throws. */
  const ExportFailed := Response(500, ErrorPayload("Internal Server Error"))

  /**
   * `importArtist` after the query: chunk, decode, write the CSV and send it
   * with 200. A chunk `JSON.parse` refuses (a text value holding "}," cuts
   * a row in two) ends in the catch and its 500.
   */
  method ImportArtist(data: string, columns: seq<string>, parses: string -> bool, field: (string, string) -> string)
    returns (out: Response)
    ensures (exists i :: 0 <= i < |Chunks(data)| && !parses(Chunks(data)[i])) <==> out == ExportFailed
    ensures (forall i :: 0 <= i < |Chunks(data)| ==> parses(Chunks(data)[i])) ==>
              out == Response(200, TextPayload(Csv(columns, Table(Chunks(data), columns, field))))
  {
    var chunks := Chunks(data);
    if exists i :: 0 <= i < |chunks| && !parses(chunks[i]) {
      return ExportFailed;
    }
    var rows := Table(chunks, columns, field);
    var csv := BuildCsv(columns, rows);
    out := Response(200, TextPayload(csv));
  }

  /**
   * On an empty table the query's COALESCE answers "[]": one chunk, so the
   * CSV gets one line after the header, holding whatever the decoded empty
   * array gives for each column.
   */
  lemma EmptyTableExport(columns: seq<string>, field: (string, string) -> string)
    ensures Chunks("[]") == ["[]"]
    ensures Table(Chunks("[]"), columns, field) == [seq(|columns|, j requires 0 <= j < |columns| => field("[]", columns[j]))]
  {
    var s := "[]";
    assert s[..2][0] == '[' && "},"[0] == '}';
    assert s[1..] == "]";
    assert Split(s[1..], "},") == ["]"];
    assert Split(s, "},") == [[s[0]] + "]"];
    assert [s[0]] + "]" == s;
  }

  /** The lines of the CSV: the header, then each row, then the empty rest after the last newline. */
  function Lines(columns: seq<string>, rows: seq<seq<string>>): (l: seq<string>)
    ensures |l| == |rows| + 1
    ensures l[0] == Join(columns, ",")
    ensures forall i :: 0 <= i < |rows| ==> l[i + 1] == Join(rows[i], ",")
  {
    [Join(columns, ",")] + seq(|rows|, i requires 0 <= i < |rows| => Join(rows[i], ","))
  }

  predicate NoCellHas(c: char, columns: seq<string>, rows: seq<seq<string>>) {
    && (forall j :: 0 <= j < |columns| ==> c !in columns[j])
    && (forall i, j :: 0 <= i < |rows| && 0 <= j < |rows[i]| ==> c !in rows[i][j])
  }

  lemma {:induction false} JoinSnoc(xs: seq<string>, x: string, d: string)
    requires |xs| >= 1
    ensures Join(xs + [x], d) == Join(xs, d) + d + x
    decreases |xs|
  {
    if |xs| > 1 {
      JoinSnoc(xs[1..], x, d);
      assert (xs + [x])[1..] == xs[1..] + [x];
    }
  }

  /** The lines of all rows are those of all but the last row, then the last row's line. */
  lemma LinesSnoc(columns: seq<string>, rows: seq<seq<string>>)
    requires rows != []
    ensures Lines(columns, rows) == Lines(columns, rows[..|rows| - 1]) + [Join(rows[|rows| - 1], ",")]
  {
    var front := rows[..|rows| - 1];
    var l := Lines(columns, rows);
    var r := Lines(columns, front) + [Join(rows[|rows| - 1], ",")];
    assert |l| == |r|;
    forall k | 0 <= k < |l| ensures l[k] == r[k] {
      if 0 < k < |rows| {
        assert front[k - 1] == rows[k - 1];
      }
    }
  }

  lemma {:induction false} CsvIsJoinOfLines(columns: seq<string>, rows: seq<seq<string>>)
    ensures CsvLine(columns) + CsvRows(rows) == Join(Lines(columns, rows), "\n") + "\n"
    decreases |rows|
  {
    if rows != [] {
      var front := rows[..|rows| - 1];
      var last := Join(rows[|rows| - 1], ",");
      var before := Lines(columns, front);
      CsvIsJoinOfLines(columns, front);
      LinesSnoc(columns, rows);
      JoinSnoc(before, last, "\n");
      assert CsvRows(rows) == CsvRows(front) + (last + "\n");
      assert Join(before + [last], "\n") + "\n" == (Join(before, "\n") + "\n") + (last + "\n");
    } else {
      assert Lines(columns, rows) == [Join(columns, ",")];
    }
  }

  /**
   * When no cell holds a newline, the CSV ends in a newline and splitting it
   * at newlines gives back the header and each row's line: it has exactly
   * one line more than there are rows.
   */
  lemma {:induction false} CsvLinesRecovered(columns: seq<string>, rows: seq<seq<string>>)
    requires NoCellHas('\n', columns, rows)
    ensures Split(Csv(columns, rows), "\n") == Lines(columns, rows) + [""]
    ensures |Split(Csv(columns, rows), "\n")| == |rows| + 2
  {
    var lines := Lines(columns, rows);
    JoinSnoc(lines, "", "\n");
    var all := lines + [""];
    forall k | 0 <= k < |all| ensures '\n' !in all[k] {
      if k == 0 {
        JoinExcludes(columns, ",", '\n');
      } else if k <= |rows| {
        assert all[k] == Join(rows[k - 1], ",");
        JoinExcludes(rows[k - 1], ",", '\n');
      }
    }
    SplitJoin(all, '\n');
    assert Join(all, "\n") == Csv(columns, rows);
    assert "\n" == ['\n'];
  }

  /** When no cell holds a comma, splitting a row's line at commas gives back its cells. */
  lemma {:induction false} CsvCellsRecovered(columns: seq<string>, rows: seq<seq<string>>, i: nat)
    requires NoCellHas(',', columns, rows)
    requires i < |rows| && |rows[i]| >= 1
    ensures Split(Lines(columns, rows)[i + 1], ",") == rows[i]
  {
    SplitJoin(rows[i], ',');
  }

  /** No quoting is done: a cell holding the separator comes back as two cells. */
  lemma CommaInCellSplits(a: string, b: string)
    requires ',' !in a && ',' !in b
    ensures Split(a + "," + b, ",") == [a, b]
  {
    assert a + "," + b == a + [','] + b;
    SplitAt(a, ',', b);
    SplitWithout(b, ',');
  }

  /** Writing `a + d + b` into one cell joins like the two cells `a` and `b`. */
  lemma {:induction false} JoinSplitsCell(xs: seq<string>, j: nat, a: string, b: string, d: string)
    requires j < |xs|
    ensures Join(xs[j := a + d + b], d) == Join(xs[..j] + [a, b] + xs[j + 1..], d)
    decreases j
  {
    var ys := xs[..j] + [a, b] + xs[j + 1..];
    if j == 0 {
      assert ys == [a] + ([b] + xs[1..]);
      assert ys[1..] == [b] + xs[1..];
      if |xs| > 1 {
        assert ([b] + xs[1..])[1..] == xs[1..];
        assert xs[0 := a + d + b] == [a + d + b] + xs[1..];
      }
    } else {
      var tail := xs[1..];
      JoinSplitsCell(tail, j - 1, a, b, d);
      assert xs[j := a + d + b] == [xs[0]] + tail[j - 1 := a + d + b];
      assert ys == [xs[0]] + (tail[..j - 1] + [a, b] + tail[j..]);
      assert xs[j := a + d + b][1..] == tail[j - 1 := a + d + b];
      assert ys[1..] == tail[..j - 1] + [a, b] + tail[j..];
    }
  }

  /**
   * A row line whose cell `j` holds a comma, all other cells being free of
   * one, reads back with one cell more than the row has: the comma cell
   * comes back as its two halves.
   */
  lemma {:induction false} CommaCellAddsCell(cells: seq<string>, j: nat, a: string, b: string)
    requires j < |cells| && ',' !in a && ',' !in b
    requires forall k :: 0 <= k < |cells| && k != j ==> ',' !in cells[k]
    ensures Split(Join(cells[j := a + "," + b], ","), ",") == cells[..j] + [a, b] + cells[j + 1..]
    ensures |Split(Join(cells[j := a + "," + b], ","), ",")| == |cells| + 1
  {
    var ys := cells[..j] + [a, b] + cells[j + 1..];
    JoinSplitsCell(cells, j, a, b, ",");
    forall k | 0 <= k < |ys| ensures ',' !in ys[k] {
      if k < j {
        assert ys[k] == cells[k];
      } else if k > j + 1 {
        assert ys[k] == cells[k - 1];
      }
    }
    SplitJoin(ys, ',');
    assert "," == [','];
  }
}
