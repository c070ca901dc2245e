/**
 * The file exporters of the extension: JSON, Markdown, CSV and the PDF
 * placeholder. Each one turns a forest of mind-map nodes into the content
 * of one file and hands it to the download sink.
 */
module Exporters {
  import opened Text
  import opened Seqs

  /** A mind-map node as the exporters receive it; `depth` is stored, not derived from the nesting. */
  datatype MindMapNode = MindMapNode(id: string, text: string, children: seq<MindMapNode>, depth: nat)

  /** A node without its children: one row of the flattened map. */
  datatype Row = Row(id: string, text: string, depth: nat)

  /** The row that keeps the `id`, `text` and `depth` of `n`. */
  function RowOf(n: MindMapNode): (r: Row)
    ensures r.id == n.id && r.text == n.text && r.depth == n.depth
  {
    Row(n.id, n.text, n.depth)
  }

  /** The number of nodes of a forest, counted over every level. */
  function NodeCount(nodes: seq<MindMapNode>): nat
    decreases nodes
  {
    if nodes == [] then 0 else 1 + NodeCount(nodes[0].children) + NodeCount(nodes[1..])
  }

  /** The rows of a forest in pre-order: each node, then its children, siblings in order. */
  function Flatten(nodes: seq<MindMapNode>): seq<Row>
    decreases nodes
  {
    if nodes == [] then [] else [RowOf(nodes[0])] + Flatten(nodes[0].children) + Flatten(nodes[1..])
  }

  /** Flattening a single node yields its own row followed by the rows of its subtrees. */
  lemma FlattenOne(n: MindMapNode)
    ensures Flatten([n]) == [RowOf(n)] + Flatten(n.children)
  {
    assert [n][1..] == [];
  }

  /** Flattening distributes over the concatenation of sibling lists. */
  lemma {:induction false} FlattenAppend(a: seq<MindMapNode>, b: seq<MindMapNode>)
    ensures Flatten(a + b) == Flatten(a) + Flatten(b)
    decreases a
  {
    if a == [] {
      assert a + b == b;
    } else {
      assert (a + b)[0] == a[0];
      assert (a + b)[1..] == a[1..] + b;
      FlattenAppend(a[1..], b);
    }
  }

  /** The flattened forest has exactly one row per node. */
  lemma {:induction false} FlattenLength(nodes: seq<MindMapNode>)
    ensures |Flatten(nodes)| == NodeCount(nodes)
    decreases nodes
  {
    if nodes != [] {
      FlattenLength(nodes[0].children);
      FlattenLength(nodes[1..]);
    }
  }

  /** A downloaded file: its content, the MIME type of its blob and the file name it is saved under. */
  datatype SavedFile = SavedFile(content: string, mime: string, filename: string)

  /** The download sink of `saveAs`, and the alerts shown to the user. */
  class Downloads {
    var saved: seq<SavedFile>
    var alerts: seq<string>

    constructor ()
      ensures saved == [] && alerts == []
    {
      saved := [];
      alerts := [];
    }

    /** `saveAs(blob, filename)`: one more file is downloaded. */
    method SaveAs(content: string, mime: string, filename: string)
      modifies this
      ensures saved == old(saved) + [SavedFile(content, mime, filename)]
      ensures alerts == old(alerts)
    {
      saved := saved + [SavedFile(content, mime, filename)];
    }

    /** `alert(message)`. */
    method Alert(message: string)
      modifies this
      ensures alerts == old(alerts) + [message]
      ensures saved == old(saved)
    {
      alerts := alerts + [message];
    }
  }

  // ---------------------------------------------------------------- JSON

  /**
   * The JSON exporter saves `JSON.stringify(data, null, 2)`; the
   * serialisation itself is the parameter `stringify`.
   */
  method ExportJson(data: seq<MindMapNode>, stringify: seq<MindMapNode> -> string, sink: Downloads)
    modifies sink
    ensures sink.saved == old(sink.saved) + [SavedFile(stringify(data), "application/json", "mind-map.json")]
    ensures sink.alerts == old(sink.alerts)
  {
    var json := stringify(data);
    sink.SaveAs(json, "application/json", "mind-map.json");
  }

  // ------------------------------------------------------------ Markdown

  const MarkdownHeader: string := "# Mind Map Export\n\n"

  /** The Markdown line of one row: two spaces per stored depth, a bullet, the text. */
  function MarkdownLine(r: Row): string {
    Indent(r.depth) + "* " + r.text + "\n"
  }

  /** The Markdown lines of a run of rows, in order. */
  function MarkdownLines(rows: seq<Row>): string {
    if rows == [] then "" else MarkdownLine(rows[0]) + MarkdownLines(rows[1..])
  }

  lemma {:induction false} MarkdownLinesAppend(a: seq<Row>, b: seq<Row>)
    ensures MarkdownLines(a + b) == MarkdownLines(a) + MarkdownLines(b)
  {
    if a == [] {
      assert a + b == b;
    } else {
      assert (a + b)[0] == a[0];
      assert (a + b)[1..] == a[1..] + b;
      MarkdownLinesAppend(a[1..], b);
      Regroup(MarkdownLine(a[0]), MarkdownLines(a[1..]), MarkdownLines(b));
    }
  }

  /** The lines of a single row are its own line. */
  lemma MarkdownLinesOne(r: Row)
    ensures MarkdownLines([r]) == MarkdownLine(r)
  {
    assert [r][1..] == [];
    assert MarkdownLine(r) + "" == MarkdownLine(r);
  }

  /** The content the Markdown exporter saves for `data`. */
  function MarkdownDocument(data: seq<MindMapNode>): string {
    MarkdownHeader + MarkdownLines(Flatten(data))
  }

  /** `MarkdownExporter.formatNode`: the Markdown of one node and its subtree, built with `+=`. */
  method FormatNode(node: MindMapNode) returns (markdown: string)
    ensures markdown == MarkdownLines(Flatten([node]))
    decreases node
  {
    markdown := "";
    markdown := markdown + Indent(node.depth) + "* " + node.text + "\n";
    assert markdown == MarkdownLines([RowOf(node)] + Flatten(node.children[..0])) by {
      assert [RowOf(node)] + Flatten(node.children[..0]) == [RowOf(node)];
      MarkdownLinesOne(RowOf(node));
      assert "" + Indent(node.depth) == Indent(node.depth);
    }
    var i := 0;
    while i < |node.children|
      invariant 0 <= i <= |node.children|
      invariant markdown == MarkdownLines([RowOf(node)] + Flatten(node.children[..i]))
    {
      var child := node.children[i];
      var part := FormatNode(child);
      ghost var rows := [RowOf(node)] + Flatten(node.children[..i]);
      assert rows + Flatten([child]) == [RowOf(node)] + Flatten(node.children[..i + 1]) by {
        assert node.children[..i + 1] == node.children[..i] + [child];
        FlattenAppend(node.children[..i], [child]);
        Regroup([RowOf(node)], Flatten(node.children[..i]), Flatten([child]));
      }
      MarkdownLinesAppend(rows, Flatten([child]));
      markdown := markdown + part;
      i := i + 1;
    }
    assert node.children[..i] == node.children;
    FlattenOne(node);
  }

  /** The Markdown content of a whole forest, as `MarkdownExporter.export` builds it before saving. */
  method MarkdownContent(data: seq<MindMapNode>) returns (markdown: string)
    ensures markdown == MarkdownDocument(data)
    ensures StartsWith(markdown, MarkdownHeader)
  {
    markdown := MarkdownHeader;
    var i := 0;
    while i < |data|
      invariant 0 <= i <= |data|
      invariant markdown == MarkdownHeader + MarkdownLines(Flatten(data[..i]))
    {
      var part := FormatNode(data[i]);
      assert Flatten(data[..i + 1]) == Flatten(data[..i]) + Flatten([data[i]]) by {
        assert data[..i + 1] == data[..i] + [data[i]];
        FlattenAppend(data[..i], [data[i]]);
      }
      MarkdownLinesAppend(Flatten(data[..i]), Flatten([data[i]]));
      Regroup(MarkdownHeader, MarkdownLines(Flatten(data[..i])), part);
      markdown := markdown + part;
      i := i + 1;
    }
    assert data[..i] == data;
    assert markdown[..|MarkdownHeader|] == MarkdownHeader;
  }

  /** `MarkdownExporter.export`: saves the Markdown content once, as `mind-map.md`. */
  method ExportMarkdown(data: seq<MindMapNode>, sink: Downloads)
    modifies sink
    ensures sink.saved == old(sink.saved) + [SavedFile(MarkdownDocument(data), "text/markdown", "mind-map.md")]
    ensures sink.alerts == old(sink.alerts)
  {
    var markdown := MarkdownContent(data);
    sink.SaveAs(markdown, "text/markdown", "mind-map.md");
  }

  /** No row text contains a line break. */
  predicate SingleLineTexts(rows: seq<Row>) {
    forall i :: 0 <= i < |rows| ==> '\n' !in rows[i].text
  }

  /** When no text holds a line break, the Markdown lines of `rows` hold exactly one line break per row. */
  lemma {:induction false} MarkdownLinesBreaks(rows: seq<Row>)
    requires SingleLineTexts(rows)
    ensures multiset(MarkdownLines(rows))['\n'] == |rows|
  {
    if rows != [] {
      MarkdownLineBreak(rows[0]);
      MarkdownLinesBreaks(rows[1..]);
    }
  }

  /** A row without a line break in its text gives a line with exactly one, its last character. */
  lemma MarkdownLineBreak(r: Row)
    requires '\n' !in r.text
    ensures multiset(MarkdownLine(r))['\n'] == 1
  {
    var body := Indent(r.depth) + "* " + r.text;
    assert MarkdownLine(r) == body + "\n";
    assert '\n' !in body by {
      assert '\n' !in Indent(r.depth);
    }
  }

  /**
   * After the header, the Markdown document holds exactly one line per
   * node of the forest: one line break per node.
   */
  lemma MarkdownOneLinePerNode(data: seq<MindMapNode>)
    requires SingleLineTexts(Flatten(data))
    ensures MarkdownDocument(data) == MarkdownHeader + MarkdownLines(Flatten(data))
    ensures multiset(MarkdownLines(Flatten(data)))['\n'] == NodeCount(data)
  {
    FlattenLength(data);
    MarkdownLinesBreaks(Flatten(data));
  }

  /** The Markdown line of the `k`-th row starts where the lines before it end. */
  lemma {:induction false} MarkdownLineAt(rows: seq<Row>, k: nat)
    requires k < |rows|
    ensures MarkdownLines(rows) == MarkdownLines(rows[..k]) + MarkdownLine(rows[k]) + MarkdownLines(rows[k + 1..])
  {
    assert rows == rows[..k] + ([rows[k]] + rows[k + 1..]);
    MarkdownLinesAppend(rows[..k], [rows[k]] + rows[k + 1..]);
    assert ([rows[k]] + rows[k + 1..])[1..] == rows[k + 1..];
  }

  // ----------------------------------------------------------------- CSV

  /** The rows collected so far by `flattenNodes`: the shared `flattened` array. */
  class RowBuffer {
    var rows: seq<Row>

    constructor ()
      ensures rows == []
    {
      rows := [];
    }

    /** `flattened.push(row)`. */
    method Push(r: Row)
      modifies this
      ensures rows == old(rows) + [r]
    {
      rows := rows + [r];
    }
  }

  /** The inner `traverse` of `flattenNodes`: pushes the rows of `node`'s subtree into `buffer`. */
  method Traverse(node: MindMapNode, buffer: RowBuffer)
    modifies buffer
    ensures buffer.rows == old(buffer.rows) + Flatten([node])
    decreases node
  {
    buffer.Push(RowOf(node));
    var i := 0;
    while i < |node.children|
      invariant 0 <= i <= |node.children|
      invariant buffer.rows == old(buffer.rows) + [RowOf(node)] + Flatten(node.children[..i])
    {
      var child := node.children[i];
      Traverse(child, buffer);
      assert Flatten(node.children[..i + 1]) == Flatten(node.children[..i]) + Flatten([child]) by {
        assert node.children[..i + 1] == node.children[..i] + [child];
        FlattenAppend(node.children[..i], [child]);
      }
      Regroup(old(buffer.rows) + [RowOf(node)], Flatten(node.children[..i]), Flatten([child]));
      i := i + 1;
    }
    assert node.children[..i] == node.children;
    FlattenOne(node);
  }

  /** `CSVExporter.flattenNodes`: one row per node, in pre-order. */
  method FlattenNodes(nodes: seq<MindMapNode>) returns (flattened: seq<Row>)
    ensures flattened == Flatten(nodes)
    ensures |flattened| == NodeCount(nodes)
  {
    var buffer := new RowBuffer();
    var i := 0;
    while i < |nodes|
      invariant 0 <= i <= |nodes|
      invariant buffer.rows == Flatten(nodes[..i])
    {
      Traverse(nodes[i], buffer);
      assert nodes[..i + 1] == nodes[..i] + [nodes[i]];
      FlattenAppend(nodes[..i], [nodes[i]]);
      i := i + 1;
    }
    assert nodes[..i] == nodes;
    flattened := buffer.rows;
    FlattenLength(nodes);
  }

  const CsvHeader: string := "id,text,depth\n"

  /** The CSV line of one row: quoted id, quoted text, bare depth; quotes inside are not escaped. */
  function CsvLine(r: Row): string {
    "\"" + r.id + "\",\"" + r.text + "\"," + NatToString(r.depth) + "\n"
  }

  /** The CSV lines of a run of rows, in order. */
  function CsvLines(rows: seq<Row>): string {
    if rows == [] then "" else CsvLine(rows[0]) + CsvLines(rows[1..])
  }

  lemma {:induction false} CsvLinesAppend(a: seq<Row>, b: seq<Row>)
    ensures CsvLines(a + b) == CsvLines(a) + CsvLines(b)
  {
    if a == [] {
      assert a + b == b;
    } else {
      assert (a + b)[0] == a[0];
      assert (a + b)[1..] == a[1..] + b;
      CsvLinesAppend(a[1..], b);
      Regroup(CsvLine(a[0]), CsvLines(a[1..]), CsvLines(b));
    }
  }

  /** The content the CSV exporter saves for `data`. */
  function CsvDocument(data: seq<MindMapNode>): string {
    CsvHeader + CsvLines(Flatten(data))
  }

  /** The CSV content of a forest, as `CSVExporter.export` builds it with `+=` before saving. */
  method CsvContent(data: seq<MindMapNode>) returns (csv: string)
    ensures csv == CsvDocument(data)
    ensures StartsWith(csv, CsvHeader)
  {
    var flattenedData := FlattenNodes(data);
    csv := CsvHeader;
    var i := 0;
    while i < |flattenedData|
      invariant 0 <= i <= |flattenedData|
      invariant csv == CsvHeader + CsvLines(flattenedData[..i])
    {
      var row := flattenedData[i];
      var line := "\"" + row.id + "\",\"" + row.text + "\"," + NatToString(row.depth) + "\n";
      assert CsvLines(flattenedData[..i + 1]) == CsvLines(flattenedData[..i]) + line by {
        assert flattenedData[..i + 1] == flattenedData[..i] + [row];
        CsvLinesAppend(flattenedData[..i], [row]);
        assert [row][1..] == [];
        assert line + "" == line;
      }
      Regroup(CsvHeader, CsvLines(flattenedData[..i]), line);
      csv := csv + line;
      i := i + 1;
    }
    assert flattenedData[..i] == flattenedData;
    assert csv[..|CsvHeader|] == CsvHeader;
  }

  /** `CSVExporter.export`: saves the CSV content once, as `mind-map.csv`. */
  method ExportCsv(data: seq<MindMapNode>, sink: Downloads)
    modifies sink
    ensures sink.saved == old(sink.saved) + [SavedFile(CsvDocument(data), "text/csv", "mind-map.csv")]
    ensures sink.alerts == old(sink.alerts)
  {
    var csv := CsvContent(data);
    sink.SaveAs(csv, "text/csv", "mind-map.csv");
  }

  /** No row id or text contains a line break. */
  predicate SingleLineFields(rows: seq<Row>) {
    forall i :: 0 <= i < |rows| ==> '\n' !in rows[i].id && '\n' !in rows[i].text
  }

  /** When no field holds a line break, the CSV lines of `rows` hold exactly one line break per row. */
  lemma {:induction false} CsvLinesBreaks(rows: seq<Row>)
    requires SingleLineFields(rows)
    ensures multiset(CsvLines(rows))['\n'] == |rows|
  {
    if rows != [] {
      CsvLineBreak(rows[0]);
      CsvLinesBreaks(rows[1..]);
    }
  }

  /** A row without line breaks in its fields gives a line with exactly one, its last character. */
  lemma CsvLineBreak(r: Row)
    requires '\n' !in r.id && '\n' !in r.text
    ensures multiset(CsvLine(r))['\n'] == 1
  {
    var body := "\"" + r.id + "\",\"" + r.text + "\"," + NatToString(r.depth);
    assert CsvLine(r) == body + "\n";
    assert '\n' !in body by {
      assert '\n' !in NatToString(r.depth);
    }
  }

  /**
   * After the header line, the CSV document holds exactly one line per
   * node of the forest: one line break per node.
   */
  lemma CsvOneLinePerNode(data: seq<MindMapNode>)
    requires SingleLineFields(Flatten(data))
    ensures CsvDocument(data) == CsvHeader + CsvLines(Flatten(data))
    ensures multiset(CsvLines(Flatten(data)))['\n'] == NodeCount(data)
  {
    FlattenLength(data);
    CsvLinesBreaks(Flatten(data));
  }

  /**
   * Because embedded quotes are not escaped, two different rows can
   * produce the same CSV line: the line does not determine its row.
   */
  lemma CsvLineNotInjective()
    ensures Row("a\",\"b", "c", 0) != Row("a", "b\",\"c", 0)
    ensures CsvLine(Row("a\",\"b", "c", 0)) == CsvLine(Row("a", "b\",\"c", 0))
  {
  }

  // ----------------------------------------------------------------- PDF

  /** The PDF placeholder saves nothing; it only shows an alert. */
  method ExportPdf(data: seq<MindMapNode>, sink: Downloads)
    modifies sink
    ensures sink.saved == old(sink.saved)
    ensures sink.alerts == old(sink.alerts) + ["PDF export is not yet implemented."]
  {
    sink.Alert("PDF export is not yet implemented.");
  }
}
