/**
 * The logical content `DocReportGenerator.format_doc` writes into the
 * document, as a sequence of blocks: the title heading, the metadata
 * paragraph, the summary table and its spacer (only when there are records),
 * then three blocks per record. Page geometry, table style, fonts, alignment
 * and bold runs are not part of the content.
 *
 * The "Generated:" and "Fetched:" timestamps are inputs, already formatted.
 */
module Renderer {
  import opened Wrappers
  import opened PyText
  import opened JsonValue
  import opened Normalizer

  /** One data row of the summary table. The index and id cells are given
      `str()` of the value; the title cell is given the title value itself. */
  datatype Row = Row(index: string, id: string, title: Json, status: string, created: string)

  /** A paragraph is the texts of its runs, in order. */
  datatype Block =
    | Heading(text: string, level: nat)
    | Paragraph(runs: seq<string>)
    | Table(header: seq<string>, rows: seq<Row>)

  /** `summary.strip()` on a record whose summary is not a string raises
      AttributeError; `index` is that record's index. */
  datatype RenderError = SummaryNotText(index: nat)

  const ReportTitle: string := "API Report Summary"
  const TableHeader: seq<string> := ["#", "ID", "Title", "Status", "Created"]
  const NoSummary: string := "(no summary available)"

  /** The runs of the metadata paragraph; the "Fetched:" run only after a
      successful fetch. */
  function MetaRuns(meta: Meta, generatedAt: string, fetchedAt: Option<string>): seq<string> {
    ["Source: " + meta.source + "\n",
     "Items: " + IntToString(meta.count) + "\n",
     "Generated: " + generatedAt + "\n"]
    + match fetchedAt
      case Some(t) => ["Fetched: " + t + "\n"]
      case None => []
  }

  function RowOf(it: Item): Row {
    Row(IntToString(it.index), Str(it.id), it.title, it.status, it.createdAt)
  }

  /** The table's data rows. */
  function Rows(items: seq<Item>): seq<Row> {
    if items == [] then [] else [RowOf(items[0])] + Rows(items[1..])
  }

  /** One table row per record, in record order: row `j` shows record `j`'s
      index, `str()` of its id, its title value, its status and its creation
      time. */
  lemma {:induction false} RowsAt(items: seq<Item>, j: nat)
    requires j < |items|
    ensures |Rows(items)| == |items|
    ensures Rows(items)[j] == Row(IntToString(items[j].index), Str(items[j].id), items[j].title,
                                  items[j].status, items[j].createdAt)
  {
    if j > 0 {
      RowsAt(items[1..], j - 1);
    } else if |items| > 1 {
      RowsAt(items[1..], 0);
    }
  }

  function TableBlocks(items: seq<Item>): seq<Block> {
    if items == [] then [] else [Table(TableHeader, Rows(items)), Paragraph([])]
  }

  function HeadingText(it: Item): string {
    IntToString(it.index) + ". " + Str(it.title)
  }

  function InfoLine(it: Item): string {
    "ID: " + Str(it.id) + " | Status: " + it.status + " | Created: " + it.createdAt + "\n"
  }

  /** The body paragraph's text: the stripped summary, or the fallback when
      nothing is left after stripping. */
  function BodyText(summary: string): (r: string)
    ensures r != []
  {
    var t := Strip(summary);
    if t == [] then NoSummary else t
  }

  /** The fallback appears exactly for all-whitespace summaries; any other
      summary is shown stripped, starting and ending with a non-space. */
  lemma BodyTextCases(summary: string)
    ensures AllSpace(summary) ==> BodyText(summary) == NoSummary
    ensures !AllSpace(summary) ==>
              && BodyText(summary) == Strip(summary)
              && !IsSpace(BodyText(summary)[0])
              && !IsSpace(BodyText(summary)[|BodyText(summary)| - 1])
  {
    StripEmptyIff(summary);
    StripEnds(summary);
  }

  /** The three blocks of a record whose summary is `summary`: heading, info
      line, body. */
  function RecordBlocks(it: Item, summary: string): (r: seq<Block>)
    ensures |r| == 3
  {
    [Heading(HeadingText(it), 2), Paragraph([InfoLine(it)]), Paragraph([BodyText(summary)])]
  }

  /** The blocks of every record, in record order. */
  function Sections(items: seq<Item>): Result<seq<Block>, RenderError> {
    if items == [] then Ok([])
    else
      var it := items[0];
      if !it.summary.JString? then Err(SummaryNotText(it.index))
      else
        match Sections(items[1..])
        case Err(e) => Err(e)
        case Ok(rest) =>
          Ok(RecordBlocks(it, it.summary.s) + rest)
  }

  /** `format_doc(report)`, given the formatted generation time and the
      formatted time of the last successful fetch, if any. */
  function Render(report: Report, generatedAt: string, fetchedAt: Option<string>): Result<seq<Block>, RenderError> {
    match Sections(report.items)
    case Err(e) => Err(e)
    case Ok(sections) =>
      Ok([Heading(ReportTitle, 0), Paragraph(MetaRuns(report.meta, generatedAt, fetchedAt))]
         + TableBlocks(report.items)
         + sections)
  }

  predicate AllSummariesText(items: seq<Item>) {
    forall j :: 0 <= j < |items| ==> items[j].summary.JString?
  }

  /** `j` is the first record whose summary is not a string. */
  predicate FirstNonText(items: seq<Item>, j: int) {
    && 0 <= j < |items|
    && !items[j].summary.JString?
    && forall m :: 0 <= m < j ==> items[m].summary.JString?
  }

  /** The record blocks can be built exactly when every summary is a string. */
  lemma {:induction false} SectionsOk(items: seq<Item>)
    ensures Sections(items).Ok? <==> AllSummariesText(items)
  {
    if items != [] && items[0].summary.JString? {
      var tail := items[1..];
      SectionsOk(tail);
      assert forall j :: 0 <= j < |tail| ==> tail[j] == items[j + 1];
    }
  }

  /** Building them stops at the first record whose summary is not a string. */
  lemma {:induction false} SectionsFirstError(items: seq<Item>)
    ensures Sections(items).Err? ==>
              exists j :: FirstNonText(items, j) && Sections(items).error == SummaryNotText(items[j].index)
  {
    if items != [] && items[0].summary.JString? {
      var tail := items[1..];
      SectionsFirstError(tail);
      if Sections(tail).Err? {
        var j :| FirstNonText(tail, j) && Sections(tail).error == SummaryNotText(tail[j].index);
        assert tail[j] == items[j + 1];
        assert FirstNonText(items, j + 1);
      }
    } else if items != [] {
      assert FirstNonText(items, 0);
    }
  }

  lemma {:induction false} SectionsLength(items: seq<Item>)
    requires Sections(items).Ok?
    ensures |Sections(items).value| == 3 * |items|
  {
    if items != [] {
      SectionsLength(items[1..]);
    }
  }

  lemma SectionsUnfold(items: seq<Item>)
    requires items != [] && Sections(items).Ok?
    ensures items[0].summary.JString? && Sections(items[1..]).Ok?
    ensures Sections(items).value == RecordBlocks(items[0], items[0].summary.s) + Sections(items[1..]).value
  {
  }

  lemma ConcatAt<X>(a: seq<X>, rest: seq<X>, k: nat)
    requires k < |rest|
    ensures (a + rest)[|a| + k] == rest[k]
  {
  }

  /** The blocks of one record, none for a record whose summary is not a string. */
  function RecordOf(it: Item): seq<Block> {
    if it.summary.JString? then RecordBlocks(it, it.summary.s) else []
  }

  function FlatMap<T, U>(xs: seq<T>, f: T -> seq<U>): seq<U> {
    if xs == [] then [] else f(xs[0]) + FlatMap(xs[1..], f)
  }

  /** When every element maps to three values, element `j`'s values sit at
      3j, 3j+1 and 3j+2. */
  lemma {:induction false} FlatMapAt<T, U>(xs: seq<T>, f: T -> seq<U>, j: nat, m: nat)
    requires forall i :: 0 <= i < |xs| ==> |f(xs[i])| == 3
    requires j < |xs| && m < 3
    ensures |FlatMap(xs, f)| == 3 * |xs|
    ensures FlatMap(xs, f)[3 * j + m] == f(xs[j])[m]
  {
    var tail := xs[1..];
    assert forall i :: 0 <= i < |tail| ==> tail[i] == xs[i + 1];
    if j > 0 {
      FlatMapAt(tail, f, j - 1, m);
    } else if |tail| > 0 {
      FlatMapAt(tail, f, 0, 0);
    }
  }

  /** The record blocks are the blocks of each record in turn. */
  lemma {:induction false} SectionsFlat(items: seq<Item>)
    requires Sections(items).Ok?
    ensures Sections(items).value == FlatMap(items, RecordOf)
  {
    if items != [] {
      SectionsUnfold(items);
      SectionsFlat(items[1..]);
    }
  }

  /** Record `j` owns blocks 3j, 3j+1 and 3j+2 of the record blocks. */
  lemma SectionsAt(items: seq<Item>, j: nat, m: nat)
    requires Sections(items).Ok? && j < |items| && m < 3
    ensures items[j].summary.JString?
    ensures 3 * j + m < |Sections(items).value|
    ensures Sections(items).value[3 * j + m] == RecordBlocks(items[j], items[j].summary.s)[m]
  {
    SectionsOk(items);
    SectionsFlat(items);
    assert forall i :: 0 <= i < |items| ==> |RecordOf(items[i])| == 3;
    FlatMapAt(items, RecordOf, j, m);
  }

  /** Rendering fails exactly when some record's summary is not a string,
      and then at the first such record. */
  lemma RenderOutcome(report: Report, generatedAt: string, fetchedAt: Option<string>)
    ensures Render(report, generatedAt, fetchedAt).Ok? <==> AllSummariesText(report.items)
    ensures Render(report, generatedAt, fetchedAt).Err? ==>
              exists j :: FirstNonText(report.items, j)
                       && Render(report, generatedAt, fetchedAt).error == SummaryNotText(report.items[j].index)
  {
    SectionsOk(report.items);
    SectionsFirstError(report.items);
  }

  /** The blocks before the records: the title, the metadata paragraph (its
      "Items:" run shows `count`, its "Fetched:" run is there only after a
      fetch), and the table with its spacer when there are records. */
  lemma RenderHead(report: Report, generatedAt: string, fetchedAt: Option<string>)
    requires Render(report, generatedAt, fetchedAt).Ok?
    ensures var b := Render(report, generatedAt, fetchedAt).value;
            var items := report.items;
            && |b| == (if items == [] then 2 else 4) + 3 * |items|
            && b[0] == Heading(ReportTitle, 0)
            && b[1].Paragraph?
            && b[1].runs[..3] == ["Source: " + report.meta.source + "\n",
                                   "Items: " + IntToString(report.meta.count) + "\n",
                                   "Generated: " + generatedAt + "\n"]
            && (fetchedAt.None? ==> |b[1].runs| == 3)
            && (fetchedAt.Some? ==> b[1].runs[3..] == ["Fetched: " + fetchedAt.value + "\n"])
            && (items != [] ==> b[2] == Table(TableHeader, Rows(items)) && b[3] == Paragraph([]))
  {
    var items := report.items;
    var runs := MetaRuns(report.meta, generatedAt, fetchedAt);
    var sections := Sections(items).value;
    var b := Render(report, generatedAt, fetchedAt).value;
    assert b == [Heading(ReportTitle, 0), Paragraph(runs)] + TableBlocks(items) + sections;
    SectionsLength(items);
  }

  /** Record `j` is rendered as its three blocks (heading "{index}. {title}",
      info line, body text), right after the blocks before the records. */
  lemma RenderRecord(report: Report, generatedAt: string, fetchedAt: Option<string>, j: nat, m: nat)
    requires Render(report, generatedAt, fetchedAt).Ok?
    requires j < |report.items| && m < 3
    ensures var b := Render(report, generatedAt, fetchedAt).value;
            var it := report.items[j];
            var top := if report.items == [] then 2 else 4;
            && it.summary.JString?
            && top + 3 * j + m < |b|
            && b[top + 3 * j + m] == RecordBlocks(it, it.summary.s)[m]
  {
    var items := report.items;
    var runs := MetaRuns(report.meta, generatedAt, fetchedAt);
    var head := [Heading(ReportTitle, 0), Paragraph(runs)] + TableBlocks(items);
    var sections := Sections(items).value;
    var b := Render(report, generatedAt, fetchedAt).value;
    assert b == head + sections;
    SectionsAt(items, j, m);
    ConcatAt(head, sections, 3 * j + m);
  }

  lemma {:induction false} SectionsHaveNoTable(items: seq<Item>)
    requires Sections(items).Ok?
    ensures forall k :: 0 <= k < |Sections(items).value| ==> !Sections(items).value[k].Table?
  {
    if items != [] {
      SectionsUnfold(items);
      SectionsHaveNoTable(items[1..]);
    }
  }

  /** The document holds a table exactly when there are records. */
  lemma RenderTableIff(report: Report, generatedAt: string, fetchedAt: Option<string>)
    requires Render(report, generatedAt, fetchedAt).Ok?
    ensures var b := Render(report, generatedAt, fetchedAt).value;
            (exists k :: 0 <= k < |b| && b[k].Table?) <==> report.items != []
  {
    var items := report.items;
    var runs := MetaRuns(report.meta, generatedAt, fetchedAt);
    var head := [Heading(ReportTitle, 0), Paragraph(runs)] + TableBlocks(items);
    var sections := Sections(items).value;
    var b := Render(report, generatedAt, fetchedAt).value;
    assert b == head + sections;
    SectionsHaveNoTable(items);
    forall k | 0 <= k < |b|
      ensures b[k].Table? <==> items != [] && k == 2
    {
      if k >= |head| {
        assert b[k] == sections[k - |head|];
      }
    }
    if items != [] {
      assert b[2].Table?;
    }
  }
}
