/**
 * The part of `DocReportGenerator.run` between the fetch and the save: the
 * decoded response is normalised and the report is laid out.
 */
module Pipeline {
  import opened Wrappers
  import opened PyText
  import opened JsonValue
  import opened Normalizer
  import opened Renderer

  /** The document content `run` produces once the fetch returned `data` at
      the (formatted) time `fetchedAt`. A successful fetch always sets
      `last_fetch_at`, so the metadata paragraph always has its "Fetched:" run. */
  function Content(data: Json, apiUrl: string, generatedAt: string, fetchedAt: string)
    : Result<seq<Block>, RenderError>
  {
    Render(Normalize(data, apiUrl), generatedAt, Some(fetchedAt))
  }

  /** A candidate whose "body" member, if it is an object that has one, is a string. */
  predicate BodyIsText(v: Json) {
    v.JObject? ==> forall m :: 0 <= m < |v.fields| && LastEntry(v.fields, "body", m) ==> v.fields[m].1.JString?
  }

  lemma TextBodiesGiveTextSummaries(data: Json, apiUrl: string)
    requires forall k :: 0 <= k < |Candidates(data)| ==> BodyIsText(Candidates(data)[k])
    ensures AllSummariesText(Normalize(data, apiUrl).items)
  {
    var cands := Candidates(data);
    var items := Normalize(data, apiUrl).items;
    ItemsFromObjects(cands);
    forall j | 0 <= j < |items|
      ensures items[j].summary.JString?
    {
      var k := items[j].index - 1;
      var fields := cands[k].fields;
      assert BodyIsText(cands[k]);
      assert items[j] == ItemOf(k + 1, fields);
      if Get(fields, "body").Some? {
        var m :| LastEntry(fields, "body", m);
      }
    }
  }

  lemma NonTextBodyGivesNonTextSummary(data: Json, apiUrl: string, k: nat)
    requires k < |Candidates(data)| && !BodyIsText(Candidates(data)[k])
    ensures !AllSummariesText(Normalize(data, apiUrl).items)
  {
    var cands := Candidates(data);
    var items := NormalizeItems(cands);
    assert Normalize(data, apiUrl).items == items;
    var fields := cands[k].fields;
    var m :| 0 <= m < |fields| && LastEntry(fields, "body", m) && !fields[m].1.JString?;
    var j := RecordOfObject(cands, k);
    assert !items[j].summary.JString?;
  }

  /** The position among the records of the record of object `k`. */
  lemma RecordOfObject(cands: seq<Json>, k: nat) returns (j: nat)
    requires k < |cands| && cands[k].JObject?
    ensures j < |NormalizeItems(cands)| && NormalizeItems(cands)[j] == ItemOf(k + 1, cands[k].fields)
  {
    EveryObjectEmitted(cands);
    ItemsFromObjects(cands);
    j :| 0 <= j < |NormalizeItems(cands)| && NormalizeItems(cands)[j].index == k + 1;
  }

  /** Every record of a normalised response has a string summary exactly when
      no object in it has a non-string "body". */
  lemma SummariesTextIff(data: Json, apiUrl: string)
    ensures AllSummariesText(Normalize(data, apiUrl).items)
            <==> forall k :: 0 <= k < |Candidates(data)| ==> BodyIsText(Candidates(data)[k])
  {
    if forall k :: 0 <= k < |Candidates(data)| ==> BodyIsText(Candidates(data)[k]) {
      TextBodiesGiveTextSummaries(data, apiUrl);
    } else {
      var k :| 0 <= k < |Candidates(data)| && !BodyIsText(Candidates(data)[k]);
      NonTextBodyGivesNonTextSummary(data, apiUrl, k);
    }
  }

  /** A run lays out its report exactly when no object in the response has a
      non-string "body"; otherwise `.strip()` fails on the first such record. */
  lemma ContentOkIff(data: Json, apiUrl: string, generatedAt: string, fetchedAt: string)
    ensures Content(data, apiUrl, generatedAt, fetchedAt).Ok?
            <==> forall k :: 0 <= k < |Candidates(data)| ==> BodyIsText(Candidates(data)[k])
  {
    RenderOutcome(Normalize(data, apiUrl), generatedAt, Some(fetchedAt));
    SummariesTextIff(data, apiUrl);
  }

  /** `[]`: no table and no records, only the title and the metadata with
      "Items: 0". */
  lemma EmptyListContent(apiUrl: string, generatedAt: string, fetchedAt: string)
    ensures Content(JArray([]), apiUrl, generatedAt, fetchedAt)
            == Ok([Heading("API Report Summary", 0),
                   Paragraph(["Source: " + apiUrl + "\n", "Items: 0\n", "Generated: " + generatedAt + "\n",
                              "Fetched: " + fetchedAt + "\n"])])
  {
    assert IntToString(0) == "0";
    var report := Normalize(JArray([]), apiUrl);
    assert report == Report(Meta(apiUrl, 0), []);
    var runs := MetaRuns(report.meta, generatedAt, Some(fetchedAt));
    assert "Items: " + IntToString(0) + "\n" == "Items: 0\n";
    assert runs == ["Source: " + apiUrl + "\n", "Items: 0\n", "Generated: " + generatedAt + "\n",
                    "Fetched: " + fetchedAt + "\n"];
    assert Render(report, generatedAt, Some(fetchedAt))
        == Ok([Heading(ReportTitle, 0), Paragraph(runs)] + [] + []);
    assert [Heading(ReportTitle, 0), Paragraph(runs)] + [] + [] == [Heading(ReportTitle, 0), Paragraph(runs)];
  }

  /** A report with a single record whose summary is a string: title,
      metadata, a one-row table, its spacer, then the record's three blocks. */
  lemma OneRecordRender(report: Report, generatedAt: string, fetchedAt: Option<string>)
    requires |report.items| == 1 && report.items[0].summary.JString?
    ensures var it := report.items[0];
            Render(report, generatedAt, fetchedAt)
            == Ok([Heading(ReportTitle, 0), Paragraph(MetaRuns(report.meta, generatedAt, fetchedAt)),
                   Table(TableHeader, [RowOf(it)]), Paragraph([])] + RecordBlocks(it, it.summary.s))
  {
    var it := report.items[0];
    assert report.items[1..] == [];
    assert Sections(report.items) == Ok(RecordBlocks(it, it.summary.s) + []);
    assert RecordBlocks(it, it.summary.s) + [] == RecordBlocks(it, it.summary.s);
    assert Rows(report.items) == [RowOf(it)];
    var title := [Heading(ReportTitle, 0), Paragraph(MetaRuns(report.meta, generatedAt, fetchedAt))];
    var table := [Table(TableHeader, [RowOf(it)]), Paragraph([])];
    assert TableBlocks(report.items) == table;
    assert Render(report, generatedAt, fetchedAt) == Ok(title + table + RecordBlocks(it, it.summary.s));
    assert title + table == [title[0], title[1], table[0], table[1]];
  }

  lemma OnePostInfoText()
    ensures "ID: " + "1" + " | Status: " + "published" + " | Created: " + "" + "\n"
            == "ID: 1 | Status: published | Created: \n"
  {
  }

  lemma OnePostRecord(it: Item)
    requires it == Item(1, JInt(1), JString("Hello"), "published", "", JString("World"))
    ensures RowOf(it) == Row("1", "1", JString("Hello"), "published", "")
    ensures RecordBlocks(it, "World")
            == [Heading("1. Hello", 2), Paragraph(["ID: 1 | Status: published | Created: \n"]), Paragraph(["World"])]
  {
    assert IntToString(1) == "1";
    assert Str(JInt(1)) == "1";
    assert HeadingText(it) == "1. Hello";
    OnePostInfoText();
    assert TrimStart("World") == "World";
    assert TrimEnd("World") == "World";
  }

  lemma MetaRunsOne(apiUrl: string, generatedAt: string, fetchedAt: string)
    ensures MetaRuns(Meta(apiUrl, 1), generatedAt, Some(fetchedAt))
            == ["Source: " + apiUrl + "\n", "Items: 1\n", "Generated: " + generatedAt + "\n",
                "Fetched: " + fetchedAt + "\n"]
  {
    assert IntToString(1) == "1";
    assert "Items: " + "1" + "\n" == "Items: 1\n";
  }

  /** `[{"id": 1, "title": "Hello", "body": "World"}]`: one table row
      "1 | 1 | Hello | published | " and a section headed "1. Hello". */
  lemma OnePostContent(apiUrl: string, generatedAt: string, fetchedAt: string)
    ensures var post := JObject([("id", JInt(1)), ("title", JString("Hello")), ("body", JString("World"))]);
            Content(JArray([post]), apiUrl, generatedAt, fetchedAt)
            == Ok([Heading("API Report Summary", 0),
                   Paragraph(["Source: " + apiUrl + "\n", "Items: 1\n", "Generated: " + generatedAt + "\n",
                              "Fetched: " + fetchedAt + "\n"]),
                   Table(["#", "ID", "Title", "Status", "Created"],
                         [Row("1", "1", JString("Hello"), "published", "")]),
                   Paragraph([]),
                   Heading("1. Hello", 2),
                   Paragraph(["ID: 1 | Status: published | Created: \n"]),
                   Paragraph(["World"])])
  {
    OnePost(apiUrl);
    var it := Item(1, JInt(1), JString("Hello"), "published", "", JString("World"));
    var report := Report(Meta(apiUrl, 1), [it]);
    OneRecordRender(report, generatedAt, Some(fetchedAt));
    OnePostRecord(it);
    MetaRunsOne(apiUrl, generatedAt, fetchedAt);
    var runs := MetaRuns(report.meta, generatedAt, Some(fetchedAt));
    Concat4And3(Heading(ReportTitle, 0), Paragraph(runs), Table(TableHeader, [RowOf(it)]), Paragraph([]),
                Heading("1. Hello", 2), Paragraph(["ID: 1 | Status: published | Created: \n"]), Paragraph(["World"]));
  }

  lemma Concat4And3<X>(a0: X, a1: X, a2: X, a3: X, b0: X, b1: X, b2: X)
    ensures [a0, a1, a2, a3] + [b0, b1, b2] == [a0, a1, a2, a3, b0, b1, b2]
  {
  }

  lemma EmptyRecord(it: Item)
    requires it == Item(1, JString("item-1"), JString("(untitled)"), "published", "", JString(""))
    ensures RecordBlocks(it, "")
            == [Heading("1. (untitled)", 2), Paragraph(["ID: item-1 | Status: published | Created: \n"]),
                Paragraph(["(no summary available)"])]
  {
    assert IntToString(1) == "1";
    assert Str(JString("item-1")) == "item-1";
    assert Strip("") == "";
    assert HeadingText(it) == "1. (untitled)";
    EmptyInfoText();
  }

  lemma EmptyInfoText()
    ensures "ID: " + "item-1" + " | Status: " + "published" + " | Created: " + "" + "\n"
            == "ID: item-1 | Status: published | Created: \n"
  {
  }

  /** `{}`: one record of fallbacks, whose body reads "(no summary available)". */
  lemma EmptyObjectContent(apiUrl: string, generatedAt: string, fetchedAt: string)
    ensures var r := Content(JObject([]), apiUrl, generatedAt, fetchedAt);
            r.Ok? && |r.value| == 7
            && r.value[4] == Heading("1. (untitled)", 2)
            && r.value[5] == Paragraph(["ID: item-1 | Status: published | Created: \n"])
            && r.value[6] == Paragraph(["(no summary available)"])
  {
    EmptyObject(apiUrl);
    var it := Item(1, JString("item-1"), JString("(untitled)"), "published", "", JString(""));
    var report := Report(Meta(apiUrl, 1), [it]);
    OneRecordRender(report, generatedAt, Some(fetchedAt));
    EmptyRecord(it);
  }

  lemma NullIdInfoText()
    ensures "ID: " + "None" + " | Status: " + "published" + " | Created: " + "" + "\n"
            == "ID: None | Status: published | Created: \n"
  {
  }

  /** `[{"id": null}]`: the null id is kept and printed as "None", in the
      table's ID cell and in the info line. */
  lemma NullIdContent(apiUrl: string, generatedAt: string, fetchedAt: string)
    ensures var r := Content(JArray([JObject([("id", JNull)])]), apiUrl, generatedAt, fetchedAt);
            r.Ok? && |r.value| == 7
            && r.value[2] == Table(["#", "ID", "Title", "Status", "Created"],
                                   [Row("1", "None", JString("(untitled)"), "published", "")])
            && r.value[5] == Paragraph(["ID: None | Status: published | Created: \n"])
  {
    NullIdKept(apiUrl);
    var it := Item(1, JNull, JString("(untitled)"), "published", "", JString(""));
    var report := Report(Meta(apiUrl, 1), [it]);
    OneRecordRender(report, generatedAt, Some(fetchedAt));
    assert IntToString(1) == "1";
    assert Str(JNull) == "None";
    NullIdInfoText();
    assert InfoLine(it) == "ID: None | Status: published | Created: \n";
  }

  /** "Items:" shows the number of candidates, not of records: `[5, {}]`
      renders "Items: 2" over a single record numbered 2. */
  lemma CountShownNotRecords(apiUrl: string, generatedAt: string, fetchedAt: string)
    ensures var r := Content(JArray([JInt(5), JObject([])]), apiUrl, generatedAt, fetchedAt);
            r.Ok? && |r.value| == 7
            && r.value[1].runs[1] == "Items: 2\n"
            && r.value[4] == Heading("2. (untitled)", 2)
  {
    SkippedElementKeepsNumber(apiUrl);
    var report := Normalize(JArray([JInt(5), JObject([])]), apiUrl);
    var it := report.items[0];
    assert it == ItemOf(2, []);
    OneRecordRender(report, generatedAt, Some(fetchedAt));
    assert IntToString(2) == "2";
    assert HeadingText(it) == "2. (untitled)";
  }
}
