/**
 * `DocReportGenerator._normalize`: turns a decoded API response into report
 * metadata (`source`, `count`) and a list of flat item records.
 *
 * The response is a list (every element is a candidate item), an object (the
 * object is the one candidate) or anything else (no candidates). Candidates
 * are numbered from 1 in list order; a candidate that is not an object yields
 * no record but keeps its number, so record indices can have gaps and
 * `count` is the number of candidates, not the number of records.
 */
module Normalizer {
  import opened Wrappers
  import opened PyText
  import opened JsonValue

  datatype Meta = Meta(source: string, count: nat)

  /** One record. `id`, `title` and `summary` carry the JSON value found in
      the object, so they need not be strings. */
  datatype Item = Item(index: nat, id: Json, title: Json, status: string, createdAt: string, summary: Json)

  datatype Report = Report(meta: Meta, items: seq<Item>)

  const Untitled: string := "(untitled)"
  const Published: string := "published"

  /** The id given to an object without an "id" member: "item-{i}". */
  function FallbackId(i: nat): string {
    "item-" + IntToString(i)
  }

  /** The candidate items of a response. */
  function Candidates(data: Json): seq<Json> {
    match data
    case JArray(es) => es
    case JObject(_) => [data]
    case _ => []
  }

  /** The record for the object `fields` found at 1-based position `i`. */
  function ItemOf(i: nat, fields: seq<(string, Json)>): (r: Item)
    ensures r.index == i
    ensures !HasKey(fields, "id") ==> r.id == JString(FallbackId(i))
    ensures forall k :: LastEntry(fields, "id", k) ==> r.id == fields[k].1
    ensures Truthy(r.title)
    ensures !HasKey(fields, "title") ==> r.title == JString(Untitled)
    ensures forall k :: LastEntry(fields, "title", k) ==>
              r.title == if Truthy(fields[k].1) then fields[k].1 else JString(Untitled)
    ensures r.status == Published && r.createdAt == ""
    ensures !HasKey(fields, "body") ==> r.summary == JString("")
    ensures forall k :: LastEntry(fields, "body", k) ==> r.summary == fields[k].1
  {
    var title := Get(fields, "title").GetOr(JNull);
    Item(i,
         Get(fields, "id").GetOr(JString(FallbackId(i))),
         if Truthy(title) then title else JString(Untitled),
         Published,
         "",
         Get(fields, "body").GetOr(JString("")))
  }

  /** The records of the candidates `cands`, numbered from 1: the objects
      among them, in order, each under its own position. */
  function NormalizeItems(cands: seq<Json>): (r: seq<Item>)
    ensures |r| <= |cands|
  {
    if cands == [] then []
    else
      var last := cands[|cands| - 1];
      NormalizeItems(cands[..|cands| - 1])
        + if last.JObject? then [ItemOf(|cands|, last.fields)] else []
  }

  /** `_normalize(data)` of a generator whose endpoint is `apiUrl`. */
  function Normalize(data: Json, apiUrl: string): (r: Report)
    ensures r.meta.source == apiUrl
    ensures r.meta.count == match data
                            case JArray(es) => |es|
                            case JObject(_) => 1
                            case _ => 0
    ensures r.meta.count == |Candidates(data)|
  {
    var cands := Candidates(data);
    Report(Meta(apiUrl, |cands|), NormalizeItems(cands))
  }

  /** No more records than candidates, and as many exactly when every
      candidate is an object. */
  lemma {:induction false} ItemsCount(cands: seq<Json>)
    ensures |NormalizeItems(cands)| <= |cands|
    ensures |NormalizeItems(cands)| == |cands| <==> forall k :: 0 <= k < |cands| ==> cands[k].JObject?
  {
    if forall k :: 0 <= k < |cands| ==> cands[k].JObject? {
      ItemsAllObjects(cands);
    } else {
      var k :| 0 <= k < |cands| && !cands[k].JObject?;
      ItemsSkipped(cands, k);
    }
  }

  lemma {:induction false} ItemsAllObjects(cands: seq<Json>)
    requires forall k :: 0 <= k < |cands| ==> cands[k].JObject?
    ensures |NormalizeItems(cands)| == |cands|
  {
    if cands != [] {
      var pre := cands[..|cands| - 1];
      assert forall k :: 0 <= k < |pre| ==> pre[k] == cands[k];
      ItemsAllObjects(pre);
    }
  }

  lemma {:induction false} ItemsSkipped(cands: seq<Json>, k: nat)
    requires k < |cands| && !cands[k].JObject?
    ensures |NormalizeItems(cands)| < |cands|
  {
    var pre := cands[..|cands| - 1];
    if k < |cands| - 1 {
      assert pre[k] == cands[k];
      ItemsSkipped(pre, k);
    }
  }

  /** Every record is the record of the object at its own 1-based position. */
  lemma {:induction false} ItemsFromObjects(cands: seq<Json>)
    ensures forall j :: 0 <= j < |NormalizeItems(cands)| ==>
              var it := NormalizeItems(cands)[j];
              && 1 <= it.index <= |cands|
              && cands[it.index - 1].JObject?
              && it == ItemOf(it.index, cands[it.index - 1].fields)
  {
    if cands != [] {
      var pre := cands[..|cands| - 1];
      var items := NormalizeItems(cands);
      var before := NormalizeItems(pre);
      ItemsFromObjects(pre);
      forall j | 0 <= j < |items|
        ensures 1 <= items[j].index <= |cands| && cands[items[j].index - 1].JObject?
                && items[j] == ItemOf(items[j].index, cands[items[j].index - 1].fields)
      {
        if j < |before| {
          assert items[j] == before[j];
          assert pre[before[j].index - 1] == cands[before[j].index - 1];
        }
      }
    }
  }

  /** Records keep input order: their indices strictly increase. */
  lemma {:induction false} IndicesIncreasing(cands: seq<Json>)
    ensures forall j1, j2 :: 0 <= j1 < j2 < |NormalizeItems(cands)| ==>
              NormalizeItems(cands)[j1].index < NormalizeItems(cands)[j2].index
  {
    if cands != [] {
      var pre := cands[..|cands| - 1];
      IndicesIncreasing(pre);
      ItemsFromObjects(pre);
    }
  }

  /** Every object among the candidates yields a record under its position:
      the indices missing from the records are exactly the non-objects. */
  lemma {:induction false} EveryObjectEmitted(cands: seq<Json>)
    ensures forall k :: 0 <= k < |cands| && cands[k].JObject? ==>
              exists j :: 0 <= j < |NormalizeItems(cands)| && NormalizeItems(cands)[j].index == k + 1
  {
    if cands != [] {
      var pre := cands[..|cands| - 1];
      var items := NormalizeItems(cands);
      EveryObjectEmitted(pre);
      forall k | 0 <= k < |cands| && cands[k].JObject?
        ensures exists j :: 0 <= j < |NormalizeItems(cands)| && NormalizeItems(cands)[j].index == k + 1
      {
        if k < |pre| {
          assert pre[k] == cands[k];
          var j :| 0 <= j < |NormalizeItems(pre)| && NormalizeItems(pre)[j].index == k + 1;
          assert items[j] == NormalizeItems(pre)[j];
          assert 0 <= j < |NormalizeItems(cands)| && NormalizeItems(cands)[j].index == k + 1;
        } else {
          var j := |items| - 1;
          assert 0 <= j < |NormalizeItems(cands)| && NormalizeItems(cands)[j].index == k + 1;
        }
      }
    }
  }

  /** The same result, computed as `_normalize` does: the candidates and the
      metadata are chosen by the kind of `data`, then the loop below builds
      the records. */
  method NormalizeLoop(data: Json, apiUrl: string) returns (r: Report)
    ensures r == Normalize(data, apiUrl)
  {
    var items: seq<Json>;
    var meta: Meta;
    if data.JArray? {
      items := data.elems;
      meta := Meta(apiUrl, |items|);
    } else if data.JObject? {
      items := [data];
      meta := Meta(apiUrl, 1);
    } else {
      items := [];
      meta := Meta(apiUrl, 0);
    }
    var normalized := NormalizeCandidates(items);
    r := Report(meta, normalized);
  }

  /** The loop of `_normalize`: `enumerate(items, start=1)`, appending one
      record per object and `continue`-ing past everything else. */
  method NormalizeCandidates(items: seq<Json>) returns (normalized: seq<Item>)
    ensures normalized == NormalizeItems(items)
  {
    normalized := [];
    var i := 1;
    while i <= |items|
      invariant 1 <= i <= |items| + 1
      invariant normalized == NormalizeItems(items[..i - 1])
    {
      var item := items[i - 1];
      assert items[..i][..i - 1] == items[..i - 1];
      if !item.JObject? {
        i := i + 1;
        continue;
      }
      normalized := normalized + [ItemOf(i, item.fields)];
      i := i + 1;
    }
    assert items[..i - 1] == items;
  }

  /** A list of one post: `[{"id": 1, "title": "Hello", "body": "World"}]`. */
  lemma OnePost(apiUrl: string)
    ensures var post := JObject([("id", JInt(1)), ("title", JString("Hello")), ("body", JString("World"))]);
            Normalize(JArray([post]), apiUrl)
              == Report(Meta(apiUrl, 1), [Item(1, JInt(1), JString("Hello"), "published", "", JString("World"))])
  {
    var fields := [("id", JInt(1)), ("title", JString("Hello")), ("body", JString("World"))];
    assert LastEntry(fields, "id", 0) && LastEntry(fields, "title", 1) && LastEntry(fields, "body", 2);
    assert [JObject(fields)][..0] == [];
  }

  /** An empty object is one record made entirely of fallbacks. */
  lemma EmptyObject(apiUrl: string)
    ensures Normalize(JObject([]), apiUrl)
              == Report(Meta(apiUrl, 1), [Item(1, JString("item-1"), JString("(untitled)"), "published", "", JString(""))])
  {
    assert IntToString(1) == "1";
    assert FallbackId(1) == "item-1";
    assert [JObject([])][..0] == [];
    assert ItemOf(1, []) == Item(1, JString("item-1"), JString("(untitled)"), "published", "", JString(""));
  }

  /** An "id" member is kept even when it is null: `[{"id": null}]` gives a
      record whose id is null, not "item-1". */
  lemma NullIdKept(apiUrl: string)
    ensures Normalize(JArray([JObject([("id", JNull)])]), apiUrl)
              == Report(Meta(apiUrl, 1), [Item(1, JNull, JString("(untitled)"), "published", "", JString(""))])
  {
    var fields := [("id", JNull)];
    assert LastEntry(fields, "id", 0);
    assert [JObject(fields)][..0] == [];
  }

  /** A non-object element is skipped but still counted and still numbered:
      `[5, {}]` has count 2 and one record, with index 2. */
  lemma SkippedElementKeepsNumber(apiUrl: string)
    ensures var r := Normalize(JArray([JInt(5), JObject([])]), apiUrl);
            r.meta.count == 2 && |r.items| == 1 && r.items[0].index == 2
            && r.items[0].id == JString("item-2")
  {
    var cands := [JInt(5), JObject([])];
    assert cands[..1] == [JInt(5)] && cands[..1][..0] == [];
    assert IntToString(2) == "2";
    assert NormalizeItems(cands[..1]) == [];
  }
}
