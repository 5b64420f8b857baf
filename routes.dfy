/** The receipt routes (backend/app/api/routes.py): `/extract` runs OCR, structured extraction and
    validation and saves one receipt with its items in a single commit; `/receipts` lists the caller's
    receipts with their items; `DELETE /receipts/{id}` removes one receipt and its items. OCR engines,
    the completion endpoint, `json.loads` and fresh uuids are parameters. */
module Routes {

  import opened Wrappers
  import opened Json
  import opened Http
  import opened Dates
  import opened Schema
  import opened Gpt
  import opened Models

  // ---- /extract: the pipeline before the save ----

  datatype Upload = Upload(filename: string, contents: seq<bv8>)

  predicate EndsWith(s: string, suffix: string) {
    |suffix| <= |s| && s[|s| - |suffix|..] == suffix
  }

  /** The OCR text: the PDF path for a filename ending in `.pdf` (case-sensitive), the image path for any
      other; either may fail, with its exception text. */
  function OcrText(upload: Upload, ocrPdf: seq<bv8> -> Result<string, string>,
                   ocrImage: seq<bv8> -> Result<string, string>): (r: Result<string, string>)
    ensures EndsWith(upload.filename, ".pdf") ==> r == ocrPdf(upload.contents)
    ensures !EndsWith(upload.filename, ".pdf") ==> r == ocrImage(upload.contents)
  {
    if EndsWith(upload.filename, ".pdf") then ocrPdf(upload.contents) else ocrImage(upload.contents)
  }

  /** The suffix test is case-sensitive: an upload named `X.PDF` goes through image OCR. */
  lemma UpperCasePdfUsesImageOcr(upload: Upload, ocrPdf: seq<bv8> -> Result<string, string>,
                                 ocrImage: seq<bv8> -> Result<string, string>)
    ensures EndsWith(upload.filename, ".PDF") ==> OcrText(upload, ocrPdf, ocrImage) == ocrImage(upload.contents)
  {
    if EndsWith(upload.filename, ".PDF") {
      assert upload.filename[|upload.filename| - 1] == 'F';
    }
  }

  const FallbackDate: string := "2025-08-02"

  /** `if gpt_output.get("date", "") == "": gpt_output["date"] = "2025-08-02"`: a missing or empty date
      becomes the fallback; any other value, null included, is left for validation. */
  function WithDateFallback(fields: map<string, Json>): (f: map<string, Json>)
    ensures f.Keys == fields.Keys + {"date"}
    ensures ("date" !in fields || fields["date"] == JString("")) ==> f["date"] == JString(FallbackDate)
    ensures ("date" in fields && fields["date"] != JString("")) ==> f["date"] == fields["date"]
    ensures forall k :: k in fields && k != "date" ==> f[k] == fields[k]
  {
    if "date" !in fields || fields["date"] == JString("") then fields["date" := JString(FallbackDate)] else fields
  }

  /** The fallback is itself a calendar date, so a reply missing its date still validates on the other fields. */
  lemma MissingDateUsesFallback(fields: map<string, Json>)
    requires "date" !in fields || fields["date"] == JString("")
    requires HasString(fields, "merchant") && HasNumber(fields, "total")
    requires "items" in fields && fields["items"].JArray?
    requires forall k :: 0 <= k < |fields["items"].elems| ==> ValidItem(fields["items"].elems[k])
    ensures ValidateReceipt(JObject(WithDateFallback(fields))).Success?
    ensures ValidateReceipt(JObject(WithDateFallback(fields))).value.date == Date(2025, 8, 2)
  {
    var f := WithDateFallback(fields);
    assert Digits(FallbackDate, 0, 4) == 2025 by { DigitsFour(FallbackDate, 0); }
    assert Digits(FallbackDate, 5, 2) == 8 by { DigitsTwo(FallbackDate, 5); }
    assert Digits(FallbackDate, 8, 2) == 2 by { DigitsTwo(FallbackDate, 8); }
    assert ParseDate(FallbackDate) == Some(Date(2025, 8, 2));
  }

  /** What the pipeline hands to the save: the OCR text and the validated data. */
  datatype Extracted = Extracted(ocrText: string, data: ReceiptData)

  /** The outer `except`: every exception in the `try` becomes 500 "Extraction failed: <str(e)>". */
  function ExtractionFailed(reason: string): (e: HttpError)
    ensures e.status == 500
    ensures e.detail == "Extraction failed: " + reason && e.headers == map[]
  {
    Raise(500, "Extraction failed: " + reason)
  }

  /** `str()` of the 422 HTTPException that a schema failure raises inside the `try`. */
  const SchemaFailureText: string := "422: Invalid GPT output schema."

  /** The extractor's output as the route sees it: `gpt_output.get` works only on a dict. */
  predicate IsObject(o: Option<Json>) {
    o.Some? && o.value.JObject?
  }

  /** Lines 30-57 of `extract_receipt`: OCR, extraction, date fallback, validation. Every failure,
      the schema's 422 included, surfaces as a 500. */
  function Extraction(upload: Upload, ocrPdf: seq<bv8> -> Result<string, string>,
                      ocrImage: seq<bv8> -> Result<string, string>,
                      complete: seq<Message> -> Reply, loads: string -> Option<Json>): (r: Result<Extracted, HttpError>)
    ensures r.Failure? ==> r.error.status == 500
    ensures r.Success? <==>
      (var ocr := OcrText(upload, ocrPdf, ocrImage);
       ocr.Success? &&
       var out := ExtractStructuredData(ocr.value, complete, loads);
       IsObject(out) && ValidReceipt(JObject(WithDateFallback(out.value.fields))))
    ensures r.Success? ==>
      && OcrText(upload, ocrPdf, ocrImage) == Success(r.value.ocrText)
      && var out := ExtractStructuredData(r.value.ocrText, complete, loads);
         IsObject(out) && ValidateReceipt(JObject(WithDateFallback(out.value.fields))) == Success(r.value.data)
    ensures
      (var ocr := OcrText(upload, ocrPdf, ocrImage);
       ocr.Success? &&
       var out := ExtractStructuredData(ocr.value, complete, loads);
       IsObject(out) && !ValidReceipt(JObject(WithDateFallback(out.value.fields))))
      ==> r == Failure(ExtractionFailed(SchemaFailureText))
  {
    match OcrText(upload, ocrPdf, ocrImage)
    case Failure(reason) => Failure(ExtractionFailed(reason))
    case Success(ocrText) =>
      match ExtractStructuredData(ocrText, complete, loads)
      case None => Failure(ExtractionFailed("'NoneType' object has no attribute 'get'"))
      case Some(gptOutput) =>
        if !gptOutput.JObject? then Failure(ExtractionFailed("'" + TypeName(gptOutput) + "' object has no attribute 'get'"))
        else
          match ValidateReceipt(JObject(WithDateFallback(gptOutput.fields)))
          case Failure(_) => Failure(ExtractionFailed(SchemaFailureText))
          case Success(validated) => Success(Extracted(ocrText, validated))
  }

  // ---- /extract: the save ----

  /** The item rows the loop adds, one per validated item, each under its fresh id and pointing at `rid`. */
  function ItemRows(rid: Uuid, ids: seq<Uuid>, data: seq<ItemData>): (rows: map<Uuid, Item>)
    requires |data| <= |ids| && NoDuplicates(ids)
    ensures rows.Keys == set k | 0 <= k < |data| :: ids[k]
    ensures forall k :: 0 <= k < |data| ==>
      rows[ids[k]] == Item(ids[k], rid, data[k].name, data[k].quantity, data[k].price)
  {
    if data == [] then map[]
    else
      var n := |data| - 1;
      var prev := ItemRows(rid, ids, data[..n]);
      IdsPrefixStep(ids, n);
      assert forall k :: 0 <= k < n ==> data[..n][k] == data[k];
      assert ids[n] !in prev;
      prev[ids[n] := Item(ids[n], rid, data[n].name, data[n].quantity, data[n].price)]
  }

  /** One row per validated item: the fresh ids are distinct, so no row overwrites another. */
  lemma {:induction false} ItemRowsCount(rid: Uuid, ids: seq<Uuid>, data: seq<ItemData>)
    requires |data| <= |ids| && NoDuplicates(ids)
    ensures |ItemRows(rid, ids, data)| == |data|
  {
    if data != [] {
      var n := |data| - 1;
      ItemRowsCount(rid, ids, data[..n]);
      assert ids[n] !in ItemRows(rid, ids, data[..n]);
    }
  }

  lemma IdsPrefixStep(ids: seq<Uuid>, n: nat)
    requires n < |ids|
    ensures (set k | 0 <= k < n + 1 :: ids[k]) == (set k | 0 <= k < n :: ids[k]) + {ids[n]}
  {
  }

  lemma ItemRowsStep(rid: Uuid, ids: seq<Uuid>, data: seq<ItemData>, k: nat)
    requires k < |data| <= |ids| && NoDuplicates(ids)
    ensures ItemRows(rid, ids, data[..k + 1]) ==
      ItemRows(rid, ids, data[..k])[ids[k] := Item(ids[k], rid, data[k].name, data[k].quantity, data[k].price)]
  {
    assert data[..k + 1][..k] == data[..k];
  }

  lemma UnionUpdate<K, V>(a: map<K, V>, b: map<K, V>, k: K, v: V)
    ensures (a + b)[k := v] == a + b[k := v]
  {
  }

  /** The `for item in validated.items` loop: each `session.add(Item(...))` joins the pending rows. */
  method AddItemRows(pending: map<Uuid, Item>, rid: Uuid, ids: seq<Uuid>, data: seq<ItemData>)
      returns (added: map<Uuid, Item>)
    requires |data| <= |ids| && NoDuplicates(ids)
    ensures added == pending + ItemRows(rid, ids, data)
  {
    added := pending;
    var k := 0;
    while k < |data|
      invariant 0 <= k <= |data|
      invariant added == pending + ItemRows(rid, ids, data[..k])
    {
      var item := data[k];
      ItemRowsStep(rid, ids, data, k);
      UnionUpdate(pending, ItemRows(rid, ids, data[..k]), ids[k], Item(ids[k], rid, item.name, item.quantity, item.price));
      added := added[ids[k] := Item(ids[k], rid, item.name, item.quantity, item.price)];
      k := k + 1;
    }
    assert data[..k] == data;
  }

  /** The receipt row the route adds for the caller. */
  function ReceiptRow(receiptId: Uuid, caller: User, filename: string, ex: Extracted, now: Timestamp): (r: Receipt)
    ensures r.id == receiptId && r.userId == caller.id && r.filename == filename
    ensures r.merchant == ex.data.merchant && r.date == Some(ex.data.date) && r.total == ex.data.total
    ensures r.rawOcrText == ex.ocrText
  {
    Receipt(receiptId, caller.id, filename, ex.data.merchant, Some(ex.data.date), ex.data.total, ex.ocrText, now)
  }

  /** `POST /extract`: on success exactly one receipt for the caller and one item per validated item are
      committed together, and the body is the validated data; on any failure nothing is written. */
  method ExtractReceipt(
      session: Session, caller: User, upload: Upload,
      ocrPdf: seq<bv8> -> Result<string, string>, ocrImage: seq<bv8> -> Result<string, string>,
      complete: seq<Message> -> Reply, loads: string -> Option<Json>,
      receiptId: Uuid, itemIds: seq<Uuid>, now: Timestamp)
      returns (r: Result<Json, HttpError>)
    requires session.Valid()
    requires caller.id in session.users
    requires receiptId !in session.receipts
    requires NoDuplicates(itemIds) && forall k :: 0 <= k < |itemIds| ==> itemIds[k] !in session.items
    requires var ex := Extraction(upload, ocrPdf, ocrImage, complete, loads);
      ex.Success? ==> |ex.value.data.items| <= |itemIds|
    modifies session
    ensures session.Valid()
    ensures var ex := Extraction(upload, ocrPdf, ocrImage, complete, loads);
      && (r.Success? <==> ex.Success?)
      && (r.Failure? ==> r.error == ex.error && session.Snapshot() == old(session.Snapshot()))
      && (r.Success? ==>
            && ValidDate(ex.value.data.date)
            && r.value == DumpReceipt(ex.value.data)
            && session.Snapshot() == WithReceipt(old(session.Snapshot()),
                 ReceiptRow(receiptId, caller, upload.filename, ex.value, now),
                 ItemRows(receiptId, itemIds, ex.value.data.items)))
  {
    var outcome := Extraction(upload, ocrPdf, ocrImage, complete, loads);
    if outcome.Failure? {
      return Failure(outcome.error);
    }
    var validated := outcome.value.data;
    assert ValidDate(validated.date);
    var receipt := ReceiptRow(receiptId, caller, upload.filename, outcome.value, now);
    // session.add(receipt) and one session.add per item: pending until the commit
    var pendingReceipts := session.receipts[receiptId := receipt];
    var pendingItems := AddItemRows(session.items, receiptId, itemIds, validated.items);
    ghost var rows := ItemRows(receiptId, itemIds, validated.items);
    ghost var before := session.Snapshot();
    assert rows.Keys !! before.items.Keys;
    WithReceiptKeepsInv(before, receipt, rows);
    assert WithReceipt(before, receipt, rows) == Tables(session.users, pendingReceipts, pendingItems);
    session.Commit(session.users, pendingReceipts, pendingItems);
    return Success(DumpReceipt(validated));
  }

  // ---- GET /receipts ----

  datatype ItemView = ItemView(name: string, quantity: int, price: real)

  datatype ReceiptView = ReceiptView(
    id: string, filename: string, merchant: string, date: string, total: real,
    items: seq<ItemView>, createdAt: Timestamp)

  /** `str(receipt.date)`: ISO form, or "None" for a missing date. */
  function DateText(d: Option<Date>): (s: string)
    requires d.Some? ==> ValidDate(d.value)
    ensures d.None? <==> s == "None"
    ensures d.Some? ==> IsDateShape(s) && ParseDate(s) == d
  {
    if d.None? then "None" else FormatThenParse(d.value); FormatDate(d.value)
  }

  function ItemViewOf(i: Item): ItemView {
    ItemView(i.name, i.quantity, i.price)
  }

  /** The `items` list of one entry: the projections of the item rows `ids`, in that order. */
  function ItemViews(items: map<Uuid, Item>, ids: seq<Uuid>): (vs: seq<ItemView>)
    requires forall j :: 0 <= j < |ids| ==> ids[j] in items
    ensures |vs| == |ids| && forall j :: 0 <= j < |ids| ==> vs[j] == ItemViewOf(items[ids[j]])
  {
    seq(|ids|, j requires 0 <= j < |ids| => ItemViewOf(items[ids[j]]))
  }

  /** `ids` lists every item of receipt `rid` exactly once (the database returns them in no promised order). */
  predicate Enumerates(items: map<Uuid, Item>, rid: Uuid, ids: seq<Uuid>) {
    && NoDuplicates(ids)
    && (forall j :: 0 <= j < |ids| ==> ids[j] in items && items[ids[j]].receiptId == rid)
    && (forall k :: k in items && items[k].receiptId == rid ==> k in ids)
  }

  /** One entry of the listing: the receipt's columns, its date as text, and the given item projections. */
  function ReceiptViewOf(r: Receipt, items: seq<ItemView>): (v: ReceiptView)
    requires r.date.Some? ==> ValidDate(r.date.value)
    ensures v.id == r.id && v.filename == r.filename && v.merchant == r.merchant && v.total == r.total
    ensures v.items == items && v.createdAt == r.createdAt
    ensures r.date.None? <==> v.date == "None"
    ensures r.date.Some? ==> ParseDate(v.date) == r.date
  {
    ReceiptView(r.id, r.filename, r.merchant, DateText(r.date), r.total, items, r.createdAt)
  }

  function IdsOf(views: seq<ReceiptView>): (ids: seq<Uuid>)
    ensures |ids| == |views| && forall k :: 0 <= k < |views| ==> ids[k] == views[k].id
  {
    seq(|views|, k requires 0 <= k < |views| => views[k].id)
  }

  /** The per-receipt item query and the list comprehension over its rows. */
  method ItemsFor(session: Session, rid: Uuid) returns (views: seq<ItemView>, ghost ids: seq<Uuid>)
    ensures Enumerates(session.items, rid, ids)
    ensures views == ItemViews(session.items, ids)
  {
    var query := ItemsOf(session.items, rid);
    var left := query;
    views, ids := [], [];
    while left != {}
      invariant left <= query
      invariant |views| == |ids| && NoDuplicates(ids)
      invariant forall j :: 0 <= j < |ids| ==> ids[j] in query - left
      invariant forall j :: 0 <= j < |ids| ==> views[j] == ItemViewOf(session.items[ids[j]])
      invariant forall k :: k in query - left ==> k in ids
      decreases left
    {
      var k :| k in left;
      views, ids := views + [ItemViewOf(session.items[k])], ids + [k];
      left := left - {k};
    }
  }

  /** `v` is the listing entry of receipt `v.id`, whose items are exactly the rows `ids`. */
  predicate EntryOf(receipts: map<Uuid, Receipt>, items: map<Uuid, Item>, v: ReceiptView, ids: seq<Uuid>) {
    && v.id in receipts
    && (receipts[v.id].date.Some? ==> ValidDate(receipts[v.id].date.value))
    && Enumerates(items, v.id, ids)
    && v == ReceiptViewOf(receipts[v.id], ItemViews(items, ids))
  }

  /** `GET /receipts`: exactly the caller's receipts, each once, each with exactly its own items projected
      to name, quantity and price. */
  method GetAllReceipts(session: Session, caller: User) returns (results: seq<ReceiptView>, ghost itemIds: seq<seq<Uuid>>)
    requires session.Valid()
    ensures |itemIds| == |results|
    ensures NoDuplicates(IdsOf(results))
    ensures forall k :: 0 <= k < |results| ==> results[k].id in ReceiptsOf(session.receipts, caller.id)
    ensures forall rid :: rid in ReceiptsOf(session.receipts, caller.id) ==> rid in IdsOf(results)
    ensures forall k :: 0 <= k < |results| ==> EntryOf(session.receipts, session.items, results[k], itemIds[k])
  {
    var receipts := ReceiptsOf(session.receipts, caller.id);
    var left := receipts;
    results, itemIds := [], [];
    while left != {}
      invariant left <= receipts
      invariant |itemIds| == |results|
      invariant NoDuplicates(IdsOf(results))
      invariant forall k :: 0 <= k < |results| ==> results[k].id in receipts - left
      invariant forall rid :: rid in receipts - left ==> rid in IdsOf(results)
      invariant forall k :: 0 <= k < |results| ==> EntryOf(session.receipts, session.items, results[k], itemIds[k])
      decreases left
    {
      var rid :| rid in left;
      var receipt := session.receipts[rid];
      var views, ids := ItemsFor(session, rid);
      ghost var before := results;
      results := results + [ReceiptViewOf(receipt, views)];
      itemIds := itemIds + [ids];
      assert EntryOf(session.receipts, session.items, results[|before|], ids);
      assert IdsOf(results) == IdsOf(before) + [rid];
      left := left - {rid};
    }
  }

  /** The saved items as the listing projects them. */
  function DataViews(data: seq<ItemData>): (vs: seq<ItemView>)
    ensures |vs| == |data| && forall k :: 0 <= k < |data| ==> vs[k] == ItemView(data[k].name, data[k].quantity, data[k].price)
  {
    seq(|data|, k requires 0 <= k < |data| => ItemView(data[k].name, data[k].quantity, data[k].price))
  }

  /** In a duplicate-free sequence every element occurs exactly once. */
  lemma {:induction false} DistinctCount(s: seq<Uuid>, x: Uuid)
    requires NoDuplicates(s)
    ensures multiset(s)[x] == if x in s then 1 else 0
    decreases |s|
  {
    if s != [] {
      var tail := s[1..];
      assert s == [s[0]] + tail;
      assert NoDuplicates(tail) by {
        forall i, j | 0 <= i < j < |tail| ensures tail[i] != tail[j] {
          assert tail[i] == s[i + 1] && tail[j] == s[j + 1];
        }
      }
      assert s[0] !in tail by {
        forall j | 0 <= j < |tail| ensures tail[j] != s[0] {
          assert tail[j] == s[j + 1];
        }
      }
      DistinctCount(tail, x);
    }
  }

  /** Two duplicate-free sequences with the same elements are permutations of each other. */
  lemma DistinctSameElements(a: seq<Uuid>, b: seq<Uuid>)
    requires NoDuplicates(a) && NoDuplicates(b)
    requires forall x :: x in a <==> x in b
    ensures multiset(a) == multiset(b)
  {
    forall x ensures multiset(a)[x] == multiset(b)[x] {
      DistinctCount(a, x);
      DistinctCount(b, x);
    }
  }

  lemma ViewsConcat(items: map<Uuid, Item>, u: seq<Uuid>, v: seq<Uuid>)
    requires forall j :: 0 <= j < |u| ==> u[j] in items
    requires forall j :: 0 <= j < |v| ==> v[j] in items
    ensures forall j :: 0 <= j < |u + v| ==> (u + v)[j] in items
    ensures ItemViews(items, u + v) == ItemViews(items, u) + ItemViews(items, v)
  {
    assert forall j :: 0 <= j < |u + v| ==> (u + v)[j] == if j < |u| then u[j] else v[j - |u|];
  }

  /** Taking one element out of a sequence takes one occurrence out of its multiset. */
  lemma RemoveOne(b: seq<Uuid>, i: nat)
    requires i < |b|
    ensures multiset(b[..i] + b[i + 1..]) == multiset(b) - multiset{b[i]}
  {
    assert b == b[..i] + [b[i]] + b[i + 1..];
  }

  /** The views of `front + [x] + back`, with `x`'s view in the middle. */
  lemma ViewsAround(items: map<Uuid, Item>, front: seq<Uuid>, x: Uuid, back: seq<Uuid>)
    requires x in items
    requires forall j :: 0 <= j < |front| ==> front[j] in items
    requires forall j :: 0 <= j < |back| ==> back[j] in items
    ensures forall j :: 0 <= j < |front + [x] + back| ==> (front + [x] + back)[j] in items
    ensures ItemViews(items, front + [x] + back) == ItemViews(items, front) + [ItemViewOf(items[x])] + ItemViews(items, back)
  {
    var whole := front + [x] + back;
    assert forall j :: 0 <= j < |whole| ==> whole[j] == if j < |front| then front[j] else if j == |front| then x else back[j - |front| - 1];
  }

  lemma ViewsCons(items: map<Uuid, Item>, a: seq<Uuid>)
    requires a != [] && forall j :: 0 <= j < |a| ==> a[j] in items
    ensures forall j :: 0 <= j < |a[1..]| ==> a[1..][j] in items
    ensures ItemViews(items, a) == [ItemViewOf(items[a[0]])] + ItemViews(items, a[1..])
  {
    assert forall j :: 0 <= j < |a[1..]| ==> a[1..][j] == a[j + 1];
  }

  lemma UnionSwap(p: multiset<ItemView>, q: multiset<ItemView>, r: multiset<ItemView>)
    ensures p + (q + r) == q + p + r
  {
    assert forall v :: (p + (q + r))[v] == (q + p + r)[v];
  }

  /** Cutting `b` around position `i` into `front` and `back`. */
  lemma SplitAt(items: map<Uuid, Item>, b: seq<Uuid>, i: nat, front: seq<Uuid>, back: seq<Uuid>)
    requires i < |b| && forall j :: 0 <= j < |b| ==> b[j] in items
    requires front == b[..i] && back == b[i + 1..]
    ensures b == front + [b[i]] + back
    ensures forall j :: 0 <= j < |front| ==> front[j] in items
    ensures forall j :: 0 <= j < |back| ==> back[j] in items
    ensures multiset(front + back) == multiset(b) - multiset{b[i]}
  {
    assert forall j :: 0 <= j < |front| ==> front[j] == b[j];
    assert forall j :: 0 <= j < |back| ==> back[j] == b[j + i + 1];
    RemoveOne(b, i);
  }

  /** One step of the permutation argument: `a` starts with the element between `front` and `back`, and
      the rest of `a` projects like `front` and `back` together. */
  lemma PermutedStep(items: map<Uuid, Item>, a: seq<Uuid>, front: seq<Uuid>, back: seq<Uuid>)
    requires a != [] && a[0] in items
    requires forall j :: 0 <= j < |a| ==> a[j] in items
    requires forall j :: 0 <= j < |front| ==> front[j] in items
    requires forall j :: 0 <= j < |back| ==> back[j] in items
    requires multiset(ItemViews(items, a[1..])) == multiset(ItemViews(items, front)) + multiset(ItemViews(items, back))
    ensures forall j :: 0 <= j < |front + [a[0]] + back| ==> (front + [a[0]] + back)[j] in items
    ensures multiset(ItemViews(items, a)) == multiset(ItemViews(items, front + [a[0]] + back))
  {
    var x := a[0];
    ViewsCons(items, a);
    ViewsAround(items, front, x, back);
    var vx, rest, vf, vb := ItemViewOf(items[x]), ItemViews(items, a[1..]), ItemViews(items, front), ItemViews(items, back);
    assert multiset(ItemViews(items, a)) == multiset{vx} + multiset(rest);
    assert multiset(ItemViews(items, front + [x] + back)) == multiset(vf) + multiset{vx} + multiset(vb);
    UnionSwap(multiset{vx}, multiset(vf), multiset(vb));
  }

  /** Taking the first element off `a` and its copy out of `b` leaves two permutations of each other. */
  lemma TailMultiset(a: seq<Uuid>, b: seq<Uuid>, i: nat)
    requires a != [] && i < |b| && b[i] == a[0] && multiset(a) == multiset(b)
    ensures multiset(a[1..]) == multiset(b[..i] + b[i + 1..])
  {
    RemoveOne(a, 0);
    RemoveOne(b, i);
    assert a[..0] + a[1..] == a[1..];
  }

  /** Projecting a permutation of item ids gives a permutation of the views. */
  lemma {:induction false} PermutedViews(items: map<Uuid, Item>, a: seq<Uuid>, b: seq<Uuid>)
    requires forall j :: 0 <= j < |a| ==> a[j] in items
    requires forall j :: 0 <= j < |b| ==> b[j] in items
    requires multiset(a) == multiset(b)
    ensures multiset(ItemViews(items, a)) == multiset(ItemViews(items, b))
    decreases |a|
  {
    if a == [] {
      assert |b| == |multiset(b)| == 0;
      assert ItemViews(items, a) == [] == ItemViews(items, b);
    } else {
      var x := a[0];
      assert x in multiset(b);
      var i :| 0 <= i < |b| && b[i] == x;
      var front, back := b[..i], b[i + 1..];
      SplitAt(items, b, i, front, back);
      ViewsCons(items, a);
      ViewsConcat(items, front, back);
      var rest, others := a[1..], front + back;
      assert multiset(rest) == multiset(others) by { TailMultiset(a, b, i); }
      PermutedViews(items, rest, others);
      PermutedStep(items, a, front, back);
    }
  }

  /** Two complete listings of one receipt's items hold the same ids. */
  lemma EnumerationsAgree(items: map<Uuid, Item>, rid: Uuid, a: seq<Uuid>, b: seq<Uuid>)
    requires Enumerates(items, rid, a) && Enumerates(items, rid, b)
    ensures multiset(a) == multiset(b)
  {
    assert forall x :: x in a <==> x in b by {
      forall x ensures x in a <==> x in b {
        if x in a { var j :| 0 <= j < |a| && a[j] == x; }
        if x in b { var j :| 0 <= j < |b| && b[j] == x; }
      }
    }
    DistinctSameElements(a, b);
  }

  /** Rows keyed by the first `n` ids, and only those rows reference `rid`: those ids list the receipt. */
  lemma RowIdsEnumerate(items: map<Uuid, Item>, rid: Uuid, rows: map<Uuid, Item>, ids: seq<Uuid>, n: nat)
    requires n <= |ids| && NoDuplicates(ids)
    requires rows.Keys == set k | 0 <= k < n :: ids[k]
    requires ItemsOf(items, rid) == rows.Keys
    ensures Enumerates(items, rid, ids[..n])
  {
    var saved := ids[..n];
    forall j | 0 <= j < |saved| ensures saved[j] in items && items[saved[j]].receiptId == rid {
      assert saved[j] == ids[j];
      assert saved[j] in ItemsOf(items, rid);
    }
    forall k | k in items && items[k].receiptId == rid ensures k in saved {
      assert k in ItemsOf(items, rid);
      var j :| 0 <= j < n && ids[j] == k;
      assert saved[j] == k;
    }
  }

  /** Right after the save, the fresh ids used for the rows, in validation order, list the receipt's items. */
  lemma SavedIdsEnumerate(t: Tables, receipt: Receipt, ids: seq<Uuid>, data: seq<ItemData>)
    requires Inv(t) && receipt.id !in t.receipts
    requires |data| <= |ids| && NoDuplicates(ids) && forall k :: 0 <= k < |ids| ==> ids[k] !in t.items
    ensures Enumerates(WithReceipt(t, receipt, ItemRows(receipt.id, ids, data)).items, receipt.id, ids[..|data|])
  {
    var rows := ItemRows(receipt.id, ids, data);
    WithReceiptItems(t, receipt, rows, receipt.id);
    RowIdsEnumerate(WithReceipt(t, receipt, rows).items, receipt.id, rows, ids, |data|);
  }

  /** The rows written for the fresh ids, projected in validation order, are the validated items. */
  lemma SavedViews(t: Tables, receipt: Receipt, ids: seq<Uuid>, data: seq<ItemData>)
    requires |data| <= |ids| && NoDuplicates(ids)
    ensures forall j :: 0 <= j < |data| ==> ids[..|data|][j] in WithReceipt(t, receipt, ItemRows(receipt.id, ids, data)).items
    ensures ItemViews(WithReceipt(t, receipt, ItemRows(receipt.id, ids, data)).items, ids[..|data|]) == DataViews(data)
  {
    var rows := ItemRows(receipt.id, ids, data);
    var items := t.items + rows;
    var saved := ids[..|data|];
    forall j | 0 <= j < |data| ensures saved[j] in items && ItemViewOf(items[saved[j]]) == DataViews(data)[j] {
      assert saved[j] == ids[j] && ids[j] in rows.Keys;
      assert items[saved[j]] == rows[ids[j]];
    }
  }

  /** Save, then list: whatever order the database returns them in, the saved receipt's listed items are
      the validated items, each as often as it was validated. */
  lemma ListedItemsAreSavedItems(t: Tables, receipt: Receipt, ids: seq<Uuid>, data: seq<ItemData>, listed: seq<Uuid>)
    requires Inv(t) && receipt.id !in t.receipts
    requires |data| <= |ids| && NoDuplicates(ids) && forall k :: 0 <= k < |ids| ==> ids[k] !in t.items
    requires Enumerates(WithReceipt(t, receipt, ItemRows(receipt.id, ids, data)).items, receipt.id, listed)
    ensures multiset(ItemViews(WithReceipt(t, receipt, ItemRows(receipt.id, ids, data)).items, listed)) == multiset(DataViews(data))
  {
    var items := WithReceipt(t, receipt, ItemRows(receipt.id, ids, data)).items;
    var saved := ids[..|data|];
    SavedIdsEnumerate(t, receipt, ids, data);
    EnumerationsAgree(items, receipt.id, listed, saved);
    SavedViews(t, receipt, ids, data);
    PermutedViews(items, listed, saved);
  }

  // ---- DELETE /receipts/{receipt_id} ----

  /** The route's own check: the receipt exists and belongs to the caller. */
  predicate Owns(receipts: map<Uuid, Receipt>, caller: User, rid: Uuid) {
    rid in receipts && receipts[rid].userId == caller.id
  }

  /** `DELETE /receipts/{id}`: a missing receipt and another user's receipt give the same 404 and change
      nothing; otherwise the receipt and all its items go in one commit and every other row stays. */
  method DeleteReceipt(session: Session, caller: User, rid: Uuid) returns (r: Result<string, HttpError>)
    requires session.Valid()
    modifies session
    ensures session.Valid()
    ensures r.Failure? <==> !Owns(old(session.receipts), caller, rid)
    ensures r.Failure? ==> r.error == Raise(404, "Receipt not found") && session.Snapshot() == old(session.Snapshot())
    ensures r.Success? ==> r.value == "Receipt deleted" && session.Snapshot() == WithoutReceipt(old(session.Snapshot()), rid)
    ensures r.Success? ==> !Owns(session.receipts, caller, rid)
  {
    if !Owns(session.receipts, caller, rid) {
      return Failure(Raise(404, "Receipt not found"));
    }
    var related := ItemsOf(session.items, rid);
    var pending := session.items;
    var left := related;
    while left != {}
      invariant left <= related
      invariant pending.Keys == session.items.Keys - (related - left)
      invariant forall k :: k in pending ==> pending[k] == session.items[k]
      decreases left
    {
      var item :| item in left;
      pending := pending - {item};   // session.delete(item)
      left := left - {item};
    }
    ghost var before := session.Snapshot();
    WithoutReceiptKeepsInv(before, rid);
    assert pending == WithoutReceipt(before, rid).items;
    session.Commit(session.users, session.receipts - {rid}, pending);   // session.delete(receipt); session.commit()
    return Success("Receipt deleted");
  }
}
