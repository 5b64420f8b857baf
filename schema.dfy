/** The validation contract `ReceiptData.model_validate`: four required fields, item records of name,
    quantity and price. Types are checked strictly: a string field takes only a string, an integer field
    only an integer, a float field an integer or a real, and a date field only a "YYYY-MM-DD" string. */
module Schema {

  import opened Wrappers
  import opened Json
  import opened Dates

  datatype ItemData = ItemData(name: string, quantity: int, price: real)

  datatype ReceiptData = ReceiptData(merchant: string, date: Date, items: seq<ItemData>, total: real)

  /** The first field that failed validation, and why. */
  datatype SchemaError = Missing(field: string) | WrongType(field: string)

  predicate IsNumber(j: Json) {
    j.JInt? || j.JReal?
  }

  /** The float a number field holds; an integer is widened. */
  function AsReal(j: Json): real
    requires IsNumber(j)
  {
    if j.JInt? then j.i as real else j.r
  }

  predicate IsDate(j: Json) {
    j.JString? && ParseDate(j.s).Some?
  }

  predicate HasString(fields: map<string, Json>, key: string) {
    key in fields && fields[key].JString?
  }

  predicate HasInt(fields: map<string, Json>, key: string) {
    key in fields && fields[key].JInt?
  }

  predicate HasNumber(fields: map<string, Json>, key: string) {
    key in fields && IsNumber(fields[key])
  }

  /** An item record: a name string, an integer quantity and a numeric price (extra keys are ignored). */
  predicate ValidItem(j: Json) {
    j.JObject? && HasString(j.fields, "name") && HasInt(j.fields, "quantity") && HasNumber(j.fields, "price")
  }

  /** A receipt record: merchant string, calendar date, a list of valid items and a numeric total. */
  predicate ValidReceipt(j: Json) {
    && j.JObject?
    && HasString(j.fields, "merchant")
    && "date" in j.fields && IsDate(j.fields["date"])
    && "items" in j.fields && j.fields["items"].JArray?
    && (forall k :: 0 <= k < |j.fields["items"].elems| ==> ValidItem(j.fields["items"].elems[k]))
    && HasNumber(j.fields, "total")
  }

  /** Field `key` as a string, or the reason it is not one. */
  function StringField(fields: map<string, Json>, key: string): (r: Result<string, SchemaError>)
    ensures r.Success? <==> HasString(fields, key)
    ensures r.Success? ==> fields[key] == JString(r.value)
  {
    if key !in fields then Failure(Missing(key))
    else if !fields[key].JString? then Failure(WrongType(key))
    else Success(fields[key].s)
  }

  function NumberField(fields: map<string, Json>, key: string): (r: Result<real, SchemaError>)
    ensures r.Success? <==> HasNumber(fields, key)
    ensures r.Success? ==> r.value == AsReal(fields[key])
  {
    if key !in fields then Failure(Missing(key))
    else if !IsNumber(fields[key]) then Failure(WrongType(key))
    else Success(AsReal(fields[key]))
  }

  /** `ItemData.model_validate`. */
  function ValidateItem(j: Json): (r: Result<ItemData, SchemaError>)
    ensures r.Success? <==> ValidItem(j)
    ensures r.Success? ==>
      && j.fields["name"] == JString(r.value.name)
      && j.fields["quantity"] == JInt(r.value.quantity)
      && r.value.price == AsReal(j.fields["price"])
  {
    if !j.JObject? then Failure(WrongType("item"))
    else
      var fields := j.fields;
      match StringField(fields, "name")
      case Failure(e) => Failure(e)
      case Success(name) =>
        if "quantity" !in fields then Failure(Missing("quantity"))
        else if !fields["quantity"].JInt? then Failure(WrongType("quantity"))
        else
          match NumberField(fields, "price")
          case Failure(e) => Failure(e)
          case Success(price) => Success(ItemData(name, fields["quantity"].i, price))
  }

  /** The `List[ItemData]` field: every entry must validate; one bad entry fails the whole list. */
  function ValidateItems(elems: seq<Json>): (r: Result<seq<ItemData>, SchemaError>)
    ensures r.Success? <==> forall k :: 0 <= k < |elems| ==> ValidItem(elems[k])
    ensures r.Success? ==> |r.value| == |elems|
    ensures r.Success? ==> forall k :: 0 <= k < |elems| ==> ValidateItem(elems[k]) == Success(r.value[k])
  {
    if elems == [] then Success([])
    else
      match ValidateItem(elems[0])
      case Failure(e) => Failure(e)
      case Success(first) =>
        match ValidateItems(elems[1..])
        case Failure(e) => Failure(e)
        case Success(rest) =>
          assert forall k :: 1 <= k < |elems| ==> elems[k] == elems[1..][k - 1];
          Success([first] + rest)
  }

  /** `ReceiptData.model_validate`: success exactly when every required field is there with its type. */
  function ValidateReceipt(j: Json): (r: Result<ReceiptData, SchemaError>)
    ensures r.Success? <==> ValidReceipt(j)
    ensures r.Success? ==>
      && j.fields["merchant"] == JString(r.value.merchant)
      && ValidDate(r.value.date)
      && ParseDate(j.fields["date"].s) == Some(r.value.date)
      && ValidateItems(j.fields["items"].elems) == Success(r.value.items)
      && r.value.total == AsReal(j.fields["total"])
  {
    if !j.JObject? then Failure(WrongType("receipt"))
    else
      var fields := j.fields;
      match StringField(fields, "merchant")
      case Failure(e) => Failure(e)
      case Success(merchant) =>
        if "date" !in fields then Failure(Missing("date"))
        else if !IsDate(fields["date"]) then Failure(WrongType("date"))
        else if "items" !in fields then Failure(Missing("items"))
        else if !fields["items"].JArray? then Failure(WrongType("items"))
        else
          match ValidateItems(fields["items"].elems)
          case Failure(e) => Failure(e)
          case Success(items) =>
            match NumberField(fields, "total")
            case Failure(e) => Failure(e)
            case Success(total) => Success(ReceiptData(merchant, ParseDate(fields["date"].s).value, items, total))
  }

  /** `model_dump()` of an item, as `jsonable_encoder` renders it. */
  function DumpItem(i: ItemData): (j: Json)
    ensures ValidItem(j) && j.fields.Keys == {"name", "quantity", "price"}
  {
    JObject(map["name" := JString(i.name), "quantity" := JInt(i.quantity), "price" := JReal(i.price)])
  }

  /** The dumped item list: one dumped entry per item, in order. */
  function DumpItems(items: seq<ItemData>): (r: seq<Json>)
    ensures |r| == |items|
    ensures forall k :: 0 <= k < |items| ==> r[k] == DumpItem(items[k])
  {
    if items == [] then [] else [DumpItem(items[0])] + DumpItems(items[1..])
  }

  /** `jsonable_encoder(validated.model_dump())`: the body `/extract` returns; the date in ISO form. */
  function DumpReceipt(d: ReceiptData): (j: Json)
    requires ValidDate(d.date)
    ensures j.JObject? && j.fields.Keys == {"merchant", "date", "items", "total"}
    ensures ValidReceipt(j)
    ensures j.fields["date"] == JString(FormatDate(d.date))
  {
    FormatThenParse(d.date);
    JObject(map["merchant" := JString(d.merchant), "date" := JString(FormatDate(d.date)),
                "items" := JArray(DumpItems(d.items)), "total" := JReal(d.total)])
  }

  lemma ItemRoundTrip(i: ItemData)
    ensures ValidateItem(DumpItem(i)) == Success(i)
  {
    var fields := DumpItem(i).fields;
    assert StringField(fields, "name") == Success(i.name);
    assert NumberField(fields, "price") == Success(i.price);
  }

  lemma {:induction false} ItemsRoundTrip(items: seq<ItemData>)
    ensures ValidateItems(DumpItems(items)) == Success(items)
  {
    if items != [] {
      var dumped := DumpItems(items);
      assert dumped == [DumpItem(items[0])] + DumpItems(items[1..]);
      assert dumped[0] == DumpItem(items[0]) && dumped[1..] == DumpItems(items[1..]);
      ItemsRoundTrip(items[1..]);
      ItemRoundTrip(items[0]);
      assert [items[0]] + items[1..] == items;
    }
  }

  /** Validating the dumped body gives back the validated data. */
  lemma {:induction false} ReceiptRoundTrip(d: ReceiptData)
    requires ValidDate(d.date)
    ensures ValidateReceipt(DumpReceipt(d)) == Success(d)
  {
    ItemsRoundTrip(d.items);
    FormatThenParse(d.date);
  }

  /** A record missing any of the four required fields is rejected. */
  lemma MissingFieldRejected(fields: map<string, Json>, key: string)
    requires key in {"merchant", "date", "items", "total"} && key !in fields
    ensures ValidateReceipt(JObject(fields)).Failure?
  {
  }

  /** One invalid entry in `items` rejects the whole receipt; an empty list is accepted. */
  lemma {:induction false} OneBadItemRejectsReceipt(fields: map<string, Json>, k: nat)
    requires "items" in fields && fields["items"].JArray?
    requires k < |fields["items"].elems| && !ValidItem(fields["items"].elems[k])
    ensures ValidateReceipt(JObject(fields)).Failure?
  {
  }

  lemma EmptyItemsAccepted(merchant: string, date: string, total: real)
    requires ParseDate(date).Some?
    ensures var r := ValidateReceipt(JObject(map["merchant" := JString(merchant), "date" := JString(date),
                                                 "items" := JArray([]), "total" := JReal(total)]));
      r.Success? && r.value == ReceiptData(merchant, ParseDate(date).value, [], total)
  {
  }
}
