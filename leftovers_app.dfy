/**
 * The data side of leftovers_app.py: the page `add_leftover` sends to
 * Notion's create call, the fields the inventory view decodes from each
 * queried page, and the property patches of the two verdict buttons.
 *
 * Foreign calls are inputs: the Cloudinary upload is its outcome (its
 * response dict, or the text of the exception it raised), the create call a
 * function from the page sent to the text of the exception it raises, or
 * `None` when it succeeds; `datetime.now().date()` is the parameter `today`.
 */
module LeftoversApp {
  import opened Wrappers
  import opened PyValues

  // ---------------------------------------------------------------------
  // Dates and `date.isoformat()`

  datatype Date = Date(year: int, month: int, day: int)

  predicate IsLeapYear(y: int) {
    y % 4 == 0 && (y % 100 != 0 || y % 400 == 0)
  }

  function DaysInMonth(y: int, m: int): int
    requires 1 <= m <= 12
  {
    if m == 2 then (if IsLeapYear(y) then 29 else 28)
    else if m == 4 || m == 6 || m == 9 || m == 11 then 30
    else 31
  }

  /** The dates a Python `datetime.date` can hold. */
  predicate ValidDate(d: Date) {
    1 <= d.year <= 9999 && 1 <= d.month <= 12 && 1 <= d.day <= DaysInMonth(d.year, d.month)
  }

  function Pow10(n: nat): nat {
    if n == 0 then 1 else 10 * Pow10(n - 1)
  }

  /** The last `width` decimal digits of `n`, zero-padded on the left (`%0<width>d`). */
  function Pad(n: nat, width: nat): (s: string)
    ensures |s| == width
    ensures forall i :: 0 <= i < |s| ==> '0' <= s[i] <= '9'
  {
    if width == 0 then "" else Pad(n / 10, width - 1) + [DigitChar(n % 10)]
  }

  predicate AllDigits(s: string) {
    forall i :: 0 <= i < |s| ==> '0' <= s[i] <= '9'
  }

  /** The number a run of decimal digits denotes. */
  function DigitsValue(s: string): (n: nat)
    requires AllDigits(s)
  {
    if s == [] then 0 else DigitsValue(s[..|s| - 1]) * 10 + (s[|s| - 1] as int - '0' as int)
  }

  lemma {:induction false} ValueOfPad(n: nat, width: nat)
    requires n < Pow10(width)
    ensures DigitsValue(Pad(n, width)) == n
  {
    if width > 0 {
      var front := Pad(n / 10, width - 1);
      assert n / 10 < Pow10(width - 1);
      ValueOfPad(n / 10, width - 1);
      var s := front + [DigitChar(n % 10)];
      assert s[..|s| - 1] == front;
    }
  }

  lemma {:induction false} PadOfValue(s: string)
    requires AllDigits(s)
    ensures Pad(DigitsValue(s), |s|) == s
  {
    if s != [] {
      var front := s[..|s| - 1];
      var d := s[|s| - 1] as int - '0' as int;
      PadOfValue(front);
      assert (DigitsValue(front) * 10 + d) / 10 == DigitsValue(front);
      assert (DigitsValue(front) * 10 + d) % 10 == d;
      assert s == front + [s[|s| - 1]];
    }
  }

  /** `d.isoformat()`: YYYY-MM-DD. */
  function IsoFormat(d: Date): (s: string)
    requires ValidDate(d)
    ensures |s| == 10 && s[4] == '-' && s[7] == '-'
  {
    Pad(d.year, 4) + "-" + Pad(d.month, 2) + "-" + Pad(d.day, 2)
  }

  /** `date.fromisoformat(s)` read as YYYY-MM-DD: `None` for text that is not a valid YYYY-MM-DD date. */
  function ParseIso(s: string): Option<Date> {
    if |s| == 10 && s[4] == '-' && s[7] == '-' &&
       AllDigits(s[..4]) && AllDigits(s[5..7]) && AllDigits(s[8..])
    then
      var d := Date(DigitsValue(s[..4]), DigitsValue(s[5..7]), DigitsValue(s[8..]));
      if ValidDate(d) then Some(d) else None
    else None
  }

  lemma IsoSlices(a: string, b: string, c: string)
    requires |a| == 4 && |b| == 2 && |c| == 2
    ensures var s := a + "-" + b + "-" + c;
      s[..4] == a && s[5..7] == b && s[8..] == c
  {
  }

  lemma IsoJoin(s: string)
    requires |s| == 10 && s[4] == '-' && s[7] == '-'
    ensures s == s[..4] + "-" + s[5..7] + "-" + s[8..]
  {
  }

  /** The ISO text of a date reads back as that date, and only that text does. */
  lemma IsoRoundTrip(d: Date, s: string)
    requires ValidDate(d)
    ensures ParseIso(IsoFormat(d)) == Some(d)
    ensures ParseIso(s) == Some(d) ==> s == IsoFormat(d)
  {
    IsoSlices(Pad(d.year, 4), Pad(d.month, 2), Pad(d.day, 2));
    ValueOfPad(d.year, 4);
    ValueOfPad(d.month, 2);
    ValueOfPad(d.day, 2);
    if ParseIso(s) == Some(d) {
      PadOfValue(s[..4]);
      PadOfValue(s[5..7]);
      PadOfValue(s[8..]);
      IsoJoin(s);
    }
  }

  // ---------------------------------------------------------------------
  // The page `add_leftover` creates

  /** The arguments of `add_leftover` that the form supplies. */
  datatype Leftover = Leftover(
    foodName: string, expiry: Date, location: string, addedBy: string, mealCost: int, notes: string)

  function Obj1(k: string, v: JVal): JVal {
    JObj([Field(k, v)])
  }

  /** `[{"text": {"content": content}}]` */
  function TextList(content: string): JVal {
    JList([Obj1("text", Obj1("content", JStr(content)))])
  }

  function DateProperty(d: Date): JVal
    requires ValidDate(d)
  {
    Obj1("date", Obj1("start", JStr(IsoFormat(d))))
  }

  function SelectProperty(name: string): JVal {
    Obj1("select", Obj1("name", JStr(name)))
  }

  function CheckboxProperty(b: bool): JVal {
    Obj1("checkbox", JBool(b))
  }

  /** The `Photo` property: one external file named after the food. */
  function PhotoProperty(foodName: string, url: JVal): JVal {
    Obj1("files", JList([JObj([
      Field("name", JStr("Photo_" + foodName)),
      Field("type", JStr("external")),
      Field("external", Obj1("url", url))])]))
  }

  /** The properties every created page has, in the order the literal lists them. */
  const BaseKeys: seq<string> :=
    ["Food", "Date Added", "Expires", "Meal Cost", "Location", "Added By", "Notes", "Archived"]

  lemma BaseKeysDistinct()
    ensures Distinct(BaseKeys) && "Photo" !in BaseKeys
    ensures "Status" !in BaseKeys && "Days Left" !in BaseKeys
  {
  }

  /** The property dict of a create request. */
  function PropertiesOf(page: JVal): seq<Field> {
    match At(page, "properties")
    case Some(JObj(fs)) => fs
    case _ => []
  }

  /**
   * `page` is the create request for `item` added on `today` with the
   * uploaded image `imageUrl` (`None` when there was no photo).
   */
  predicate IsCreateRequest(page: JVal, databaseId: string, item: Leftover, today: Date, imageUrl: JVal)
    requires ValidDate(item.expiry) && ValidDate(today)
  {
    var props := PropertiesOf(page);
    && page.JObj?
    && Keys(page.fields) == ["parent", "properties"]
    && At(page, "parent") == Some(Obj1("database_id", JStr(databaseId)))
    && At(page, "properties") == Some(JObj(props))
    && Keys(props) == BaseKeys + (if Truthy(imageUrl) then ["Photo"] else [])
    && HasBaseValues(props, item, today)
    && Lookup(props, "Photo") == (if Truthy(imageUrl) then Some(PhotoProperty(item.foodName, imageUrl)) else None)
  }

  /** The values the form gave, under the base property names. */
  predicate HasBaseValues(props: seq<Field>, item: Leftover, today: Date)
    requires ValidDate(item.expiry) && ValidDate(today)
  {
    && Lookup(props, "Food") == Some(Obj1("title", TextList(item.foodName)))
    && Lookup(props, "Date Added") == Some(DateProperty(today))
    && Lookup(props, "Expires") == Some(DateProperty(item.expiry))
    && Lookup(props, "Meal Cost") == Some(Obj1("number", JNum(item.mealCost)))
    && Lookup(props, "Location") == Some(SelectProperty(item.location))
    && Lookup(props, "Added By") == Some(SelectProperty(item.addedBy))
    && Lookup(props, "Notes") == Some(Obj1("rich_text", TextList(item.notes)))
    && Lookup(props, "Archived") == Some(CheckboxProperty(false))
  }

  /** Setting `Photo` leaves the base values as they were. */
  lemma PhotoKeepsBase(props: seq<Field>, item: Leftover, today: Date, photo: JVal)
    requires ValidDate(item.expiry) && ValidDate(today) && HasBaseValues(props, item, today)
    ensures HasBaseValues(SetItem(props, "Photo", photo), item, today)
  {
    BaseKeysDistinct();
  }

  /** The `properties` literal of `new_page`, before any `Photo` entry. */
  function BaseProperties(item: Leftover, today: Date): seq<Field>
    requires ValidDate(item.expiry) && ValidDate(today)
  {
    [
      Field("Food", Obj1("title", TextList(item.foodName))),
      Field("Date Added", DateProperty(today)),
      Field("Expires", DateProperty(item.expiry)),
      Field("Meal Cost", Obj1("number", JNum(item.mealCost))),
      Field("Location", SelectProperty(item.location)),
      Field("Added By", SelectProperty(item.addedBy)),
      Field("Notes", Obj1("rich_text", TextList(item.notes))),
      Field("Archived", CheckboxProperty(false))
    ]
  }

  lemma BasePropertiesContent(item: Leftover, today: Date)
    requires ValidDate(item.expiry) && ValidDate(today)
    ensures var props := BaseProperties(item, today);
      Keys(props) == BaseKeys && HasBaseValues(props, item, today) && Lookup(props, "Photo").None?
  {
    BaseFields(Obj1("title", TextList(item.foodName)), DateProperty(today), DateProperty(item.expiry),
      Obj1("number", JNum(item.mealCost)), SelectProperty(item.location), SelectProperty(item.addedBy),
      Obj1("rich_text", TextList(item.notes)), CheckboxProperty(false));
  }

  /** A dict with the base property names, whatever their values. */
  lemma BaseFields(a: JVal, b: JVal, c: JVal, d: JVal, e: JVal, f: JVal, g: JVal, h: JVal)
    ensures var fs := [Field("Food", a), Field("Date Added", b), Field("Expires", c), Field("Meal Cost", d),
                       Field("Location", e), Field("Added By", f), Field("Notes", g), Field("Archived", h)];
      && Keys(fs) == BaseKeys
      && Lookup(fs, "Food") == Some(a) && Lookup(fs, "Date Added") == Some(b)
      && Lookup(fs, "Expires") == Some(c) && Lookup(fs, "Meal Cost") == Some(d)
      && Lookup(fs, "Location") == Some(e) && Lookup(fs, "Added By") == Some(f)
      && Lookup(fs, "Notes") == Some(g) && Lookup(fs, "Archived") == Some(h)
      && Lookup(fs, "Photo").None?
  {
    var fs := [Field("Food", a), Field("Date Added", b), Field("Expires", c), Field("Meal Cost", d),
               Field("Location", e), Field("Added By", f), Field("Notes", g), Field("Archived", h)];
    KeysAt(fs);
    assert Keys(fs) == BaseKeys;
    BaseKeysDistinct();
    LookupDistinct(fs);
    assert fs[0].key == "Food" && fs[1].key == "Date Added" && fs[2].key == "Expires" && fs[3].key == "Meal Cost";
    assert fs[4].key == "Location" && fs[5].key == "Added By" && fs[6].key == "Notes" && fs[7].key == "Archived";
    LookupAbsent(fs, "Photo");
  }

  /** A page whose property dict has the right entries is the create request. */
  lemma PageIsRequest(databaseId: string, item: Leftover, today: Date, imageUrl: JVal, props: seq<Field>)
    requires ValidDate(item.expiry) && ValidDate(today)
    requires Keys(props) == BaseKeys + (if Truthy(imageUrl) then ["Photo"] else [])
    requires HasBaseValues(props, item, today)
    requires Lookup(props, "Photo") == (if Truthy(imageUrl) then Some(PhotoProperty(item.foodName, imageUrl)) else None)
    ensures IsCreateRequest(JObj([Field("parent", Obj1("database_id", JStr(databaseId))), Field("properties", JObj(props))]),
                            databaseId, item, today, imageUrl)
  {
    TwoEntries("parent", Obj1("database_id", JStr(databaseId)), "properties", JObj(props));
  }

  /**
   * The `new_page` dict of `add_leftover`: the literal, then the `Photo`
   * entry set in place on its `properties` dict when there is an image URL.
   */
  method BuildPage(databaseId: string, item: Leftover, today: Date, imageUrl: JVal) returns (newPage: JVal)
    requires ValidDate(item.expiry) && ValidDate(today)
    ensures IsCreateRequest(newPage, databaseId, item, today, imageUrl)
  {
    var parent := Obj1("database_id", JStr(databaseId));
    var properties := BaseProperties(item, today);
    BasePropertiesContent(item, today);
    if Truthy(imageUrl) {
      var photo := PhotoProperty(item.foodName, imageUrl);
      PhotoKeepsBase(properties, item, today, photo);
      properties := SetItem(properties, "Photo", photo);
    }
    // `new_page` holds the properties dict itself, so it sees the `Photo` entry
    newPage := JObj([Field("parent", parent), Field("properties", JObj(properties))]);
    PageIsRequest(databaseId, item, today, imageUrl, properties);
  }

  /** `image_url` after the upload step: `None` without a photo, else the upload's `secure_url`. */
  function UploadedImage(upload: Option<Result<JVal, string>>): (r: Result<JVal, PyError>)
    ensures upload.None? ==> r == Success(JNull) && !Truthy(r.value)
    ensures upload.Some? && upload.value.Failure? ==> r == Failure(Raised(upload.value.error))
    ensures upload.Some? && upload.value.Success? && upload.value.value.JObj? ==>
      var response := upload.value.value;
      if "secure_url" in Keys(response.fields) then r == Success(Lookup(response.fields, "secure_url").value)
      else r == Failure(KeyError(KStr("secure_url")))
  {
    match upload
    case None => Success(JNull)
    case Some(Failure(text)) => Failure(Raised(text))
    case Some(Success(response)) => Subscript(response, KStr("secure_url"))
  }

  const AddedMessage: string := "Added to the fridge!"

  /**
   * `add_leftover`: returns its `(success, message)` pair, and, as `request`,
   * the page handed to the create call (`None` when the upload step raised
   * before a page was built).
   */
  method AddLeftover(databaseId: string, item: Leftover, today: Date,
                     upload: Option<Result<JVal, string>>, create: JVal -> Option<string>)
    returns (success: bool, message: string, request: Option<JVal>)
    requires ValidDate(item.expiry) && ValidDate(today)
    ensures request.Some? <==> UploadedImage(upload).Success?
    ensures request.Some? ==>
      IsCreateRequest(request.value, databaseId, item, today, UploadedImage(upload).value)
    ensures success <==> request.Some? && create(request.value).None?
    ensures success ==> message == AddedMessage
    ensures UploadedImage(upload).Failure? ==> message == Message(UploadedImage(upload).error)
    ensures request.Some? && !success ==> message == create(request.value).value
  {
    var image := UploadedImage(upload);
    if image.Failure? {
      return false, Message(image.error), None;
    }
    var newPage := BuildPage(databaseId, item, today, image.value);
    request := Some(newPage);
    var raised := create(newPage);
    if raised.Some? {
      return false, raised.value, request;
    }
    return true, AddedMessage, request;
  }

  /** The created page has a `Photo` entry exactly when the upload gave a non-empty URL. */
  lemma {:induction false} PhotoOnlyWithImage(page: JVal, databaseId: string, item: Leftover, today: Date,
                           upload: Option<Result<JVal, string>>)
    requires ValidDate(item.expiry) && ValidDate(today) && UploadedImage(upload).Success?
    requires IsCreateRequest(page, databaseId, item, today, UploadedImage(upload).value)
    ensures "Photo" in Keys(PropertiesOf(page)) <==>
      upload.Some? && upload.value.Success? && Truthy(UploadedImage(upload).value)
  {
    var url := UploadedImage(upload).value;
    var keys := Keys(PropertiesOf(page));
    BaseKeysDistinct();
    assert keys == BaseKeys + (if Truthy(url) then ["Photo"] else []);
    if upload.None? {
      assert url == JNull;
    }
  }

  // ---------------------------------------------------------------------
  // The `Archived = false` query filter

  /** The `Archived` checkbox of a property dict, when it has one. */
  function ArchivedFlag(props: seq<Field>): Option<bool> {
    match Lookup(props, "Archived")
    case Some(JObj(fs)) =>
      (match Lookup(fs, "checkbox")
       case Some(JBool(b)) => Some(b)
       case _ => None)
    case _ => None
  }

  /** `{"property": "Archived", "checkbox": {"equals": False}}` */
  predicate PassesUnarchivedFilter(props: seq<Field>) {
    ArchivedFlag(props) == Some(false)
  }

  /** A newly created page is one the inventory query lists. */
  lemma CreatedPageIsListed(page: JVal, databaseId: string, item: Leftover, today: Date, imageUrl: JVal)
    requires ValidDate(item.expiry) && ValidDate(today)
    requires IsCreateRequest(page, databaseId, item, today, imageUrl)
    ensures PassesUnarchivedFilter(PropertiesOf(page))
  {
    assert Lookup([Field("checkbox", JBool(false))], "checkbox") == Some(JBool(false));
  }

  // ---------------------------------------------------------------------
  // Decoding one queried page for display

  /** The display fields of one inventory row. */
  datatype Row = Row(itemId: JVal, food: JVal, cost: JVal, status: JVal, daysLeft: JVal, photo: JVal)

  /** `p["Food"]["title"][0]["text"]["content"] if p["Food"]["title"] else "Unknown"` */
  function DecodeFood(p: JVal): (r: Result<JVal, PyError>)
    ensures p.JObj? && "Food" !in Keys(p.fields) ==> r == Failure(KeyError(KStr("Food")))
    ensures At(p, "Food").Some? && At(p, "Food").value.JObj? && "title" !in Keys(At(p, "Food").value.fields) ==>
      r == Failure(KeyError(KStr("title")))
  {
    var title :- Path(p, [KStr("Food"), KStr("title")]);
    if Truthy(title) then Path(title, [KInt(0), KStr("text"), KStr("content")])
    else Success(JStr("Unknown"))
  }

  /** `p["Meal Cost"]["number"] or 0` */
  function DecodeCost(p: JVal): (r: Result<JVal, PyError>)
    ensures r.Success? <==> Path(p, [KStr("Meal Cost"), KStr("number")]).Success?
    ensures r.Success? ==>
      var number := Path(p, [KStr("Meal Cost"), KStr("number")]).value;
      && (Truthy(number) ==> r.value == number)
      && (number == JNull || number == JNum(0) ==> r.value == JNum(0))
  {
    var number :- Path(p, [KStr("Meal Cost"), KStr("number")]);
    Success(if Truthy(number) then number else JNum(0))
  }

  /** `p[name]["formula"]["string"] if name in p else default` */
  function FormulaOr(p: JVal, name: string, default: string): (r: Result<JVal, PyError>)
    ensures p.JObj? && name !in Keys(p.fields) ==> r == Success(JStr(default))
    ensures p.JObj? && name in Keys(p.fields) ==> r == Path(p, [KStr(name), KStr("formula"), KStr("string")])
  {
    var present :- Contains(p, name);
    if present then Path(p, [KStr(name), KStr("formula"), KStr("string")])
    else Success(JStr(default))
  }

  /** `p["Photo"]["files"][0]["external"]["url"] if p["Photo"]["files"] else None` */
  function DecodePhoto(p: JVal): (r: Result<JVal, PyError>)
    ensures p.JObj? && "Photo" !in Keys(p.fields) ==> r == Failure(KeyError(KStr("Photo")))
    ensures At(p, "Photo").Some? && At(p, "Photo").value.JObj? && "files" !in Keys(At(p, "Photo").value.fields) ==>
      r == Failure(KeyError(KStr("files")))
  {
    var files :- Path(p, [KStr("Photo"), KStr("files")]);
    if Truthy(files) then Path(files, [KInt(0), KStr("external"), KStr("url")])
    else Success(JNull)
  }

  /** One page of the inventory loop, decoded in the order the loop body reads it. */
  function DecodeRow(page: JVal): (r: Result<Row, PyError>)
    ensures r.Success? ==> Truthy(r.value.cost) || r.value.cost == JNum(0)
  {
    var p :- Subscript(page, KStr("properties"));
    var itemId :- Subscript(page, KStr("id"));
    var food :- DecodeFood(p);
    var cost :- DecodeCost(p);
    var status :- FormulaOr(p, "Status", "Unknown");
    var daysLeft :- FormulaOr(p, "Days Left", "N/A");
    var photo :- DecodePhoto(p);
    Success(Row(itemId, food, cost, status, daysLeft, photo))
  }

  /** The food is the first title's content, or "Unknown" for an empty title list. */
  lemma DecodeFoodCases(p: JVal, titles: seq<JVal>)
    requires Path(p, [KStr("Food"), KStr("title")]) == Success(JList(titles))
    ensures titles == [] ==> DecodeFood(p) == Success(JStr("Unknown"))
    ensures titles != [] ==> DecodeFood(p) == Path(titles[0], [KStr("text"), KStr("content")])
  {
  }

  /** The photo is the first file's URL, or `None` for an empty file list. */
  lemma DecodePhotoCases(p: JVal, files: seq<JVal>)
    requires Path(p, [KStr("Photo"), KStr("files")]) == Success(JList(files))
    ensures files == [] ==> DecodePhoto(p) == Success(JNull)
    ensures files != [] ==> DecodePhoto(p) == Path(files[0], [KStr("external"), KStr("url")])
  {
  }

  /**
   * The row is read from `properties` and then `id`; either one missing
   * raises a `KeyError` naming it.
   */
  lemma DecodeRowNeedsPropertiesAndId(page: JVal)
    requires page.JObj?
    ensures "properties" !in Keys(page.fields) ==> DecodeRow(page) == Failure(KeyError(KStr("properties")))
    ensures "properties" in Keys(page.fields) && "id" !in Keys(page.fields) ==>
      DecodeRow(page) == Failure(KeyError(KStr("id")))
  {
  }

  /**
   * Reading back the properties of a created page that has a photo, with
   * an `id` beside them, gives the food name, the cost (`or 0` keeps a zero
   * cost zero), the two formula defaults and the image URL.
   */
  lemma {:induction false} CreatedPageDecodes(page: JVal, databaseId: string, item: Leftover, today: Date,
                           imageUrl: JVal, itemId: JVal)
    requires ValidDate(item.expiry) && ValidDate(today)
    requires IsCreateRequest(page, databaseId, item, today, imageUrl) && Truthy(imageUrl)
    ensures DecodeRow(JObj([Field("properties", JObj(PropertiesOf(page))), Field("id", itemId)])) ==
      Success(Row(itemId, JStr(item.foodName), JNum(item.mealCost), JStr("Unknown"), JStr("N/A"), imageUrl))
  {
    var props := PropertiesOf(page);
    BaseKeysDistinct();
    assert Keys(props) == BaseKeys + ["Photo"];
    ReadBackRow(props, item, today, imageUrl, itemId);
  }

  lemma ReadBackRow(props: seq<Field>, item: Leftover, today: Date, imageUrl: JVal, itemId: JVal)
    requires ValidDate(item.expiry) && ValidDate(today) && HasBaseValues(props, item, today)
    requires Lookup(props, "Photo") == Some(PhotoProperty(item.foodName, imageUrl)) && Truthy(imageUrl)
    requires "Status" !in Keys(props) && "Days Left" !in Keys(props)
    ensures DecodeRow(JObj([Field("properties", JObj(props)), Field("id", itemId)])) ==
      Success(Row(itemId, JStr(item.foodName), JNum(item.mealCost), JStr("Unknown"), JStr("N/A"), imageUrl))
  {
    ReadBackFood(props, item, today);
    ReadBackCost(props, item, today);
    ReadBackPhoto(props, item.foodName, imageUrl);
    var page := JObj([Field("properties", JObj(props)), Field("id", itemId)]);
    TwoEntries("properties", JObj(props), "id", itemId);
    assert Subscript(page, KStr("properties")) == Success(JObj(props));
    assert Subscript(page, KStr("id")) == Success(itemId);
  }

  lemma ReadBackFood(props: seq<Field>, item: Leftover, today: Date)
    requires ValidDate(item.expiry) && ValidDate(today) && HasBaseValues(props, item, today)
    ensures DecodeFood(JObj(props)) == Success(JStr(item.foodName))
  {
    assert Path(JObj(props), [KStr("Food"), KStr("title")]) == Success(TextList(item.foodName));
  }

  lemma ReadBackCost(props: seq<Field>, item: Leftover, today: Date)
    requires ValidDate(item.expiry) && ValidDate(today) && HasBaseValues(props, item, today)
    ensures DecodeCost(JObj(props)) == Success(JNum(item.mealCost))
  {
    assert Path(JObj(props), [KStr("Meal Cost"), KStr("number")]) == Success(JNum(item.mealCost));
  }

  lemma ReadBackPhoto(props: seq<Field>, foodName: string, url: JVal)
    requires Lookup(props, "Photo") == Some(PhotoProperty(foodName, url)) && Truthy(url)
    ensures DecodePhoto(JObj(props)) == Success(url)
  {
    var file := JObj([Field("name", JStr("Photo_" + foodName)), Field("type", JStr("external")),
                      Field("external", Obj1("url", url))]);
    assert Path(JObj(props), [KStr("Photo"), KStr("files")]) == Success(JList([file]));
    LookupFirst(file.fields, 2);
    assert Path(JList([file]), [KInt(0), KStr("external"), KStr("url")]) == Success(url);
  }

  // ---------------------------------------------------------------------
  // The two verdicts

  datatype Verdict = Eaten | Tossed

  /** The option names of the `The Verdict` select property. */
  function VerdictLabel(v: Verdict): string {
    match v
    case Eaten => "\U{1F374} Eaten"
    case Tossed => "\U{1F5D1}\U{FE0F} Tossed"
  }

  /** The `properties` of the update a verdict button sends. */
  function VerdictPatch(v: Verdict): (props: seq<Field>)
    ensures Keys(props) == ["The Verdict", "Archived"]
    ensures ArchivedFlag(props) == Some(true)
  {
    TwoEntries("The Verdict", SelectProperty(VerdictLabel(v)), "Archived", CheckboxProperty(true));
    [Field("The Verdict", SelectProperty(VerdictLabel(v))), Field("Archived", CheckboxProperty(true))]
  }

  /** `notion.pages.update(page_id=item_id, properties=...)` */
  datatype PageUpdate = PageUpdate(pageId: JVal, properties: JVal)

  function VerdictUpdate(itemId: JVal, v: Verdict): (u: PageUpdate)
    ensures u.pageId == itemId && u.properties.JObj?
    ensures ArchivedFlag(u.properties.fields) == Some(true)
  {
    PageUpdate(itemId, JObj(VerdictPatch(v)))
  }

  /** The two patches agree on every property but `The Verdict`, where their labels differ. */
  lemma VerdictsDifferOnlyInLabel()
    ensures forall k :: k != "The Verdict" ==> Lookup(VerdictPatch(Eaten), k) == Lookup(VerdictPatch(Tossed), k)
    ensures Lookup(VerdictPatch(Eaten), "The Verdict") != Lookup(VerdictPatch(Tossed), "The Verdict")
  {
    assert VerdictLabel(Eaten)[1] != VerdictLabel(Tossed)[1];
  }

  /** The update sets the listed properties and leaves the others as they were. */
  function ApplyPatch(props: seq<Field>, patch: seq<Field>): seq<Field>
    decreases |patch|
  {
    if patch == [] then props else ApplyPatch(SetItem(props, patch[0].key, patch[0].value), patch[1..])
  }

  /**
   * After a verdict the page carries that verdict, is archived, and so
   * drops out of the inventory query; its other properties are unchanged.
   */
  lemma VerdictArchives(props: seq<Field>, v: Verdict)
    ensures Lookup(ApplyPatch(props, VerdictPatch(v)), "The Verdict") == Some(SelectProperty(VerdictLabel(v)))
    ensures ArchivedFlag(ApplyPatch(props, VerdictPatch(v))) == Some(true)
    ensures !PassesUnarchivedFilter(ApplyPatch(props, VerdictPatch(v)))
    ensures forall k :: k != "The Verdict" && k != "Archived" ==>
      Lookup(ApplyPatch(props, VerdictPatch(v)), k) == Lookup(props, k)
  {
    var patch := VerdictPatch(v);
    var once := SetItem(props, "The Verdict", SelectProperty(VerdictLabel(v)));
    var twice := SetItem(once, "Archived", CheckboxProperty(true));
    assert patch[1..][1..] == [];
    assert ApplyPatch(props, patch) == twice;
  }
}
