/** The QC request grid: what each column shows for a request row, the rule
    that disables the create-QC button, and the label and palette key of the
    status chip. */
module QcGrid {
  import opened JsValues
  import opened JsStrings
  import QcSubmit

  /** `row.crop?.<key>`: `undefined` when the row has no crop object. */
  function CropField(row: Doc, key: string): Json
  {
    Member(Get(row, "crop"), key)
  }

  /** `v || "N/A"` */
  function OrNotAvailable(v: Json): (r: Json)
    ensures Truthy(r)
    ensures Truthy(v) ==> r == v
    ensures !Truthy(v) ==> r == JStr("N/A")
  {
    if Truthy(v) then v else JStr("N/A")
  }

  /** The columns that show a crop field or "N/A", by column field, with the
      crop field each one reads. */
  const TextColumns: map<string, string> := map[
    "farmName" := "farmName",
    "farmerName" := "farmerName",
    "language" := "language",
    "farmerMobileNumber" := "mobileNumber",
    "village" := "village",
    "variety" := "variety",
    "numberOfTrees" := "numberOfTrees",
    "numberOfNuts" := "numberOfNuts",
    "nutsFromLastHarvest" := "nutsFromLastHarvest",
    "readyToHarvestDate" := "readyToHarvestDate",
    "actualReadyToHarvestDate" := "actualReadyToHarvestDate",
    "chutePercentage" := "chutePercentage",
    "firstLastHarvestDate" := "firstLastHarvestDate",
    "secondLastHarvestDate" := "secondLastHarvestDate",
    "thirdLastHarvestDate" := "thirdLastHarvestDate",
    "generalHarvestCycleInDays" := "generalHarvestCycleInDays",
    "paymentTerms" := "paymentTerms"
  ]

  /** The value getter of a text column: the crop's field when truthy, else
      "N/A" (no crop, a `null` crop, or a falsy field such as 0 or ""). */
  function TextColumn(row: Doc, column: string): (r: Json)
    requires column in TextColumns
    ensures Truthy(r)
    ensures !Get(row, "crop").JObj? ==> r == JStr("N/A")
    ensures Truthy(CropField(row, TextColumns[column])) ==> r == CropField(row, TextColumns[column])
    ensures !Truthy(CropField(row, TextColumns[column])) ==> r == JStr("N/A")
  {
    OrNotAvailable(CropField(row, TextColumns[column]))
  }

  /** The text a template literal `${v}` produces. How a number is written is
      given by `show`. */
  function JsToString(v: Json, show: Num -> string): (text: string)
    ensures v.JStr? ==> text == v.s
    ensures v.JUndefined? ==> text == "undefined"
    ensures v.JNull? ==> text == "null"
    ensures v.JBool? ==> text == if v.b then "true" else "false"
    ensures v.JArr? && v.items == [] ==> text == ""
    decreases v
  {
    match v
    case JUndefined => "undefined"
    case JNull => "null"
    case JBool(b) => if b then "true" else "false"
    case JNum(n) => show(n)
    case JStr(s) => s
    case JArr(items) => JoinItems(items, ",", show)
    case JObj(_) => "[object Object]"
  }

  /** The text of each element as `join` writes it: `null` and `undefined`
      become empty. */
  function ElementTexts(items: seq<Json>, show: Num -> string): (texts: seq<string>)
    ensures |texts| == |items|
    decreases items, 0
  {
    seq(|items|, i requires 0 <= i < |items| =>
      if items[i].JNull? || items[i].JUndefined? then "" else JsToString(items[i], show))
  }

  /** `items.join(sep)` */
  function JoinItems(items: seq<Json>, sep: string, show: Num -> string): (text: string)
    ensures items == [] ==> text == ""
    ensures |items| == 1 ==> text == ElementTexts(items, show)[0]
    decreases items, 1
  {
    JoinWith(ElementTexts(items, show), sep)
  }

  /** The value getter of the age and height columns as written:
      `${row.crop?.<key>} <unit>` || "N/A". The template text is never empty,
      so "N/A" is never shown: a row without a crop shows "undefined" and
      the unit. */
  function TemplateColumn(row: Doc, key: string, unit: string, show: Num -> string): (r: Json)
    requires unit != ""
    ensures Truthy(r)
    ensures r == JStr(JsToString(CropField(row, key), show) + unit)
  {
    OrNotAvailable(JStr(JsToString(CropField(row, key), show) + unit))
  }

  /** A row without a crop shows "undefined years" in the age column. */
  lemma TemplateColumnWithoutCrop(row: Doc, show: Num -> string)
    requires "crop" !in row
    ensures TemplateColumn(row, "ageOfTree", " years", show) == JStr("undefined years")
    ensures TemplateColumn(row, "heightOfTree", " ft.", show) == JStr("undefined ft.")
  {
  }

  /** The age and height columns as evidently intended: the crop's value
      with its unit when there is one, "N/A" otherwise. */
  function TemplateColumnIntended(row: Doc, key: string, unit: string, show: Num -> string): (r: Json)
    requires unit != ""
    ensures Truthy(r)
    ensures !Get(row, "crop").JObj? ==> r == JStr("N/A")
    ensures Truthy(CropField(row, key)) ==> r == JStr(JsToString(CropField(row, key), show) + unit)
    ensures !Truthy(CropField(row, key)) ==> r == JStr("N/A")
  {
    var v := CropField(row, key);
    if Truthy(v) then OrNotAvailable(JStr(JsToString(v, show) + unit)) else JStr("N/A")
  }

  /** The crops-available column: an array is joined with ", ", another
      truthy value is shown as it is, anything else is "N/A". */
  function CropsAvailable(row: Doc, show: Num -> string): (r: Json)
    ensures CropField(row, "cropsAvailable").JArr? ==>
      r == JStr(JoinWith(ElementTexts(CropField(row, "cropsAvailable").items, show), ", "))
    ensures !CropField(row, "cropsAvailable").JArr? && Truthy(CropField(row, "cropsAvailable")) ==>
      r == CropField(row, "cropsAvailable")
    ensures !Truthy(CropField(row, "cropsAvailable")) ==> r == JStr("N/A")
  {
    var crops := CropField(row, "cropsAvailable");
    if crops.JArr? then JStr(JoinItems(crops.items, ", ", show))
    else OrNotAvailable(crops)
  }

  /** An array of strings is shown as its elements, in order, separated by ", ". */
  lemma CropsAvailableOfNames(row: Doc, names: seq<string>, show: Num -> string)
    requires CropField(row, "cropsAvailable") == JArr(seq(|names|, i requires 0 <= i < |names| => JStr(names[i])))
    ensures CropsAvailable(row, show) == JStr(JoinWith(names, ", "))
  {
    var items := CropField(row, "cropsAvailable").items;
    var texts := ElementTexts(items, show);
    forall i | 0 <= i < |names| ensures texts[i] == names[i] {
      assert items[i] == JStr(names[i]);
      assert JsToString(items[i], show) == names[i];
    }
    assert texts == names;
  }

  /** The tender and dry coconut columns: "Yes" exactly when the crop's flag
      is truthy, "No" otherwise; never "N/A". */
  function YesNoColumn(row: Doc, key: string): (r: Json)
    ensures r == JStr("Yes") || r == JStr("No")
    ensures r == JStr("Yes") <==> Truthy(CropField(row, key))
  {
    OrNotAvailable(if Truthy(CropField(row, key)) then JStr("Yes") else JStr("No"))
  }

  /** What the tags cell renders. */
  datatype TagsCell = Chips(labels: seq<Json>) | NotAvailable

  /** One outlined chip per tag, in order, for a non-empty array; "N/A" for
      anything else. */
  function TagsCellOf(row: Doc): (c: TagsCell)
    ensures c.Chips? <==> Get(row, "tags").JArr? && |Get(row, "tags").items| > 0
    ensures c.Chips? ==> c.labels == Get(row, "tags").items
  {
    var value := Get(row, "tags");
    if value.JArr? && |value.items| > 0 then Chips(value.items) else NotAvailable
  }

  /** The create-QC button is disabled for completed and cancelled requests. */
  function ActionDisabled(row: Doc): (disabled: bool)
    ensures disabled <==> Get(row, "status") == JStr("completed") || Get(row, "status") == JStr("cancelled")
  {
    var status := Get(row, "status");
    status == JStr("completed") || status == JStr("cancelled")
  }

  /** A request the QC form has completed can no longer be given a QC, while
      a pending one can. */
  lemma CompletedRequestDisabled(request: Doc)
    ensures ActionDisabled(QcSubmit.MarkCompleted(request))
    ensures Get(request, "status") == JStr("pending") ==> !ActionDisabled(request)
  {
  }

  /** The chip's label: the status in upper case. */
  function StatusLabel(status: string): (text: string)
    ensures |text| == |status|
    ensures forall i :: 0 <= i < |text| ==> !IsLowerAscii(text[i])
    ensures forall i :: 0 <= i < |text| ==> text[i] == UpperChar(status[i])
  {
    ToUpperCase(status)
  }

  /** The palette key of the chip's background: "qc-" and the status in
      lower case, every run of white space replaced by one "-". */
  function PaletteKey(status: string): (key: string)
    ensures |key| >= 3 && key[..3] == "qc-"
    ensures NoSpace(key[3..])
    ensures forall i :: 3 <= i < |key| ==> !IsUpperAscii(key[i])
    ensures |key| <= |status| + 3
    ensures key == "qc-" + CollapseSpaces(ToLowerCase(status))
  {
    var lower := ToLowerCase(status);
    var collapsed := CollapseSpaces(lower);
    CollapseKeepsLower(lower, false);
    "qc-" + collapsed
  }

  /** Collapsing white space adds no upper-case letter. */
  lemma {:induction false} CollapseKeepsLower(s: string, inRun: bool)
    requires forall i :: 0 <= i < |s| ==> !IsUpperAscii(s[i])
    ensures forall i :: 0 <= i < |CollapseRun(s, inRun)| ==> !IsUpperAscii(CollapseRun(s, inRun)[i])
  {
    if s != [] {
      CollapseKeepsLower(s[1..], IsSpace(s[0]));
    }
  }

  /** A status made of lower-case letters keys its own palette entry: "qc-"
      and the status. */
  lemma PlainPaletteKey(status: string)
    requires forall i :: 0 <= i < |status| ==> IsLowerAscii(status[i])
    ensures PaletteKey(status) == "qc-" + status
  {
    var lower := ToLowerCase(status);
    assert lower == status;
    assert NoSpace(status);
  }

  /** The key of a pending request. */
  lemma PendingPaletteKey()
    ensures PaletteKey("pending") == "qc-pending"
  {
    var status := "pending";
    assert forall i :: 0 <= i < |status| ==> 'a' <= status[i] <= 'z';
    PlainPaletteKey(status);
  }

  /** Lower-casing leaves white space where it is. */
  lemma LowerKeepsSpace(w: string)
    requires AllSpace(w)
    ensures ToLowerCase(w) == w
  {
  }

  /** A status of two words separated by any run of white space has the
      key "qc-", the first word in lower case, "-", the second word in lower
      case. Either word may be empty, so leading and trailing white space
      become a "-" too. */
  lemma WordsPaletteKey(a: string, w: string, b: string)
    requires NoSpace(a) && NoSpace(b)
    requires w != [] && AllSpace(w)
    ensures PaletteKey(a + w + b) == "qc-" + ToLowerCase(a) + "-" + ToLowerCase(b)
  {
    var la, lb := ToLowerCase(a), ToLowerCase(b);
    assert NoSpace(la) && NoSpace(lb);
    LowerKeepsSpace(w);
    assert ToLowerCase(a + w + b) == la + (w + lb);
    CollapseWord(la, w + lb);
    CollapseSpaceRun(w, lb);
  }
}
