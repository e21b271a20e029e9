/** The QC form's submit handler: the QC document it derives from the form
    values and the request, and the sequence of store writes that completes
    the request and records the QC. */
module QcSubmit {
  import opened JsValues
  import opened JsStrings
  import opened CivilDate
  import opened QcForm

  /** The answer of the device location service. */
  datatype Position = Located(latitude: Num, longitude: Num) | Unavailable

  /** Why a submission stopped. Every one of them is caught by the handler,
      reported, and leaves the writes made so far in place. */
  datatype Failure =
    | LocationUnavailable      // the location service rejected the request
    | InvalidRequestReference  // the request row has no usable `id` to name its document
    | RequestNotFound          // the status update found no such request document
    | UndefinedFieldValue      // the store refuses a document with an `undefined` field

  datatype SubmitOutcome =
    | Created(qcId: string)
    | Rejected(errors: seq<Field>)
    | Failed(failure: Failure)

  /** A select value as the store keeps it. */
  function ChoiceJson(c: Option<string>): Json
  {
    match c
    case None => JNull
    case Some(s) => JStr(s)
  }

  /** `otherCropsAvailable.split(",").map((crop) => crop.trim())`: one entry
      per comma-separated piece, empty pieces kept. */
  function CropList(s: string): (crops: seq<string>)
    ensures |crops| == CountChar(s, ',') + 1
  {
    var parts := SplitOn(s, ',');
    seq(|parts|, i requires 0 <= i < |parts| => Trim(parts[i]))
  }

  /** Each entry of the crop list is the trimmed piece at its position: it
      holds no comma and has no surrounding white space. */
  lemma CropListPiece(s: string, i: nat)
    requires i < CountChar(s, ',') + 1
    ensures var c := CropList(s)[i];
      && c == Trim(SplitOn(s, ',')[i])
      && ',' !in c
      && (c == [] || (!IsSpace(c[0]) && !IsSpace(c[|c| - 1])))
  {
    var parts := SplitOn(s, ',');
    var piece := parts[i];
    assert ',' !in piece;
    if ',' in Trim(piece) {
      TrimKeepsCharacters(piece, ',');
    }
  }

  function CropListJson(crops: seq<string>): (v: seq<Json>)
    ensures |v| == |crops| && forall i :: 0 <= i < |v| ==> v[i] == JStr(crops[i])
  {
    seq(|crops|, i requires 0 <= i < |crops| => JStr(crops[i]))
  }

  /** The form values the handler copies unchanged (`...rest`): every field
      except the three dates and the crop list. None of them is `undefined`. */
  function CopiedFormValues(d: Draft): (m: Doc)
    ensures forall k :: k in m ==> m[k] != JUndefined
  {
    map[
      "qcInspector" := ChoiceJson(d.qcInspector),
      "heightOfTree" := JNum(d.heightOfTree),
      "estimatedNumberOfNuts" := JNum(d.estimatedNumberOfNuts),
      "numberOfTrees" := JNum(d.numberOfTrees),
      "quality" := ChoiceJson(d.quality),
      "size" := ChoiceJson(d.size),
      "hardShellNutsPercentage" := JNum(d.hardShellNutsPercentage),
      "fieldCondition" := ChoiceJson(d.fieldCondition),
      "VehicleEnteringCondition" := ChoiceJson(d.vehicleEnteringCondition),
      "isTenderCoconutFarm" := JBool(d.isTenderCoconutFarm),
      "isDryCoconutFarm" := JBool(d.isDryCoconutFarm),
      "miteAttacksOrMarks" := JBool(d.miteAttacksOrMarks),
      "waterPercentage" := JNum(d.waterPercentage),
      "malaiPercentage" := JNum(d.malaiPercentage),
      "shape" := ChoiceJson(d.shape),
      "generalHarvestCycleInDays" := JNum(d.generalHarvestCycleInDays),
      "chutePercentage" := JNum(d.chutePercentage),
      "lastHarvestNumberOfNuts" := JNum(d.lastHarvestNumberOfNuts),
      "farmerUsesWhatsapp" := ChoiceJson(d.farmerUsesWhatsapp)
    ]
  }

  /** The document literal of the handler: `rest` first, then the fields
      the handler computes. Later keys win, as in an object literal. */
  function Assemble(rest: Doc, qcDate: string, readyToHarvest: string, lastHarvestDate: string,
                    crops: seq<string>, latitude: Num, longitude: Num, expirationDate: string,
                    cropId: Json, requestId: Json): Doc
  {
    rest
      ["qcDate" := JStr(qcDate)]
      ["readyToHarvest" := JStr(readyToHarvest)]
      ["lastHarvestDate" := JStr(lastHarvestDate)]
      ["otherCropsAvailable" := JArr(CropListJson(crops))]
      ["location" := JObj(map["latitude" := JNum(latitude), "longitude" := JNum(longitude)])]
      ["expirationDate" := JStr(expirationDate)]
      ["id" := JNull]
      ["cropId" := cropId]
      ["qcRequestId" := requestId]
  }

  /** The QC document the handler adds: the copied form values, then the
      three dates normalised, the crop list split, the location, the
      expiration date, a `null` id, and the crop and request the QC belongs
      to, read from the request row. */
  function QcPayload(d: Draft, request: Doc, latitude: Num, longitude: Num): (p: Doc)
    ensures p.Keys == CopiedFormValues(d).Keys + DerivedKeys
  {
    AssembleKeys(CopiedFormValues(d), NormalizeDate(d.qcDate), NormalizeDate(d.readyToHarvest),
                 NormalizeDate(d.lastHarvestDate), CropList(d.otherCropsAvailable), latitude, longitude,
                 ExpirationDate(d.qcDate), Get(request, "cropId"), Get(request, "id"));
    Assemble(CopiedFormValues(d), NormalizeDate(d.qcDate), NormalizeDate(d.readyToHarvest),
             NormalizeDate(d.lastHarvestDate), CropList(d.otherCropsAvailable), latitude, longitude,
             ExpirationDate(d.qcDate), Get(request, "cropId"), Get(request, "id"))
  }

  /** Where each computed field of the literal ends up; the copied values
      keep every other key. */
  lemma AssembleFields(rest: Doc, qcDate: string, readyToHarvest: string, lastHarvestDate: string,
                       crops: seq<string>, latitude: Num, longitude: Num, expirationDate: string,
                       cropId: Json, requestId: Json)
    ensures var p := Assemble(rest, qcDate, readyToHarvest, lastHarvestDate, crops, latitude, longitude,
                              expirationDate, cropId, requestId);
      && DerivedKeys <= p.Keys
      && p["qcDate"] == JStr(qcDate)
      && p["readyToHarvest"] == JStr(readyToHarvest)
      && p["lastHarvestDate"] == JStr(lastHarvestDate)
      && p["otherCropsAvailable"] == JArr(CropListJson(crops))
      && p["location"] == JObj(map["latitude" := JNum(latitude), "longitude" := JNum(longitude)])
      && p["expirationDate"] == JStr(expirationDate)
      && p["id"] == JNull
      && p["cropId"] == cropId
      && p["qcRequestId"] == requestId
  {
  }

  /** The literal holds the copied keys and the computed ones, and nothing
      else; a copied value survives unless a computed field overrides it. */
  lemma AssembleKeys(rest: Doc, qcDate: string, readyToHarvest: string, lastHarvestDate: string,
                     crops: seq<string>, latitude: Num, longitude: Num, expirationDate: string,
                     cropId: Json, requestId: Json)
    ensures var p := Assemble(rest, qcDate, readyToHarvest, lastHarvestDate, crops, latitude, longitude,
                              expirationDate, cropId, requestId);
      && p.Keys == rest.Keys + DerivedKeys
      && (forall k :: k in rest && k !in DerivedKeys ==> p[k] == rest[k])
  {
  }

  /** Only the two fields read from the request can make the literal hold
      `undefined`. */
  lemma AssembleDefined(rest: Doc, qcDate: string, readyToHarvest: string, lastHarvestDate: string,
                        crops: seq<string>, latitude: Num, longitude: Num, expirationDate: string,
                        cropId: Json, requestId: Json)
    requires forall k :: k in rest ==> rest[k] != JUndefined
    requires cropId != JUndefined && requestId != JUndefined
    ensures var p := Assemble(rest, qcDate, readyToHarvest, lastHarvestDate, crops, latitude, longitude,
                              expirationDate, cropId, requestId);
      forall k :: k in p ==> p[k] != JUndefined
  {
  }

  /** The keys the handler computes rather than copies. */
  const DerivedKeys: set<string> := {"qcDate", "readyToHarvest", "lastHarvestDate", "otherCropsAvailable",
                                     "location", "expirationDate", "id", "cropId", "qcRequestId"}

  /** What the payload promises about the links and the derived fields. */
  lemma PayloadLinks(d: Draft, request: Doc, latitude: Num, longitude: Num)
    ensures var p := QcPayload(d, request, latitude, longitude);
      && DerivedKeys <= p.Keys
      && p["qcDate"] == JStr(NormalizeDate(d.qcDate))
      && p["id"] == JNull
      && p["cropId"] == Get(request, "cropId")
      && p["qcRequestId"] == Get(request, "id")
      && p["location"] == JObj(map["latitude" := JNum(latitude), "longitude" := JNum(longitude)])
      && p["expirationDate"] == JStr(ExpirationDate(d.qcDate))
      && p["otherCropsAvailable"].JArr?
      && |p["otherCropsAvailable"].items| == CountChar(d.otherCropsAvailable, ',') + 1
  {
    var crops := CropList(d.otherCropsAvailable);
    AssembleFields(CopiedFormValues(d), NormalizeDate(d.qcDate), NormalizeDate(d.readyToHarvest),
                   NormalizeDate(d.lastHarvestDate), crops, latitude, longitude,
                   ExpirationDate(d.qcDate), Get(request, "cropId"), Get(request, "id"));
  }

  /** A validated draft whose inspection date is the canonical text of a date
      keeps that text and expires seven calendar days later. */
  lemma PayloadDates(d: Draft, request: Doc, latitude: Num, longitude: Num, inspected: Date)
    requires ValidDate(inspected) && 100 <= inspected.year < 10000
    requires d.qcDate == FormatIso(inspected)
    ensures var p := QcPayload(d, request, latitude, longitude);
      && p["qcDate"] == JStr(FormatIso(inspected))
      && p["expirationDate"] == JStr(FormatIso(AddDays(inspected, 7)))
  {
    PayloadLinks(d, request, latitude, longitude);
    ParseFormatted(inspected);
    ExpirationOfFormatted(inspected);
  }

  /** Whether the store would refuse the document: it has a field whose value is `undefined`. */
  predicate HasUndefinedField(p: Doc)
  {
    exists k | k in p :: p[k] == JUndefined
  }

  /** The only field of the payload that can be `undefined` is the request's
      `cropId`; the request's `id` is a string by the time the payload is built. */
  lemma PayloadUndefinedOnlyWithoutCrop(d: Draft, request: Doc, latitude: Num, longitude: Num)
    requires Get(request, "id").JStr?
    ensures HasUndefinedField(QcPayload(d, request, latitude, longitude)) <==> Get(request, "cropId") == JUndefined
  {
    var p := QcPayload(d, request, latitude, longitude);
    var rest := CopiedFormValues(d);
    AssembleFields(rest, NormalizeDate(d.qcDate), NormalizeDate(d.readyToHarvest),
                   NormalizeDate(d.lastHarvestDate), CropList(d.otherCropsAvailable), latitude, longitude,
                   ExpirationDate(d.qcDate), Get(request, "cropId"), Get(request, "id"));
    if Get(request, "cropId") == JUndefined {
      assert p["cropId"] == JUndefined;
    } else {
      AssembleDefined(rest, NormalizeDate(d.qcDate), NormalizeDate(d.readyToHarvest),
                      NormalizeDate(d.lastHarvestDate), CropList(d.otherCropsAvailable), latitude, longitude,
                      ExpirationDate(d.qcDate), Get(request, "cropId"), Get(request, "id"));
    }
  }

  /** The QC document as stored once the handler has patched in its key. */
  function QcRecord(d: Draft, request: Doc, latitude: Num, longitude: Num, newId: string): (r: Doc)
    ensures r.Keys == QcPayload(d, request, latitude, longitude).Keys
    ensures Get(r, "id") == JStr(newId)
  {
    QcPayload(d, request, latitude, longitude)["id" := JStr(newId)]
  }

  /** Patching `id` into a document keeps its keys and every other field. */
  lemma PatchId(p: Doc, newId: string)
    requires "id" in p
    ensures var r := p["id" := JStr(newId)];
      && r.Keys == p.Keys
      && Get(r, "id") == JStr(newId)
      && forall k :: k in p && k != "id" ==> Get(r, k) == Get(p, k)
  {
  }

  /** The stored QC names itself, its crop and its request, and keeps every
      other field of the payload. */
  lemma QcRecordLinks(d: Draft, request: Doc, latitude: Num, longitude: Num, newId: string)
    ensures var r := QcRecord(d, request, latitude, longitude, newId);
      && r.Keys == QcPayload(d, request, latitude, longitude).Keys
      && Get(r, "id") == JStr(newId)
      && Get(r, "cropId") == Get(request, "cropId")
      && Get(r, "qcRequestId") == Get(request, "id")
      && Get(r, "expirationDate") == JStr(ExpirationDate(d.qcDate))
  {
    var p := QcPayload(d, request, latitude, longitude);
    PayloadLinks(d, request, latitude, longitude);
    PatchId(p, newId);
    assert Get(p, "cropId") == Get(request, "cropId");
    assert Get(p, "qcRequestId") == Get(request, "id");
    assert Get(p, "expirationDate") == JStr(ExpirationDate(d.qcDate));
  }

  /** The key of the request document named by the row's `id`; `doc()`
      throws for anything but a non-empty string. */
  function RequestKey(request: Doc): (key: Option<string>)
    ensures key.Some? <==> Get(request, "id").JStr? && Get(request, "id").s != ""
    ensures key.Some? ==> Get(request, "id") == JStr(key.value)
  {
    match Get(request, "id")
    case JStr(s) => if s != "" then Some(s) else None
    case _ => None
  }

  /** The request document after `updateDoc(ref, { status: "completed" })`. */
  function MarkCompleted(request: Doc): (r: Doc)
    ensures Get(r, "status") == JStr("completed")
    ensures r.Keys == request.Keys + {"status"}
    ensures forall k :: k in request && k != "status" ==> r[k] == request[k]
  {
    request["status" := JStr("completed")]
  }

  /** Every QC record carries its own key as `id` and names, as
      `qcRequestId`, a request whose status is "completed": no QC exists for a
      request that is still pending. */
  ghost predicate ConsistentCollections(qcRequests: map<string, Doc>, qcs: map<string, Doc>)
  {
    forall id :: id in qcs ==>
      && Get(qcs[id], "id") == JStr(id)
      && Get(qcs[id], "qcRequestId").JStr?
      && Get(qcs[id], "qcRequestId").s in qcRequests
      && Get(qcRequests[Get(qcs[id], "qcRequestId").s], "status") == JStr("completed")
  }

  /** Completing a request keeps every record's request completed. */
  lemma CompletingKeepsConsistent(qcRequests: map<string, Doc>, qcs: map<string, Doc>, key: string)
    requires key in qcRequests && ConsistentCollections(qcRequests, qcs)
    ensures ConsistentCollections(qcRequests[key := MarkCompleted(qcRequests[key])], qcs)
  {
    var after := qcRequests[key := MarkCompleted(qcRequests[key])];
    forall id | id in qcs
      ensures Get(after[Get(qcs[id], "qcRequestId").s], "status") == JStr("completed")
    {
      var r := Get(qcs[id], "qcRequestId").s;
      if r != key {
        assert after[r] == qcRequests[r];
      }
    }
  }

  /** A record that names itself and a completed request may join the collection. */
  lemma AddingRecordKeepsConsistent(qcRequests: map<string, Doc>, qcs: map<string, Doc>, newId: string, record: Doc)
    requires ConsistentCollections(qcRequests, qcs)
    requires Get(record, "id") == JStr(newId)
    requires Get(record, "qcRequestId").JStr? && Get(record, "qcRequestId").s in qcRequests
    requires Get(qcRequests[Get(record, "qcRequestId").s], "status") == JStr("completed")
    ensures ConsistentCollections(qcRequests, qcs[newId := record])
  {
  }

  /** What `onSubmit` reports and leaves in the two collections, from the
      collections before it ran. The location comes first: without it
      nothing is written, and neither is anything written when the request
      row names no stored request. Once the request exists it is marked
      completed, whatever happens next; the QC is then stored under its new
      key, unless the request has no `cropId`, which makes the store refuse
      the document. */
  predicate Submitted(requestsBefore: map<string, Doc>, qcsBefore: map<string, Doc>,
                      requestsAfter: map<string, Doc>, qcsAfter: map<string, Doc>, outcome: SubmitOutcome,
                      d: Draft, request: Doc, position: Position, newId: string)
  {
    if position.Unavailable? then
      outcome == Failed(LocationUnavailable) && requestsAfter == requestsBefore && qcsAfter == qcsBefore
    else if RequestKey(request).None? then
      outcome == Failed(InvalidRequestReference) && requestsAfter == requestsBefore && qcsAfter == qcsBefore
    else if RequestKey(request).value !in requestsBefore then
      outcome == Failed(RequestNotFound) && requestsAfter == requestsBefore && qcsAfter == qcsBefore
    else
      var key := RequestKey(request).value;
      && requestsAfter == requestsBefore[key := MarkCompleted(requestsBefore[key])]
      && if Get(request, "cropId") == JUndefined then
           outcome == Failed(UndefinedFieldValue) && qcsAfter == qcsBefore
         else
           outcome == Created(newId)
           && qcsAfter == qcsBefore[newId := QcRecord(d, request, position.latitude, position.longitude, newId)]
  }

  /** The two collections the handler writes. */
  class QcStore {
    var qcRequests: map<string, Doc>
    var qcs: map<string, Doc>

    constructor (requests: map<string, Doc>, records: map<string, Doc>)
      ensures qcRequests == requests && qcs == records
    {
      qcRequests := requests;
      qcs := records;
    }

    ghost predicate Consistent()
      reads this
    {
      ConsistentCollections(qcRequests, qcs)
    }

    /** `onSubmit`: get the location, mark the request completed, add the QC
        document under the key the store generates, then patch the document
        with its own key. The handler only runs for a draft that passed the
        schema. */
    method Submit(d: Draft, request: Doc, position: Position, newId: string) returns (outcome: SubmitOutcome)
      requires Valid(d)
      requires newId !in qcs
      modifies this
      ensures Submitted(old(qcRequests), old(qcs), qcRequests, qcs, outcome, d, request, position, newId)
      ensures old(Consistent()) ==> Consistent()
    {
      if position.Unavailable? {
        return Failed(LocationUnavailable);
      }
      var key := RequestKey(request);
      if key.None? {
        return Failed(InvalidRequestReference);
      }
      if key.value !in qcRequests {
        return Failed(RequestNotFound);
      }
      var payload := QcPayload(d, request, position.latitude, position.longitude);
      PayloadLinks(d, request, position.latitude, position.longitude);
      PayloadUndefinedOnlyWithoutCrop(d, request, position.latitude, position.longitude);
      outcome := CompleteAndAdd(key.value, payload, newId);
    }

    /** The writes of `onSubmit` once the request document is known to exist:
        the status update, then the new document, which the store refuses
        when one of its fields is `undefined`. */
    method CompleteAndAdd(key: string, payload: Doc, newId: string) returns (outcome: SubmitOutcome)
      requires key in qcRequests && newId !in qcs
      requires Get(payload, "qcRequestId") == JStr(key)
      modifies this
      ensures qcRequests == old(qcRequests)[key := MarkCompleted(old(qcRequests)[key])]
      ensures HasUndefinedField(payload) ==> outcome == Failed(UndefinedFieldValue) && qcs == old(qcs)
      ensures !HasUndefinedField(payload) ==>
        outcome == Created(newId) && qcs == old(qcs)[newId := payload["id" := JStr(newId)]]
      ensures old(Consistent()) ==> Consistent()
    {
      CompleteRequest(key);
      if HasUndefinedField(payload) {
        return Failed(UndefinedFieldValue);
      }
      AddRecord(payload, newId);
      outcome := Created(newId);
    }

    /** `updateDoc(doc(db, "qc_requests", key), { status: "completed" })` */
    method CompleteRequest(key: string)
      requires key in qcRequests
      modifies this
      ensures qcRequests == old(qcRequests)[key := MarkCompleted(old(qcRequests)[key])]
      ensures qcs == old(qcs)
      ensures old(Consistent()) ==> Consistent()
    {
      if Consistent() {
        CompletingKeepsConsistent(qcRequests, qcs, key);
      }
      qcRequests := qcRequests[key := MarkCompleted(qcRequests[key])];
    }

    /** `addDoc(collection(db, "qcs"), payload)` under the generated key
        `newId`, then `updateDoc(ref, { id: ref.id })`. */
    method AddRecord(payload: Doc, newId: string)
      requires newId !in qcs
      modifies this
      ensures qcs == old(qcs)[newId := payload["id" := JStr(newId)]]
      ensures qcRequests == old(qcRequests)
      ensures old(Consistent()) && Get(payload, "qcRequestId").JStr? && Get(payload, "qcRequestId").s in qcRequests
              && Get(qcRequests[Get(payload, "qcRequestId").s], "status") == JStr("completed")
              ==> Consistent()
    {
      ghost var before := qcs;
      ghost var wasConsistent := Consistent();
      qcs := qcs[newId := payload];
      var stored := qcs[newId];
      qcs := qcs[newId := stored["id" := JStr(newId)]];
      if wasConsistent && Get(payload, "qcRequestId").JStr? && Get(payload, "qcRequestId").s in qcRequests
         && Get(qcRequests[Get(payload, "qcRequestId").s], "status") == JStr("completed") {
        AddingRecordKeepsConsistent(qcRequests, before, newId, qcs[newId]);
      }
    }

    /** `handleSubmit(onSubmit)`: a draft that fails the schema is reported
        field by field and nothing is written; a valid one is submitted. */
    method HandleSubmit(d: Draft, request: Doc, position: Position, newId: string) returns (outcome: SubmitOutcome)
      requires newId !in qcs
      modifies this
      ensures old(Consistent()) ==> Consistent()
      ensures !Valid(d) ==>
        outcome == Rejected(Errors(d)) && qcRequests == old(qcRequests) && qcs == old(qcs)
      ensures Valid(d) ==> Submitted(old(qcRequests), old(qcs), qcRequests, qcs, outcome, d, request, position, newId)
      ensures Valid(d) ==> !outcome.Rejected?
      ensures outcome.Created? ==>
        && outcome.qcId == newId && position.Located? && RequestKey(request).Some?
        && qcs == old(qcs)[newId := QcRecord(d, request, position.latitude, position.longitude, newId)]
        && RequestKey(request).value in qcRequests
        && Get(qcRequests[RequestKey(request).value], "status") == JStr("completed")
    {
      if !Valid(d) {
        return Rejected(Errors(d));
      }
      outcome := Submit(d, request, position, newId);
    }
  }
}
