/**
 * The model routes (routes/models.js): the model list, the translation
 * status report built from a manifest, and the upload-then-translate POST
 * handler. Express itself is left out: a handler takes the parsed request
 * and returns the response it sends, or the error it passes to `next`.
 */
module Models {
  import opened Wrappers
  import opened Aps

  /** `{ name, urn }`. */
  datatype ModelRecord = ModelRecord(name: string, urn: string)

  /** `{ status, progress, messages }`; a missing manifest gives `{ status: 'n/a' }` and no other key. */
  datatype StatusReport = StatusReport(status: string, progress: Option<string>, messages: Option<seq<Message>>)

  /** A JSON body sent with status 200. */
  datatype Body = ModelList(models: seq<ModelRecord>) | Status(report: StatusReport) | Model(record: ModelRecord)

  /** What a handler does with the request. */
  datatype Response =
    | Json(body: Body)                      // res.json(body)
    | Text(statusCode: int, text: string)   // res.status(code).send(text)
    | Next(error: ApiError)                 // next(err)

  /** A file field of the multipart form. */
  datatype UploadedFile = UploadedFile(name: string, path: string)

  const MissingFileMessage := "The required field (\"model-file\") is missing."

  // ---------------------------------------------------------------------
  // GET /api/models
  // ---------------------------------------------------------------------

  /** `objects.map(o => ({ name: o.objectKey, urn: urnify(o.objectId) }))`. */
  function ToModelRecords(objects: seq<ObjectDetails>): (models: seq<ModelRecord>)
    ensures |models| == |objects|
    ensures forall i :: 0 <= i < |objects| ==> models[i] == ModelRecord(objects[i].objectKey, Urnify(objects[i].objectId))
  {
    if objects == [] then []
    else [ModelRecord(objects[0].objectKey, Urnify(objects[0].objectId))] + ToModelRecords(objects[1..])
  }

  /** Objects with distinct ids are listed under distinct URNs. */
  lemma DistinctIdsDistinctUrns(objects: seq<ObjectDetails>, i: int, j: int)
    requires 0 <= i < |objects| && 0 <= j < |objects|
    requires objects[i].objectId != objects[j].objectId
    ensures ToModelRecords(objects)[i].urn != ToModelRecords(objects)[j].urn
  {
    if Urnify(objects[i].objectId) == Urnify(objects[j].objectId) {
      UrnifyInjective(objects[i].objectId, objects[j].objectId);
    }
  }

  /** Each listed URN names the object it came from: re-padded and decoded, it gives that object id's bytes back. */
  lemma ListedUrnDecodes(objects: seq<ObjectDetails>, i: int)
    requires 0 <= i < |objects|
    ensures Base64.Decode(Base64.Pad(ToModelRecords(objects)[i].urn)) == Some(Utf8.Encode(objects[i].objectId))
  {
    UrnifyRoundTrip(Utf8.Encode(objects[i].objectId));
  }

  /** The list route: every object of the bucket, in listing order, or the listing's failure passed on. */
  method ListModels(gateway: Gateway, ghost fuel: nat) returns (resp: Response)
    requires gateway.bucketCheck.Ok? ==> Collect(gateway.pager, None, fuel).Some?
    modifies gateway
    ensures gateway.calls == old(gateway.calls) + [EnsureBucket]
    ensures gateway.bucketCheck.Err? ==> resp == Next(gateway.bucketCheck.error)
    ensures gateway.bucketCheck.Ok? ==>
      match Collect(gateway.pager, None, fuel).value
      case Ok(objects) => resp == Json(ModelList(ToModelRecords(objects)))
      case Err(e) => resp == Next(e)
  {
    var objects := gateway.ListObjects(fuel);
    match objects
    case Err(e) =>
      resp := Next(e);
    case Ok(list) =>
      resp := Json(ModelList(ToModelRecords(list)));
  }

  // ---------------------------------------------------------------------
  // GET /api/models/:urn/status
  // ---------------------------------------------------------------------

  /** The messages of each derivative, in order, with a missing list read as empty; children are not consulted. */
  function TopLevelMessages(derivatives: seq<Derivative>): seq<Message> {
    if derivatives == [] then []
    else TopLevelMessages(derivatives[..|derivatives| - 1]) + derivatives[|derivatives| - 1].messages.GetOr([])
  }

  /** The collected messages are the in-order concatenation over the derivatives. */
  lemma {:induction false} TopLevelMessagesAppend(ds: seq<Derivative>, es: seq<Derivative>)
    ensures TopLevelMessages(ds + es) == TopLevelMessages(ds) + TopLevelMessages(es)
    decreases |es|
  {
    if es == [] {
      assert ds + es == ds;
    } else {
      var last := es[|es| - 1];
      assert (ds + es)[..|ds + es| - 1] == ds + es[..|es| - 1];
      TopLevelMessagesAppend(ds, es[..|es| - 1]);
      assert TopLevelMessages(ds + es) == TopLevelMessages(ds + es[..|es| - 1]) + last.messages.GetOr([]);
    }
  }

  /** A message is reported exactly when some top-level derivative lists it. */
  lemma {:induction false} TopLevelMessagesMembership(ds: seq<Derivative>, m: Message)
    ensures m in TopLevelMessages(ds) <==> exists i :: 0 <= i < |ds| && m in ds[i].messages.GetOr([])
    decreases |ds|
  {
    if ds != [] {
      var init := ds[..|ds| - 1];
      TopLevelMessagesMembership(init, m);
      if m in TopLevelMessages(ds) && m !in ds[|ds| - 1].messages.GetOr([]) {
        var i :| 0 <= i < |init| && m in init[i].messages.GetOr([]);
        assert ds[i] == init[i];
      }
      if exists i :: 0 <= i < |ds| && m in ds[i].messages.GetOr([]) {
        var i :| 0 <= i < |ds| && m in ds[i].messages.GetOr([]);
        if i < |ds| - 1 {
          assert init[i] == ds[i];
        }
      }
    }
  }

  /** Children never influence the report: derivatives that agree on their own messages give the same list. */
  lemma {:induction false} ChildrenIgnored(ds: seq<Derivative>, es: seq<Derivative>)
    requires |ds| == |es|
    requires forall i :: 0 <= i < |ds| ==> ds[i].messages == es[i].messages
    ensures TopLevelMessages(ds) == TopLevelMessages(es)
    decreases |ds|
  {
    if ds != [] {
      ChildrenIgnored(ds[..|ds| - 1], es[..|es| - 1]);
    }
  }

  /**
   * The status handler after the manifest lookup. The inner loop computes
   * `messages.concat(child.messages || [])` and drops the result, exactly
   * as the source does, so `messages` only ever grows by top-level lists.
   */
  method BuildStatusReport(manifest: Option<Manifest>) returns (report: StatusReport)
    ensures manifest.None? ==> report == StatusReport("n/a", None, None)
    ensures manifest.Some? ==>
      report == StatusReport(manifest.value.status, manifest.value.progress,
                             Some(TopLevelMessages(manifest.value.derivatives.GetOr([]))))
  {
    if manifest.None? {
      return StatusReport("n/a", None, None);
    }
    var m := manifest.value;
    var messages: seq<Message> := [];
    if m.derivatives.Some? {
      var derivatives := m.derivatives.value;
      for i := 0 to |derivatives|
        invariant messages == TopLevelMessages(derivatives[..i])
      {
        var derivative := derivatives[i];
        messages := messages + derivative.messages.GetOr([]);
        if derivative.children.Some? {
          var children := derivative.children.value;
          for j := 0 to |children| {
            var discarded := messages + children[j].messages.GetOr([]);
          }
        }
        assert derivatives[..i + 1][..i] == derivatives[..i];
      }
      assert derivatives[..|derivatives|] == derivatives;
    }
    report := StatusReport(m.status, m.progress, Some(messages));
  }

  /** A message that no top-level derivative lists is not reported, however many children list it. */
  lemma ChildOnlyMessageDropped(ds: seq<Derivative>, m: Message)
    requires forall i :: 0 <= i < |ds| ==> m !in ds[i].messages.GetOr([])
    ensures m !in TopLevelMessages(ds)
  {
    TopLevelMessagesMembership(ds, m);
  }

  /** The status route: the lookup's failure is passed on, otherwise the report is sent. */
  method ModelStatus(gateway: Gateway, urn: string) returns (resp: Response)
    ensures gateway.GetManifest(urn).Err? ==> resp == Next(gateway.GetManifest(urn).error)
    ensures gateway.GetManifest(urn) == Ok(None) ==> resp == Json(Status(StatusReport("n/a", None, None)))
    ensures gateway.GetManifest(urn).Ok? && gateway.GetManifest(urn).value.Some? ==>
      var m := gateway.GetManifest(urn).value.value;
      resp == Json(Status(StatusReport(m.status, m.progress, Some(TopLevelMessages(m.derivatives.GetOr([]))))))
  {
    var manifest := gateway.GetManifest(urn);
    match manifest
    case Err(e) =>
      resp := Next(e);
    case Ok(found) =>
      var report := BuildStatusReport(found);
      resp := Json(Status(report));
  }

  // ---------------------------------------------------------------------
  // POST /api/models
  // ---------------------------------------------------------------------

  function Lookup(fields: map<string, string>, key: string): Option<string> {
    if key in fields then Some(fields[key]) else None
  }

  /**
   * The upload route: without a `model-file` the request is answered with 400
   * and nothing is called; otherwise the file is uploaded, the translation is
   * started on the URN of the uploaded object with the optional ZIP entry
   * point, and the record sent back carries that same URN.
   */
  method UploadModel(gateway: Gateway, files: map<string, UploadedFile>, fields: map<string, string>) returns (resp: Response)
    modifies gateway
    ensures "model-file" !in files ==> resp == Text(400, MissingFileMessage) && gateway.calls == old(gateway.calls)
    ensures "model-file" in files ==>
      var file := files["model-file"];
      match gateway.UploadOutcome(file.name, file.path)
      case Err(e) =>
        resp == Next(e) && gateway.calls == old(gateway.calls) + gateway.UploadCalls(file.name, file.path)
      case Ok(obj) =>
        var urn := Urnify(obj.objectId);
        var root := Lookup(fields, "model-zip-entrypoint");
        gateway.calls == old(gateway.calls) + gateway.UploadCalls(file.name, file.path) + [Translate(urn, root)]
        && (gateway.translations(urn, root).Err? ==> resp == Next(gateway.translations(urn, root).error))
        && (gateway.translations(urn, root).Ok? ==> resp == Json(Model(ModelRecord(obj.objectKey, urn))))
  {
    if "model-file" !in files {
      return Text(400, MissingFileMessage);
    }
    var file := files["model-file"];
    var uploaded := gateway.UploadObject(file.name, file.path);
    if uploaded.Err? {
      return Next(uploaded.error);
    }
    var obj := uploaded.value;
    var translated := gateway.TranslateObject(Urnify(obj.objectId), Lookup(fields, "model-zip-entrypoint"));
    if translated.Err? {
      return Next(translated.error);
    }
    resp := Json(Model(ModelRecord(obj.objectKey, Urnify(obj.objectId))));
  }
}
