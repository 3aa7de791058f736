/**
 * The service layer over the vendor SDK (services/aps.js): URN derivation,
 * the paginated bucket listing, the manifest lookup that maps "not found"
 * to null, and the SDK calls themselves as an abstract gateway whose
 * outcomes are fixed functions and whose side effects are a call log.
 */
module Aps {
  import opened Wrappers
  import opened Base64
  import Utf8

  /** A failed SDK call; `status` is the HTTP status of its response, None when there was no response. */
  datatype ApiError = ApiError(status: Option<int>)

  /** An object stored in the bucket. */
  datatype ObjectDetails = ObjectDetails(objectKey: string, objectId: string)

  /** One page of the bucket listing; `next` is the cursor (`startAt`) of the following page, if any. */
  datatype Page = Page(items: seq<ObjectDetails>, next: Option<string>)

  /** `ossClient.getObjects(bucket, {limit: 64, startAt})` for each possible `startAt`. */
  type Pager = Option<string> -> Result<Page, ApiError>

  /** A diagnostic message of a translation manifest. */
  datatype Message = Message(severity: string, code: string, text: string)

  /** A child node of a derivative; only its messages matter here. */
  datatype ChildNode = ChildNode(messages: Option<seq<Message>>)

  /** A translation output listed in the manifest. */
  datatype Derivative = Derivative(messages: Option<seq<Message>>, children: Option<seq<ChildNode>>)

  /** The translation manifest of a model. */
  datatype Manifest = Manifest(status: string, progress: Option<string>, derivatives: Option<seq<Derivative>>)

  // ---------------------------------------------------------------------
  // urnify: base64 of the id's UTF-8 bytes with every '=' removed
  // ---------------------------------------------------------------------

  /** `Buffer.from(bytes).toString('base64').replace(/=/g, '')`. */
  function UrnifyBytes(b: seq<byte>): string {
    RemoveAll(Encode(b), '=')
  }

  /** `urnify(id)`: the id is first turned into its UTF-8 bytes by `Buffer.from`. */
  function Urnify(id: string): string {
    UrnifyBytes(Utf8.Encode(id))
  }

  lemma QuantumInAlphabet(b0: byte, b1: byte, b2: byte)
    ensures forall i :: 0 <= i < 4 ==> InAlphabet(EncodeQuantum(b0, b1, b2)[i])
    ensures '=' !in EncodeQuantum(b0, b1, b2)
  {
  }

  /** Each full group of three bytes contributes its four characters unchanged. */
  lemma UrnifyBytesUnfold(b: seq<byte>)
    requires |b| >= 3
    ensures UrnifyBytes(b) == EncodeQuantum(b[0], b[1], b[2]) + UrnifyBytes(b[3..])
  {
    var q := EncodeQuantum(b[0], b[1], b[2]);
    assert Encode(b) == q + Encode(b[3..]);
    RemoveAllAppend(q, Encode(b[3..]), '=');
    QuantumInAlphabet(b[0], b[1], b[2]);
    RemoveAllAbsent(q, '=');
  }

  /** A final group of one or two bytes gives two or three characters: its padding is gone. */
  lemma UrnifyBytesTail(b: seq<byte>)
    requires 1 <= |b| <= 2
    ensures |b| == 1 ==> UrnifyBytes(b) == [Sextet(b[0] / 4), Sextet((b[0] % 4) * 16)]
    ensures |b| == 2 ==> UrnifyBytes(b) == [Sextet(b[0] / 4), Sextet((b[0] % 4) * 16 + b[1] / 16), Sextet((b[1] % 16) * 4)]
  {
    var e := Encode(b);
    if |b| == 1 {
      var body := [Sextet(b[0] / 4), Sextet((b[0] % 4) * 16)];
      assert e == body + ['=', '='];
      RemoveAllAppend(body, ['=', '='], '=');
      RemoveAllAbsent(body, '=');
      assert RemoveAll(['=', '='], '=') == [];
    } else {
      var body := [Sextet(b[0] / 4), Sextet((b[0] % 4) * 16 + b[1] / 16), Sextet((b[1] % 16) * 4)];
      assert e == body + ['='];
      RemoveAllAppend(body, ['='], '=');
      RemoveAllAbsent(body, '=');
      assert RemoveAll(['='], '=') == [];
    }
  }

  /** The URN carries no padding and uses only the 64 characters of section 4 of RFC 4648. */
  lemma {:induction false} UrnifyAlphabet(b: seq<byte>)
    ensures '=' !in UrnifyBytes(b)
    ensures forall i :: 0 <= i < |UrnifyBytes(b)| ==> InAlphabet(UrnifyBytes(b)[i])
    decreases |b|
  {
    if 1 <= |b| <= 2 {
      UrnifyBytesTail(b);
    } else if |b| >= 3 {
      UrnifyBytesUnfold(b);
      QuantumInAlphabet(b[0], b[1], b[2]);
      UrnifyAlphabet(b[3..]);
    }
  }

  /** An n-byte input gives ceil(4n/3) characters. */
  lemma {:induction false} UrnifyLength(b: seq<byte>)
    ensures |UrnifyBytes(b)| == (4 * |b| + 2) / 3
    decreases |b|
  {
    if 1 <= |b| <= 2 {
      UrnifyBytesTail(b);
    } else if |b| >= 3 {
      UrnifyBytesUnfold(b);
      UrnifyLength(b[3..]);
    }
  }

  /** Padding the URN back to a multiple of four characters restores the standard encoding. */
  lemma {:induction false} UrnifyRepad(b: seq<byte>)
    ensures Pad(UrnifyBytes(b)) == Encode(b)
    decreases |b|
  {
    if 1 <= |b| <= 2 {
      UrnifyBytesTail(b);
    } else if |b| >= 3 {
      UrnifyBytesUnfold(b);
      UrnifyRepad(b[3..]);
      PadAfterQuantum(EncodeQuantum(b[0], b[1], b[2]), UrnifyBytes(b[3..]));
    }
  }

  /** A complete four-character group in front is left alone by re-padding. */
  lemma PadAfterQuantum(q: string, u: string)
    requires |q| == 4
    ensures Pad(q + u) == q + Pad(u)
  {
    var k := (4 - |u| % 4) % 4;
    assert |q + u| % 4 == |u| % 4;
    assert Pad(q + u) == q + (u + seq(k, _ => '='));
  }

  /** Re-padding and base64-decoding a URN gives back the bytes it was made from. */
  lemma UrnifyRoundTrip(b: seq<byte>)
    ensures Decode(Pad(UrnifyBytes(b))) == Some(b)
  {
    UrnifyRepad(b);
    EncodeDecode(b);
  }

  /** Distinct byte sequences never share a URN. */
  lemma UrnifyBytesInjective(a: seq<byte>, b: seq<byte>)
    requires UrnifyBytes(a) == UrnifyBytes(b)
    ensures a == b
  {
    UrnifyRoundTrip(a);
    UrnifyRoundTrip(b);
  }

  /** Distinct object ids never share a URN. */
  lemma UrnifyInjective(id1: string, id2: string)
    requires Urnify(id1) == Urnify(id2)
    ensures id1 == id2
  {
    UrnifyBytesInjective(Utf8.Encode(id1), Utf8.Encode(id2));
    Utf8.EncodeInjective(id1, id2);
  }

  // ---------------------------------------------------------------------
  // getManifest: a 404 becomes null, every other failure is rethrown
  // ---------------------------------------------------------------------

  /** What `getManifest(urn)` returns given what the SDK's manifest lookup did. */
  function ManifestOutcome(lookup: Result<Manifest, ApiError>): (r: Result<Option<Manifest>, ApiError>)
    ensures r == Ok(None) <==> lookup.Err? && lookup.error.status == Some(404)
    ensures lookup.Ok? ==> r == Ok(Some(lookup.value))
    ensures r.Err? <==> lookup.Err? && lookup.error.status != Some(404)
    ensures r.Err? ==> r.error == lookup.error
  {
    match lookup
    case Ok(manifest) => Ok(Some(manifest))
    case Err(e) => if e.status == Some(404) then Ok(None) else Err(e)
  }

  // ---------------------------------------------------------------------
  // listObjects: follow `next` until a page has none
  // ---------------------------------------------------------------------

  /** `resp.next` is truthy: present and not the empty string. */
  predicate HasNext(page: Page) {
    page.next.Some? && page.next.value != ""
  }

  /** Prefixes the items already gathered to the outcome of the remaining pages. */
  function Prepend(items: seq<ObjectDetails>, rest: Option<Result<seq<ObjectDetails>, ApiError>>): Option<Result<seq<ObjectDetails>, ApiError>> {
    match rest
    case None => None
    case Some(Err(e)) => Some(Err(e))
    case Some(Ok(more)) => Some(Ok(items + more))
  }

  /**
   * The listing that starts at `startAt`: the items of that page and of each
   * page its `next` leads to, in page order, up to the first page without
   * truthy `next`; the first failing request ends it with that failure. None when
   * the chain is longer than `fuel` pages.
   */
  function Collect(pager: Pager, startAt: Option<string>, fuel: nat): Option<Result<seq<ObjectDetails>, ApiError>>
    decreases fuel
  {
    if fuel == 0 then None
    else
      match pager(startAt)
      case Err(e) => Some(Err(e))
      case Ok(page) =>
        if !HasNext(page) then Some(Ok(page.items))
        else Prepend(page.items, Collect(pager, page.next, fuel - 1))
  }

  /** What is still to come once `page` has been read. */
  function Remaining(pager: Pager, page: Page, fuel: nat): Option<Result<seq<ObjectDetails>, ApiError>> {
    if !HasNext(page) then Some(Ok([])) else Collect(pager, page.next, fuel)
  }

  lemma PrependAppend(xs: seq<ObjectDetails>, ys: seq<ObjectDetails>, rest: Option<Result<seq<ObjectDetails>, ApiError>>)
    ensures Prepend(xs, Prepend(ys, rest)) == Prepend(xs + ys, rest)
  {
    if rest.Some? && rest.value.Ok? {
      assert xs + (ys + rest.value.value) == (xs + ys) + rest.value.value;
    }
  }

  lemma CollectStep(pager: Pager, startAt: Option<string>, fuel: nat)
    requires fuel > 0 && pager(startAt).Ok?
    ensures Collect(pager, startAt, fuel) == Prepend(pager(startAt).value.items, Remaining(pager, pager(startAt).value, fuel - 1))
  {
    assert pager(startAt).value.items + [] == pager(startAt).value.items;
  }

  /** A page whose `next` is the empty string ends the listing: no further page is requested. */
  lemma EmptyNextEndsListing(pager: Pager, startAt: Option<string>, fuel: nat, items: seq<ObjectDetails>)
    requires fuel > 0 && pager(startAt) == Ok(Page(items, Some("")))
    ensures Collect(pager, startAt, fuel) == Some(Ok(items))
  {
    assert !HasNext(Page(items, Some("")));
  }

  /** Once the chain of pages ends within `fuel` requests, more fuel changes nothing. */
  lemma {:induction false} CollectFuel(pager: Pager, startAt: Option<string>, fuel: nat, more: nat)
    requires Collect(pager, startAt, fuel).Some? && fuel <= more
    ensures Collect(pager, startAt, more) == Collect(pager, startAt, fuel)
    decreases fuel
  {
    var r := pager(startAt);
    if r.Ok? && HasNext(r.value) {
      CollectFuel(pager, r.value.next, fuel - 1, more - 1);
    }
  }

  /** A chain of pages, each the answer to the truthy cursor of the one before, that ends in a page whose `next` is falsy. */
  ghost predicate IsChain(pager: Pager, startAt: Option<string>, pages: seq<Page>) {
    |pages| >= 1
    && pager(startAt) == Ok(pages[0])
    && (forall i :: 0 <= i < |pages| - 1 ==> HasNext(pages[i]) && pager(pages[i].next) == Ok(pages[i + 1]))
    && !HasNext(pages[|pages| - 1])
  }

  /** The items of `pages`, in page order. */
  function Flatten(pages: seq<Page>): seq<ObjectDetails> {
    if pages == [] then [] else pages[0].items + Flatten(pages[1..])
  }

  /** Along a successful chain of pages the listing is the concatenation of their items, in page order. */
  lemma {:induction false} CollectChain(pager: Pager, startAt: Option<string>, pages: seq<Page>)
    requires IsChain(pager, startAt, pages)
    ensures Collect(pager, startAt, |pages|) == Some(Ok(Flatten(pages)))
    decreases |pages|
  {
    if |pages| == 1 {
      assert Flatten(pages) == pages[0].items + Flatten([]);
      assert pages[0].items + [] == pages[0].items;
    } else {
      var rest := pages[1..];
      assert IsChain(pager, pages[0].next, rest) by {
        forall i | 0 <= i < |rest| - 1
          ensures HasNext(rest[i]) && pager(rest[i].next) == Ok(rest[i + 1])
        {
          assert rest[i] == pages[i + 1] && rest[i + 1] == pages[i + 2];
        }
      }
      CollectChain(pager, pages[0].next, rest);
    }
  }

  /**
   * The loop of `listObjects` after the bucket check: request the first page,
   * then keep requesting the page `next` points to, appending its items,
   * until a page comes back whose `next` is missing or empty. `fuel` bounds the number of
   * pages the listing has, which the source assumes is finite.
   */
  method FetchAllPages(pager: Pager, ghost fuel: nat) returns (r: Result<seq<ObjectDetails>, ApiError>)
    requires Collect(pager, None, fuel).Some?
    ensures Collect(pager, None, fuel) == Some(r)
  {
    var resp := pager(None);
    if resp.Err? {
      return Err(resp.error);
    }
    var page := resp.value;
    var objects := page.items;
    ghost var left: nat := fuel - 1;
    CollectStep(pager, None, fuel);
    while HasNext(page)
      invariant Remaining(pager, page, left).Some?
      invariant Collect(pager, None, fuel) == Prepend(objects, Remaining(pager, page, left))
      decreases left
    {
      resp := pager(page.next);
      if resp.Err? {
        return Err(resp.error);
      }
      CollectStep(pager, page.next, left);
      PrependAppend(objects, resp.value.items, Remaining(pager, resp.value, left - 1));
      page := resp.value;
      objects := objects + page.items;
      left := left - 1;
    }
    assert objects + [] == objects;
    return Ok(objects);
  }

  // ---------------------------------------------------------------------
  // The SDK as an abstract gateway
  // ---------------------------------------------------------------------

  /** A side-effecting request made to the vendor services, in the order made. */
  datatype Call =
    | EnsureBucket
    | Upload(objectName: string, filePath: string)
    | Translate(urn: string, rootFilename: Option<string>)

  /**
   * The vendor services behind services/aps.js. What each request returns is
   * fixed by the constant outcome functions; requests that change remote state
   * are appended to `calls`.
   */
  class Gateway {
    /** What `ensureBucketExists(APS_BUCKET)` does: Ok when the bucket exists or was created. */
    const bucketCheck: Result<(), ApiError>
    /** `ossClient.getObjects` per cursor. */
    const pager: Pager
    /** `modelDerivativeClient.getManifest` per URN. */
    const manifests: string -> Result<Manifest, ApiError>
    /** `ossClient.uploadObject` per object name and local file path. */
    const uploads: (string, string) -> Result<ObjectDetails, ApiError>
    /** `modelDerivativeClient.startJob` per URN and root file name. */
    const translations: (string, Option<string>) -> Result<(), ApiError>
    var calls: seq<Call>

    constructor (bucketCheck: Result<(), ApiError>, pager: Pager, manifests: string -> Result<Manifest, ApiError>,
                 uploads: (string, string) -> Result<ObjectDetails, ApiError>,
                 translations: (string, Option<string>) -> Result<(), ApiError>)
      ensures this.bucketCheck == bucketCheck && this.pager == pager && this.manifests == manifests
      ensures this.uploads == uploads && this.translations == translations
      ensures calls == []
    {
      this.bucketCheck := bucketCheck;
      this.pager := pager;
      this.manifests := manifests;
      this.uploads := uploads;
      this.translations := translations;
      calls := [];
    }

    method EnsureBucketExists() returns (r: Result<(), ApiError>)
      modifies this
      ensures calls == old(calls) + [EnsureBucket]
      ensures r == bucketCheck
    {
      calls := calls + [EnsureBucket];
      r := bucketCheck;
    }

    /** `getManifest(urn)`. */
    function GetManifest(urn: string): Result<Option<Manifest>, ApiError> {
      ManifestOutcome(manifests(urn))
    }

    /** `listObjects()`: the bucket check, then every page of the listing. */
    method ListObjects(ghost fuel: nat) returns (r: Result<seq<ObjectDetails>, ApiError>)
      requires bucketCheck.Ok? ==> Collect(pager, None, fuel).Some?
      modifies this
      ensures calls == old(calls) + [EnsureBucket]
      ensures bucketCheck.Err? ==> r == Err(bucketCheck.error)
      ensures bucketCheck.Ok? ==> Some(r) == Collect(pager, None, fuel)
    {
      var bucket := EnsureBucketExists();
      if bucket.Err? {
        return Err(bucket.error);
      }
      r := FetchAllPages(pager, fuel);
    }

    /** What `uploadObject(name, path)` returns. */
    function UploadOutcome(objectName: string, filePath: string): Result<ObjectDetails, ApiError> {
      if bucketCheck.Err? then Err(bucketCheck.error) else uploads(objectName, filePath)
    }

    /** The requests `uploadObject(name, path)` makes. */
    function UploadCalls(objectName: string, filePath: string): seq<Call> {
      [EnsureBucket] + if bucketCheck.Err? then [] else [Upload(objectName, filePath)]
    }

    /** `uploadObject(name, path)`: the bucket check, then the upload. */
    method UploadObject(objectName: string, filePath: string) returns (r: Result<ObjectDetails, ApiError>)
      modifies this
      ensures calls == old(calls) + UploadCalls(objectName, filePath)
      ensures r == UploadOutcome(objectName, filePath)
    {
      var bucket := EnsureBucketExists();
      if bucket.Err? {
        return Err(bucket.error);
      }
      calls := calls + [Upload(objectName, filePath)];
      r := uploads(objectName, filePath);
    }

    /** `translateObject(urn, rootFilename)`: starts an SVF2 translation job. */
    method TranslateObject(urn: string, rootFilename: Option<string>) returns (r: Result<(), ApiError>)
      modifies this
      ensures calls == old(calls) + [Translate(urn, rootFilename)]
      ensures r == translations(urn, rootFilename)
    {
      calls := calls + [Translate(urn, rootFilename)];
      r := translations(urn, rootFilename);
    }
  }
}
