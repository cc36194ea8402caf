/** The OCR vendor client: base-URL normalisation, content-type choice, the multipart form
    it posts, the licence masking used when logging that form, and the whole `ocr` call with
    the transport, file system and JSON decoder passed in as parameters. */
module OcrEngine {
  import opened Common
  import opened Text
  import opened Json
  import opened OcrTypes

  /** A configured client; the three endpoint URLs hang off one normalised base. */
  datatype Engine = Engine(licenseKey: string, ocrUrl: string, downloadUrl: string, workerStatusUrl: string)

  predicate HasScheme(address: string) {
    StartsWith(Lower(address), "http://") || StartsWith(Lower(address), "https://")
  }

  /** "http://" is put in front of an address that has neither scheme (checked case-insensitively). */
  function WithScheme(address: string): (r: string)
    ensures HasScheme(r)
    ensures HasScheme(address) ==> r == address
    ensures !HasScheme(address) ==> r == "http://" + address
  {
    if HasScheme(address) then address
    else
      LowerAppend("http://", address);
      assert Lower("http://" + address)[..7] == Lower("http://");
      "http://" + address
  }

  /** The base URL: scheme added, then every trailing '/' removed. */
  function NormalizeBaseUrl(address: string): (base: string)
    ensures base == [] || base[|base| - 1] != '/'
    ensures |base| <= |WithScheme(address)| && base == WithScheme(address)[..|base|]
    ensures forall i :: |base| <= i < |WithScheme(address)| ==> WithScheme(address)[i] == '/'
  {
    RStripChar(WithScheme(address), '/')
  }

  /** The constructor: blank licence or address is a ValueError; otherwise the endpoints are
      the normalised base followed by their fixed paths. */
  function Create(licenseKey: string, baseUrl: string): (r: Result<Engine>)
    ensures r.Failure? <==> IsBlank(licenseKey) || IsBlank(baseUrl)
    ensures r.Failure? ==> r.error == ValueError
    ensures r.Success? ==> r.value.licenseKey == licenseKey
    ensures r.Success? ==>
              var base := NormalizeBaseUrl(baseUrl);
              && r.value.ocrUrl == base + "/do-ocr/"
              && r.value.downloadUrl == base + "/download_file/"
              && r.value.workerStatusUrl == base + "/worker-status/"
  {
    if IsBlank(licenseKey) || IsBlank(baseUrl) then Failure(ValueError)
    else
      var base := NormalizeBaseUrl(baseUrl);
      Success(Engine(licenseKey, base + "/do-ocr/", base + "/download_file/", base + "/worker-status/"))
  }

  /** An address that already ends in something other than '/' is kept whole (with "http://"
      in front if it had no scheme), so the base still carries its scheme. */
  lemma NormalizeKeepsAddress(address: string)
    requires address != [] && address[|address| - 1] != '/'
    ensures NormalizeBaseUrl(address) == WithScheme(address)
    ensures HasScheme(NormalizeBaseUrl(address))
  {
    var w := WithScheme(address);
    assert w[|w| - 1] == address[|address| - 1];
  }

  /** Normalising a base that still carries its scheme changes nothing. */
  lemma NormalizeIdempotent(address: string)
    requires HasScheme(NormalizeBaseUrl(address))
    ensures NormalizeBaseUrl(NormalizeBaseUrl(address)) == NormalizeBaseUrl(address)
  {
    var base := NormalizeBaseUrl(address);
    assert WithScheme(base) == base;
    if base != [] {
      assert RStripChar(base, '/') == base;
    }
  }

  /** The address "http://" is not blank, yet its normalised base loses the scheme's slashes. */
  lemma SchemeOnlyAddress()
    ensures NormalizeBaseUrl("http://") == "http:"
  {
    assert HasScheme("http://") by {
      assert Lower("http://") == "http://";
    }
    assert "http://"[..6] == "http:/" && "http:/"[..5] == "http:";
    assert RStripChar("http:", '/') == "http:";
    assert RStripChar("http:/", '/') == "http:";
    assert RStripChar("http://", '/') == "http:";
  }

  /** The known extensions and their content types, as a table. */
  const ExtensionTypes: map<string, string> := map[
    ".pdf" := "application/pdf",
    ".png" := "image/png",
    ".tiff" := "image/tiff",
    ".tif" := "image/tiff",
    ".jpg" := "image/jpeg",
    ".jpeg" := "image/jpeg"]

  /** `_determine_content_type`: decided on the lower-cased name's ending. */
  function ContentType(filePath: string): (r: string)
    ensures r in {"application/pdf", "image/png", "image/tiff", "image/jpeg", "application/octet-stream"}
  {
    TypeOfLowered(Lower(filePath))
  }

  /** The if-chain of `_determine_content_type` on an already lower-cased name. */
  function TypeOfLowered(name: string): string {
    if EndsWith(name, ".pdf") then "application/pdf"
    else if EndsWith(name, ".png") then "image/png"
    else if EndsWith(name, ".tiff") || EndsWith(name, ".tif") then "image/tiff"
    else if EndsWith(name, ".jpg") || EndsWith(name, ".jpeg") then "image/jpeg"
    else "application/octet-stream"
  }

  lemma EndsWithAppend(a: string, b: string, suffix: string)
    requires |suffix| <= |b|
    ensures EndsWith(a + b, suffix) <==> EndsWith(b, suffix)
  {
    assert (a + b)[|a + b| - |suffix|..] == b[|b| - |suffix|..];
  }

  /** A four-character extension never ends a name the way a five-character one does. */
  lemma NotEndsWithLonger(a: string, e: string, k: string)
    requires |e| == 4 && |k| == 5 && e != k[1..]
    ensures !EndsWith(a + e, k)
  {
  }

  /** Any name ending in a known extension, in any letter case, gets that extension's type. */
  lemma ContentTypeOfExtension(stem: string, ext: string)
    requires Lower(ext) in ExtensionTypes
    ensures ContentType(stem + ext) == ExtensionTypes[Lower(ext)]
  {
    var e := Lower(ext);
    var l := Lower(stem);
    LowerAppend(stem, ext);
    TypeOfEnding(l, e);
  }

  lemma TypeOfEnding(l: string, e: string)
    requires e in ExtensionTypes
    ensures TypeOfLowered(l + e) == ExtensionTypes[e]
  {
    assert e == ".pdf" || e == ".png" || e == ".tiff" || e == ".tif" || e == ".jpg" || e == ".jpeg";
    EndsWithAppend(l, e, ".pdf");
    if e == ".pdf" {
    } else if e == ".png" {
      EndsWithAppend(l, e, ".png");
    } else if e == ".tiff" {
      EndsWithAppend(l, e, ".png");
      EndsWithAppend(l, e, ".tiff");
    } else if e == ".tif" {
      EndsWithAppend(l, e, ".png");
      NotEndsWithLonger(l, e, ".tiff");
      EndsWithAppend(l, e, ".tif");
    } else if e == ".jpg" {
      EndsWithAppend(l, e, ".png");
      NotEndsWithLonger(l, e, ".tiff");
      EndsWithAppend(l, e, ".tif");
      EndsWithAppend(l, e, ".jpg");
    } else {
      EndsWithAppend(l, e, ".png");
      EndsWithAppend(l, e, ".tiff");
      EndsWithAppend(l, e, ".tif");
      EndsWithAppend(l, e, ".jpg");
      EndsWithAppend(l, e, ".jpeg");
    }
  }

  /** A name with none of the known endings is sent as octet-stream. */
  lemma ContentTypeDefault(filePath: string)
    requires forall k :: k in ExtensionTypes ==> !EndsWith(Lower(filePath), k)
    ensures ContentType(filePath) == "application/octet-stream"
  {
    assert ".pdf" in ExtensionTypes && ".png" in ExtensionTypes && ".tiff" in ExtensionTypes;
    assert ".tif" in ExtensionTypes && ".jpg" in ExtensionTypes && ".jpeg" in ExtensionTypes;
  }

  /** The letter case of the name does not matter. */
  lemma ContentTypeIgnoresCase(filePath: string)
    ensures ContentType(Lower(filePath)) == ContentType(filePath)
  {
    LowerIdempotent(filePath);
  }

  /** The arguments of `ocr`. */
  datatype OcrRequest = OcrRequest(
    imageFile: string,
    pageIndex: string,
    fid: string,
    path: string,
    restoration: string,
    rotAngle: bool,
    bboxRoi: string,
    fileType: string,
    recogForm: bool)

  /** A call that passes only the file, leaving every other argument at its default. */
  function DefaultRequest(imageFile: string): OcrRequest {
    OcrRequest(imageFile, "0", "", "", "", false, "", "local", false)
  }

  /** How this client sends a boolean form field. */
  function BoolField(b: bool): string {
    if b then "true" else "false"
  }

  const FormKeys: set<string> :=
    {"fid", "page_index", "path", "lic", "restoration", "rot_angle", "bbox_roi", "type", "recog_form"}

  /** The form fields posted with the file. */
  function Form(e: Engine, req: OcrRequest): (form: map<string, string>)
    ensures form.Keys == FormKeys
  {
    map[
      "fid" := req.fid,
      "page_index" := req.pageIndex,
      "path" := req.path,
      "lic" := e.licenseKey,
      "restoration" := req.restoration,
      "rot_angle" := BoolField(req.rotAngle),
      "bbox_roi" := req.bboxRoi,
      "type" := req.fileType,
      "recog_form" := BoolField(req.recogForm)]
  }

  /** Reading a request back from the form: the inverse of `Form`. */
  function RequestOfForm(imageFile: string, form: map<string, string>): Option<OcrRequest> {
    if FormKeys <= form.Keys then
      Some(OcrRequest(imageFile, form["page_index"], form["fid"], form["path"], form["restoration"],
                      form["rot_angle"] == "true", form["bbox_roi"], form["type"], form["recog_form"] == "true"))
    else None
  }

  /** Every argument reaches the vendor unchanged, and the licence key travels with them. */
  lemma FormRoundTrip(e: Engine, req: OcrRequest)
    ensures RequestOfForm(req.imageFile, Form(e, req)) == Some(req)
    ensures Form(e, req)["lic"] == e.licenseKey
  {
  }

  /** The licence as logged: its first four characters, then "****". */
  function MaskLicense(lic: string): (masked: string)
    ensures lic != "" ==> |masked| == Min(4, |lic|) + 4 && masked == lic[..Min(4, |lic|)] + "****"
    ensures lic == "" ==> masked == ""
  {
    if lic == "" then lic else lic[..Min(4, |lic|)] + "****"
  }

  /** The copy of the form that goes to the log. */
  function LoggedForm(form: map<string, string>): map<string, string> {
    if "lic" in form && form["lic"] != "" then form["lic" := MaskLicense(form["lic"])] else form
  }

  /** For a configured client, the logged form shows at most four characters of the licence
      and agrees with the posted form on every other field. */
  lemma LoggedFormHidesLicense(e: Engine, req: OcrRequest)
    requires e.licenseKey != ""
    ensures var logged := LoggedForm(Form(e, req));
            && logged.Keys == FormKeys
            && logged["lic"] == e.licenseKey[..Min(4, |e.licenseKey|)] + "****"
            && forall k :: k in FormKeys && k != "lic" ==> logged[k] == Form(e, req)[k]
  {
  }

  /** The multipart upload for a file whose bytes are `content`. */
  function UploadOf(e: Engine, req: OcrRequest, content: seq<bv8>): Upload {
    Upload(e.ocrUrl, Basename(req.imageFile), content, ContentType(req.imageFile), Form(e, req))
  }

  /** The outcome of `ocr`. `files` stands for the file system and `post` for the HTTP call
      (`None` when the transport raises). A missing file, a transport error, a non-200 status
      and every parse error all surface as RuntimeError. */
  function OcrOutcome(e: Engine, req: OcrRequest, files: map<string, seq<bv8>>,
                      post: Upload -> Option<HttpResponse>, decode: string -> Option<Json>): (r: Result<OcrResult>)
    ensures r.Failure? ==> r.error == RuntimeError
    ensures req.imageFile !in files ==> r.Failure?
    ensures req.imageFile in files && post(UploadOf(e, req, files[req.imageFile])).None? ==> r.Failure?
    ensures (req.imageFile in files && post(UploadOf(e, req, files[req.imageFile])).Some?
             && post(UploadOf(e, req, files[req.imageFile])).value.status != 200) ==> r.Failure?
    ensures (req.imageFile in files && post(UploadOf(e, req, files[req.imageFile])).Some?
             && post(UploadOf(e, req, files[req.imageFile])).value.status == 200)
            ==> r == ParseVendorResponse(post(UploadOf(e, req, files[req.imageFile])).value.text, decode, true)
  {
    if req.imageFile !in files then Failure(RuntimeError)
    else match post(UploadOf(e, req, files[req.imageFile]))
      case None => Failure(RuntimeError)
      case Some(response) =>
        if response.status != 200 then Failure(RuntimeError)
        else ParseVendorResponse(response.text, decode, true)
  }

  /** The smallest 200 reply, "{}", gives the default envelope, rotation 0.0 included. */
  lemma EmptyOkReplyGivesDefaults(e: Engine, req: OcrRequest, files: map<string, seq<bv8>>,
                        post: Upload -> Option<HttpResponse>, decode: string -> Option<Json>)
    requires req.imageFile in files
    requires post(UploadOf(e, req, files[req.imageFile])) == Some(HttpResponse(200, "{}"))
    requires decode("{}") == Some(JObj(map[]))
    ensures OcrOutcome(e, req, files, post, decode) == Success(OcrResult("", 0, Some(0.0), "", "", []))
  {
    MissingKeysGiveDefaults("{}", decode, true);
  }

  method Ocr(e: Engine, req: OcrRequest, files: map<string, seq<bv8>>,
             post: Upload -> Option<HttpResponse>, decode: string -> Option<Json>) returns (r: Result<OcrResult>)
    ensures r == OcrOutcome(e, req, files, post, decode)
  {
    if req.imageFile !in files {
      return Failure(RuntimeError);
    }
    var upload := UploadOf(e, req, files[req.imageFile]);
    var response := post(upload);
    if response.None? || response.value.status != 200 {
      return Failure(RuntimeError);
    }
    r := ParseResponse(response.value.text, decode, true);
  }

  /** The worked example of a vendor reply: one node, its four corners and its score. */
  const ExampleNode: Json := JObj(map[
    "text" := JStr("Hello"),
    "bbox" := JArr([JArr([JInt(0), JInt(0)]), JArr([JInt(10), JInt(0)]),
                    JArr([JInt(10), JInt(10)]), JArr([JInt(0), JInt(10)])]),
    "score" := JFloat(0.9)])

  const ExampleReply: Json := JObj(map[
    "fid" := JStr("f1"),
    "totalpage" := JInt(2),
    "rotate" := JInt(0),
    "file_path" := JStr("p"),
    "ocr_result" := JArr([ExampleNode])])

  const ExampleBox: OcrBox := OcrBox("Hello", Point(0, 0), Point(10, 0), Point(10, 10), Point(0, 10), 0.9)

  lemma ExampleNodeParses()
    ensures ParseNode(ExampleNode) == Success(NodeOutcome(Some("Hello"), Some(ExampleBox)))
  {
    assert FourPointBox(ExampleNode);
  }

  lemma ExampleNodesCollect()
    ensures Collect([ExampleNode]) == Success(Collected(["Hello"], [ExampleBox]))
  {
    var nodes := [ExampleNode];
    assert nodes[..|nodes| - 1] == [];
    assert nodes[|nodes| - 1] == ExampleNode;
    ExampleNodeParses();
    assert [] + OptionToSeq(Some("Hello")) == ["Hello"];
    assert [] + OptionToSeq(Some(ExampleBox)) == [ExampleBox];
  }

  lemma ExampleEnvelope()
    ensures Envelope(ExampleReply.fields, Collected(["Hello"], [ExampleBox]), true)
            == Success(OcrResult("f1", 2, Some(0.0), "Hello", "p", [ExampleBox]))
  {
    var fields := ExampleReply.fields;
    assert fields["fid"] == JStr("f1") && fields["totalpage"] == JInt(2);
    assert fields["rotate"] == JInt(0) && fields["file_path"] == JStr("p");
    assert ReadRotate(fields) == Success(Some(0.0));
    ExampleFullText();
  }

  lemma ExampleFullText()
    ensures FullText(["Hello"]) == "Hello"
  {
    assert Join(["Hello"], " ") == "Hello";
    assert !IsSpace('o') && !IsSpace('H');
    assert RStrip("Hello") == "Hello";
    assert LStrip("Hello") == "Hello";
  }

  /** The example reply parses to one box labelled "Hello" with its corners in the order
      left-top, right-top, right-bottom, left-bottom, and the envelope values copied. */
  lemma ExampleReplyParses(text: string, decode: string -> Option<Json>)
    requires text != "" && decode(text) == Some(ExampleReply)
    ensures ParseVendorResponse(text, decode, true)
            == Success(OcrResult("f1", 2, Some(0.0), "Hello", "p", [ExampleBox]))
  {
    assert Get(ExampleReply.fields, "ocr_result", JArr([])) == JArr([ExampleNode]);
    ExampleNodesCollect();
    ExampleEnvelope();
  }
}
