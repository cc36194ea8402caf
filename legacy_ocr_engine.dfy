/** The older OCR client: the same constructor rules, a content-type table without JPEG,
    three kinds of image argument, `or`-defaulted form fields with Python-style booleans,
    a parser that never reads `rotate`, every failure re-raised as RuntimeError, the
    conversion of a result to a JSON map, and the module-level engine slot. */
module LegacyOcrEngine {
  import opened Common
  import opened Text
  import opened Json
  import opened OcrTypes
  import Client = OcrEngine

  /** The constructor applies the same checks and builds the same endpoints as the newer client. */
  function Create(licenseKey: string, baseUrl: string): (r: Result<Client.Engine>)
    ensures r.Failure? <==> IsBlank(licenseKey) || IsBlank(baseUrl)
    ensures r.Failure? ==> r.error == ValueError
    ensures r.Success? ==>
              var base := Client.NormalizeBaseUrl(baseUrl);
              && r.value.licenseKey == licenseKey
              && r.value.ocrUrl == base + "/do-ocr/"
              && r.value.downloadUrl == base + "/download_file/"
              && r.value.workerStatusUrl == base + "/worker-status/"
  {
    Client.Create(licenseKey, baseUrl)
  }

  /** `determine_content_type`: pdf, png and tif/tiff only. */
  function ContentType(fileName: string): (r: string)
    ensures r in {"application/pdf", "image/png", "image/tiff", "application/octet-stream"}
  {
    var name := Lower(fileName);
    if EndsWith(name, ".pdf") then "application/pdf"
    else if EndsWith(name, ".png") then "image/png"
    else if EndsWith(name, ".tiff") || EndsWith(name, ".tif") then "image/tiff"
    else "application/octet-stream"
  }

  /** The two tables agree except that this one sends JPEG names as octet-stream. */
  lemma ContentTypeVersusNewer(fileName: string)
    ensures Client.ContentType(fileName) != "image/jpeg" ==> ContentType(fileName) == Client.ContentType(fileName)
    ensures Client.ContentType(fileName) == "image/jpeg" ==> ContentType(fileName) == "application/octet-stream"
  {
  }

  /** A ".jpg" name of any case is sent as octet-stream. */
  lemma JpegIsOctetStream(stem: string, ext: string)
    requires Lower(ext) == ".jpg" || Lower(ext) == ".jpeg"
    ensures ContentType(stem + ext) == "application/octet-stream"
  {
    Client.ContentTypeOfExtension(stem, ext);
    ContentTypeVersusNewer(stem + ext);
  }

  /** The image argument: an upload object with a file name, an open file with a path, or raw bytes. */
  datatype ImageFile =
    | UploadedFile(filename: string, content: seq<bv8>)
    | OpenFile(name: string, content: seq<bv8>)
    | RawBytes(content: seq<bv8>)

  datatype FilePart = FilePart(fileName: string, content: seq<bv8>, contentType: string)

  /** The multipart file part for each kind of image argument. */
  function FilePartOf(image: ImageFile): (part: FilePart)
    ensures part.content == image.content
    ensures image.RawBytes? ==> part == FilePart("file.bin", image.content, "application/octet-stream")
    ensures image.UploadedFile? ==> part.fileName == image.filename
    ensures image.OpenFile? ==> part.fileName == Basename(image.name)
    ensures !image.RawBytes? ==> part.contentType == ContentType(part.fileName)
  {
    match image
    case UploadedFile(filename, content) => FilePart(filename, content, ContentType(filename))
    case OpenFile(name, content) =>
      var fileName := Basename(name);
      FilePart(fileName, content, ContentType(fileName))
    case RawBytes(content) => FilePart("file.bin", content, "application/octet-stream")
  }

  /** The arguments of `ocr`; the optional strings may be `None`. */
  datatype LegacyRequest = LegacyRequest(
    fid: Option<string>,
    pageIndex: Option<string>,
    path: Option<string>,
    restoration: Option<string>,
    rotAngle: bool,
    bboxRoi: Option<string>,
    fileType: string,
    recogForm: bool)

  /** `value or default` for an optional string. */
  function OrDefault(value: Option<string>, default: string): (r: string)
    ensures value.Some? && value.value != "" ==> r == value.value
    ensures value.None? || value.value == "" ==> r == default
  {
    if value.Some? && value.value != "" then value.value else default
  }

  /** `str(b)` for a Python bool. */
  function PyBool(b: bool): string {
    if b then "True" else "False"
  }

  /** The posted form: missing or empty strings become "" (page index "0"), booleans "True"/"False". */
  function Form(e: Client.Engine, req: LegacyRequest): (form: map<string, string>)
    ensures form.Keys == Client.FormKeys
  {
    map[
      "fid" := OrDefault(req.fid, ""),
      "page_index" := OrDefault(req.pageIndex, "0"),
      "path" := OrDefault(req.path, ""),
      "lic" := e.licenseKey,
      "restoration" := OrDefault(req.restoration, ""),
      "rot_angle" := PyBool(req.rotAngle),
      "bbox_roi" := OrDefault(req.bboxRoi, ""),
      "type" := req.fileType,
      "recog_form" := PyBool(req.recogForm)]
  }

  /** The page index sent is never empty, and booleans are spelled with a capital letter,
      so they differ from what the newer client sends. */
  lemma FormDefaults(e: Client.Engine, req: LegacyRequest, newer: Client.OcrRequest)
    requires newer.rotAngle == req.rotAngle
    ensures Form(e, req)["page_index"] != ""
    ensures Form(e, req)["rot_angle"] != Client.Form(e, newer)["rot_angle"]
    ensures Form(e, req)["rot_angle"] == "True" <==> req.rotAngle
  {
  }

  function UploadOf(e: Client.Engine, image: ImageFile, req: LegacyRequest): Upload {
    var part := FilePartOf(image);
    Upload(e.ocrUrl, part.fileName, part.content, part.contentType, Form(e, req))
  }

  /** The outcome of `ocr`: a transport error, a non-200 status (raised as an HTTP exception
      inside) and every parse error reach the caller as RuntimeError. */
  function OcrOutcome(e: Client.Engine, image: ImageFile, req: LegacyRequest,
                      post: Upload -> Option<HttpResponse>, decode: string -> Option<Json>): (r: Result<OcrResult>)
    ensures r.Failure? ==> r.error == RuntimeError
    ensures r.Success? ==> r.value.rotate.None?
    ensures post(UploadOf(e, image, req)).None? ==> r.Failure?
    ensures (post(UploadOf(e, image, req)).Some? && post(UploadOf(e, image, req)).value.status != 200) ==> r.Failure?
    ensures (post(UploadOf(e, image, req)).Some? && post(UploadOf(e, image, req)).value.status == 200)
            ==> r == ParseVendorResponse(post(UploadOf(e, image, req)).value.text, decode, false)
  {
    match post(UploadOf(e, image, req))
    case None => Failure(RuntimeError)
    case Some(response) =>
      if response.status != 200 then Failure(RuntimeError)
      else ParseVendorResponse(response.text, decode, false)
  }

  /** `ocr` / `process_ocr` / `perform_ocr`. */
  method Ocr(e: Client.Engine, image: ImageFile, req: LegacyRequest,
             post: Upload -> Option<HttpResponse>, decode: string -> Option<Json>) returns (r: Result<OcrResult>)
    ensures r == OcrOutcome(e, image, req, post, decode)
  {
    var response := post(UploadOf(e, image, req));
    if response.None? {
      return Failure(RuntimeError);
    }
    if response.value.status != 200 {
      // raised inside as an HTTP exception carrying the status, re-raised by `process_ocr`
      return Failure(RuntimeError);
    }
    r := ParseResponse(response.value.text, decode, false);
  }

  function PointJson(p: Point): Json {
    JObj(map["x" := JInt(p.x), "y" := JInt(p.y)])
  }

  /** One entry of `boxes` in the map form. */
  function BoxJson(b: OcrBox): Json {
    JObj(map[
      "label" := JStr(b.labelText),
      "confidenceScore" := JFloat(b.confidence),
      "leftTop" := PointJson(b.leftTop),
      "rightTop" := PointJson(b.rightTop),
      "leftBottom" := PointJson(b.leftBottom),
      "rightBottom" := PointJson(b.rightBottom)])
  }

  function BoxesJson(boxes: seq<OcrBox>): (items: seq<Json>)
    ensures |items| == |boxes|
  {
    seq(|boxes|, i requires 0 <= i < |boxes| => BoxJson(boxes[i]))
  }

  function RotateJson(rotate: Option<real>): Json {
    if rotate.Some? then JFloat(rotate.value) else JNull
  }

  /** The map `ocr_to_map` returns for a result. */
  function ResultMap(r: OcrResult): map<string, Json> {
    map[
      "fid" := JStr(r.fid),
      "fullText" := JStr(r.fullText),
      "totalPages" := JInt(r.totalPages),
      "rotate" := RotateJson(r.rotate),
      "pageFileData" := JStr(r.pageFileData),
      "boxes" := JArr(BoxesJson(r.boxes))]
  }

  /** Reading the map form back. */
  function PointOfJson(j: Json): Option<Point> {
    if j.JObj? && "x" in j.fields && "y" in j.fields && j.fields["x"].JInt? && j.fields["y"].JInt?
    then Some(Point(j.fields["x"].i, j.fields["y"].i))
    else None
  }

  function BoxOfJson(j: Json): Option<OcrBox> {
    if !j.JObj? then None
    else
      var f := j.fields;
      if !("label" in f && "confidenceScore" in f && "leftTop" in f && "rightTop" in f
           && "leftBottom" in f && "rightBottom" in f) then None
      else if !f["label"].JStr? || !f["confidenceScore"].JFloat? then None
      else
        match (PointOfJson(f["leftTop"]), PointOfJson(f["rightTop"]), PointOfJson(f["rightBottom"]), PointOfJson(f["leftBottom"]))
        case (Some(lt), Some(rt), Some(rb), Some(lb)) =>
          Some(OcrBox(f["label"].s, lt, rt, rb, lb, f["confidenceScore"].f))
        case _ => None
  }

  function BoxesOfJson(items: seq<Json>): Option<seq<OcrBox>> {
    if items == [] then Some([])
    else match (BoxOfJson(items[0]), BoxesOfJson(items[1..]))
      case (Some(b), Some(rest)) => Some([b] + rest)
      case _ => None
  }

  function ResultOfMap(m: map<string, Json>): Option<OcrResult> {
    if !("fid" in m && "fullText" in m && "totalPages" in m && "rotate" in m && "pageFileData" in m && "boxes" in m) then None
    else if !m["fid"].JStr? || !m["fullText"].JStr? || !m["totalPages"].JInt? || !m["pageFileData"].JStr? || !m["boxes"].JArr? then None
    else if !(m["rotate"].JNull? || m["rotate"].JFloat?) then None
    else
      var rotate := if m["rotate"].JFloat? then Some(m["rotate"].f) else None;
      match BoxesOfJson(m["boxes"].items)
      case Some(boxes) => Some(OcrResult(m["fid"].s, m["totalPages"].i, rotate, m["fullText"].s, m["pageFileData"].s, boxes))
      case None => None
  }

  lemma PointRoundTrip(p: Point)
    ensures PointOfJson(PointJson(p)) == Some(p)
  {
  }

  /** Every field of a box, each corner under its own key, survives the map form. */
  lemma BoxRoundTrip(b: OcrBox)
    ensures BoxOfJson(BoxJson(b)) == Some(b)
  {
    var f := BoxJson(b).fields;
    assert f["leftTop"] == PointJson(b.leftTop) && f["rightTop"] == PointJson(b.rightTop);
    assert f["rightBottom"] == PointJson(b.rightBottom) && f["leftBottom"] == PointJson(b.leftBottom);
    PointRoundTrip(b.leftTop);
    PointRoundTrip(b.rightTop);
    PointRoundTrip(b.rightBottom);
    PointRoundTrip(b.leftBottom);
  }

  /** The box list keeps its length and order. */
  lemma {:induction false} BoxesRoundTrip(boxes: seq<OcrBox>)
    ensures BoxesOfJson(BoxesJson(boxes)) == Some(boxes)
  {
    if boxes != [] {
      var items := BoxesJson(boxes);
      assert items[0] == BoxJson(boxes[0]);
      assert items[1..] == BoxesJson(boxes[1..]);
      BoxRoundTrip(boxes[0]);
      BoxesRoundTrip(boxes[1..]);
      assert [boxes[0]] + boxes[1..] == boxes;
    }
  }

  /** Nothing of the result is lost in the map form. */
  lemma ResultMapRoundTrip(r: OcrResult)
    ensures ResultOfMap(ResultMap(r)) == Some(r)
  {
    var m := ResultMap(r);
    assert m["boxes"] == JArr(BoxesJson(r.boxes));
    assert m["rotate"] == RotateJson(r.rotate);
    BoxesRoundTrip(r.boxes);
  }

  /** The loop of `ocr_to_map` that builds `boxes_list`, then the result map. */
  method ResultToMap(r: OcrResult) returns (m: map<string, Json>)
    ensures m == ResultMap(r)
  {
    var boxesList: seq<Json> := [];
    var i := 0;
    while i < |r.boxes|
      invariant 0 <= i <= |r.boxes|
      invariant boxesList == BoxesJson(r.boxes[..i])
    {
      assert BoxesJson(r.boxes[..i + 1]) == BoxesJson(r.boxes[..i]) + [BoxJson(r.boxes[i])];
      boxesList := boxesList + [BoxJson(r.boxes[i])];
      i := i + 1;
    }
    assert r.boxes[..|r.boxes|] == r.boxes;
    m := map[
      "fid" := JStr(r.fid),
      "fullText" := JStr(r.fullText),
      "totalPages" := JInt(r.totalPages),
      "rotate" := RotateJson(r.rotate),
      "pageFileData" := JStr(r.pageFileData)];
    m := m["boxes" := JArr(boxesList)];
  }

  /** `ocr_to_map`: the OCR call, then the map form of its result. */
  method OcrToMap(e: Client.Engine, image: ImageFile, req: LegacyRequest,
                  post: Upload -> Option<HttpResponse>, decode: string -> Option<Json>) returns (r: Result<map<string, Json>>)
    ensures OcrOutcome(e, image, req, post, decode).Failure? ==> r == Failure(RuntimeError)
    ensures OcrOutcome(e, image, req, post, decode).Success? ==>
              r.Success? && ResultOfMap(r.value) == Some(OcrOutcome(e, image, req, post, decode).value)
  {
    var result := Ocr(e, image, req, post, decode);
    if result.Failure? {
      return Failure(result.error);
    }
    var m := ResultToMap(result.value);
    ResultMapRoundTrip(result.value);
    r := Success(m);
  }

  /** The module-level `ocr_engine` slot with `initialize_ocr_engine` and `get_ocr_engine`. */
  class EngineRegistry {
    var engine: Option<Client.Engine>

    constructor ()
      ensures engine.None?
    {
      engine := None;
    }

    /** A constructor failure propagates and leaves the slot as it was. */
    method Initialize(licenseKey: string, baseUrl: string) returns (r: Result<Client.Engine>)
      modifies this
      ensures r == Create(licenseKey, baseUrl)
      ensures r.Success? ==> engine == Some(r.value)
      ensures r.Failure? ==> engine == old(engine)
    {
      r := Create(licenseKey, baseUrl);
      if r.Success? {
        engine := Some(r.value);
      }
    }

    /** RuntimeError until an engine has been installed; afterwards the installed engine. */
    method GetEngine() returns (r: Result<Client.Engine>)
      ensures engine.None? ==> r == Failure(RuntimeError)
      ensures engine.Some? ==> r == Success(engine.value)
    {
      if engine.None? {
        return Failure(RuntimeError);
      }
      r := Success(engine.value);
    }
  }

  /** Before any initialisation the slot is empty; after a successful one it returns that engine. */
  method InitializeThenGet(licenseKey: string, baseUrl: string) returns (before: Result<Client.Engine>, after: Result<Client.Engine>)
    ensures before == Failure(RuntimeError)
    ensures !IsBlank(licenseKey) && !IsBlank(baseUrl) ==> after == Create(licenseKey, baseUrl) && after.Success?
    ensures IsBlank(licenseKey) || IsBlank(baseUrl) ==> after == Failure(RuntimeError)
  {
    var registry := new EngineRegistry();
    before := registry.GetEngine();
    var created := registry.Initialize(licenseKey, baseUrl);
    after := registry.GetEngine();
  }
}
