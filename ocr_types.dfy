/** The OCR result model and the node-by-node reading of the vendor's `ocr_result` array,
    shared by both OCR clients: each node may contribute a text part and, when its `bbox`
    is a four-point list, one box. */
module OcrTypes {
  import opened Common
  import opened Json
  import opened Text

  datatype Point = Point(x: int, y: int)

  datatype OcrBox = OcrBox(
    labelText: string,
    leftTop: Point,
    rightTop: Point,
    rightBottom: Point,
    leftBottom: Point,
    confidence: real)

  /** `rotate` is `None` for the client that never reads it. */
  datatype OcrResult = OcrResult(
    fid: string,
    totalPages: int,
    rotate: Option<real>,
    fullText: string,
    pageFileData: string,
    boxes: seq<OcrBox>)

  /** The node's `text`, `""` when absent. */
  function NodeText(node: Json): Json
    requires node.JObj?
  {
    Get(node.fields, "text", JStr(""))
  }

  /** The node contributes a part to the full text. */
  predicate HasText(node: Json) {
    node.JObj? && NodeText(node).JStr? && NodeText(node).s != ""
  }

  /** The node's `bbox` is a list of exactly four entries. */
  predicate FourPointBox(node: Json) {
    node.JObj?
    && var b := Get(node.fields, "bbox", JArr([]));
    b.JArr? && |b.items| == 4
  }

  /** `Point(x=p[0], y=p[1])`: `p` must be a list whose first two entries are integers. */
  function PointOf(p: Json): (r: Result<Point>)
    ensures r.Success? <==> p.JArr? && |p.items| >= 2 && p.items[0].JInt? && p.items[1].JInt?
    ensures r.Success? ==> r.value == Point(p.items[0].i, p.items[1].i)
    ensures r.Failure? ==> r.error == RuntimeError
  {
    if p.JArr? && |p.items| >= 2 then
      var x :- AsInt(p.items[0]);
      var y :- AsInt(p.items[1]);
      Success(Point(x, y))
    else
      Failure(RuntimeError)
  }

  datatype NodeOutcome = NodeOutcome(part: Option<string>, box: Option<OcrBox>)

  /** One iteration of the parsing loop. A node that is not an object, a truthy `text`
      that is not a string (it breaks the final join), a malformed corner or score, or a
      box whose label is not a string are all failures. */
  function ParseNode(node: Json): (r: Result<NodeOutcome>)
    ensures r.Failure? ==> r.error == RuntimeError
    ensures r.Success? ==> node.JObj?
    ensures r.Success? ==> (r.value.part.Some? <==> HasText(node))
    ensures r.Success? && r.value.part.Some? ==> r.value.part.value == NodeText(node).s
    ensures r.Success? ==> (r.value.box.Some? <==> FourPointBox(node))
    ensures r.Success? && r.value.box.Some? ==> NodeText(node).JStr? && r.value.box.value.labelText == NodeText(node).s
    ensures r.Success? && r.value.box.Some? ==>
              var corners := Get(node.fields, "bbox", JArr([])).items;
              var b := r.value.box.value;
              && PointOf(corners[0]) == Success(b.leftTop)
              && PointOf(corners[1]) == Success(b.rightTop)
              && PointOf(corners[2]) == Success(b.rightBottom)
              && PointOf(corners[3]) == Success(b.leftBottom)
              && AsReal(Get(node.fields, "score", JFloat(0.0))) == Success(b.confidence)
  {
    if !node.JObj? then Failure(RuntimeError)
    else
      var text := NodeText(node);
      var part := if text.JStr? && text.s != "" then Some(text.s) else None;
      if Truthy(text) && !text.JStr? then Failure(RuntimeError)
      else if !FourPointBox(node) then Success(NodeOutcome(part, None))
      else if !text.JStr? then Failure(RuntimeError)
      else
        var corners := Get(node.fields, "bbox", JArr([])).items;
        var leftTop :- PointOf(corners[0]);
        var rightTop :- PointOf(corners[1]);
        var rightBottom :- PointOf(corners[2]);
        var leftBottom :- PointOf(corners[3]);
        var score :- AsReal(Get(node.fields, "score", JFloat(0.0)));
        Success(NodeOutcome(part, Some(OcrBox(text.s, leftTop, rightTop, rightBottom, leftBottom, score))))
  }

  datatype Collected = Collected(parts: seq<string>, boxes: seq<OcrBox>)

  function OptionToSeq<T>(o: Option<T>): seq<T> {
    if o.Some? then [o.value] else []
  }

  /** What the loop has gathered after the given nodes, or the failure it stopped at. */
  function Collect(nodes: seq<Json>): (r: Result<Collected>)
    ensures r.Failure? ==> r.error == RuntimeError
    ensures r.Success? ==> |r.value.parts| <= |nodes| && |r.value.boxes| <= |nodes|
    ensures r.Success? ==> forall k :: 0 <= k < |r.value.parts| ==> r.value.parts[k] != ""
  {
    if nodes == [] then Success(Collected([], []))
    else
      var before :- Collect(nodes[..|nodes| - 1]);
      var o :- ParseNode(nodes[|nodes| - 1]);
      Success(Collected(before.parts + OptionToSeq(o.part), before.boxes + OptionToSeq(o.box)))
  }

  /** `" ".join(parts).strip()`. */
  function FullText(parts: seq<string>): string {
    Strip(Join(parts, " "))
  }

  /** Once a prefix of the nodes fails, the whole array fails. */
  lemma {:induction false} CollectPrefixFailure(nodes: seq<Json>, k: nat)
    requires k <= |nodes|
    requires Collect(nodes[..k]).Failure?
    ensures Collect(nodes).Failure?
    decreases |nodes|
  {
    if k == |nodes| {
      assert nodes[..k] == nodes;
    } else {
      var init := nodes[..|nodes| - 1];
      assert init[..k] == nodes[..k];
      CollectPrefixFailure(init, k);
    }
  }

  /** The array parses exactly when every node parses on its own. */
  lemma {:induction false} CollectSucceedsIff(nodes: seq<Json>)
    ensures Collect(nodes).Success? <==> forall i :: 0 <= i < |nodes| ==> ParseNode(nodes[i]).Success?
  {
    if nodes != [] {
      var init := nodes[..|nodes| - 1];
      CollectSucceedsIff(init);
      assert forall i :: 0 <= i < |init| ==> init[i] == nodes[i];
    }
  }

  /** The last node adds one box when it has four points and one part when it has text. */
  lemma CollectStep(nodes: seq<Json>)
    requires nodes != [] && Collect(nodes).Success?
    ensures Collect(nodes[..|nodes| - 1]).Success?
    ensures |Collect(nodes).value.boxes| == |Collect(nodes[..|nodes| - 1]).value.boxes| + (if FourPointBox(nodes[|nodes| - 1]) then 1 else 0)
    ensures |Collect(nodes).value.parts| == |Collect(nodes[..|nodes| - 1]).value.parts| + (if HasText(nodes[|nodes| - 1]) then 1 else 0)
  {
    var o := ParseNode(nodes[|nodes| - 1]).value;
    assert |OptionToSeq(o.box)| == (if FourPointBox(nodes[|nodes| - 1]) then 1 else 0);
    assert |OptionToSeq(o.part)| == (if HasText(nodes[|nodes| - 1]) then 1 else 0);
  }

  /** One box per node with a four-point `bbox`, one text part per node with non-empty text. */
  lemma CollectCounts(nodes: seq<Json>)
    requires Collect(nodes).Success?
    ensures |Collect(nodes).value.boxes| == Count(nodes, FourPointBox)
    ensures |Collect(nodes).value.parts| == Count(nodes, HasText)
  {
    CollectBoxCount(nodes);
    CollectPartCount(nodes);
  }

  lemma {:induction false} CollectBoxCount(nodes: seq<Json>)
    requires Collect(nodes).Success?
    ensures |Collect(nodes).value.boxes| == Count(nodes, FourPointBox)
  {
    if nodes != [] {
      var init := nodes[..|nodes| - 1];
      var last := nodes[|nodes| - 1];
      CollectStep(nodes);
      CollectBoxCount(init);
      assert nodes == init + [last];
      CountAppend(init, [last], FourPointBox);
      CountSingleton(last, FourPointBox);
    }
  }

  lemma {:induction false} CollectPartCount(nodes: seq<Json>)
    requires Collect(nodes).Success?
    ensures |Collect(nodes).value.parts| == Count(nodes, HasText)
  {
    if nodes != [] {
      var init := nodes[..|nodes| - 1];
      var last := nodes[|nodes| - 1];
      CollectStep(nodes);
      CollectPartCount(init);
      assert nodes == init + [last];
      CountAppend(init, [last], HasText);
      CountSingleton(last, HasText);
    }
  }

  /** The loop of `_parse_response` / `parse_response`. */
  method CollectNodes(nodes: seq<Json>) returns (r: Result<Collected>)
    ensures r == Collect(nodes)
  {
    var parts: seq<string> := [];
    var boxes: seq<OcrBox> := [];
    var i := 0;
    while i < |nodes|
      invariant 0 <= i <= |nodes|
      invariant Collect(nodes[..i]) == Success(Collected(parts, boxes))
    {
      assert nodes[..i + 1][..i] == nodes[..i];
      var o := ParseNode(nodes[i]);
      if o.Failure? {
        CollectPrefixFailure(nodes, i + 1);
        return Failure(RuntimeError);
      }
      parts := parts + OptionToSeq(o.value.part);
      boxes := boxes + OptionToSeq(o.value.box);
      i := i + 1;
    }
    assert nodes[..|nodes|] == nodes;
    r := Success(Collected(parts, boxes));
  }

  /** The non-empty node texts in array order, defined front to back. */
  function TextsOf(nodes: seq<Json>): seq<string> {
    if nodes == [] then []
    else (if HasText(nodes[0]) then [NodeText(nodes[0]).s] else []) + TextsOf(nodes[1..])
  }

  lemma {:induction false} TextsOfAppend(a: seq<Json>, b: seq<Json>)
    ensures TextsOf(a + b) == TextsOf(a) + TextsOf(b)
  {
    if a == [] {
      assert a + b == b;
    } else {
      assert (a + b)[1..] == a[1..] + b;
      TextsOfAppend(a[1..], b);
    }
  }

  /** The gathered parts are exactly the non-empty texts, in order. */
  lemma {:induction false} CollectPartsAreTexts(nodes: seq<Json>)
    requires Collect(nodes).Success?
    ensures Collect(nodes).value.parts == TextsOf(nodes)
  {
    if nodes != [] {
      var init := nodes[..|nodes| - 1];
      var last := nodes[|nodes| - 1];
      CollectPartsAreTexts(init);
      assert nodes == init + [last];
      TextsOfAppend(init, [last]);
      assert [last][1..] == [];
    }
  }

  /** The boxes the nodes build, in array order, defined front to back; a node that does
      not parse contributes nothing. */
  function NodeBoxes(nodes: seq<Json>): seq<OcrBox> {
    if nodes == [] then [] else NodeBox(nodes[0]) + NodeBoxes(nodes[1..])
  }

  /** The box one node builds, if any. */
  function NodeBox(node: Json): seq<OcrBox> {
    var o := ParseNode(node);
    if o.Success? then OptionToSeq(o.value.box) else []
  }

  lemma {:induction false} NodeBoxesAppend(a: seq<Json>, b: seq<Json>)
    ensures NodeBoxes(a + b) == NodeBoxes(a) + NodeBoxes(b)
  {
    if a == [] {
      assert a + b == b;
    } else {
      assert (a + b)[1..] == a[1..] + b;
      NodeBoxesAppend(a[1..], b);
    }
  }

  /** The gathered boxes are exactly the boxes of the four-point nodes, in order. */
  lemma {:induction false} CollectBoxesAreNodeBoxes(nodes: seq<Json>)
    requires Collect(nodes).Success?
    ensures Collect(nodes).value.boxes == NodeBoxes(nodes)
  {
    if nodes != [] {
      var init := nodes[..|nodes| - 1];
      var last := nodes[|nodes| - 1];
      CollectBoxesAreNodeBoxes(init);
      assert nodes == init + [last];
      NodeBoxesAppend(init, [last]);
      assert [last][1..] == [];
    }
  }

  /** The HTTP reply the vendor sends back. */
  datatype HttpResponse = HttpResponse(status: int, text: string)

  /** A multipart POST: the one file part and the form fields. */
  datatype Upload = Upload(
    url: string,
    fileName: string,
    content: seq<bv8>,
    contentType: string,
    form: map<string, string>)

  /** The result envelope. `readsRotate` is false for the client that leaves `rotate` unset. */
  function Envelope(fields: map<string, Json>, c: Collected, readsRotate: bool): (r: Result<OcrResult>)
    ensures r.Failure? ==> r.error == RuntimeError
    ensures r.Success? ==> r.value.fullText == FullText(c.parts) && r.value.boxes == c.boxes
    ensures r.Success? ==> (r.value.rotate.Some? <==> readsRotate)
    ensures r.Success? <==> && AsString(Get(fields, "fid", JStr(""))).Success?
                            && AsInt(Get(fields, "totalpage", JInt(0))).Success?
                            && (readsRotate ==> ReadRotate(fields).Success?)
                            && AsString(Get(fields, "file_path", JStr(""))).Success?
    ensures r.Success? ==> && AsString(Get(fields, "fid", JStr(""))) == Success(r.value.fid)
                           && AsInt(Get(fields, "totalpage", JInt(0))) == Success(r.value.totalPages)
                           && AsString(Get(fields, "file_path", JStr(""))) == Success(r.value.pageFileData)
                           && (readsRotate ==> ReadRotate(fields) == Success(r.value.rotate))
  {
    var fid :- AsString(Get(fields, "fid", JStr("")));
    var totalPages :- AsInt(Get(fields, "totalpage", JInt(0)));
    var rotate :- if readsRotate then ReadRotate(fields) else Success(None);
    var pageFileData :- AsString(Get(fields, "file_path", JStr("")));
    Success(OcrResult(fid, totalPages, rotate, FullText(c.parts), pageFileData, c.boxes))
  }

  function ReadRotate(fields: map<string, Json>): (r: Result<Option<real>>)
    ensures r.Success? ==> r.value.Some?
    ensures r.Failure? ==> r.error == RuntimeError
  {
    var x :- AsReal(Get(fields, "rotate", JFloat(0.0)));
    Success(Some(x))
  }

  /** What parsing a response body yields: `decode` stands for `json.loads` (`None` when the
      body is not JSON). The body must be non-empty, decode to an object, and carry a list
      (or nothing) under `ocr_result`; every failure surfaces as RuntimeError. */
  function ParseVendorResponse(text: string, decode: string -> Option<Json>, readsRotate: bool): (r: Result<OcrResult>)
    ensures r.Failure? ==> r.error == RuntimeError
    ensures text == "" ==> r.Failure?
    ensures r.Success? ==> decode(text).Some? && decode(text).value.JObj?
    ensures (text != "" && decode(text).Some? && decode(text).value.JObj? && "ocr_result" in decode(text).value.fields
             && !decode(text).value.fields["ocr_result"].JArr?) ==> r.Failure?
  {
    if text == "" then Failure(RuntimeError)
    else match decode(text)
      case None => Failure(RuntimeError)
      case Some(data) =>
        if !data.JObj? then Failure(RuntimeError)
        else
          var nodes := Get(data.fields, "ocr_result", JArr([]));
          if !nodes.JArr? then Failure(RuntimeError)
          else
            var c :- Collect(nodes.items);
            Envelope(data.fields, c, readsRotate)
  }

  /** The `ocr_result` entries of a decoded body, `[]` when the key is missing. */
  function ResultNodes(data: Json): seq<Json>
    requires data.JObj?
  {
    var nodes := Get(data.fields, "ocr_result", JArr([]));
    if nodes.JArr? then nodes.items else []
  }

  /** A parsed result has one box per four-point node: the boxes are, in node order, the
      ones each such node builds. Its full text is the stripped single-space join of the
      non-empty node texts in order. */
  lemma ParsedBoxesAndText(text: string, decode: string -> Option<Json>, readsRotate: bool)
    requires ParseVendorResponse(text, decode, readsRotate).Success?
    ensures var r := ParseVendorResponse(text, decode, readsRotate).value;
            var nodes := ResultNodes(decode(text).value);
            && r.boxes == NodeBoxes(nodes)
            && |r.boxes| == Count(nodes, FourPointBox) <= |nodes|
            && r.fullText == Strip(Join(TextsOf(nodes), " "))
  {
    var nodes := ResultNodes(decode(text).value);
    CollectCounts(nodes);
    CollectPartsAreTexts(nodes);
    CollectBoxesAreNodeBoxes(nodes);
  }

  /** A body that is an object without any of the expected keys parses to the defaults:
      empty fid, text and file data, zero pages, rotation 0.0 when read, no boxes. */
  lemma MissingKeysGiveDefaults(text: string, decode: string -> Option<Json>, readsRotate: bool)
    requires text != "" && decode(text) == Some(JObj(map[]))
    ensures ParseVendorResponse(text, decode, readsRotate)
            == Success(OcrResult("", 0, if readsRotate then Some(0.0) else None, "", "", []))
  {
    assert Collect([]) == Success(Collected([], []));
    assert FullText([]) == "";
  }

  /** The parsing routine shared by both clients: the node loop, then the envelope. */
  method ParseResponse(text: string, decode: string -> Option<Json>, readsRotate: bool) returns (r: Result<OcrResult>)
    ensures r == ParseVendorResponse(text, decode, readsRotate)
  {
    if text == "" {
      return Failure(RuntimeError);
    }
    var decoded := decode(text);
    if decoded.None? || !decoded.value.JObj? {
      return Failure(RuntimeError);
    }
    var data := decoded.value;
    var nodes := Get(data.fields, "ocr_result", JArr([]));
    if !nodes.JArr? {
      return Failure(RuntimeError);
    }
    var c := CollectNodes(nodes.items);
    if c.Failure? {
      return Failure(RuntimeError);
    }
    r := Envelope(data.fields, c.value, readsRotate);
  }
}
