/** The three OCR tables (files, pages, boxes) and the repository operations on them. Each
    call may hit a storage error, given as a `fails` flag: saves then return `None` or
    `false`, reads return their empty value, and nothing is written. */
module OcrRepository {
  import opened Common
  import opened OcrTypes
  import opened Sorting

  datatype FileStatus = Ready | Processing | Complete | Error
  datatype EngineType = Gms
  datatype PageStatus = PageSuccess

  /** The values `save_ocr_file` inserts. */
  datatype NewOcrFile = NewOcrFile(
    fileName: string,
    filePath: string,
    engineType: EngineType,
    status: FileStatus,
    createdDate: int,
    contractId: Option<nat>)

  /** A row of `ocr_files`; `total_page` and `fid` start out NULL. */
  datatype OcrFileRow = OcrFileRow(
    id: nat,
    fileName: string,
    filePath: string,
    engineType: EngineType,
    status: FileStatus,
    totalPage: Option<int>,
    fid: Option<string>,
    createdDate: int,
    contractId: Option<nat>)

  /** The fields of an `OcrFileUpdate`; `None` means "leave as is". */
  datatype FileUpdate = FileUpdate(totalPage: Option<int>, fid: Option<string>, status: Option<FileStatus>)

  /** The values `save_ocr_page` inserts. */
  datatype NewOcrPage = NewOcrPage(
    fileId: nat,
    page: int,
    fullText: string,
    executedAt: int,
    executeSeconds: real,
    status: PageStatus,
    pageFileData: string,
    rotate: Option<real>)

  datatype OcrPageRow = OcrPageRow(id: nat, fields: NewOcrPage)

  /** The tuple `save_ocr_boxes` builds for one box. */
  datatype BoxValues = BoxValues(
    pageId: nat,
    labelText: string,
    leftTopX: int, leftTopY: int,
    rightTopX: int, rightTopY: int,
    rightBottomX: int, rightBottomY: int,
    leftBottomX: int, leftBottomY: int,
    confidence: real)

  datatype OcrBoxRow = OcrBoxRow(id: nat, values: BoxValues)

  function FileRowId(r: OcrFileRow): nat { r.id }
  function PageRowId(r: OcrPageRow): nat { r.id }
  function BoxRowId(r: OcrBoxRow): nat { r.id }

  /** Auto-increment ids: at least 1, below the next id, increasing in insertion order. */
  predicate IdsValid<R>(rows: seq<R>, id: R -> nat, next: nat) {
    && 1 <= next
    && (forall i :: 0 <= i < |rows| ==> 1 <= id(rows[i]) < next)
    && (forall i, j :: 0 <= i < j < |rows| ==> id(rows[i]) < id(rows[j]))
  }

  lemma IdsValidAppend<R>(rows: seq<R>, id: R -> nat, next: nat, row: R)
    requires IdsValid(rows, id, next) && id(row) == next
    ensures IdsValid(rows + [row], id, next + 1)
  {
  }

  // ---- update_ocr_file ----

  /** The row after `SET` of the update's non-None fields. */
  function ApplyUpdate(row: OcrFileRow, u: FileUpdate): (r: OcrFileRow)
    ensures u.totalPage.Some? ==> r.totalPage == u.totalPage
    ensures u.fid.Some? ==> r.fid == u.fid
    ensures u.status.Some? ==> r.status == u.status.value
    ensures r.(totalPage := row.totalPage, fid := row.fid, status := row.status) == row
    ensures u.totalPage.None? ==> r.totalPage == row.totalPage
    ensures u.fid.None? ==> r.fid == row.fid
    ensures u.status.None? ==> r.status == row.status
  {
    var r1 := if u.totalPage.Some? then row.(totalPage := u.totalPage) else row;
    var r2 := if u.fid.Some? then r1.(fid := u.fid) else r1;
    if u.status.Some? then r2.(status := u.status.value) else r2
  }

  /** An update with no field set changes nothing. */
  lemma EmptyUpdateIsIdentity(row: OcrFileRow)
    ensures ApplyUpdate(row, FileUpdate(None, None, None)) == row
  {
  }

  /** Applying the same update twice is the same as once. */
  lemma ApplyUpdateIdempotent(row: OcrFileRow, u: FileUpdate)
    ensures ApplyUpdate(ApplyUpdate(row, u), u) == ApplyUpdate(row, u)
  {
  }

  /** `UPDATE ocr_files SET ... WHERE id = fileId`. */
  function UpdateRows(rows: seq<OcrFileRow>, fileId: nat, u: FileUpdate): (r: seq<OcrFileRow>)
    ensures |r| == |rows|
    ensures forall i :: 0 <= i < |rows| ==> r[i] == if rows[i].id == fileId then ApplyUpdate(rows[i], u) else rows[i]
  {
    seq(|rows|, i requires 0 <= i < |rows| => if rows[i].id == fileId then ApplyUpdate(rows[i], u) else rows[i])
  }

  /** Only the addressed row changes; every other row is untouched. */
  lemma UpdateTouchesOnlyTarget(rows: seq<OcrFileRow>, fileId: nat, u: FileUpdate)
    ensures forall i :: 0 <= i < |rows| && rows[i].id != fileId ==> UpdateRows(rows, fileId, u)[i] == rows[i]
    ensures (forall i :: 0 <= i < |rows| ==> rows[i].id != fileId) ==> UpdateRows(rows, fileId, u) == rows
  {
  }

  /** The columns listed in `update_parts`. */
  datatype Column = TotalPageColumn | FidColumn | StatusColumn

  // ---- save_ocr_boxes ----

  function ValuesOf(pageId: nat, b: OcrBox): BoxValues {
    BoxValues(pageId, b.labelText,
              b.leftTop.x, b.leftTop.y, b.rightTop.x, b.rightTop.y,
              b.rightBottom.x, b.rightBottom.y, b.leftBottom.x, b.leftBottom.y,
              b.confidence)
  }

  /** Reading a stored box back as an `OcrBox`. */
  function BoxOfValues(v: BoxValues): OcrBox {
    OcrBox(v.labelText,
           Point(v.leftTopX, v.leftTopY), Point(v.rightTopX, v.rightTopY),
           Point(v.rightBottomX, v.rightBottomY), Point(v.leftBottomX, v.leftBottomY),
           v.confidence)
  }

  /** The label, the eight coordinates and the confidence are stored unchanged, under the page. */
  lemma BoxValuesRoundTrip(pageId: nat, b: OcrBox)
    ensures BoxOfValues(ValuesOf(pageId, b)) == b
    ensures ValuesOf(pageId, b).pageId == pageId
  {
  }

  function AllValuesOf(pageId: nat, bs: seq<OcrBox>): (vs: seq<BoxValues>)
    ensures |vs| == |bs|
    ensures forall k :: 0 <= k < |bs| ==> vs[k] == ValuesOf(pageId, bs[k])
  {
    seq(|bs|, k requires 0 <= k < |bs| => ValuesOf(pageId, bs[k]))
  }

  /** `executemany`: one row per tuple, with consecutive ids from `start`. */
  function RowsWithIds(vs: seq<BoxValues>, start: nat): (rows: seq<OcrBoxRow>)
    ensures |rows| == |vs|
    ensures forall k :: 0 <= k < |vs| ==> rows[k] == OcrBoxRow(start + k, vs[k])
  {
    seq(|vs|, k requires 0 <= k < |vs| => OcrBoxRow(start + k, vs[k]))
  }

  lemma IdsValidAppendRun(rows: seq<OcrBoxRow>, next: nat, vs: seq<BoxValues>)
    requires IdsValid(rows, BoxRowId, next)
    ensures IdsValid(rows + RowsWithIds(vs, next), BoxRowId, next + |vs|)
  {
    var all := rows + RowsWithIds(vs, next);
    forall i, j | 0 <= i < j < |all|
      ensures BoxRowId(all[i]) < BoxRowId(all[j])
    {
      if j < |rows| {
      } else if i < |rows| {
        assert BoxRowId(all[i]) < next;
      } else {
        assert all[i].id == next + (i - |rows|) && all[j].id == next + (j - |rows|);
      }
    }
  }

  // ---- reads ----

  /** `WHERE contract_id = %s ORDER BY created_date DESC LIMIT 1`; among equal dates the
      earliest-inserted row is taken. */
  function LatestFile(rows: seq<OcrFileRow>, contractId: nat): (r: Option<OcrFileRow>)
    ensures r.Some? ==> r.value in rows && r.value.contractId == Some(contractId)
    ensures r.Some? ==> forall i :: 0 <= i < |rows| && rows[i].contractId == Some(contractId)
                                    ==> rows[i].createdDate <= r.value.createdDate
    ensures r.None? <==> forall i :: 0 <= i < |rows| ==> rows[i].contractId != Some(contractId)
  {
    if rows == [] then None
    else
      var rest := LatestFile(rows[1..], contractId);
      assert forall i :: 1 <= i < |rows| ==> rows[i] == rows[1..][i - 1];
      if rows[0].contractId != Some(contractId) then rest
      else if rest.Some? && rest.value.createdDate > rows[0].createdDate then rest
      else Some(rows[0])
  }

  predicate OfFile(fileId: nat, p: OcrPageRow) { p.fields.fileId == fileId }
  function PageNumber(p: OcrPageRow): real { p.fields.page as real }
  predicate OfPage(pageId: nat, b: OcrBoxRow) { b.values.pageId == pageId }

  /** `WHERE ocr_file_id = %s ORDER BY page`. */
  function PagesOf(rows: seq<OcrPageRow>, fileId: nat): (r: seq<OcrPageRow>)
    ensures SortedBy(r, PageNumber)
    ensures multiset(r) == multiset(Filter(rows, p => OfFile(fileId, p)))
    ensures forall i :: 0 <= i < |r| ==> r[i] in rows && r[i].fields.fileId == fileId
    ensures forall i :: 0 <= i < |rows| && rows[i].fields.fileId == fileId ==> rows[i] in r
  {
    var mine := Filter(rows, p => OfFile(fileId, p));
    var r := SortBy(mine, PageNumber);
    SameElements(r, mine);
    r
  }

  /** `WHERE ocr_page_id = %s ORDER BY id`: with auto-increment ids, table order is id order. */
  function BoxesOf(rows: seq<OcrBoxRow>, pageId: nat): (r: seq<OcrBoxRow>)
    ensures forall i :: 0 <= i < |r| ==> r[i] in rows && r[i].values.pageId == pageId
    ensures forall i :: 0 <= i < |rows| && rows[i].values.pageId == pageId ==> rows[i] in r
  {
    Filter(rows, b => OfPage(pageId, b))
  }

  /** Boxes of a page come back in strictly increasing id order. */
  lemma BoxesOrderedById(rows: seq<OcrBoxRow>, next: nat, pageId: nat)
    requires IdsValid(rows, BoxRowId, next)
    ensures var r := BoxesOf(rows, pageId);
            forall i, j :: 0 <= i < j < |r| ==> r[i].id < r[j].id
  {
    assert forall i, j :: 0 <= i < j < |rows| ==> BoxRowId(rows[i]) < BoxRowId(rows[j]);
    FilterKeepsIncreasing(rows, b => OfPage(pageId, b), BoxRowId);
  }

  /** Storage errors of the three kinds of read the aggregate makes (boxes: per page id). */
  datatype ReadFaults = ReadFaults(file: bool, pages: bool, boxes: nat -> bool)

  datatype PageWithBoxes = PageWithBoxes(pageInfo: OcrPageRow, boxes: seq<OcrBoxRow>)
  datatype AggregateResult = AggregateResult(fileInfo: OcrFileRow, pages: seq<PageWithBoxes>, totalPages: nat)

  function PagesWithBoxes(ps: seq<OcrPageRow>, boxes: seq<OcrBoxRow>, faults: ReadFaults): (r: seq<PageWithBoxes>)
    ensures |r| == |ps|
    ensures forall i :: 0 <= i < |ps| ==> r[i].pageInfo == ps[i]
  {
    seq(|ps|, i requires 0 <= i < |ps| => PageEntry(ps[i], boxes, faults))
  }

  /** One entry of `pages_with_boxes`: the page and its boxes, none when that read fails. */
  function PageEntry(p: OcrPageRow, boxes: seq<OcrBoxRow>, faults: ReadFaults): PageWithBoxes {
    PageWithBoxes(p, if faults.boxes(p.id) then [] else BoxesOf(boxes, p.id))
  }

  /** What `get_ocr_result_by_contract_id` returns for given table contents. */
  function Aggregate(files: seq<OcrFileRow>, pages: seq<OcrPageRow>, boxes: seq<OcrBoxRow>,
                     contractId: nat, faults: ReadFaults): Option<AggregateResult>
  {
    var file := if faults.file then None else LatestFile(files, contractId);
    if file.None? then None
    else
      var ps := if faults.pages then [] else PagesOf(pages, file.value.id);
      Some(AggregateResult(file.value, PagesWithBoxes(ps, boxes, faults), |ps|))
  }

  /** The aggregate is absent exactly when the contract has no file, or its read fails;
      otherwise it is built on the contract's newest file. */
  lemma AggregatePresence(files: seq<OcrFileRow>, pages: seq<OcrPageRow>, boxes: seq<OcrBoxRow>,
                          contractId: nat, faults: ReadFaults)
    ensures Aggregate(files, pages, boxes, contractId, faults).None?
            <==> faults.file || forall i :: 0 <= i < |files| ==> files[i].contractId != Some(contractId)
    ensures Aggregate(files, pages, boxes, contractId, faults).Some?
            ==> Aggregate(files, pages, boxes, contractId, faults).value.fileInfo == LatestFile(files, contractId).value
  {
  }

  /** `total_pages` is the number of page rows read for the file, not its stored `total_page`. */
  lemma AggregateTotalIsPageRowCount(files: seq<OcrFileRow>, pages: seq<OcrPageRow>, boxes: seq<OcrBoxRow>,
                                     contractId: nat, faults: ReadFaults)
    requires Aggregate(files, pages, boxes, contractId, faults).Some?
    ensures var a := Aggregate(files, pages, boxes, contractId, faults).value;
            && a.totalPages == |a.pages|
            && (!faults.pages ==> a.totalPages == Count(pages, p => OfFile(a.fileInfo.id, p)))
            && (faults.pages ==> a.pages == [] && a.totalPages == 0)
  {
    var a := Aggregate(files, pages, boxes, contractId, faults).value;
    if !faults.pages {
      var mine := Filter(pages, p => OfFile(a.fileInfo.id, p));
      FilterCount(pages, p => OfFile(a.fileInfo.id, p));
      assert |PagesOf(pages, a.fileInfo.id)| == |multiset(mine)|;
    }
  }

  /** Pages come in ascending page order. */
  lemma AggregatePageOrder(files: seq<OcrFileRow>, pages: seq<OcrPageRow>, boxes: seq<OcrBoxRow>,
                           contractId: nat, faults: ReadFaults)
    requires Aggregate(files, pages, boxes, contractId, faults).Some?
    ensures var ps := Aggregate(files, pages, boxes, contractId, faults).value.pages;
            forall i, j :: 0 <= i < j < |ps| ==> ps[i].pageInfo.fields.page <= ps[j].pageInfo.fields.page
  {
    var a := Aggregate(files, pages, boxes, contractId, faults).value;
    if !faults.pages {
      var sorted := PagesOf(pages, a.fileInfo.id);
      assert forall i :: 0 <= i < |sorted| ==> a.pages[i].pageInfo == sorted[i];
      forall i, j | 0 <= i < j < |a.pages|
        ensures a.pages[i].pageInfo.fields.page <= a.pages[j].pageInfo.fields.page
      {
        assert PageNumber(sorted[i]) <= PageNumber(sorted[j]);
      }
    }
  }

  /** Each page of the aggregate carries only boxes stored under that page's id. */
  lemma AggregateBoxesBelongToPage(files: seq<OcrFileRow>, pages: seq<OcrPageRow>, boxes: seq<OcrBoxRow>,
                                   contractId: nat, faults: ReadFaults)
    requires Aggregate(files, pages, boxes, contractId, faults).Some?
    ensures var ps := Aggregate(files, pages, boxes, contractId, faults).value.pages;
            forall i, k :: 0 <= i < |ps| && 0 <= k < |ps[i].boxes| ==> ps[i].boxes[k].values.pageId == ps[i].pageInfo.id
  {
  }

  /** The store: three tables with their auto-increment counters. */
  class OcrStore {
    var files: seq<OcrFileRow>
    var pages: seq<OcrPageRow>
    var boxes: seq<OcrBoxRow>
    var nextFileId: nat
    var nextPageId: nat
    var nextBoxId: nat

    ghost predicate Valid()
      reads this
    {
      && IdsValid(files, FileRowId, nextFileId)
      && IdsValid(pages, PageRowId, nextPageId)
      && IdsValid(boxes, BoxRowId, nextBoxId)
    }

    constructor ()
      ensures Valid()
      ensures files == [] && pages == [] && boxes == []
    {
      files, pages, boxes := [], [], [];
      nextFileId, nextPageId, nextBoxId := 1, 1, 1;
    }

    /** `save_ocr_file`: the new row's id, or `None` on a storage error. */
    method SaveOcrFile(f: NewOcrFile, fails: bool) returns (id: Option<nat>)
      requires Valid()
      modifies this
      ensures Valid()
      ensures fails ==> id.None? && files == old(files) && nextFileId == old(nextFileId)
      ensures !fails ==> id == Some(old(nextFileId)) && id.value >= 1
      ensures !fails ==> files == old(files) + [OcrFileRow(id.value, f.fileName, f.filePath, f.engineType, f.status,
                                                          None, None, f.createdDate, f.contractId)]
      ensures pages == old(pages) && boxes == old(boxes)
      ensures nextPageId == old(nextPageId) && nextBoxId == old(nextBoxId)
    {
      if fails {
        return None;
      }
      var row := OcrFileRow(nextFileId, f.fileName, f.filePath, f.engineType, f.status,
                            None, None, f.createdDate, f.contractId);
      IdsValidAppend(files, FileRowId, nextFileId, row);
      files := files + [row];
      id := Some(nextFileId);
      nextFileId := nextFileId + 1;
    }

    /** `update_ocr_file`: with no field set it reports success and writes nothing; otherwise
        it applies the set fields to the addressed row and reports whether a row changed
        (the affected-row count), or `false` on a storage error. */
    method UpdateOcrFile(fileId: nat, u: FileUpdate, fails: bool) returns (ok: bool)
      requires Valid()
      modifies this
      ensures Valid()
      ensures u == FileUpdate(None, None, None) ==> ok && files == old(files)
      ensures u != FileUpdate(None, None, None) && fails ==> !ok && files == old(files)
      ensures u != FileUpdate(None, None, None) && !fails ==>
                files == UpdateRows(old(files), fileId, u) && ok == (files != old(files))
      ensures pages == old(pages) && boxes == old(boxes)
      ensures nextFileId == old(nextFileId) && nextPageId == old(nextPageId) && nextBoxId == old(nextBoxId)
    {
      var updateParts: seq<Column> := [];
      if u.totalPage.Some? {
        updateParts := updateParts + [TotalPageColumn];
      }
      if u.fid.Some? {
        updateParts := updateParts + [FidColumn];
      }
      if u.status.Some? {
        updateParts := updateParts + [StatusColumn];
      }
      if updateParts == [] {
        return true;
      }
      if fails {
        return false;
      }
      var before := files;
      files := UpdateRows(files, fileId, u);
      ok := files != before;
    }

    /** `save_ocr_page`: the new row's id, or `None` on a storage error. */
    method SaveOcrPage(p: NewOcrPage, fails: bool) returns (id: Option<nat>)
      requires Valid()
      modifies this
      ensures Valid()
      ensures fails ==> id.None? && pages == old(pages) && nextPageId == old(nextPageId)
      ensures !fails ==> id == Some(old(nextPageId)) && id.value >= 1 && pages == old(pages) + [OcrPageRow(id.value, p)]
      ensures files == old(files) && boxes == old(boxes)
      ensures nextFileId == old(nextFileId) && nextBoxId == old(nextBoxId)
    {
      if fails {
        return None;
      }
      var row := OcrPageRow(nextPageId, p);
      IdsValidAppend(pages, PageRowId, nextPageId, row);
      pages := pages + [row];
      id := Some(nextPageId);
      nextPageId := nextPageId + 1;
    }

    /** `save_ocr_boxes`: an empty list reports success and writes nothing; otherwise one row
        per box, in list order, or nothing and `false` on a storage error. */
    method SaveOcrBoxes(pageId: nat, bs: seq<OcrBox>, fails: bool) returns (ok: bool)
      requires Valid()
      modifies this
      ensures Valid()
      ensures bs == [] ==> ok && boxes == old(boxes) && nextBoxId == old(nextBoxId)
      ensures bs != [] && fails ==> !ok && boxes == old(boxes) && nextBoxId == old(nextBoxId)
      ensures bs != [] && !fails ==>
                && ok
                && boxes == old(boxes) + RowsWithIds(AllValuesOf(pageId, bs), old(nextBoxId))
                && nextBoxId == old(nextBoxId) + |bs|
      ensures files == old(files) && pages == old(pages)
      ensures nextFileId == old(nextFileId) && nextPageId == old(nextPageId)
    {
      if bs == [] {
        return true;
      }
      if fails {
        return false;
      }
      var values: seq<BoxValues> := [];
      var i := 0;
      while i < |bs|
        invariant 0 <= i <= |bs|
        invariant values == AllValuesOf(pageId, bs[..i])
      {
        values := values + [ValuesOf(pageId, bs[i])];
        i := i + 1;
      }
      assert bs[..|bs|] == bs;
      IdsValidAppendRun(boxes, nextBoxId, values);
      boxes := boxes + RowsWithIds(values, nextBoxId);
      nextBoxId := nextBoxId + |values|;
      ok := true;
    }

    /** `get_ocr_file_by_contract_id`. */
    function FileByContract(contractId: nat, fails: bool): (r: Option<OcrFileRow>)
      reads this
      ensures fails ==> r.None?
      ensures !fails ==> r == LatestFile(files, contractId)
      ensures r.Some? ==> r.value in files && r.value.contractId == Some(contractId)
    {
      if fails then None else LatestFile(files, contractId)
    }

    /** `get_ocr_pages_by_file_id`. */
    function PagesByFile(fileId: nat, fails: bool): (r: seq<OcrPageRow>)
      reads this
      ensures fails ==> r == []
      ensures SortedBy(r, PageNumber)
      ensures forall i :: 0 <= i < |r| ==> r[i] in pages && r[i].fields.fileId == fileId
      ensures !fails ==> forall i :: 0 <= i < |pages| && pages[i].fields.fileId == fileId ==> pages[i] in r
    {
      if fails then [] else PagesOf(pages, fileId)
    }

    /** `get_ocr_boxes_by_page_id`. */
    function BoxesByPage(pageId: nat, fails: bool): (r: seq<OcrBoxRow>)
      reads this
      ensures fails ==> r == []
      ensures forall i :: 0 <= i < |r| ==> r[i] in boxes && r[i].values.pageId == pageId
      ensures !fails ==> forall i :: 0 <= i < |boxes| && boxes[i].values.pageId == pageId ==> boxes[i] in r
    {
      if fails then [] else BoxesOf(boxes, pageId)
    }

    /** `get_ocr_result_by_contract_id`: the newest file, then each page paired with its boxes. */
    method ResultByContract(contractId: nat, faults: ReadFaults) returns (r: Option<AggregateResult>)
      ensures r == Aggregate(files, pages, boxes, contractId, faults)
    {
      var file := FileByContract(contractId, faults.file);
      if file.None? {
        return None;
      }
      var ocrPages := PagesByFile(file.value.id, faults.pages);
      var pagesWithBoxes := PairWithBoxes(ocrPages, faults);
      r := Some(AggregateResult(file.value, pagesWithBoxes, |ocrPages|));
    }

    /** The loop of `get_ocr_result_by_contract_id` that reads each page's boxes. */
    method PairWithBoxes(ocrPages: seq<OcrPageRow>, faults: ReadFaults) returns (pagesWithBoxes: seq<PageWithBoxes>)
      ensures pagesWithBoxes == PagesWithBoxes(ocrPages, boxes, faults)
    {
      pagesWithBoxes := [];
      var i := 0;
      while i < |ocrPages|
        invariant 0 <= i <= |ocrPages|
        invariant |pagesWithBoxes| == i
        invariant forall k :: 0 <= k < i ==> pagesWithBoxes[k] == PageEntry(ocrPages[k], boxes, faults)
      {
        var page := ocrPages[i];
        var pageBoxes := BoxesByPage(page.id, faults.boxes(page.id));
        assert PageWithBoxes(page, pageBoxes) == PageEntry(ocrPages[i], boxes, faults);
        pagesWithBoxes := pagesWithBoxes + [PageWithBoxes(page, pageBoxes)];
        i := i + 1;
      }
    }
  }
}
