/** The per-file OCR job: a new file row, a status machine READY -> PROCESSING ->
    COMPLETE | ERROR, and a loop that OCRs page after page and stores each page with its
    boxes. The engine is passed in as a function from request to result (a failure stands for
    the RuntimeError it raises); `faults` says which storage calls hit a storage error, and
    `clock` gives each page's timestamp and duration. */
module OcrService {
  import opened Common
  import opened Text
  import opened OcrTypes
  import opened OcrRepository
  import Client = OcrEngine

  /** Each storage call the job makes. */
  datatype StoreCall = StatusUpdate(status: FileStatus) | TotalsUpdate | PageSave(page: nat) | BoxesSave(page: nat)

  datatype Timing = Timing(executedAt: int, executeSeconds: real)

  /** The engine call for zero-based page index `k`: only `page_index` and `file_type` are
      passed, so the `fid` of the first reply is never sent back. */
  function PageRequest(filePath: string, k: nat): Client.OcrRequest {
    Client.DefaultRequest(filePath).(pageIndex := NatToString(k))
  }

  /** Requests differ only in their page index; none carries a fid, all are "local". */
  lemma PageRequestShape(filePath: string, j: nat, k: nat)
    ensures PageRequest(filePath, j).(pageIndex := "0") == PageRequest(filePath, k).(pageIndex := "0")
    ensures PageRequest(filePath, k).fid == "" && PageRequest(filePath, k).fileType == "local"
    ensures PageRequest(filePath, 0) == Client.DefaultRequest(filePath)
  {
    assert NatToString(0) == "0";
  }

  /** The page row the job writes for 1-based page `page` from an engine result. */
  function PageFieldsFor(fileId: nat, page: nat, r: OcrResult, t: Timing): NewOcrPage {
    NewOcrPage(fileId, page, r.fullText, t.executedAt, t.executeSeconds, PageSuccess, r.pageFileData, r.rotate)
  }

  /** How many page indices the job means to cover: `max(1, total_pages)` of the first reply,
      or none when the first call fails. */
  function Total(filePath: string, engine: Client.OcrRequest -> Result<OcrResult>): nat {
    var first := engine(PageRequest(filePath, 0));
    if first.Failure? then 0 else Max(1, first.value.totalPages)
  }

  /** The first index in [k, n) whose engine call fails, or `n`. */
  function RunLength(filePath: string, engine: Client.OcrRequest -> Result<OcrResult>, k: nat, n: nat): (r: nat)
    ensures k <= n ==> k <= r <= n
    ensures k <= n ==> forall j :: k <= j < r ==> engine(PageRequest(filePath, j)).Success?
    ensures k <= n && r < n ==> engine(PageRequest(filePath, r)).Failure?
    decreases n - k
  {
    if k >= n then n
    else if engine(PageRequest(filePath, k)).Failure? then k
    else RunLength(filePath, engine, k + 1, n)
  }

  /** The number of engine calls that return before the job stops. */
  function PagesRun(filePath: string, engine: Client.OcrRequest -> Result<OcrResult>): nat {
    RunLength(filePath, engine, 0, Total(filePath, engine))
  }

  /** Every engine call returned. */
  predicate JobSucceeded(filePath: string, engine: Client.OcrRequest -> Result<OcrResult>) {
    engine(PageRequest(filePath, 0)).Success? && PagesRun(filePath, engine) == Total(filePath, engine)
  }

  /** The page rows written for page indices below `n`, in write order. */
  function JobPages(fileId: nat, filePath: string, engine: Client.OcrRequest -> Result<OcrResult>,
                    faults: StoreCall -> bool, clock: nat -> Timing, n: nat): (ps: seq<NewOcrPage>)
    ensures |ps| <= n
    ensures forall i :: 0 <= i < |ps| ==> ps[i].fileId == fileId && 1 <= ps[i].page <= n
  {
    if n == 0 then []
    else
      var r := engine(PageRequest(filePath, n - 1));
      JobPages(fileId, filePath, engine, faults, clock, n - 1)
      + (if r.Success? && !faults(PageSave(n)) then [PageFieldsFor(fileId, n, r.value, clock(n))] else [])
  }

  /** A status update, skipped when its storage call fails. */
  function StatusStep(files: seq<OcrFileRow>, fileId: nat, s: FileStatus, faults: StoreCall -> bool): seq<OcrFileRow> {
    if faults(StatusUpdate(s)) then files else UpdateRows(files, fileId, FileUpdate(None, None, Some(s)))
  }

  /** The file table after the job. */
  function FilesAfterJob(files: seq<OcrFileRow>, fileId: nat, filePath: string,
                         engine: Client.OcrRequest -> Result<OcrResult>, faults: StoreCall -> bool): (r: seq<OcrFileRow>)
    ensures |r| == |files|
    ensures forall i :: 0 <= i < |files| ==> r[i].id == files[i].id
    ensures forall i :: 0 <= i < |files| && files[i].id != fileId ==> r[i] == files[i]
  {
    var processing := StatusStep(files, fileId, Processing, faults);
    var first := engine(PageRequest(filePath, 0));
    if first.Failure? then StatusStep(processing, fileId, Error, faults)
    else
      var totals := if faults(TotalsUpdate) then processing
                    else UpdateRows(processing, fileId, FileUpdate(Some(first.value.totalPages), Some(first.value.fid), None));
      StatusStep(totals, fileId, if JobSucceeded(filePath, engine) then Complete else Error, faults)
  }

  // ---- the calls the job makes, in order ----

  /** A call of the job: a storage call, or the engine call for a zero-based page index. */
  datatype JobCall = Store(call: StoreCall) | Engine(index: nat)

  /** The storage calls for 1-based page `page` from its engine result: the page save, then
      the box save when the page got an id and the result has boxes. */
  function SaveCalls(page: nat, r: OcrResult, faults: StoreCall -> bool): seq<JobCall> {
    [Store(PageSave(page))] + (if !faults(PageSave(page)) && r.boxes != [] then [Store(BoxesSave(page))] else [])
  }

  /** The calls of the page loop for page indices below `n`: index 0 reuses the first reply,
      every later index is an engine call followed by the saves of its page. */
  function LoopCalls(filePath: string, engine: Client.OcrRequest -> Result<OcrResult>,
                     faults: StoreCall -> bool, n: nat): seq<JobCall>
  {
    if n == 0 then []
    else
      var r := engine(PageRequest(filePath, n - 1));
      LoopCalls(filePath, engine, faults, n - 1)
      + (if n - 1 == 0 then [] else [Engine(n - 1)])
      + (if r.Success? then SaveCalls(n, r.value, faults) else [])
  }

  /** Every call the job makes, in order: PROCESSING, the first engine call, then either ERROR,
      or the totals, the page loop up to the first engine call that raises, and the final status. */
  function JobTrace(filePath: string, engine: Client.OcrRequest -> Result<OcrResult>, faults: StoreCall -> bool)
    : seq<JobCall>
  {
    var start := [Store(StatusUpdate(Processing)), Engine(0)];
    if engine(PageRequest(filePath, 0)).Failure? then start + [Store(StatusUpdate(Error))]
    else
      var run := PagesRun(filePath, engine);
      start + [Store(TotalsUpdate)] + LoopCalls(filePath, engine, faults, run)
      + (if run < Total(filePath, engine) then [Engine(run)] else [])
      + [Store(StatusUpdate(if JobSucceeded(filePath, engine) then Complete else Error))]
  }

  function FieldsOf(rows: seq<OcrPageRow>): (fs: seq<NewOcrPage>)
    ensures |fs| == |rows|
    ensures forall i :: 0 <= i < |rows| ==> fs[i] == rows[i].fields
  {
    seq(|rows|, i requires 0 <= i < |rows| => rows[i].fields)
  }

  function PageIds(rows: seq<OcrPageRow>): set<nat> {
    set i | 0 <= i < |rows| :: rows[i].id
  }

  function ValuesOfRows(rows: seq<OcrBoxRow>): (vs: seq<BoxValues>)
    ensures |vs| == |rows|
    ensures forall i :: 0 <= i < |rows| ==> vs[i] == rows[i].values
  {
    seq(|rows|, i requires 0 <= i < |rows| => rows[i].values)
  }

  lemma ValuesOfRowsAppend(a: seq<OcrBoxRow>, b: seq<OcrBoxRow>)
    ensures ValuesOfRows(a + b) == ValuesOfRows(a) + ValuesOfRows(b)
  {
  }

  /** The box tuples the job stores for a page row it wrote: the boxes of that page's own
      engine reply under that row's id, or none when the box save fails. */
  function PageBoxes(row: OcrPageRow, filePath: string, engine: Client.OcrRequest -> Result<OcrResult>,
                     faults: StoreCall -> bool): seq<BoxValues>
  {
    var p := row.fields.page;
    if p < 1 then []
    else
      var r := engine(PageRequest(filePath, p - 1));
      if r.Failure? || faults(BoxesSave(p)) then [] else AllValuesOf(row.id, r.value.boxes)
  }

  /** The box tuples the job stores for its new page rows, page after page. */
  function JobBoxes(newPages: seq<OcrPageRow>, filePath: string, engine: Client.OcrRequest -> Result<OcrResult>,
                    faults: StoreCall -> bool): seq<BoxValues>
  {
    if newPages == [] then []
    else JobBoxes(newPages[..|newPages| - 1], filePath, engine, faults)
         + PageBoxes(newPages[|newPages| - 1], filePath, engine, faults)
  }

  /** Every box the job stores carries the id of one of its new page rows. */
  lemma {:induction false} JobBoxesOnPages(newPages: seq<OcrPageRow>, filePath: string,
                                           engine: Client.OcrRequest -> Result<OcrResult>, faults: StoreCall -> bool)
    ensures forall i :: 0 <= i < |JobBoxes(newPages, filePath, engine, faults)|
                        ==> JobBoxes(newPages, filePath, engine, faults)[i].pageId in PageIds(newPages)
  {
    if newPages != [] {
      var front, row := newPages[..|newPages| - 1], newPages[|newPages| - 1];
      JobBoxesOnPages(front, filePath, engine, faults);
      var before: seq<BoxValues>, own: seq<BoxValues> := JobBoxes(front, filePath, engine, faults), PageBoxes(row, filePath, engine, faults);
      assert PageIds(front) <= PageIds(newPages) by {
        forall j | 0 <= j < |front| ensures front[j].id in PageIds(newPages) {
          assert front[j] == newPages[j];
        }
      }
      assert row.id in PageIds(newPages);
      forall i | 0 <= i < |before + own|
        ensures (before + own)[i].pageId in PageIds(newPages)
      {
        if i >= |before| {
          assert (before + own)[i] == own[i - |before|];
        }
      }
    }
  }

  // ---- properties of the job ----

  /** The job covers at most `max(1, total_pages)` indices, and none at all when the first call fails. */
  lemma PagesRunBounds(filePath: string, engine: Client.OcrRequest -> Result<OcrResult>)
    ensures PagesRun(filePath, engine) <= Total(filePath, engine)
    ensures engine(PageRequest(filePath, 0)).Failure? ==> PagesRun(filePath, engine) == 0 && !JobSucceeded(filePath, engine)
    ensures JobSucceeded(filePath, engine) ==> PagesRun(filePath, engine) == Max(1, engine(PageRequest(filePath, 0)).value.totalPages)
  {
  }

  /** When the call for page index `k` is the first to raise, exactly indices 0..k-1 were run. */
  lemma {:induction false} RunStopsAtFirstFailure(filePath: string, engine: Client.OcrRequest -> Result<OcrResult>, j: nat, n: nat, k: nat)
    requires j <= k < n
    requires forall i :: j <= i < k ==> engine(PageRequest(filePath, i)).Success?
    requires engine(PageRequest(filePath, k)).Failure?
    ensures RunLength(filePath, engine, j, n) == k
    decreases k - j
  {
    if j < k {
      RunStopsAtFirstFailure(filePath, engine, j + 1, n, k);
    }
  }

  lemma {:induction false} RunAllSucceed(filePath: string, engine: Client.OcrRequest -> Result<OcrResult>, j: nat, n: nat)
    requires j <= n
    requires forall i :: j <= i < n ==> engine(PageRequest(filePath, i)).Success?
    ensures RunLength(filePath, engine, j, n) == n
    decreases n - j
  {
    if j < n {
      RunAllSucceed(filePath, engine, j + 1, n);
    }
  }

  /** Page rows are written in strictly ascending page order, each page number at most `n`,
      all for this file and all with status SUCCESS. */
  lemma {:induction false} JobPagesAscending(fileId: nat, filePath: string, engine: Client.OcrRequest -> Result<OcrResult>,
                                             faults: StoreCall -> bool, clock: nat -> Timing, n: nat)
    ensures var ps := JobPages(fileId, filePath, engine, faults, clock, n);
            && (forall i :: 0 <= i < |ps| ==> 1 <= ps[i].page <= n && ps[i].fileId == fileId && ps[i].status == PageSuccess)
            && (forall i, j :: 0 <= i < j < |ps| ==> ps[i].page < ps[j].page)
            && |ps| <= n
  {
    if n > 0 {
      JobPagesAscending(fileId, filePath, engine, faults, clock, n - 1);
    }
  }

  /** Without page-save faults and with every call below `n` returning, page rows 1..n are all written. */
  lemma {:induction false} JobPagesAllWritten(fileId: nat, filePath: string, engine: Client.OcrRequest -> Result<OcrResult>,
                                              faults: StoreCall -> bool, clock: nat -> Timing, n: nat)
    requires forall k :: 0 <= k < n ==> engine(PageRequest(filePath, k)).Success?
    requires forall p :: 1 <= p <= n ==> !faults(PageSave(p))
    ensures var ps := JobPages(fileId, filePath, engine, faults, clock, n);
            |ps| == n && forall i :: 0 <= i < n ==> ps[i].page == i + 1
  {
    if n > 0 {
      JobPagesAllWritten(fileId, filePath, engine, faults, clock, n - 1);
    }
  }

  /** A successful job attempts exactly `max(1, total_pages)` page writes; when the call for page
      index k is the first to raise, the rows of pages 1..k stay behind (absent storage faults). */
  lemma PagesLeftBehind(fileId: nat, filePath: string, engine: Client.OcrRequest -> Result<OcrResult>,
                        faults: StoreCall -> bool, clock: nat -> Timing, k: nat)
    requires engine(PageRequest(filePath, 0)).Success?
    requires 0 < k < Total(filePath, engine)
    requires forall i :: 0 <= i < k ==> engine(PageRequest(filePath, i)).Success?
    requires engine(PageRequest(filePath, k)).Failure?
    requires forall p :: 1 <= p <= k ==> !faults(PageSave(p))
    ensures PagesRun(filePath, engine) == k && !JobSucceeded(filePath, engine)
    ensures var ps := JobPages(fileId, filePath, engine, faults, clock, PagesRun(filePath, engine));
            |ps| == k && forall i :: 0 <= i < k ==> ps[i].page == i + 1
  {
    RunStopsAtFirstFailure(filePath, engine, 0, Total(filePath, engine), k);
    JobPagesAllWritten(fileId, filePath, engine, faults, clock, k);
  }

  /** The file row ends COMPLETE when every engine call returned and ERROR otherwise, unless
      that last status write itself fails. */
  lemma FinalStatus(files: seq<OcrFileRow>, fileId: nat, filePath: string,
                    engine: Client.OcrRequest -> Result<OcrResult>, faults: StoreCall -> bool, i: nat)
    requires i < |files| && files[i].id == fileId
    ensures var s := FilesAfterJob(files, fileId, filePath, engine, faults)[i].status;
            && (JobSucceeded(filePath, engine) && !faults(StatusUpdate(Complete)) ==> s == Complete)
            && (!JobSucceeded(filePath, engine) && !faults(StatusUpdate(Error)) ==> s == Error)
  {
  }

  /** When the first reply arrives and its write succeeds, the file row holds its page count and fid. */
  lemma TotalsRecorded(files: seq<OcrFileRow>, fileId: nat, filePath: string,
                       engine: Client.OcrRequest -> Result<OcrResult>, faults: StoreCall -> bool, i: nat)
    requires i < |files| && files[i].id == fileId
    requires engine(PageRequest(filePath, 0)).Success? && !faults(TotalsUpdate)
    ensures var row := FilesAfterJob(files, fileId, filePath, engine, faults)[i];
            && row.totalPage == Some(engine(PageRequest(filePath, 0)).value.totalPages)
            && row.fid == Some(engine(PageRequest(filePath, 0)).value.fid)
  {
  }

  /** A page save that soft-fails does not stop the job: it can end COMPLETE with a page missing. */
  lemma CompleteWithMissingPage(files: seq<OcrFileRow>, fileId: nat, filePath: string,
                                engine: Client.OcrRequest -> Result<OcrResult>, faults: StoreCall -> bool,
                                clock: nat -> Timing, i: nat)
    requires i < |files| && files[i].id == fileId
    requires JobSucceeded(filePath, engine)
    requires faults(PageSave(1)) && !faults(StatusUpdate(Complete))
    ensures FilesAfterJob(files, fileId, filePath, engine, faults)[i].status == Complete
    ensures |JobPages(fileId, filePath, engine, faults, clock, PagesRun(filePath, engine))| < Total(filePath, engine)
  {
    var n := PagesRun(filePath, engine);
    PagesRunBounds(filePath, engine);
    JobPagesAscending(fileId, filePath, engine, faults, clock, n);
    var ps := JobPages(fileId, filePath, engine, faults, clock, n);
    if |ps| == n {
      // n rows with distinct page numbers in 1..n would include page 1, which was not saved
      PagesFillRange(ps, n);
      JobPagesNeverHas(fileId, filePath, engine, faults, clock, n, 1);
      assert false;
    }
  }

  /** `n` strictly ascending page numbers drawn from 1..n start at 1. */
  lemma {:induction false} PagesFillRange(ps: seq<NewOcrPage>, n: nat)
    requires |ps| == n > 0
    requires forall i :: 0 <= i < |ps| ==> 1 <= ps[i].page <= n
    requires forall i, j :: 0 <= i < j < |ps| ==> ps[i].page < ps[j].page
    ensures ps[0].page == 1
  {
    forall i | 0 <= i < |ps|
      ensures ps[i].page >= i + 1 + (ps[0].page - 1)
    {
      AscendingGap(ps, 0, i);
    }
    assert ps[n - 1].page >= n + (ps[0].page - 1);
  }

  lemma {:induction false} AscendingGap(ps: seq<NewOcrPage>, i: nat, j: nat)
    requires i <= j < |ps|
    requires forall a, b :: 0 <= a < b < |ps| ==> ps[a].page < ps[b].page
    ensures ps[j].page >= ps[i].page + (j - i)
    decreases j - i
  {
    if i < j {
      AscendingGap(ps, i, j - 1);
    }
  }

  /** A page whose save fails has no row. */
  lemma {:induction false} JobPagesNeverHas(fileId: nat, filePath: string, engine: Client.OcrRequest -> Result<OcrResult>,
                                            faults: StoreCall -> bool, clock: nat -> Timing, n: nat, p: nat)
    requires faults(PageSave(p))
    ensures forall i :: 0 <= i < |JobPages(fileId, filePath, engine, faults, clock, n)|
                        ==> JobPages(fileId, filePath, engine, faults, clock, n)[i].page != p
  {
    if n > 0 {
      JobPagesNeverHas(fileId, filePath, engine, faults, clock, n - 1, p);
    }
  }

  /** A call the page loop over indices below `n` may make. */
  predicate LoopCall(c: JobCall, n: nat) {
    || (c.Engine? && 1 <= c.index < n)
    || (c.Store? && c.call.PageSave? && 1 <= c.call.page <= n)
    || (c.Store? && c.call.BoxesSave? && 1 <= c.call.page <= n)
  }

  /** The page loop makes only engine calls for indices 1..n-1 and page and box saves for
      pages 1..n. */
  lemma {:induction false} LoopCallsKinds(filePath: string, engine: Client.OcrRequest -> Result<OcrResult>,
                                          faults: StoreCall -> bool, n: nat)
    ensures forall i :: 0 <= i < |LoopCalls(filePath, engine, faults, n)| ==> LoopCall(LoopCalls(filePath, engine, faults, n)[i], n)
  {
    if n > 0 {
      LoopCallsKinds(filePath, engine, faults, n - 1);
      var before := LoopCalls(filePath, engine, faults, n - 1);
      var r := engine(PageRequest(filePath, n - 1));
      var call := if n - 1 == 0 then [] else [Engine(n - 1)];
      var saves := if r.Success? then SaveCalls(n, r.value, faults) else [];
      var c := LoopCalls(filePath, engine, faults, n);
      assert c == before + call + saves;
      forall i | 0 <= i < |c|
        ensures LoopCall(c[i], n)
      {
        if i < |before| {
          assert c[i] == before[i] && LoopCall(before[i], n - 1);
        } else if i < |before| + |call| {
          assert c[i] == call[i - |before|];
        } else {
          assert c[i] == saves[i - |before| - |call|];
        }
      }
    }
  }

  /** The order of the job's effects: PROCESSING is written before the first engine call;
      when that call returns, the page count and fid are written next, before any page or
      box row and exactly once; the status is written only first and last. */
  lemma JobTraceOrder(filePath: string, engine: Client.OcrRequest -> Result<OcrResult>, faults: StoreCall -> bool)
    ensures var t := JobTrace(filePath, engine, faults);
            && |t| >= 3 && t[0] == Store(StatusUpdate(Processing)) && t[1] == Engine(0)
            && (engine(PageRequest(filePath, 0)).Failure? ==> t == [t[0], t[1], Store(StatusUpdate(Error))])
            && (engine(PageRequest(filePath, 0)).Success? ==> t[2] == Store(TotalsUpdate))
            && t[|t| - 1] == Store(StatusUpdate(if JobSucceeded(filePath, engine) then Complete else Error))
            && (forall i :: 0 <= i < |t| && t[i] == Store(TotalsUpdate) ==> i == 2)
            && (forall i :: 0 <= i < |t| && t[i].Store? && t[i].call.StatusUpdate? ==> i == 0 || i == |t| - 1)
            && (forall i :: 0 <= i < |t| && t[i].Store? && (t[i].call.PageSave? || t[i].call.BoxesSave?) ==> 2 < i)
  {
    if engine(PageRequest(filePath, 0)).Success? {
      var run := PagesRun(filePath, engine);
      LoopCallsKinds(filePath, engine, faults, run);
      ShapeOrder(LoopCalls(filePath, engine, faults, run), run,
                 if run < Total(filePath, engine) then [Engine(run)] else [],
                 Store(StatusUpdate(if JobSucceeded(filePath, engine) then Complete else Error)));
    }
  }

  /** The same facts for any trace of that shape: the opening calls, loop calls, engine calls,
      and one closing status write. */
  lemma ShapeOrder(loop: seq<JobCall>, n: nat, extra: seq<JobCall>, last: JobCall)
    requires forall i :: 0 <= i < |loop| ==> LoopCall(loop[i], n)
    requires forall i :: 0 <= i < |extra| ==> extra[i].Engine?
    requires last.Store? && last.call.StatusUpdate?
    ensures var t := [Store(StatusUpdate(Processing)), Engine(0)] + [Store(TotalsUpdate)] + loop + extra + [last];
            && (forall i :: 0 <= i < |t| && t[i] == Store(TotalsUpdate) ==> i == 2)
            && (forall i :: 0 <= i < |t| && t[i].Store? && t[i].call.StatusUpdate? ==> i == 0 || i == |t| - 1)
            && (forall i :: 0 <= i < |t| && t[i].Store? && (t[i].call.PageSave? || t[i].call.BoxesSave?) ==> 2 < i)
  {
    var t := [Store(StatusUpdate(Processing)), Engine(0)] + [Store(TotalsUpdate)] + loop + extra + [last];
    forall i | 3 <= i < |t|
      ensures t[i] != Store(TotalsUpdate)
      ensures t[i].Store? && t[i].call.StatusUpdate? ==> i == |t| - 1
    {
      if i < 3 + |loop| {
        assert t[i] == loop[i - 3] && LoopCall(loop[i - 3], n);
      } else if i < 3 + |loop| + |extra| {
        assert t[i] == extra[i - 3 - |loop|];
      }
    }
  }

  /** One step of the page loop: an engine call that returns, then the saves of its page. */
  lemma LoopCallsStep(filePath: string, engine: Client.OcrRequest -> Result<OcrResult>, faults: StoreCall -> bool,
                      k: nat, r: OcrResult)
    requires engine(PageRequest(filePath, k)) == Success(r)
    ensures LoopCalls(filePath, engine, faults, k + 1)
            == LoopCalls(filePath, engine, faults, k) + (if k == 0 then [] else [Engine(k)]) + SaveCalls(k + 1, r, faults)
  {
  }

  /** The trace of a job whose first call returns, given the calls of its page loop. */
  lemma JobTraceOnSuccess(filePath: string, engine: Client.OcrRequest -> Result<OcrResult>, faults: StoreCall -> bool,
                          loop: seq<JobCall>)
    requires engine(PageRequest(filePath, 0)).Success?
    requires loop == LoopCalls(filePath, engine, faults, PagesRun(filePath, engine))
                     + (if PagesRun(filePath, engine) < Total(filePath, engine) then [Engine(PagesRun(filePath, engine))] else [])
    ensures JobTrace(filePath, engine, faults)
            == [Store(StatusUpdate(Processing)), Engine(0)] + [Store(TotalsUpdate)] + loop
               + [Store(StatusUpdate(if JobSucceeded(filePath, engine) then Complete else Error))]
  {
  }

  // ---- the job ----

  /** The tables grew from `p0`/`b0` only by appending: the new page rows carry `done`,
      and the new box rows hold exactly the boxes of those pages, each under its page's id. */
  predicate JobState(p0: seq<OcrPageRow>, b0: seq<OcrBoxRow>, pages: seq<OcrPageRow>, boxes: seq<OcrBoxRow>,
                     done: seq<NewOcrPage>, filePath: string, engine: Client.OcrRequest -> Result<OcrResult>,
                     faults: StoreCall -> bool)
  {
    && |p0| <= |pages| && pages[..|p0|] == p0
    && FieldsOf(pages[|p0|..]) == done
    && |b0| <= |boxes| && boxes[..|b0|] == b0
    && ValuesOfRows(boxes[|b0|..]) == JobBoxes(pages[|p0|..], filePath, engine, faults)
  }

  lemma AppendPageKeepsJobState(p0: seq<OcrPageRow>, b0: seq<OcrBoxRow>,
                                pagesBefore: seq<OcrPageRow>, boxesBefore: seq<OcrBoxRow>,
                                row: OcrPageRow, added: seq<OcrBoxRow>, done: seq<NewOcrPage>,
                                filePath: string, engine: Client.OcrRequest -> Result<OcrResult>, faults: StoreCall -> bool)
    requires JobState(p0, b0, pagesBefore, boxesBefore, done, filePath, engine, faults)
    requires ValuesOfRows(added) == PageBoxes(row, filePath, engine, faults)
    ensures JobState(p0, b0, pagesBefore + [row], boxesBefore + added, done + [row.fields], filePath, engine, faults)
  {
    PagesAppend(p0, pagesBefore, row);
    FieldsOfAppend(pagesBefore[|p0|..], row);
    JobBoxesAppend(pagesBefore[|p0|..], row, filePath, engine, faults);
    BoxesAppend(b0, boxesBefore, added);
  }

  lemma PagesAppend(p0: seq<OcrPageRow>, pagesBefore: seq<OcrPageRow>, row: OcrPageRow)
    requires |p0| <= |pagesBefore| && pagesBefore[..|p0|] == p0
    ensures (pagesBefore + [row])[..|p0|] == p0
    ensures (pagesBefore + [row])[|p0|..] == pagesBefore[|p0|..] + [row]
  {
    assert (pagesBefore + [row])[..|p0|] == pagesBefore[..|p0|];
  }

  lemma BoxesAppend(b0: seq<OcrBoxRow>, boxesBefore: seq<OcrBoxRow>, added: seq<OcrBoxRow>)
    requires |b0| <= |boxesBefore| && boxesBefore[..|b0|] == b0
    ensures (boxesBefore + added)[..|b0|] == b0
    ensures ValuesOfRows((boxesBefore + added)[|b0|..]) == ValuesOfRows(boxesBefore[|b0|..]) + ValuesOfRows(added)
  {
    assert (boxesBefore + added)[..|b0|] == boxesBefore[..|b0|];
    assert (boxesBefore + added)[|b0|..] == boxesBefore[|b0|..] + added;
    ValuesOfRowsAppend(boxesBefore[|b0|..], added);
  }

  lemma JobBoxesAppend(rows: seq<OcrPageRow>, row: OcrPageRow, filePath: string,
                       engine: Client.OcrRequest -> Result<OcrResult>, faults: StoreCall -> bool)
    ensures JobBoxes(rows + [row], filePath, engine, faults)
            == JobBoxes(rows, filePath, engine, faults) + PageBoxes(row, filePath, engine, faults)
  {
    assert (rows + [row])[..|rows|] == rows;
  }


  /** Store one page row and, when that returned an id and there are boxes, its boxes. */
  method SaveResultPage(store: OcrStore, fileId: nat, page: nat, result: OcrResult,
                        faults: StoreCall -> bool, clock: nat -> Timing)
    returns (ghost calls: seq<JobCall>)
    requires store.Valid()
    modifies store
    ensures store.Valid()
    ensures calls == SaveCalls(page, result, faults)
    ensures store.files == old(store.files)
    ensures faults(PageSave(page)) ==> store.pages == old(store.pages) && store.boxes == old(store.boxes)
    ensures !faults(PageSave(page)) ==>
              store.pages == old(store.pages) + [OcrPageRow(old(store.nextPageId), PageFieldsFor(fileId, page, result, clock(page)))]
    ensures !faults(PageSave(page)) ==>
              store.boxes == old(store.boxes)
                             + (if result.boxes == [] || faults(BoxesSave(page)) then []
                                else RowsWithIds(AllValuesOf(old(store.nextPageId), result.boxes), old(store.nextBoxId)))
    ensures |old(store.boxes)| <= |store.boxes| && store.boxes[..|old(store.boxes)|] == old(store.boxes)
    ensures forall i :: |old(store.boxes)| <= i < |store.boxes| ==> store.boxes[i].values.pageId == old(store.nextPageId)
  {
    var pageId := store.SaveOcrPage(PageFieldsFor(fileId, page, result, clock(page)), faults(PageSave(page)));
    calls := [Store(PageSave(page))];
    if pageId.Some? && result.boxes != [] {
      calls := calls + [Store(BoxesSave(page))];
      ghost var before := store.boxes;
      var _ := store.SaveOcrBoxes(pageId.value, result.boxes, faults(BoxesSave(page)));
      ghost var added := RowsWithIds(AllValuesOf(pageId.value, result.boxes), old(store.nextBoxId));
      if !faults(BoxesSave(page)) {
        forall i | |before| <= i < |store.boxes|
          ensures store.boxes[i].values.pageId == pageId.value
        {
          assert store.boxes[i] == added[i - |before|];
        }
      }
    }
  }

  lemma FieldsOfAppend(rows: seq<OcrPageRow>, row: OcrPageRow)
    ensures FieldsOf(rows + [row]) == FieldsOf(rows) + [row.fields]
  {
  }

  /** Store the page of zero-based index `k` from its engine result: the job's page rows
      grow by that page (unless its save fails), and its boxes hang off it. */
  method StorePage(store: OcrStore, filePath: string, fileId: nat,
                   engine: Client.OcrRequest -> Result<OcrResult>, faults: StoreCall -> bool, clock: nat -> Timing,
                   k: nat, result: OcrResult, ghost p0: seq<OcrPageRow>, ghost b0: seq<OcrBoxRow>)
    returns (ghost calls: seq<JobCall>)
    requires store.Valid()
    requires engine(PageRequest(filePath, k)) == Success(result)
    requires JobState(p0, b0, store.pages, store.boxes, JobPages(fileId, filePath, engine, faults, clock, k), filePath, engine, faults)
    modifies store
    ensures store.Valid()
    ensures store.files == old(store.files)
    ensures JobState(p0, b0, store.pages, store.boxes, JobPages(fileId, filePath, engine, faults, clock, k + 1), filePath, engine, faults)
    ensures calls == SaveCalls(k + 1, result, faults)
  {
    ghost var pagesBefore, boxesBefore := store.pages, store.boxes;
    ghost var nextPage, nextBox := store.nextPageId, store.nextBoxId;
    calls := SaveResultPage(store, fileId, k + 1, result, faults, clock);
    SavedPageKeepsJobState(p0, b0, pagesBefore, boxesBefore, store.pages, store.boxes, nextPage, nextBox,
                           fileId, filePath, engine, faults, clock, k, result);
  }

  /** The tables after `SaveResultPage` for index `k` carry the job state one page further. */
  lemma SavedPageKeepsJobState(p0: seq<OcrPageRow>, b0: seq<OcrBoxRow>,
                               pagesBefore: seq<OcrPageRow>, boxesBefore: seq<OcrBoxRow>,
                               pages: seq<OcrPageRow>, boxes: seq<OcrBoxRow>, nextPage: nat, nextBox: nat,
                               fileId: nat, filePath: string, engine: Client.OcrRequest -> Result<OcrResult>,
                               faults: StoreCall -> bool, clock: nat -> Timing, k: nat, result: OcrResult)
    requires engine(PageRequest(filePath, k)) == Success(result)
    requires JobState(p0, b0, pagesBefore, boxesBefore, JobPages(fileId, filePath, engine, faults, clock, k), filePath, engine, faults)
    requires faults(PageSave(k + 1)) ==> pages == pagesBefore && boxes == boxesBefore
    requires !faults(PageSave(k + 1)) ==>
               pages == pagesBefore + [OcrPageRow(nextPage, PageFieldsFor(fileId, k + 1, result, clock(k + 1)))]
    requires !faults(PageSave(k + 1)) ==>
               boxes == boxesBefore
                        + (if result.boxes == [] || faults(BoxesSave(k + 1)) then []
                           else RowsWithIds(AllValuesOf(nextPage, result.boxes), nextBox))
    ensures JobState(p0, b0, pages, boxes, JobPages(fileId, filePath, engine, faults, clock, k + 1), filePath, engine, faults)
  {
    var done := JobPages(fileId, filePath, engine, faults, clock, k);
    var fields := PageFieldsFor(fileId, k + 1, result, clock(k + 1));
    assert JobPages(fileId, filePath, engine, faults, clock, k + 1)
           == done + (if !faults(PageSave(k + 1)) then [fields] else []);
    if !faults(PageSave(k + 1)) {
      var row := OcrPageRow(nextPage, fields);
      var added := if result.boxes == [] || faults(BoxesSave(k + 1)) then []
                   else RowsWithIds(AllValuesOf(nextPage, result.boxes), nextBox);
      assert ValuesOfRows(added) == PageBoxes(row, filePath, engine, faults);
      AppendPageKeepsJobState(p0, b0, pagesBefore, boxesBefore, row, added, done, filePath, engine, faults);
    } else {
      assert done + [] == done;
    }
  }

  /** One iteration of the page loop for zero-based index `k`: the engine call, then, when it
      returns, the page and its boxes. */
  method NextPage(store: OcrStore, filePath: string, fileId: nat,
                  engine: Client.OcrRequest -> Result<OcrResult>, faults: StoreCall -> bool, clock: nat -> Timing,
                  k: nat, ghost p0: seq<OcrPageRow>, ghost b0: seq<OcrBoxRow>)
    returns (ok: bool, ghost calls: seq<JobCall>)
    requires 1 <= k && store.Valid()
    requires JobState(p0, b0, store.pages, store.boxes, JobPages(fileId, filePath, engine, faults, clock, k), filePath, engine, faults)
    modifies store
    ensures store.Valid() && store.files == old(store.files)
    ensures ok == engine(PageRequest(filePath, k)).Success?
    ensures ok ==> JobState(p0, b0, store.pages, store.boxes, JobPages(fileId, filePath, engine, faults, clock, k + 1), filePath, engine, faults)
    ensures ok ==> LoopCalls(filePath, engine, faults, k + 1) == LoopCalls(filePath, engine, faults, k) + calls
    ensures !ok ==> calls == [Engine(k)] && store.pages == old(store.pages) && store.boxes == old(store.boxes)
  {
    var pageResult := engine(PageRequest(filePath, k));
    if pageResult.Failure? {
      return false, [Engine(k)];
    }
    ghost var saves := StorePage(store, filePath, fileId, engine, faults, clock, k, pageResult.value, p0, b0);
    LoopCallsStep(filePath, engine, faults, k, pageResult.value);
    ok, calls := true, [Engine(k)] + saves;
  }

  /** The page loop of `_process_ocr`, after the first reply: store page 1 from it, then call
      the engine for indices 1 .. total_pages-1 and store each page, stopping at the first call
      that raises. `completed` is false exactly when a call raised. */
  method OcrPages(store: OcrStore, filePath: string, fileId: nat,
                  engine: Client.OcrRequest -> Result<OcrResult>, faults: StoreCall -> bool, clock: nat -> Timing)
    returns (completed: bool, ghost calls: seq<JobCall>)
    requires store.Valid()
    requires engine(PageRequest(filePath, 0)).Success?
    modifies store
    ensures store.Valid()
    ensures store.files == old(store.files)
    ensures completed == JobSucceeded(filePath, engine)
    ensures JobState(old(store.pages), old(store.boxes), store.pages, store.boxes,
                     JobPages(fileId, filePath, engine, faults, clock, PagesRun(filePath, engine)), filePath, engine, faults)
    ensures calls == LoopCalls(filePath, engine, faults, PagesRun(filePath, engine))
                     + (if PagesRun(filePath, engine) < Total(filePath, engine) then [Engine(PagesRun(filePath, engine))] else [])
  {
    ghost var p0, b0 := store.pages, store.boxes;
    var result := engine(PageRequest(filePath, 0)).value;
    var n := Total(filePath, engine);
    assert JobPages(fileId, filePath, engine, faults, clock, 0) == [];
    assert p0[|p0|..] == [] && b0[|b0|..] == [];
    calls := StorePage(store, filePath, fileId, engine, faults, clock, 0, result, p0, b0);
    LoopCallsStep(filePath, engine, faults, 0, result);
    assert RunLength(filePath, engine, 0, n) == RunLength(filePath, engine, 1, n);

    var k := 1;
    while k < result.totalPages
      invariant 1 <= k <= n
      invariant store.Valid()
      invariant store.files == old(store.files)
      invariant PagesRun(filePath, engine) == RunLength(filePath, engine, k, n)
      invariant JobState(p0, b0, store.pages, store.boxes, JobPages(fileId, filePath, engine, faults, clock, k), filePath, engine, faults)
      invariant calls == LoopCalls(filePath, engine, faults, k)
      decreases result.totalPages - k
    {
      var ok;
      ghost var step;
      ok, step := NextPage(store, filePath, fileId, engine, faults, clock, k, p0, b0);
      calls := calls + step;
      if !ok {
        return false, calls;
      }
      k := k + 1;
    }
    completed := true;
  }

  /** One `update_ocr_file` call of the job that sets only the status. */
  method SetStatus(store: OcrStore, fileId: nat, s: FileStatus, faults: StoreCall -> bool)
    requires store.Valid()
    modifies store
    ensures store.Valid()
    ensures store.files == StatusStep(old(store.files), fileId, s, faults)
    ensures store.pages == old(store.pages) && store.boxes == old(store.boxes)
  {
    var _ := store.UpdateOcrFile(fileId, FileUpdate(None, None, Some(s)), faults(StatusUpdate(s)));
  }

  /** `_process_ocr`: PROCESSING, the first call, the page count and fid, the page loop, and
      COMPLETE, or ERROR as soon as an engine call raises. */
  method ProcessOcr(store: OcrStore, filePath: string, fileId: nat,
                    engine: Client.OcrRequest -> Result<OcrResult>, faults: StoreCall -> bool, clock: nat -> Timing)
    returns (ghost trace: seq<JobCall>)
    requires store.Valid()
    modifies store
    ensures store.Valid()
    ensures trace == JobTrace(filePath, engine, faults)
    ensures store.files == FilesAfterJob(old(store.files), fileId, filePath, engine, faults)
    ensures JobState(old(store.pages), old(store.boxes), store.pages, store.boxes,
                     JobPages(fileId, filePath, engine, faults, clock, PagesRun(filePath, engine)), filePath, engine, faults)
  {
    ghost var p0, b0 := store.pages, store.boxes;
    SetStatus(store, fileId, Processing, faults);
    ghost var processing := store.files;
    var first := engine(PageRequest(filePath, 0));
    trace := [Store(StatusUpdate(Processing)), Engine(0)];
    if first.Failure? {
      SetStatus(store, fileId, Error, faults);
      trace := trace + [Store(StatusUpdate(Error))];
      assert PagesRun(filePath, engine) == 0;
      NothingWritten(p0, b0, filePath, engine, faults);
      return;
    }
    var result := first.value;
    var _ := store.UpdateOcrFile(fileId, FileUpdate(Some(result.totalPages), Some(result.fid), None), faults(TotalsUpdate));
    ghost var totals := store.files;
    trace := trace + [Store(TotalsUpdate)];
    assert totals == if faults(TotalsUpdate) then processing
                     else UpdateRows(processing, fileId, FileUpdate(Some(first.value.totalPages), Some(first.value.fid), None));
    ghost var loop;
    var completed;
    completed, loop := OcrPages(store, filePath, fileId, engine, faults, clock);
    assert store.files == totals;
    JobTraceOnSuccess(filePath, engine, faults, loop);
    if completed {
      SetStatus(store, fileId, Complete, faults);
    } else {
      SetStatus(store, fileId, Error, faults);
    }
    trace := trace + loop + [Store(StatusUpdate(if completed then Complete else Error))];
    assert store.files == StatusStep(totals, fileId, if JobSucceeded(filePath, engine) then Complete else Error, faults);
  }

  /** A job that writes nothing leaves both tables with no new rows. */
  lemma NothingWritten(p0: seq<OcrPageRow>, b0: seq<OcrBoxRow>, filePath: string,
                       engine: Client.OcrRequest -> Result<OcrResult>, faults: StoreCall -> bool)
    ensures JobState(p0, b0, p0, b0, [], filePath, engine, faults)
  {
    assert p0[|p0|..] == [] && b0[|b0|..] == [];
    assert FieldsOf([]) == [];
  }

  /** The reply of `process_file`. */
  datatype ProcessResponse = ProcessResponse(success: bool, ocrFileId: Option<nat>, ocrStatus: string)

  /** `process_file`: save a READY file row for the path, and only when that returned an id
      run the job for it. The job is run to completion here; the executor that would run it
      in the background is not modelled. */
  method ProcessFile(store: OcrStore, filePath: string, contractId: Option<nat>, createdDate: int, saveFails: bool,
                     engine: Client.OcrRequest -> Result<OcrResult>, faults: StoreCall -> bool, clock: nat -> Timing)
    returns (response: ProcessResponse, ghost trace: seq<JobCall>)
    requires store.Valid()
    modifies store
    ensures store.Valid()
    ensures saveFails ==> response == ProcessResponse(false, None, "failed") && store.files == old(store.files)
                          && store.pages == old(store.pages) && store.boxes == old(store.boxes)
    ensures !saveFails ==> response == ProcessResponse(true, Some(old(store.nextFileId)), "processing")
    ensures !saveFails ==>
              var row := OcrFileRow(old(store.nextFileId), Basename(filePath), filePath, Gms, Ready, None, None, createdDate, contractId);
              store.files == FilesAfterJob(old(store.files) + [row], row.id, filePath, engine, faults)
    ensures trace == if saveFails then [] else JobTrace(filePath, engine, faults)
    ensures !saveFails ==> JobState(old(store.pages), old(store.boxes), store.pages, store.boxes,
                                    JobPages(old(store.nextFileId), filePath, engine, faults, clock, PagesRun(filePath, engine)),
                                    filePath, engine, faults)
  {
    var fileName := Basename(filePath);
    var ocrFile := NewOcrFile(fileName, filePath, Gms, Ready, createdDate, contractId);
    var ocrFileId := store.SaveOcrFile(ocrFile, saveFails);
    if ocrFileId.None? {
      return ProcessResponse(false, None, "failed"), [];
    }
    trace := ProcessOcr(store, filePath, ocrFileId.value, engine, faults, clock);
    response := ProcessResponse(true, ocrFileId, "processing");
  }
}
