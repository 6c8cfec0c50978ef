/**
 * The upload-to-JSON service: request validation, the chunked save of an upload,
 * the in-memory task-status table and the background processing step.
 *
 * The service's directories are maps from file name to content: `uploads` is
 * UPLOAD_DIR, `processed` is PROCESSED_DATA_DIR. The upload stream is an
 * `UploadFile` object; task ids and timestamps are parameters.
 */
module UploadService {
  import opened Wrappers
  import opened PathNames
  import opened Documents

  newtype byte = x: int | 0 <= x < 256

  const CHUNK_SIZE: nat := 1024 * 1024
  const ALLOWED_EXTENSIONS: set<string> := {".xlsx", ".xls", ".pptx", ".ppt", ".docx", ".doc"}
  const EXCEL_EXTENSIONS: set<string> := {".xlsx", ".xls"}
  const WORD_EXTENSIONS: set<string> := {".docx", ".doc"}
  const PPT_EXTENSIONS: set<string> := {".pptx", ".ppt"}
  const UPLOAD_DIR: string := "uploads"

  /** The HTTP errors the endpoints and helpers raise. */
  datatype HttpError = NoFileProvided | ExtensionNotAllowed | SaveFailed | TaskNotFound {
    function StatusCode(): int {
      match this
      case NoFileProvided => 400
      case ExtensionNotAllowed => 400
      case SaveFailed => 500
      case TaskNotFound => 404
    }
    function Detail(): string {
      match this
      case NoFileProvided => "No file provided"
      case ExtensionNotAllowed => "Only .xlsx, .xls, .pptx, .ppt, .docx, .doc files are allowed"
      case SaveFailed => "Failed to save file"
      case TaskNotFound => "Task not found"
    }
  }

  datatype Status = Uploading | Queued | Processing | Completed | Failed {
    function Name(): string {
      match this
      case Uploading => "uploading"
      case Queued => "queued"
      case Processing => "processing"
      case Completed => "completed"
      case Failed => "failed"
    }
  }

  /** One value of the `task_status` dictionary. */
  datatype TaskRecord = TaskRecord(status: Status, details: Option<string>, timestamp: string)

  /** The body of `GET /status/{task_id}`: the record with the task id added. */
  datatype StatusResponse = StatusResponse(taskId: string, status: Status, details: Option<string>, timestamp: string)

  /** The body of a successful `POST /upload/to-json`. */
  datatype UploadResponse = UploadResponse(
    taskId: string, filename: string, fileSize: nat,
    outputFormat: string, message: string, statusUrl: string)

  /** The arguments handed to `background_tasks.add_task`: the stored name, the original name, the task id. */
  datatype Job = Job(storedName: string, originalFilename: string, taskId: string)

  // ---------------------------------------------------------------------------
  // Request validation and dispatch

  /**
   * The checks `upload_file_to_json` makes before anything else. On success the
   * result is the lower-cased extension.
   */
  function ValidateUpload(filename: string): Result<string, HttpError> {
    if filename == "" then Failure(NoFileProvided)
    else
      var ext := Lower(Suffix(filename));
      if ext !in ALLOWED_EXTENSIONS then Failure(ExtensionNotAllowed) else Success(ext)
  }

  /**
   * An empty name is refused first; otherwise a request passes exactly when its
   * lower-cased extension is on the allow-list, and every refusal is a 400.
   */
  lemma ValidateUploadCases(filename: string)
    ensures filename == "" ==> ValidateUpload(filename) == Failure(NoFileProvided)
    ensures filename != "" ==> (ValidateUpload(filename).Success? <==> Lower(Suffix(filename)) in ALLOWED_EXTENSIONS)
    ensures ValidateUpload(filename).Failure? ==> ValidateUpload(filename).error.StatusCode() == 400
    ensures ValidateUpload(filename).Success? ==>
      ValidateUpload(filename).value == Lower(Suffix(filename)) && ValidateUpload(filename).value in ALLOWED_EXTENSIONS
  {
  }

  datatype FileKind = Excel | Word | PowerPoint

  /** The `if/elif` chain of `process_file_background`. */
  function Dispatch(ext: string): Option<FileKind> {
    if ext in EXCEL_EXTENSIONS then Some(Excel)
    else if ext in WORD_EXTENSIONS then Some(Word)
    else if ext in PPT_EXTENSIONS then Some(PowerPoint)
    else None
  }

  /** The details recorded while the reader of a kind runs. */
  function ReadingDetail(kind: FileKind): string {
    match kind
    case Excel => "Reading Excel file"
    case Word => "Reading Word file"
    case PowerPoint => "Reading PowerPoint file"
  }

  /** The allow-list is the union of the three kind sets, and those are pairwise disjoint. */
  lemma ExtensionSetsPartition()
    ensures ALLOWED_EXTENSIONS == EXCEL_EXTENSIONS + WORD_EXTENSIONS + PPT_EXTENSIONS
    ensures EXCEL_EXTENSIONS !! WORD_EXTENSIONS && EXCEL_EXTENSIONS !! PPT_EXTENSIONS && WORD_EXTENSIONS !! PPT_EXTENSIONS
  {
  }

  /** An extension takes a dispatch branch exactly when it is allowed, and it takes the branch of its own set. */
  lemma DispatchExactlyOne(ext: string)
    ensures Dispatch(ext).Some? <==> ext in ALLOWED_EXTENSIONS
    ensures Dispatch(ext) == Some(Excel) <==> ext in EXCEL_EXTENSIONS
    ensures Dispatch(ext) == Some(Word) <==> ext in WORD_EXTENSIONS
    ensures Dispatch(ext) == Some(PowerPoint) <==> ext in PPT_EXTENSIONS
  {
    ExtensionSetsPartition();
  }

  /** An accepted upload is stored under a name whose own suffix is the accepted extension. */
  lemma AcceptedUploadKeepsExtension(filename: string, taskId: string)
    requires ValidateUpload(filename).Success?
    requires IsTaskId(taskId)
    ensures Suffix(UploadName(filename, taskId)) == ValidateUpload(filename).value
    ensures Dispatch(Suffix(UploadName(filename, taskId))).Some?
  {
    var ext := ValidateUpload(filename).value;
    assert ext == Lower(Suffix(filename)) && ext in ALLOWED_EXTENSIONS;
    assert |ext| > 0;
    assert |Suffix(filename)| == |ext|;
    UploadNameRoundTrip(filename, taskId);
    DispatchExactlyOne(ValidateUpload(filename).value);
  }

  // ---------------------------------------------------------------------------
  // The chunked save

  function Min(a: nat, b: nat): nat { if a < b then a else b }

  /**
   * How many `read(CHUNK_SIZE)` calls a save of `remaining` bytes makes: one per
   * chunk of at most CHUNK_SIZE bytes, and the final read that comes back empty.
   */
  function ReadsNeeded(remaining: nat): (n: nat)
    ensures n == (remaining + CHUNK_SIZE - 1) / CHUNK_SIZE + 1
    decreases remaining
  {
    if remaining == 0 then 1
    else if remaining <= CHUNK_SIZE then
      assert (remaining + CHUNK_SIZE - 1) / CHUNK_SIZE == 1;
      1 + ReadsNeeded(0)
    else
      assert (remaining + CHUNK_SIZE - 1) / CHUNK_SIZE == (remaining - CHUNK_SIZE + CHUNK_SIZE - 1) / CHUNK_SIZE + 1;
      1 + ReadsNeeded(remaining - CHUNK_SIZE)
  }

  /** A read that returns bytes leaves one read fewer to make. */
  lemma ReadsNeededStep(length: nat, before: nat, after: nat)
    requires before < length && after == Min(before + CHUNK_SIZE, length)
    ensures ReadsNeeded(length - before) == 1 + ReadsNeeded(length - after)
  {
  }

  lemma SliceExtend(s: seq<byte>, start: nat, before: nat, after: nat)
    requires start <= before <= after <= |s|
    ensures s[start..after] == s[start..before] + s[before..after]
  {
  }

  /** The fault, if any, falls among the `count` reads numbered from `from`. */
  predicate FaultWithin(faultAt: Option<nat>, from: nat, count: nat) {
    faultAt.Some? && from <= faultAt.value < from + count
  }

  /**
   * The uploaded file as the framework holds it: its name, its bytes, a read
   * position, and the number of the read call (if any) at which reading or
   * writing raises an exception.
   */
  class UploadFile {
    const filename: string
    const content: seq<byte>
    const faultAt: Option<nat>
    var pos: nat
    var readCount: nat
    var closed: bool

    ghost predicate Valid()
      reads this
    {
      pos <= |content|
    }

    constructor (filename: string, content: seq<byte>, faultAt: Option<nat>)
      ensures this.filename == filename && this.content == content && this.faultAt == faultAt
      ensures pos == 0 && readCount == 0 && !closed && Valid()
    {
      this.filename := filename;
      this.content := content;
      this.faultAt := faultAt;
      pos, readCount, closed := 0, 0, false;
    }

    /** `await upload_file.read(size)`: at most `size` bytes from the current position. */
    method Read(size: nat) returns (r: Result<seq<byte>, string>)
      requires Valid()
      modifies this`pos, this`readCount
      ensures Valid() && readCount == old(readCount) + 1
      ensures faultAt == Some(old(readCount)) ==> r.Failure? && pos == old(pos)
      ensures faultAt != Some(old(readCount)) ==>
        pos == Min(old(pos) + size, |content|) && r == Success(content[old(pos)..pos])
    {
      if faultAt == Some(readCount) {
        r := Failure("I/O error");
      } else {
        var next := Min(pos + size, |content|);
        r := Success(content[pos..next]);
        pos := next;
      }
      readCount := readCount + 1;
    }

    method Close()
      modifies this`closed
      ensures closed
    {
      closed := true;
    }
  }

  // ---------------------------------------------------------------------------
  // Background processing inputs and outputs

  /** A worksheet as pandas reads it: its column labels and its rows of cell values. */
  datatype Sheet = Sheet(name: string, columns: seq<string>, rows: seq<seq<string>>)

  /** `DataFrame.empty`: some axis has length zero. */
  predicate SheetEmpty(s: Sheet) {
    |s.columns| == 0 || |s.rows| == 0
  }

  /** The sheets that go into `combined_data`, in workbook order. */
  function NonEmptySheets(sheets: seq<Sheet>): seq<Sheet> {
    if |sheets| == 0 then []
    else
      var n := |sheets| - 1;
      NonEmptySheets(sheets[..n]) + (if SheetEmpty(sheets[n]) then [] else [sheets[n]])
  }

  method CombineSheets(sheets: seq<Sheet>) returns (combined: seq<Sheet>)
    ensures combined == NonEmptySheets(sheets)
  {
    combined := [];
    var i := 0;
    while i < |sheets|
      invariant 0 <= i <= |sheets|
      invariant combined == NonEmptySheets(sheets[..i])
    {
      assert sheets[..i + 1][..i] == sheets[..i];
      if !SheetEmpty(sheets[i]) {
        combined := combined + [sheets[i]];
      }
      i := i + 1;
    }
    assert sheets[..i] == sheets;
  }

  /** No sheet is combined exactly when every sheet is empty; the combined ones are exactly the non-empty ones. */
  lemma {:induction false} NonEmptySheetsExact(sheets: seq<Sheet>)
    ensures NonEmptySheets(sheets) == [] <==> forall k :: 0 <= k < |sheets| ==> SheetEmpty(sheets[k])
    ensures forall s :: s in NonEmptySheets(sheets) <==> s in sheets && !SheetEmpty(s)
  {
    if |sheets| > 0 {
      var n := |sheets| - 1;
      NonEmptySheetsExact(sheets[..n]);
      assert sheets == sheets[..n] + [sheets[n]];
      assert forall k :: 0 <= k < n ==> sheets[..n][k] == sheets[k];
    }
  }

  /**
   * What the three document libraries produce for the stored file (the workbook's
   * sheets, the Word document, the presentation) or the message of the exception
   * they raise.
   */
  datatype Parsers = Parsers(
    excel: Result<seq<Sheet>, string>,
    word: Result<WordDocument, string>,
    ppt: Result<Presentation, string>)

  /** The data written to the JSON output file. */
  datatype ProcessedData =
    | ExcelRecords(sheets: seq<Sheet>, processedAt: string)
    | WordOutput(entries: seq<WordEntry>)
    | PptOutput(slides: seq<SlideContent>)

  /** The final status and details of a processing run, and the output it writes. */
  datatype Outcome = Outcome(status: Status, details: string, output: Option<ProcessedData>)

  /** What the dispatch on `ext` yields for an existing stored file whose output is named `outName`. */
  function ConversionOutcome(ext: string, outName: string, lib: Parsers, now: string): Outcome {
    var saved := "Output saved to " + outName;
    match Dispatch(ext)
    case None => Outcome(Failed, "Failed to process content from " + ext + " file", None)
    case Some(Excel) =>
      (match lib.excel
       case Failure(e) => Outcome(Failed, e, None)
       case Success(sheets) =>
         if NonEmptySheets(sheets) == [] then Outcome(Failed, "No valid data found in Excel", None)
         else Outcome(Completed, saved, Some(ExcelRecords(NonEmptySheets(sheets), now))))
    case Some(Word) =>
      (match lib.word
       case Failure(e) => Outcome(Failed, e, None)
       case Success(doc) => Outcome(Completed, saved, Some(WordOutput(WordContent(doc)))))
    case Some(PowerPoint) =>
      (match lib.ppt
       case Failure(e) => Outcome(Failed, e, None)
       case Success(prs) => Outcome(Completed, saved, Some(PptOutput(PptContent(prs.slides)))))
  }

  /** The lower-cased extension of the job's original file name, which selects the reader. */
  function JobExtension(job: Job): string {
    Lower(Suffix(job.originalFilename))
  }

  /** The name of the job's JSON output. */
  function JobOutputName(job: Job): string {
    ProcessedName(job.originalFilename, job.taskId)
  }

  /** The final state `process_file_background` leaves for a job. */
  function ProcessOutcome(fileExists: bool, job: Job, lib: Parsers, now: string): Outcome {
    if !fileExists then Outcome(Failed, "File not found: " + UPLOAD_DIR + "/" + job.storedName, None)
    else ConversionOutcome(JobExtension(job), JobOutputName(job), lib, now)
  }

  /**
   * Processing ends "completed" exactly when the stored file exists, its extension
   * takes a branch, the library succeeds and, for a workbook, some sheet is non-empty;
   * otherwise it ends "failed". An output is written exactly when it completes.
   */
  lemma ConversionOutcomeCases(ext: string, outName: string, lib: Parsers, now: string)
    ensures var o := ConversionOutcome(ext, outName, lib, now);
      o.status == Completed || o.status == Failed
    ensures var o := ConversionOutcome(ext, outName, lib, now);
      o.output.Some? <==> o.status == Completed
    ensures var o := ConversionOutcome(ext, outName, lib, now);
      var kind := Dispatch(ext);
      o.status == Completed <==>
        kind.Some? &&
        (kind.value == Excel ==>
           lib.excel.Success? && exists k :: 0 <= k < |lib.excel.value| && !SheetEmpty(lib.excel.value[k])) &&
        (kind.value == Word ==> lib.word.Success?) &&
        (kind.value == PowerPoint ==> lib.ppt.Success?)
  {
    if lib.excel.Success? {
      NonEmptySheetsExact(lib.excel.value);
    }
  }

  /**
   * A job whose stored file is missing fails with the "File not found" message;
   * otherwise its outcome is the conversion chosen by its original extension.
   */
  lemma ProcessOutcomeCases(fileExists: bool, job: Job, lib: Parsers, now: string)
    ensures !fileExists ==>
      ProcessOutcome(fileExists, job, lib, now) == Outcome(Failed, "File not found: uploads/" + job.storedName, None)
    ensures fileExists ==>
      ProcessOutcome(fileExists, job, lib, now) == ConversionOutcome(Lower(Suffix(job.originalFilename)), ProcessedName(job.originalFilename, job.taskId), lib, now)
    ensures var o := ProcessOutcome(fileExists, job, lib, now);
      o.status == Completed || o.status == Failed
    ensures var o := ProcessOutcome(fileExists, job, lib, now);
      o.status == Completed ==> fileExists && Dispatch(Lower(Suffix(job.originalFilename))).Some?
  {
    assert UPLOAD_DIR + "/" + job.storedName == "uploads/" + job.storedName;
    if fileExists {
      ConversionOutcomeCases(JobExtension(job), JobOutputName(job), lib, now);
    }
  }

  /** A workbook whose sheets are all empty fails with "No valid data found in Excel". */
  lemma ExcelAllEmptyFails(job: Job, lib: Parsers, now: string)
    requires Dispatch(Lower(Suffix(job.originalFilename))) == Some(Excel)
    requires lib.excel.Success? && forall k :: 0 <= k < |lib.excel.value| ==> SheetEmpty(lib.excel.value[k])
    ensures ProcessOutcome(true, job, lib, now) == Outcome(Failed, "No valid data found in Excel", None)
  {
    NonEmptySheetsExact(lib.excel.value);
  }

  /**
   * A Word file with nothing to extract (no table, only blank paragraphs) still
   * completes and writes an empty list: unlike a workbook, only a library failure fails.
   */
  lemma EmptyWordCompletes(job: Job, lib: Parsers, now: string)
    requires Dispatch(Lower(Suffix(job.originalFilename))) == Some(Word)
    requires lib.word.Success? && |lib.word.value.tables| == 0
    requires forall i :: 0 <= i < |lib.word.value.paragraphs| ==> IsBlank(lib.word.value.paragraphs[i])
    ensures ProcessOutcome(true, job, lib, now) ==
      Outcome(Completed, "Output saved to " + JobOutputName(job), Some(WordOutput([])))
  {
    WordContentEmpty(lib.word.value);
  }

  /** A presentation none of whose slides has an element still completes and writes an empty list. */
  lemma EmptyPptCompletes(job: Job, lib: Parsers, now: string)
    requires Dispatch(Lower(Suffix(job.originalFilename))) == Some(PowerPoint)
    requires lib.ppt.Success?
    requires forall i :: 0 <= i < |lib.ppt.value.slides| ==> SlideElements(lib.ppt.value.slides[i].shapes) == []
    ensures ProcessOutcome(true, job, lib, now) ==
      Outcome(Completed, "Output saved to " + JobOutputName(job), Some(PptOutput([])))
  {
    PptContentEmpty(lib.ppt.value.slides);
  }

  /** A second update of the same key overwrites the first. */
  lemma UpdateOverwrites<K, V>(m: map<K, V>, k: K, a: V, b: V)
    ensures m[k := a][k := b] == m[k := b]
  {
  }

  // ---------------------------------------------------------------------------
  // The service state

  class Service {
    /** `task_status` */
    var tasks: map<string, TaskRecord>
    /** the files in UPLOAD_DIR, by name */
    var uploads: map<string, seq<byte>>
    /** the files in PROCESSED_DATA_DIR, by name */
    var processed: map<string, ProcessedData>

    /**
     * The status table starts empty; `mkdir(exist_ok=True)` keeps whatever files
     * earlier runs left in the two directories.
     */
    constructor (uploads0: map<string, seq<byte>>, processed0: map<string, ProcessedData>)
      ensures tasks == map[] && uploads == uploads0 && processed == processed0
    {
      tasks, uploads, processed := map[], uploads0, processed0;
    }

    /** Replaces the whole record of `taskId`; every other task keeps its record. */
    method UpdateTaskStatus(taskId: string, status: Status, details: Option<string>, timestamp: string)
      modifies this`tasks
      ensures tasks == old(tasks)[taskId := TaskRecord(status, details, timestamp)]
    {
      tasks := tasks[taskId := TaskRecord(status, details, timestamp)];
    }

    /** `GET /status/{task_id}`: 404 for an unknown id, otherwise the record with its id. */
    method GetTaskStatus(taskId: string) returns (r: Result<StatusResponse, HttpError>)
      ensures taskId !in tasks ==> r == Failure(TaskNotFound) && r.error.StatusCode() == 404
      ensures taskId in tasks ==>
        r == Success(StatusResponse(taskId, tasks[taskId].status, tasks[taskId].details, tasks[taskId].timestamp))
    {
      if taskId !in tasks {
        return Failure(TaskNotFound);
      }
      var rec := tasks[taskId];
      r := Success(StatusResponse(taskId, rec.status, rec.details, rec.timestamp));
    }

    /**
     * `save_upload_file_chunked`: copies the rest of the upload into `dest` in reads
     * of at most CHUNK_SIZE bytes until a read comes back empty, and returns the
     * number of bytes written. If any read faults, the destination is removed and
     * a 500 error is raised. The upload is closed either way.
     */
    method SaveUploadFileChunked(upload: UploadFile, dest: string) returns (r: Result<nat, HttpError>)
      requires upload.Valid()
      modifies this`uploads, upload
      ensures upload.Valid() && upload.closed
      ensures r.Success? <==>
        !FaultWithin(upload.faultAt, old(upload.readCount), ReadsNeeded(|old(upload.content[upload.pos..])|))
      ensures r.Success? ==>
        && uploads == old(uploads)[dest := old(upload.content[upload.pos..])]
        && r.value == |old(upload.content[upload.pos..])|
        && upload.readCount == old(upload.readCount) + ReadsNeeded(|old(upload.content[upload.pos..])|)
      ensures r.Failure? ==> r.error == SaveFailed && uploads == old(uploads) - {dest}
    {
      uploads := uploads[dest := []];
      var ok, total := CopyChunks(upload, dest);
      if !ok {
        uploads := uploads - {dest};
      }
      upload.Close();
      r := if ok then Success(total) else Failure(SaveFailed);
    }

    /** The `while chunk := await upload_file.read(CHUNK_SIZE)` loop, appending to `dest`. */
    method CopyChunks(upload: UploadFile, dest: string) returns (ok: bool, total: nat)
      requires upload.Valid() && dest in uploads && uploads[dest] == []
      modifies this`uploads, upload`pos, upload`readCount
      ensures upload.Valid()
      ensures ok <==> !FaultWithin(upload.faultAt, old(upload.readCount), ReadsNeeded(|old(upload.content[upload.pos..])|))
      ensures ok ==>
        && uploads == old(uploads)[dest := old(upload.content[upload.pos..])]
        && total == |old(upload.content[upload.pos..])|
        && upload.readCount == old(upload.readCount) + ReadsNeeded(|old(upload.content[upload.pos..])|)
      ensures !ok ==> dest in uploads && uploads == old(uploads)[dest := uploads[dest]]
    {
      ghost var start := upload.pos;
      ghost var firstRead := upload.readCount;
      ghost var rest := upload.content[start..];
      assert upload.content[start..upload.pos] == [];
      assert old(uploads)[dest := []] == old(uploads);
      total := 0;
      ghost var pieces := 0;
      while true
        invariant upload.Valid() && start <= upload.pos
        invariant upload.pos == start + total
        invariant upload.readCount == firstRead + pieces
        invariant uploads == old(uploads)[dest := upload.content[start..upload.pos]]
        invariant pieces + ReadsNeeded(|upload.content| - upload.pos) == ReadsNeeded(|rest|)
        invariant !FaultWithin(upload.faultAt, firstRead, pieces)
        decreases |upload.content| - upload.pos
      {
        ghost var before := upload.pos;
        var chunk := upload.Read(CHUNK_SIZE);
        if chunk.Failure? {
          return false, total;
        }
        var piece := chunk.value;
        if |piece| == 0 {
          assert upload.pos == |upload.content|;
          assert upload.content[start..upload.pos] == rest;
          return true, total;
        }
        ReadsNeededStep(|upload.content|, before, upload.pos);
        SliceExtend(upload.content, start, before, upload.pos);
        total := total + |piece|;
        uploads := uploads[dest := uploads[dest] + piece];
        pieces := pieces + 1;
      }
    }

    /**
     * `POST /upload/to-json`: validates the name, records "uploading", saves the
     * upload under its unique name, then records "queued" and hands back the job
     * for the background step. A failed save leaves the task at "uploading".
     */
    method UploadFileToJson(upload: UploadFile, taskId: string, now: string)
      returns (r: Result<UploadResponse, HttpError>, job: Option<Job>)
      requires upload.Valid()
      modifies this, upload
      ensures ValidateUpload(upload.filename).Failure? ==>
        && r == Failure(ValidateUpload(upload.filename).error) && job == None
        && tasks == old(tasks) && uploads == old(uploads) && processed == old(processed)
        && unchanged(upload)
      ensures ValidateUpload(upload.filename).Success? ==>
        StoredAndQueued(upload, UploadName(upload.filename, taskId), taskId, now, r, job,
          old(upload.content[upload.pos..]), old(upload.readCount), old(tasks), old(uploads), old(processed))
    {
      var checked := ValidateUpload(upload.filename);
      if checked.Failure? {
        return Failure(checked.error), None;
      }
      r, job := SaveAndQueue(upload, UploadName(upload.filename, taskId), taskId, now);
    }

    /**
     * The state after an accepted upload: if every read of the save succeeded, the
     * response, the queued job, the stored bytes and the "queued" record; otherwise
     * the 500 error, no job, no stored file and the task left at "uploading".
     */
    ghost predicate StoredAndQueued(
      upload: UploadFile, name: string, taskId: string, now: string,
      r: Result<UploadResponse, HttpError>, job: Option<Job>,
      rest: seq<byte>, firstRead: nat,
      tasks0: map<string, TaskRecord>, uploads0: map<string, seq<byte>>,
      processed0: map<string, ProcessedData>)
      reads this, upload
    {
      var saved := !FaultWithin(upload.faultAt, firstRead, ReadsNeeded(|rest|));
      && processed == processed0
      && upload.closed
      && (saved ==>
            && r == Success(UploadResponse(taskId, upload.filename, |rest|, "json",
                     "File uploaded successfully and queued for JSON processing", "/status/" + taskId))
            && job == Some(Job(name, upload.filename, taskId))
            && uploads == uploads0[name := rest]
            && tasks == tasks0[taskId := TaskRecord(Queued,
                 Some("File uploaded successfully, processing queued for JSON output"), now)])
      && (!saved ==>
            && r == Failure(SaveFailed) && job == None
            && uploads == uploads0 - {name}
            && tasks == tasks0[taskId := TaskRecord(Uploading, Some("Saving file to disk in chunks"), now)])
    }

    /** The part of `upload_file_to_json` after validation, given the unique name. */
    method SaveAndQueue(upload: UploadFile, name: string, taskId: string, now: string)
      returns (r: Result<UploadResponse, HttpError>, job: Option<Job>)
      requires upload.Valid()
      modifies this, upload
      ensures StoredAndQueued(upload, name, taskId, now, r, job,
        old(upload.content[upload.pos..]), old(upload.readCount), old(tasks), old(uploads), old(processed))
    {
      ghost var rest := upload.content[upload.pos..];
      UpdateTaskStatus(taskId, Uploading, Some("Saving file to disk in chunks"), now);
      var size := SaveUploadFileChunked(upload, name);
      if size.Failure? {
        return Failure(size.error), None;
      }
      job := Some(Job(name, upload.filename, taskId));
      UpdateTaskStatus(taskId, Queued, Some("File uploaded successfully, processing queued for JSON output"), now);
      r := Success(UploadResponse(taskId, upload.filename, size.value, "json",
        "File uploaded successfully and queued for JSON processing", "/status/" + taskId));
    }

    /**
     * `process_file_background`: records "processing", converts the stored file
     * according to its original extension, writes the JSON output, and records the
     * final status. The stored upload is deleted whatever happens.
     */
    method ProcessFileBackground(job: Job, lib: Parsers, now: string)
      modifies this
      ensures var o := ProcessOutcome(job.storedName in old(uploads), job, lib, now);
        && tasks == old(tasks)[job.taskId := TaskRecord(o.status, Some(o.details), now)]
        && processed == (if o.output.Some? then old(processed)[JobOutputName(job) := o.output.value] else old(processed))
      ensures uploads == old(uploads) - {job.storedName}
    {
      UpdateTaskStatus(job.taskId, Processing, Some("Starting file processing"), now);
      ghost var started := tasks;
      var o := ConvertJob(job, lib, now);
      ghost var converted := tasks;
      UpdateTaskStatus(job.taskId, o.status, Some(o.details), now);
      var final := TaskRecord(o.status, Some(o.details), now);
      if converted != started {
        UpdateOverwrites(started, job.taskId, converted[job.taskId], final);
      }
      UpdateOverwrites(old(tasks), job.taskId, started[job.taskId], final);
      uploads := uploads - {job.storedName};
    }

    /** The body of the `try` block: the existence check, the conversion and the output write. */
    method ConvertJob(job: Job, lib: Parsers, now: string) returns (o: Outcome)
      modifies this`tasks, this`processed
      ensures o == ProcessOutcome(job.storedName in uploads, job, lib, now)
      ensures o.status in {Completed, Failed}
      ensures var kind := Dispatch(JobExtension(job));
        tasks == if job.storedName in uploads && kind.Some?
                 then old(tasks)[job.taskId := TaskRecord(Processing, Some(ReadingDetail(kind.value)), now)]
                 else old(tasks)
      ensures processed == (if o.output.Some? then old(processed)[JobOutputName(job) := o.output.value] else old(processed))
    {
      var ext := JobExtension(job);
      var outName := JobOutputName(job);
      if job.storedName !in uploads {
        o := Outcome(Failed, "File not found: " + UPLOAD_DIR + "/" + job.storedName, None);
      } else {
        o := ConvertStoredFile(job.taskId, ext, outName, lib, now);
        if o.output.Some? {
          processed := processed[outName := o.output.value];
        }
      }
    }

    /**
     * The dispatch on the original extension for a stored file that exists: each
     * branch records which reader it uses, then runs it.
     */
    method ConvertStoredFile(taskId: string, ext: string, outName: string, lib: Parsers, now: string)
      returns (o: Outcome)
      modifies this`tasks
      ensures o == ConversionOutcome(ext, outName, lib, now)
      ensures o.status in {Completed, Failed}
      ensures tasks == if Dispatch(ext).Some?
                       then old(tasks)[taskId := TaskRecord(Processing, Some(ReadingDetail(Dispatch(ext).value)), now)]
                       else old(tasks)
    {
      var kind := Dispatch(ext);
      var saved := "Output saved to " + outName;
      o := Outcome(Failed, "Failed to process content from " + ext + " file", None);
      if kind == Some(Excel) {
        UpdateTaskStatus(taskId, Processing, Some("Reading Excel file"), now);
        if lib.excel.Failure? {
          o := Outcome(Failed, lib.excel.error, None);
        } else {
          var combined := CombineSheets(lib.excel.value);
          if combined == [] {
            o := Outcome(Failed, "No valid data found in Excel", None);
          } else {
            o := Outcome(Completed, saved, Some(ExcelRecords(combined, now)));
          }
        }
      } else if kind == Some(Word) {
        UpdateTaskStatus(taskId, Processing, Some("Reading Word file"), now);
        if lib.word.Failure? {
          o := Outcome(Failed, lib.word.error, None);
        } else {
          var content := GetWordFileContent(lib.word.value);
          o := Outcome(Completed, saved, Some(WordOutput(content)));
        }
      } else if kind == Some(PowerPoint) {
        UpdateTaskStatus(taskId, Processing, Some("Reading PowerPoint file"), now);
        if lib.ppt.Failure? {
          o := Outcome(Failed, lib.ppt.error, None);
        } else {
          var content := GetPptFileContent(lib.ppt.value);
          o := Outcome(Completed, saved, Some(PptOutput(content)));
        }
      }
    }
  }

  /**
   * A request accepted by the endpoint yields a job whose stored file exists and
   * whose extension takes a branch, so "Failed to process content" cannot be its
   * outcome: it completes unless the library fails or, for a workbook, every sheet
   * is empty.
   */
  lemma UploadedJobOutcome(filename: string, taskId: string, lib: Parsers, now: string)
    requires ValidateUpload(filename).Success?
    ensures var job := Job(UploadName(filename, taskId), filename, taskId);
      var kind := Dispatch(Lower(Suffix(filename)));
      && kind.Some?
      && (ProcessOutcome(true, job, lib, now).status == Failed <==>
            (kind.value == Excel && (lib.excel.Failure? || NonEmptySheets(lib.excel.value) == [])) ||
            (kind.value == Word && lib.word.Failure?) ||
            (kind.value == PowerPoint && lib.ppt.Failure?))
  {
    DispatchExactlyOne(Lower(Suffix(filename)));
  }
}
