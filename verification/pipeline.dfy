/** The HTTP-triggered job `extract_and_load_visualoz` (main_script_cf.py:62-192) as
    a pure function. Every collaborator call (storage client, page fetch, PDF fetch,
    upload, local copy, table extraction, credential loading, warehouse append) is
    given up front as the outcome it yields in this run; the function returns the
    effects that completed, in order, and the response. */
module Pipeline {
  import opened Wrappers
  import opened Strings
  import opened CivilDate
  import opened ReportDate
  import opened PdfLink
  import opened Frames
  import opened Cleaning

  /** Deployment settings read from the environment (bucket, the two destination
      tables, the warehouse project, the credentials secret). */
  datatype Config = Config(bucket: string, table1: string, table2: string, projectId: string, secretId: string)

  /** Outcomes of the calls made for one report page: the extractor's tables, the
      credential loading, and the append. */
  datatype Section = Section(tables: Result<seq<Table>, string>, credentials: Outcome<string>, load: Outcome<string>)

  /** Outcomes of every collaborator call of one run. `page` yields the `href` of
      each anchor of the report page that has one, in document order. */
  datatype World = World(
    storageClient: Outcome<string>,
    page: Result<seq<string>, string>,
    pdf: Outcome<string>,
    upload: Outcome<string>,
    localCopy: Outcome<string>,
    first: Section,
    second: Section
  )

  /** A side effect that completed. */
  datatype Effect =
    | FetchPage(url: string)
    | FetchPdf(url: string)
    | Upload(bucket: string, key: string)
    | CopyToLocal(bucket: string, key: string, path: string)
    | ExtractTables(path: string, page: nat)
    | AccessSecret(name: string)
    | Append(project: string, table: string, rows: Table)

  /** The `(message, status)` pair returned, or an exception raised before the
      `try` block, which leaves the function. */
  datatype Response = Reply(message: string, code: int) | Escaped(error: string)

  datatype Run = Run(trace: seq<Effect>, response: Response)

  /** Effects so far and whether the `try` block is still running. */
  datatype Progress = Progress(trace: seq<Effect>, status: Outcome<string>)

  /** Where a failing step stops: how many of its effects completed, and the error
      its failing call raised. */
  datatype Halt = Halt(completed: nat, error: string)

  const FirstPage: nat := 3
  const SecondPage: nat := 9
  const NoTableMessage := "No table found or extraction failed."
  const SuccessMessage := "Pipeline finished successfully!"
  const FailurePrefix := "Pipeline failed: "
  const OkCode := 200
  const ErrorCode := 500

  /** The number of effects of a run in which every call succeeds. */
  const PlanLength := 10

  /** Resource name of the latest version of the credentials secret. */
  function SecretName(cfg: Config): string {
    "projects/" + cfg.projectId + "/secrets/" + cfg.secretId + "/versions/latest"
  }

  /** With identifiers free of `/`, the secret's resource name has exactly the six
      path segments `projects`, the project, `secrets`, the secret, `versions`,
      `latest`. */
  lemma SecretNameSegments(cfg: Config)
    requires '/' !in cfg.projectId && '/' !in cfg.secretId
    ensures Split(SecretName(cfg), '/') == ["projects", cfg.projectId, "secrets", cfg.secretId, "versions", "latest"]
  {
    var segments := ["projects", cfg.projectId, "secrets", cfg.secretId, "versions", "latest"];
    SecretNameJoin(cfg);
    assert forall i :: 0 <= i < |segments| ==> '/' !in segments[i] by {
      assert '/' !in "projects" && '/' !in "secrets" && '/' !in "versions" && '/' !in "latest";
    }
    SplitJoin(segments, '/');
  }

  /** The secret's resource name is its six segments joined by `/`. */
  lemma SecretNameJoin(cfg: Config)
    ensures SecretName(cfg) == Join(["projects", cfg.projectId, "secrets", cfg.secretId, "versions", "latest"], '/')
  {
    var segments := ["projects", cfg.projectId, "secrets", cfg.secretId, "versions", "latest"];
    var sep := ['/'];
    assert Join(segments[5..], '/') == "latest";
    assert Join(segments[4..], '/') == "versions" + sep + "latest";
    assert Join(segments[3..], '/') == cfg.secretId + sep + Join(segments[4..], '/');
    assert Join(segments[2..], '/') == "secrets" + sep + Join(segments[3..], '/');
    assert Join(segments[1..], '/') == cfg.projectId + sep + Join(segments[2..], '/');
    assert Join(segments, '/') == "projects" + sep + Join(segments[1..], '/');
  }

  /** Runs `next` after `done` unless `done` has failed. */
  function Then(done: Progress, next: Progress): (r: Progress)
    ensures done.status.Fail? ==> r == done
    ensures done.status.Pass? ==> r.trace == done.trace + next.trace && r.status == next.status
  {
    if done.status.Fail? then done else Progress(done.trace + next.trace, next.status)
  }

  /** Where `p` stopped, if it failed. */
  function Halted(p: Progress): Option<Halt> {
    match p.status
    case Pass => None
    case Fail(e) => Some(Halt(|p.trace|, e))
  }

  /** The first failing call of `download_pdf_to_gcs`, by the order of its calls: the
      page fetch (nothing completed), the link search and the PDF fetch (the page
      fetched), the upload (the PDF fetched too). */
  function DownloadHalt(w: World): Option<Halt> {
    if w.page.Failure? then Some(Halt(0, w.page.error))
    else if forall i :: 0 <= i < |w.page.value| ==> !IsPdfHref(w.page.value[i]) then
      Some(Halt(1, LinkNotFoundMessage))
    else if w.pdf.Fail? then Some(Halt(1, w.pdf.error))
    else if w.upload.Fail? then Some(Halt(2, w.upload.error))
    else None
  }

  /** The first failing call of the download and the local copy. */
  function PrepareHalt(w: World): Option<Halt> {
    if DownloadHalt(w).Some? then DownloadHalt(w)
    else if w.localCopy.Fail? then Some(Halt(3, w.localCopy.error))
    else None
  }

  /** The first failing step of the work on one page: the extraction (nothing
      completed), no table, the cleaning block and the credentials (the extraction
      completed), the append (the secret read too). */
  function SectionHalt(s: Section): Option<Halt> {
    if s.tables.Failure? then Some(Halt(0, s.tables.error))
    else if |s.tables.value| == 0 then Some(Halt(1, NoTableMessage))
    else Shift(1, PublishHalt(s.tables.value[0], s))
  }

  /** The first failing step once table `t` was extracted: the cleaning block's
      exception or the credentials (nothing completed), the append (the secret
      read). */
  function PublishHalt(t: Table, s: Section): Option<Halt> {
    if !Cleanable(t) then Some(Halt(0, CleanError(t).Message()))
    else if s.credentials.Fail? then Some(Halt(0, s.credentials.error))
    else if s.load.Fail? then Some(Halt(1, s.load.error))
    else None
  }

  /** `h` after `offset` effects that completed before it. */
  function Shift(offset: nat, h: Option<Halt>): Option<Halt> {
    match h
    case None => None
    case Some(Halt(n, e)) => Some(Halt(offset + n, e))
  }

  /** The first failing call of the `try` block, read off the world: the
      preparation's, else page 3's after the four preparation effects, else page 9's
      after seven effects; `None` when every call succeeds. */
  function BodyHalt(w: World): Option<Halt> {
    if PrepareHalt(w).Some? then PrepareHalt(w)
    else if SectionHalt(w.first).Some? then Shift(4, SectionHalt(w.first))
    else Shift(7, SectionHalt(w.second))
  }

  /** The effect `download_pdf_to_gcs` performs at its step `i` when it succeeds. */
  predicate DownloadPlan(cfg: Config, url: string, e: Effect, i: nat) {
    match i
    case 0 => e == FetchPage(url)
    case 1 => e.FetchPdf? && IsPdfHref(e.url)
    case 2 => e.Upload? && e.bucket == cfg.bucket
    case _ => false
  }

  /** The effect the work on page `page` performs at its step `j` when it succeeds. */
  predicate SectionPlan(cfg: Config, path: string, page: nat, table: string, e: Effect, j: nat) {
    match j
    case 0 => e == ExtractTables(path, page)
    case 1 => e == AccessSecret(SecretName(cfg))
    case 2 => e.Append? && e.project == cfg.projectId && e.table == table && e.rows.columns == OutputColumns
    case _ => false
  }

  /** The effect a fully successful run performs at step `i`, as far as it is fixed
      before the run: the report page `url`, the local `path`, names from the
      configuration, and the kind of every other effect. */
  predicate InPlan(cfg: Config, url: string, path: string, e: Effect, i: nat) {
    if i < 3 then DownloadPlan(cfg, url, e, i)
    else if i == 3 then e.CopyToLocal? && e.bucket == cfg.bucket && e.path == path
    else if i < 7 then SectionPlan(cfg, path, FirstPage, cfg.table1, e, i - 4)
    else if i < PlanLength then SectionPlan(cfg, path, SecondPage, cfg.table2, e, i - 7)
    else false
  }

  /** The calls of `download_pdf_to_gcs` all succeed. */
  predicate DownloadSucceeds(w: World) {
    && w.page.Success? && (exists i :: 0 <= i < |w.page.value| && IsPdfHref(w.page.value[i]))
    && w.pdf.Pass? && w.upload.Pass?
  }

  /** `download_pdf_to_gcs` (main_script_cf.py:32-58): fetch the report page, pick
      the PDF link, fetch the PDF, upload it under `input/<file name>`. On success
      the second component is the file name. */
  function Download(cfg: Config, url: string, w: World): (r: (Progress, string))
    ensures r.0.status.Pass? <==> DownloadSucceeds(w)
    ensures r.0.status.Pass? <==> |r.0.trace| == 3
    ensures |r.0.trace| <= 3
    ensures forall i :: 0 <= i < |r.0.trace| ==> DownloadPlan(cfg, url, r.0.trace[i], i)
    ensures |r.0.trace| >= 2 ==>
      r.0.trace[1].FetchPdf? && w.page.Success? && FindPdfUrl(w.page.value) == Success(r.0.trace[1].url)
    ensures |r.0.trace| == 3 ==>
      r.0.trace[2].Upload? && r.1 == FileName(r.0.trace[1].url) && r.0.trace[2].key == BlobKey(r.1)
    ensures w.page.Success? && FindPdfUrl(w.page.value).Failure? ==>
      r.0 == Progress([FetchPage(url)], Fail(LinkNotFoundMessage))
    ensures Halted(r.0) == DownloadHalt(w)
  {
    match w.page
    case Failure(e) => (Progress([], Fail(e)), "")
    case Success(hrefs) =>
      var fetched := [FetchPage(url)];
      match FindPdfUrl(hrefs)
      case Failure(e) => (Progress(fetched, Fail(e)), "")
      case Success(pdfUrl) =>
        match w.pdf
        case Fail(e) => (Progress(fetched, Fail(e)), "")
        case Pass =>
          var downloaded := fetched + [FetchPdf(pdfUrl)];
          match w.upload
          case Fail(e) => (Progress(downloaded, Fail(e)), "")
          case Pass =>
            var name := FileName(pdfUrl);
            (Progress(downloaded + [Upload(cfg.bucket, BlobKey(name))], Pass), name)
  }

  /** Every call made for one page succeeds. */
  predicate SectionSucceeds(s: Section) {
    && s.tables.Success? && |s.tables.value| > 0
    && Cleanable(s.tables.value[0])
    && s.credentials.Pass? && s.load.Pass?
  }

  /** One report page (main_script_cf.py:92-138 for page 3, 140-186 for page 9):
      extract its tables, fail when there are none, clean the first, load
      credentials, append the rows to `table`. */
  function LoadSection(cfg: Config, path: string, page: nat, table: string, s: Section, date: string): (p: Progress)
    ensures p.status.Pass? <==> SectionSucceeds(s)
    ensures |p.trace| <= 3
    ensures p.status.Pass? <==> |p.trace| == 3
    ensures forall j :: 0 <= j < |p.trace| ==> SectionPlan(cfg, path, page, table, p.trace[j], j)
    ensures |p.trace| == 3 ==>
      p.trace[2] == Append(cfg.projectId, table, Clean(s.tables.value[0], date).value)
    ensures s.tables == Success([]) ==> p == Progress([ExtractTables(path, page)], Fail(NoTableMessage))
    ensures Halted(p) == SectionHalt(s)
  {
    match s.tables
    case Failure(e) => Progress([], Fail(e))
    case Success(tables) =>
      var extracted := [ExtractTables(path, page)];
      if |tables| == 0 then Progress(extracted, Fail(NoTableMessage))
      else
        var published := Publish(cfg, table, tables[0], s, date);
        HaltedAfter(ExtractTables(path, page), published);
        Progress(extracted + published.trace, published.status)
  }

  /** A step that completes one effect and then runs `p` halts one effect later
      than `p` does, with the same error. */
  lemma HaltedAfter(e: Effect, p: Progress)
    ensures Halted(Progress([e] + p.trace, p.status)) == Shift(1, Halted(p))
  {
  }

  /** The rest of the work on one page once a table was extracted
      (main_script_cf.py:103-136): clean it, load the credentials, append the rows.
      The cleaning block raises its first exception; nothing completes before it. */
  function Publish(cfg: Config, table: string, t: Table, s: Section, date: string): (p: Progress)
    ensures |p.trace| <= 2
    ensures p.status.Pass? <==> Cleanable(t) && s.credentials.Pass? && s.load.Pass?
    ensures p.status.Pass? <==> |p.trace| == 2
    ensures |p.trace| >= 1 ==> p.trace[0] == AccessSecret(SecretName(cfg))
    ensures |p.trace| == 2 ==> p.trace[1] == Append(cfg.projectId, table, Clean(t, date).value)
    ensures Halted(p) == PublishHalt(t, s)
    ensures !Cleanable(t) || s.credentials.Fail? ==> p.trace == []
    ensures Cleanable(t) && s.credentials.Pass? ==>
      p.trace == [AccessSecret(SecretName(cfg))] || p.trace == [AccessSecret(SecretName(cfg)), Append(cfg.projectId, table, Clean(t, date).value)]
  {
    match Clean(t, date)
    case Failure(e) =>
      CleanFailsWith(t, date);
      Progress([], Fail(e.Message()))
    case Success(rows) =>
      match s.credentials
      case Fail(e) => Progress([], Fail(e))
      case Pass =>
        var authorised := [AccessSecret(SecretName(cfg))];
        match s.load
        case Fail(e) => Progress(authorised, Fail(e))
        case Pass => Progress(authorised + [Append(cfg.projectId, table, rows)], Pass)
  }


  /** Every call inside the `try` block succeeds. */
  predicate BodySucceeds(w: World) {
    DownloadSucceeds(w) && w.localCopy.Pass? && SectionSucceeds(w.first) && SectionSucceeds(w.second)
  }

  /** The first steps of the `try` block (main_script_cf.py:81-89): download and
      upload the PDF, then copy the uploaded object to the local file `path`. */
  function Prepare(cfg: Config, url: string, path: string, w: World): (p: Progress)
    ensures p.status.Pass? <==> DownloadSucceeds(w) && w.localCopy.Pass?
    ensures p.status.Pass? <==> |p.trace| == 4
    ensures |p.trace| <= 4
    ensures forall i :: 0 <= i < |p.trace| ==> InPlan(cfg, url, path, p.trace[i], i)
    ensures |p.trace| >= 2 ==>
      p.trace[1].FetchPdf? && w.page.Success? && FindPdfUrl(w.page.value) == Success(p.trace[1].url)
    ensures |p.trace| >= 3 ==>
      p.trace[2].Upload? && p.trace[2].key == BlobKey(FileName(p.trace[1].url))
    ensures |p.trace| == 4 ==>
      p.trace[2].Upload? && p.trace[3].CopyToLocal? && p.trace[3].key == p.trace[2].key == BlobKey(FileName(p.trace[1].url))
    ensures Halted(p) == PrepareHalt(w)
  {
    var (fetched, name) := Download(cfg, url, w);
    if fetched.status.Fail? then fetched
    else
      match w.localCopy
      case Fail(e) => Progress(fetched.trace, Fail(e))
      case Pass => Progress(fetched.trace + [CopyToLocal(cfg.bucket, BlobKey(name), path)], Pass)
  }

  /** The `try` block (main_script_cf.py:79-188) with the report page `url`, the
      local file `path` and the ISO report `date` computed before it. */
  function Body(cfg: Config, url: string, path: string, date: string, w: World): (p: Progress)
    ensures p.status.Pass? <==> BodySucceeds(w)
    ensures |p.trace| <= PlanLength
    ensures p.status.Pass? <==> |p.trace| == PlanLength
    ensures Halted(p) == BodyHalt(w)
  {
    var prepared := Prepare(cfg, url, path, w);
    var first := LoadSection(cfg, path, FirstPage, cfg.table1, w.first, date);
    var second := LoadSection(cfg, path, SecondPage, cfg.table2, w.second, date);
    Then(Then(prepared, first), second)
  }

  /** Every effect of the `try` block is the one the plan puts at its position, the
      PDF fetched is the page's first PDF link, and the object read back is the one
      uploaded, under `input/` and the link's file name. */
  lemma BodyFollowsPlan(cfg: Config, url: string, path: string, date: string, w: World)
    ensures var p := Body(cfg, url, path, date, w);
      && (forall i :: 0 <= i < |p.trace| ==> InPlan(cfg, url, path, p.trace[i], i))
      && (|p.trace| >= 2 ==> w.page.Success? && FindPdfUrl(w.page.value) == Success(p.trace[1].url))
      && (|p.trace| >= 3 ==> p.trace[2].Upload? && p.trace[2].key == BlobKey(FileName(p.trace[1].url)))
      && (|p.trace| >= 4 ==> p.trace[3].key == p.trace[2].key)
  {
    BodyInPlan(cfg, url, path, date, w);
    BodyExtendsPrepare(cfg, url, path, date, w);
  }

  /** The `try` block's effects start with the preparation's, all of them when it
      fails. */
  lemma BodyExtendsPrepare(cfg: Config, url: string, path: string, date: string, w: World)
    ensures var p := Body(cfg, url, path, date, w);
      var prepared := Prepare(cfg, url, path, w);
      && prepared.trace <= p.trace
      && (prepared.status.Fail? ==> p == prepared)
  {
  }

  /** Every effect of the `try` block is the one the plan puts at its position. */
  lemma BodyInPlan(cfg: Config, url: string, path: string, date: string, w: World)
    ensures var p := Body(cfg, url, path, date, w);
      forall i :: 0 <= i < |p.trace| ==> InPlan(cfg, url, path, p.trace[i], i)
  {
    var p := Body(cfg, url, path, date, w);
    var prepared := Prepare(cfg, url, path, w);
    if prepared.status.Pass? {
      var first := LoadSection(cfg, path, FirstPage, cfg.table1, w.first, date);
      var second := LoadSection(cfg, path, SecondPage, cfg.table2, w.second, date);
      if first.status.Fail? {
        assert p.trace == prepared.trace + first.trace + [];
        PlannedConcat(cfg, url, path, prepared.trace, first.trace, []);
      } else {
        assert p.trace == prepared.trace + first.trace + second.trace;
        PlannedConcat(cfg, url, path, prepared.trace, first.trace, second.trace);
      }
    }
  }

  /** The four preparation effects, then page 3's, then (only after all three of
      page 3's) page 9's, each following its own plan, follow the run's plan. */
  lemma PlannedConcat(cfg: Config, url: string, path: string, prepared: seq<Effect>, first: seq<Effect>, second: seq<Effect>)
    requires |prepared| == 4 && forall i :: 0 <= i < 4 ==> InPlan(cfg, url, path, prepared[i], i)
    requires |first| <= 3 && forall j :: 0 <= j < |first| ==> SectionPlan(cfg, path, FirstPage, cfg.table1, first[j], j)
    requires |second| <= 3 && forall j :: 0 <= j < |second| ==> SectionPlan(cfg, path, SecondPage, cfg.table2, second[j], j)
    requires |second| > 0 ==> |first| == 3
    ensures var done := prepared + first + second;
      forall i :: 0 <= i < |done| ==> InPlan(cfg, url, path, done[i], i)
  {
    var done := prepared + first + second;
    forall i | 0 <= i < |done|
      ensures InPlan(cfg, url, path, done[i], i)
    {
      if i < 4 {
        assert done[i] == prepared[i];
      } else if i < 4 + |first| {
        assert done[i] == first[i - 4];
      } else {
        assert done[i] == second[i - 7];
      }
    }
  }

  /** Once the preparation and page 3 succeed, page 3's append is the seventh
      effect of the `try` block, whatever page 9 yields. */
  lemma BodyKeepsFirstAppend(cfg: Config, url: string, path: string, date: string, w: World)
    requires DownloadSucceeds(w) && w.localCopy.Pass? && SectionSucceeds(w.first)
    ensures var p := Body(cfg, url, path, date, w);
      |p.trace| >= 7 && p.trace[6] == Append(cfg.projectId, cfg.table1, Clean(w.first.tables.value[0], date).value)
  {
    var prepared := Prepare(cfg, url, path, w);
    var first := LoadSection(cfg, path, FirstPage, cfg.table1, w.first, date);
    var second := LoadSection(cfg, path, SecondPage, cfg.table2, w.second, date);
    assert Body(cfg, url, path, date, w).trace == prepared.trace + first.trace + second.trace;
  }

  /** Once the preparation and page 3 succeed, the `try` block ends as page 9's
      work does, after the effects of both. */
  lemma BodyAfterFirstPage(cfg: Config, url: string, path: string, date: string, w: World)
    requires DownloadSucceeds(w) && w.localCopy.Pass? && SectionSucceeds(w.first)
    ensures var second := LoadSection(cfg, path, SecondPage, cfg.table2, w.second, date);
      Body(cfg, url, path, date, w) == Progress(
        Prepare(cfg, url, path, w).trace + LoadSection(cfg, path, FirstPage, cfg.table1, w.first, date).trace + second.trace,
        second.status)
  {
  }

  /** The `except` clause (main_script_cf.py:188-192). */
  function Respond(status: Outcome<string>): (r: Response)
    ensures r.Reply? && (r.code == OkCode <==> status.Pass?)
    ensures status.Pass? ==> r.message == SuccessMessage
    ensures status.Fail? ==> r.code == ErrorCode && r.message == FailurePrefix + status.error
  {
    match status
    case Pass => Reply(SuccessMessage, OkCode)
    case Fail(e) => Reply(FailurePrefix + e, ErrorCode)
  }

  /** Every call of the run succeeds, and the report day is representable. */
  predicate AllSucceed(run: Date, w: World)
    requires InRange(run)
  {
    w.storageClient.Pass? && Ordinal(run) > ReportLag && BodySucceeds(w)
  }

  /** `extract_and_load_visualoz` on a run at day `run` (the time of day plays no
      part) in world `w`. */
  function ExtractAndLoad(cfg: Config, run: Date, w: World): (r: Run)
    requires InRange(run)
    ensures r.response.Escaped? <==> w.storageClient.Fail? || Ordinal(run) <= ReportLag
    ensures r.response.Escaped? ==> r.trace == []
    ensures r.response.Escaped? ==>
      r.response.error == if w.storageClient.Fail? then w.storageClient.error else OverflowMessage
    ensures r.response == Reply(SuccessMessage, OkCode) <==> AllSucceed(run, w)
    ensures r.response.Reply? ==>
      r.response == Reply(SuccessMessage, OkCode)
      || (r.response.code == ErrorCode && FailurePrefix <= r.response.message)
    ensures |r.trace| <= PlanLength
    ensures r.response == Reply(SuccessMessage, OkCode) <==> |r.trace| == PlanLength
    ensures r.response.Reply? ==> forall i :: 0 <= i < |r.trace| ==>
      InPlan(cfg, ReportUrl(ReportDay(run).value), TempPath(ReportDay(run).value), r.trace[i], i)
    ensures r.response.Reply? && BodyHalt(w).Some? ==>
      && r.response == Reply(FailurePrefix + BodyHalt(w).value.error, ErrorCode)
      && |r.trace| == BodyHalt(w).value.completed
  {
    match w.storageClient
    case Fail(e) => Run([], Escaped(e))
    case Pass =>
      match ReportDay(run)
      case Failure(e) => Run([], Escaped(e))
      case Success(day) =>
        var url, path, date := ReportUrl(day), TempPath(day), Iso(day);
        var p := Body(cfg, url, path, date, w);
        BodyFollowsPlan(cfg, url, path, date, w);
        Run(p.trace, Respond(p.status))
  }
}

/** Consequences of `ExtractAndLoad` for particular runs: full success, no table on
    either page, the first append persisting, no PDF link, and a cleaning failure. */
module PipelineScenarios {
  import opened Wrappers
  import opened CivilDate
  import opened ReportDate
  import opened PdfLink
  import opened Cleaning
  import opened Pipeline

  /** A run that gets past the storage client and the report date runs the `try`
      block on that date's page and file, and answers according to its outcome. */
  lemma RunsBody(cfg: Config, run: Date, w: World)
    requires InRange(run) && w.storageClient.Pass? && Ordinal(run) > ReportLag
    ensures var day := ReportDay(run).value;
      var p := Body(cfg, ReportUrl(day), TempPath(day), Iso(day), w);
      ExtractAndLoad(cfg, run, w) == Run(p.trace, Respond(p.status))
  {
  }

  /** The preparation of a run whose download and copy succeed. */
  lemma PreparedTrace(cfg: Config, url: string, path: string, w: World)
    requires DownloadSucceeds(w) && w.localCopy.Pass?
    ensures var pdfUrl := FindPdfUrl(w.page.value).value;
      var key := BlobKey(FileName(pdfUrl));
      Prepare(cfg, url, path, w) == Progress(
        [FetchPage(url), FetchPdf(pdfUrl), Upload(cfg.bucket, key), CopyToLocal(cfg.bucket, key, path)], Pass)
  {
  }

  /** The work on one page whose every call succeeds. */
  lemma SectionTrace(cfg: Config, path: string, page: nat, table: string, s: Section, date: string)
    requires SectionSucceeds(s)
    ensures LoadSection(cfg, path, page, table, s, date) == Progress(
      [ExtractTables(path, page), AccessSecret(SecretName(cfg)),
       Append(cfg.projectId, table, Clean(s.tables.value[0], date).value)], Pass)
  {
  }

  /** A `try` block whose every call succeeds performs exactly the ten planned
      effects: the report page, its first PDF link, the upload and local copy under
      the same key, then for page 3 and page 9 the extraction, the credentials and
      the append of the cleaned first table. */
  lemma SuccessfulBody(cfg: Config, url: string, path: string, date: string, w: World)
    requires BodySucceeds(w)
    ensures var pdfUrl := FindPdfUrl(w.page.value).value;
      var key := BlobKey(FileName(pdfUrl));
      Body(cfg, url, path, date, w) == Progress(
        [ FetchPage(url), FetchPdf(pdfUrl), Upload(cfg.bucket, key), CopyToLocal(cfg.bucket, key, path),
          ExtractTables(path, FirstPage), AccessSecret(SecretName(cfg)),
          Append(cfg.projectId, cfg.table1, Clean(w.first.tables.value[0], date).value),
          ExtractTables(path, SecondPage), AccessSecret(SecretName(cfg)),
          Append(cfg.projectId, cfg.table2, Clean(w.second.tables.value[0], date).value) ],
        Pass)
  {
    PreparedTrace(cfg, url, path, w);
    SectionTrace(cfg, path, FirstPage, cfg.table1, w.first, date);
    SectionTrace(cfg, path, SecondPage, cfg.table2, w.second, date);
    BodyAfterFirstPage(cfg, url, path, date, w);
    var pdfUrl := FindPdfUrl(w.page.value).value;
    var key := BlobKey(FileName(pdfUrl));
    ConcatTen(FetchPage(url), FetchPdf(pdfUrl), Upload(cfg.bucket, key), CopyToLocal(cfg.bucket, key, path),
      ExtractTables(path, FirstPage), AccessSecret(SecretName(cfg)),
      Append(cfg.projectId, cfg.table1, Clean(w.first.tables.value[0], date).value),
      ExtractTables(path, SecondPage), AccessSecret(SecretName(cfg)),
      Append(cfg.projectId, cfg.table2, Clean(w.second.tables.value[0], date).value));
  }

  /** A proof step of `SuccessfulBody`, stated on its own so that the sequence
      equation is solved without the pipeline's definitions in view: four effects,
      then three, then three, are the ten in a row. */
  lemma ConcatTen(e0: Effect, e1: Effect, e2: Effect, e3: Effect, e4: Effect, e5: Effect, e6: Effect, e7: Effect, e8: Effect, e9: Effect)
    ensures [e0, e1, e2, e3] + [e4, e5, e6] + [e7, e8, e9] == [e0, e1, e2, e3, e4, e5, e6, e7, e8, e9]
  {
  }

  /** Everything before page 3's extraction succeeds (the pipeline reaches it). */
  predicate ReachesFirstPage(run: Date, w: World)
    requires InRange(run)
  {
    w.storageClient.Pass? && Ordinal(run) > ReportLag && DownloadSucceeds(w) && w.localCopy.Pass?
  }

  /** When page 3 yields no table the run answers 500 with the extraction message,
      right after the extraction, and appends nothing. */
  lemma NoTableOnFirstPage(cfg: Config, run: Date, w: World)
    requires InRange(run) && ReachesFirstPage(run, w)
    requires w.first.tables == Success([])
    ensures var r := ExtractAndLoad(cfg, run, w);
      && r.response == Reply(FailurePrefix + NoTableMessage, ErrorCode)
      && |r.trace| == 5
      && r.trace[4] == ExtractTables(TempPath(ReportDay(run).value), FirstPage)
      && forall i :: 0 <= i < |r.trace| ==> !r.trace[i].Append?
  {
    var r := ExtractAndLoad(cfg, run, w);
    var path := TempPath(ReportDay(run).value);
    assert BodyHalt(w) == Some(Halt(5, NoTableMessage));
    forall i | 0 <= i < |r.trace|
      ensures !r.trace[i].Append?
    {
      assert InPlan(cfg, ReportUrl(ReportDay(run).value), path, r.trace[i], i);
    }
  }

  /** Once page 3's rows are appended, that append stays in the trace whatever page
      9 yields; if page 9 then fails the run still answers 500. */
  lemma FirstAppendPersists(cfg: Config, run: Date, w: World)
    requires InRange(run) && ReachesFirstPage(run, w) && SectionSucceeds(w.first)
    ensures var r := ExtractAndLoad(cfg, run, w);
      var day := ReportDay(run).value;
      && |r.trace| >= 7
      && r.trace[6] == Append(cfg.projectId, cfg.table1, Clean(w.first.tables.value[0], Iso(day)).value)
      && (!SectionSucceeds(w.second) ==> r.response.Reply? && r.response.code == ErrorCode)
  {
    var day := ReportDay(run).value;
    BodyKeepsFirstAppend(cfg, ReportUrl(day), TempPath(day), Iso(day), w);
  }

  /** When page 9 yields no table, page 3's append has happened, the run stops right
      after page 9's extraction and answers 500 with the extraction message. */
  lemma NoTableOnSecondPage(cfg: Config, run: Date, w: World)
    requires InRange(run) && ReachesFirstPage(run, w) && SectionSucceeds(w.first)
    requires w.second.tables == Success([])
    ensures var r := ExtractAndLoad(cfg, run, w);
      && r.response == Reply(FailurePrefix + NoTableMessage, ErrorCode)
      && |r.trace| == 8
      && r.trace[6].Append? && r.trace[6].table == cfg.table1
      && r.trace[7] == ExtractTables(TempPath(ReportDay(run).value), SecondPage)
  {
    var r := ExtractAndLoad(cfg, run, w);
    var day := ReportDay(run).value;
    assert BodyHalt(w) == Some(Halt(8, NoTableMessage));
    assert InPlan(cfg, ReportUrl(day), TempPath(day), r.trace[6], 6);
    assert InPlan(cfg, ReportUrl(day), TempPath(day), r.trace[7], 7);
  }

  /** A report page without a PDF link ends the run after fetching that page, with
      the "not found" message. */
  lemma NoPdfLink(cfg: Config, run: Date, w: World)
    requires InRange(run) && w.storageClient.Pass? && Ordinal(run) > ReportLag
    requires w.page.Success? && forall i :: 0 <= i < |w.page.value| ==> !IsPdfHref(w.page.value[i])
    ensures ExtractAndLoad(cfg, run, w) ==
      Run([FetchPage(ReportUrl(ReportDay(run).value))], Reply(FailurePrefix + LinkNotFoundMessage, ErrorCode))
  {
  }

  /** A first table the cleaning block cannot handle ends the run after the
      extraction, with the text of the exception the block raised. */
  lemma CleaningFailureOnFirstPage(cfg: Config, run: Date, w: World)
    requires InRange(run) && ReachesFirstPage(run, w)
    requires w.first.tables.Success? && |w.first.tables.value| > 0 && !Cleanable(w.first.tables.value[0])
    ensures var r := ExtractAndLoad(cfg, run, w);
      var error := Clean(w.first.tables.value[0], Iso(ReportDay(run).value)).error;
      && r.response == Reply(FailurePrefix + error.Message(), ErrorCode)
      && |r.trace| == 5
  {
  }
}
