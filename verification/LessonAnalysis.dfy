/**
 The status shown for a lesson: derived from the latest task of each kind, adjusted to the
 artifacts that exist, and the artifacts that contradict it left out.  The specification looks at
 the tasks as a set of rows; the methods walk them in the order the query returns.
 */
module LessonAnalysis {
  import opened Common
  import opened TaskRows

  datatype Kind = Transcribe | Chunk | QuizGen | PipelineRun | OtherKind(name: string)

  datatype Task = Task(
    id: Uuid, kind: Kind, status: Status, createdAt: Time, heartbeat: Option<Time>, step: string, errorMsg: string)

  datatype AnalysisStatus = Pending | Processing | TranscriptExtracted | ChunksReady | Done | Error

  const PROCESSING_STALE_AFTER: Time := 90

  /** DISTINCT ON (task_type) keeps one row a kind; ids are the primary key. */
  predicate OnePerKind(latest: seq<Task>) {
    && (forall i, j :: 0 <= i < j < |latest| ==> latest[i].kind != latest[j].kind)
    && (forall i, j :: 0 <= i < j < |latest| ==> latest[i].id != latest[j].id)
  }

  // ---- Which run made the transcript ----

  predicate Newer(a: Task, b: Task) { a.createdAt > b.createdAt || (a.createdAt == b.createdAt && a.id > b.id) }

  predicate MakesTranscript(t: Task) { t.kind.Transcribe? || t.kind.PipelineRun? }

  predicate NewestMaker(latest: seq<Task>, t: Task) {
    && t in latest && MakesTranscript(t)
    && forall u :: u in latest && MakesTranscript(u) ==> !Newer(u, t)
  }

  predicate Contains(s: string, part: string) {
    exists i :: 0 <= i <= |s| && part <= s[i..]
  }

  /** A run that failed before its transcript was complete. */
  predicate LostTranscript(t: Task) {
    && t.status.Failed?
    && (t.kind.Transcribe? || (!Contains(t.step, "CHUNKING") && !Contains(t.step, "GENERATING")))
  }

  ghost predicate Invalidated(latest: seq<Task>) { exists t :: NewestMaker(latest, t) && LostTranscript(t) }

  // ---- The derived status ----

  predicate Has(latest: seq<Task>, kind: Kind, status: Status) {
    exists t :: t in latest && t.kind == kind && t.status == status
  }

  ghost function StageStatus(latest: seq<Task>): AnalysisStatus {
    if Invalidated(latest) then Error
    else if Has(latest, Chunk, Succeeded) then ChunksReady
    else if Has(latest, Transcribe, Succeeded) then TranscriptExtracted
    else if Has(latest, Transcribe, Status.Processing) || Has(latest, Chunk, Status.Processing) then Pending
    else if Has(latest, Chunk, Failed) then Error
    else Pending
  }

  ghost predicate FailedUpstream(latest: seq<Task>) { Invalidated(latest) || Has(latest, Chunk, Failed) }

  ghost function WithInteractions(latest: seq<Task>): AnalysisStatus {
    if Has(latest, QuizGen, Succeeded) && !FailedUpstream(latest) then Done else StageStatus(latest)
  }

  ghost function Derived(latest: seq<Task>): AnalysisStatus {
    var s := WithInteractions(latest);
    if Has(latest, PipelineRun, Succeeded) then (if FailedUpstream(latest) then s else Done)
    else if Has(latest, PipelineRun, Status.Processing) || Has(latest, PipelineRun, Inqueued) then
      if s.Pending? then AnalysisStatus.Processing else s
    else if Has(latest, PipelineRun, Failed) then
      if s.Pending? then Error else s
    else s
  }

  /** Rows whose message is reported, by preference. */
  predicate Explains(t: Task, kind: Kind) { t.kind == kind && t.status.Failed? && t.errorMsg != "" }

  predicate Explained(latest: seq<Task>, kind: Kind) { exists t :: t in latest && Explains(t, kind) }

  /** The row whose message a lesson in ERROR reports. */
  predicate Reported(latest: seq<Task>, t: Task) {
    && t in latest
    && (Explains(t, Transcribe)
        || (Explains(t, Chunk) && !Explained(latest, Transcribe))
        || (Explains(t, PipelineRun) && !Explained(latest, Transcribe) && !Explained(latest, Chunk)))
  }

  // ---- Floor and ceiling by artifacts ----

  /** Failed, queued, or alive within the last 90 seconds. */
  predicate Busy(now: Time, t: Task) {
    || t.status.Failed? || t.status.Inqueued?
    || (t.status.Processing? && t.heartbeat.Some? && now - t.heartbeat.value < PROCESSING_STALE_AFTER)
  }

  predicate Quiet(now: Time, latest: seq<Task>) { forall t :: t in latest ==> !Busy(now, t) }

  function Supported(status: AnalysisStatus, hasChunks: bool, hasInteractions: bool): AnalysisStatus {
    if hasInteractions then Done
    else if hasChunks then
      if status.Pending? || status.TranscriptExtracted? || status.Done? then ChunksReady else status
    else
      if status.ChunksReady? || status.Done? then TranscriptExtracted else status
  }

  function Floor(now: Time, status: AnalysisStatus, latest: seq<Task>, hasChunks: bool, hasInteractions: bool)
    : AnalysisStatus
  {
    if Quiet(now, latest) then Supported(status, hasChunks, hasInteractions) else status
  }

  /** Derive, then floor. */
  ghost function Composed(now: Time, latest: seq<Task>, hasChunks: bool, hasInteractions: bool): AnalysisStatus {
    Floor(now, Derived(latest), latest, hasChunks, hasInteractions)
  }

  // ---- Properties of the composed status ----

  /** A lost transcript forces ERROR, whatever else succeeded and whatever artifacts are left. */
  lemma InvalidatedForcesError(now: Time, latest: seq<Task>, hasChunks: bool, hasInteractions: bool)
    requires OnePerKind(latest) && Invalidated(latest)
    ensures Composed(now, latest, hasChunks, hasInteractions) == Error
  {
  }

  /** The newest run decides: a newest succeeded pipeline run means DONE exactly without a failed chunk row. */
  lemma RecoveredIsDoneIff(latest: seq<Task>, t: Task)
    requires OnePerKind(latest) && NewestMaker(latest, t) && t.kind.PipelineRun? && t.status.Succeeded?
    ensures Derived(latest) == Done <==> !Has(latest, Chunk, Failed)
  {
  }

  lemma NewestIsOnly(latest: seq<Task>, t: Task)
    requires OnePerKind(latest) && NewestMaker(latest, t)
    ensures forall u :: NewestMaker(latest, u) ==> u == t
  {
  }

  lemma OneStatus(latest: seq<Task>, kind: Kind, a: Status, b: Status)
    requires OnePerKind(latest) && Has(latest, kind, a) && a != b
    ensures !Has(latest, kind, b)
  {
  }

  /**
   With nothing failed, queued or alive, the artifacts rule: DONE exactly with interactions, and
   CHUNKS_READY only with chunks.  PROCESSING is then left by a dead pipeline run only.
   */
  lemma QuietFollowsArtifacts(now: Time, latest: seq<Task>, hasChunks: bool, hasInteractions: bool)
    requires OnePerKind(latest) && Quiet(now, latest)
    ensures var s := Composed(now, latest, hasChunks, hasInteractions);
            && (s == Done <==> hasInteractions)
            && (s == ChunksReady ==> hasChunks && !hasInteractions)
            && (s == TranscriptExtracted || s == Pending ==> !hasChunks && !hasInteractions)
            && s != Error
  {
  }

  // ---- Exactly when each status is derived ----

  lemma DerivesDoneIff(latest: seq<Task>)
    requires OnePerKind(latest)
    ensures Derived(latest) == Done
            <==> !Invalidated(latest) && !Has(latest, Chunk, Failed)
                 && (Has(latest, QuizGen, Succeeded) || Has(latest, PipelineRun, Succeeded))
  {
  }

  lemma DerivesArtifactsIff(latest: seq<Task>)
    requires OnePerKind(latest)
    ensures Derived(latest) == ChunksReady
            <==> !Invalidated(latest) && Has(latest, Chunk, Succeeded)
                 && !Has(latest, QuizGen, Succeeded) && !Has(latest, PipelineRun, Succeeded)
    ensures Derived(latest) == TranscriptExtracted
            <==> !Invalidated(latest) && Has(latest, Transcribe, Succeeded) && !Has(latest, Chunk, Succeeded)
                 && (Has(latest, QuizGen, Succeeded) || Has(latest, PipelineRun, Succeeded) ==>
                       Has(latest, Chunk, Failed))
  {
  }

  lemma DerivesErrorIff(latest: seq<Task>)
    requires OnePerKind(latest)
    ensures Derived(latest) == Error
            <==> || Invalidated(latest)
                 || (Has(latest, Chunk, Failed) && !Has(latest, Transcribe, Succeeded)
                     && !Has(latest, Transcribe, Status.Processing))
                 || (Has(latest, PipelineRun, Failed)
                     && !Has(latest, Chunk, Succeeded) && !Has(latest, Transcribe, Succeeded)
                     && (Has(latest, QuizGen, Succeeded) ==> Has(latest, Chunk, Failed)))
  {
  }

  lemma DerivesPendingIff(latest: seq<Task>)
    requires OnePerKind(latest)
    ensures Derived(latest) == Pending
            <==> && !Invalidated(latest) && !Has(latest, Chunk, Succeeded) && !Has(latest, Transcribe, Succeeded)
                 && (Has(latest, Chunk, Failed) ==> Has(latest, Transcribe, Status.Processing))
                 && (Has(latest, QuizGen, Succeeded) || Has(latest, PipelineRun, Succeeded) ==>
                       Has(latest, Chunk, Failed))
                 && !Has(latest, PipelineRun, Status.Processing) && !Has(latest, PipelineRun, Inqueued)
                 && !Has(latest, PipelineRun, Failed)
  {
  }

  /** No row failed or is queued, and none of a worker that gave a sign of life within 90 seconds. */
  ghost predicate AtRest(now: Time, latest: seq<Task>) {
    forall t :: t in latest ==>
      || t.status == Succeeded || t.status == Cancelled
      || (t.status == Status.Processing && (t.heartbeat.None? || now - t.heartbeat.value >= 90))
  }

  /**
   For every list, what is shown: while some row is not at rest the derived status; else DONE with
   interactions; else what the chunks support of it, with PROCESSING left alone.
   */
  lemma ShownIs(now: Time, latest: seq<Task>, hasChunks: bool, hasInteractions: bool)
    requires OnePerKind(latest)
    ensures var s, d := Composed(now, latest, hasChunks, hasInteractions), Derived(latest);
            if !AtRest(now, latest) then s == d
            else
              && d != Error
              && (s == Done <==> hasInteractions)
              && (s == ChunksReady <==> !hasInteractions && hasChunks && d != AnalysisStatus.Processing)
              && (s == TranscriptExtracted
                  <==> !hasInteractions && !hasChunks && (d == TranscriptExtracted || d == ChunksReady || d == Done))
              && (s == Pending <==> !hasInteractions && !hasChunks && d == Pending)
  {
    assert AtRest(now, latest) <==> Quiet(now, latest);
    if AtRest(now, latest) { DerivesErrorIff(latest); }
  }

  /** So no status promises what neither a stored artifact nor a succeeded row backs. */
  lemma StatusIsBacked(now: Time, latest: seq<Task>, hasChunks: bool, hasInteractions: bool)
    requires OnePerKind(latest)
    ensures var s := Composed(now, latest, hasChunks, hasInteractions);
            && (s == ChunksReady ==> hasChunks || Has(latest, Chunk, Succeeded))
            && (s == Done ==>
                  hasInteractions || Has(latest, QuizGen, Succeeded) || Has(latest, PipelineRun, Succeeded))
            && (s == TranscriptExtracted ==>
                  || Has(latest, Transcribe, Succeeded) || Has(latest, Chunk, Succeeded)
                  || Has(latest, QuizGen, Succeeded) || Has(latest, PipelineRun, Succeeded))
            && (s == Error ==> exists t :: t in latest && t.status == Failed)
  {
    ShownIs(now, latest, hasChunks, hasInteractions);
    DerivesDoneIff(latest);
    DerivesArtifactsIff(latest);
    DerivesErrorIff(latest);
  }

  /** Exactly when a lesson shows PROCESSING, whatever its tasks and artifacts. */
  lemma ShowsProcessingIff(now: Time, latest: seq<Task>, hasChunks: bool, hasInteractions: bool)
    requires OnePerKind(latest)
    ensures Composed(now, latest, hasChunks, hasInteractions) == AnalysisStatus.Processing
            <==> && (Has(latest, PipelineRun, Status.Processing) || Has(latest, PipelineRun, Inqueued))
                 && !Invalidated(latest) && !Has(latest, Chunk, Succeeded) && !Has(latest, Transcribe, Succeeded)
                 && (Has(latest, Chunk, Failed) ==> Has(latest, Transcribe, Status.Processing))
                 && (Has(latest, QuizGen, Succeeded) ==> Has(latest, Chunk, Failed))
                 && (Quiet(now, latest) ==> !hasInteractions)
  {
  }

  /** Nothing is queued, and no worker gave a sign of life within the last 90 seconds. */
  predicate NoneAlive(now: Time, latest: seq<Task>) {
    forall t :: t in latest ==> t.status.Failed? || !Busy(now, t)
  }

  /**
   With nothing queued or alive, a dead worker's pipeline run keeps the lesson at PROCESSING exactly
   when no transcript was lost, no transcribe or chunk row succeeded, no failed chunk row or
   succeeded quiz row speaks first, and there are no interactions, or some row has failed: a failed
   row of whatever stage and age keeps the artifacts from being looked at.
   */
  lemma DeadRunShowsProcessingIff(now: Time, latest: seq<Task>, hasChunks: bool, hasInteractions: bool)
    requires OnePerKind(latest) && NoneAlive(now, latest)
    ensures Composed(now, latest, hasChunks, hasInteractions) == AnalysisStatus.Processing
            <==> && Has(latest, PipelineRun, Status.Processing) && !Invalidated(latest)
                 && !Has(latest, Chunk, Succeeded) && !Has(latest, Transcribe, Succeeded)
                 && (Has(latest, Chunk, Failed) ==> Has(latest, Transcribe, Status.Processing))
                 && (Has(latest, QuizGen, Succeeded) ==> Has(latest, Chunk, Failed))
                 && (hasInteractions ==> exists t :: t in latest && t.status.Failed?)
    // In particular without a failed row: no interactions, and no stage that ever succeeded on its own.
    ensures Quiet(now, latest) ==>
              (Composed(now, latest, hasChunks, hasInteractions) == AnalysisStatus.Processing
               <==> && !hasInteractions && Has(latest, PipelineRun, Status.Processing)
                    && !Has(latest, Chunk, Succeeded) && !Has(latest, Transcribe, Succeeded)
                    && !Has(latest, QuizGen, Succeeded))
  {
    ShowsProcessingIff(now, latest, hasChunks, hasInteractions);
    assert !Has(latest, PipelineRun, Inqueued);
    assert Quiet(now, latest) <==> forall t :: t in latest ==> !t.status.Failed?;
  }

  /** A run whose worker died long ago, with chunks stored, still shows PROCESSING. */
  lemma DeadRunWithChunksShowsProcessing()
    ensures exists now: Time, latest: seq<Task> ::
      OnePerKind(latest) && Quiet(now, latest) && Composed(now, latest, true, false) == AnalysisStatus.Processing
  {
    var t := Task(1, PipelineRun, Status.Processing, 0, Some(0), "CHUNKING", "");
    var latest := [t];
    assert latest[0] == t;
    assert Has(latest, PipelineRun, Status.Processing);
    assert Quiet(1000, latest);
    DeadRunShowsProcessingIff(1000, latest, true, false);
  }

  /** So does one with every artifact stored, when some older stage once failed. */
  lemma DeadRunAfterFailureShowsProcessing()
    ensures exists now: Time, latest: seq<Task> ::
      OnePerKind(latest) && NoneAlive(now, latest) && Composed(now, latest, true, true) == AnalysisStatus.Processing
  {
    var q := Task(1, QuizGen, Failed, 0, None, "", "old");
    var t := Task(2, PipelineRun, Status.Processing, 5, Some(5), "GENERATING", "");
    var latest := [q, t];
    assert latest[0] == q && latest[1] == t;
    assert NewestMaker(latest, t);
    NewestIsOnly(latest, t);
    assert !Invalidated(latest);
    assert NoneAlive(1000, latest);
    DeadRunShowsProcessingIff(1000, latest, true, true);
  }

  lemma FloorIsIdempotent(now: Time, status: AnalysisStatus, latest: seq<Task>, hasChunks: bool, hasInteractions: bool)
    ensures var once := Floor(now, status, latest, hasChunks, hasInteractions);
            Floor(now, once, latest, hasChunks, hasInteractions) == once
  {
  }

  function Rank(s: AnalysisStatus): nat {
    match s
    case Error => 0
    case Pending => 1
    case Processing => 2
    case TranscriptExtracted => 3
    case ChunksReady => 4
    case Done => 5
  }

  /** The floor does lower a status: exactly one that promises artifacts that are not there. */
  lemma FloorLowersIff(now: Time, status: AnalysisStatus, latest: seq<Task>, hasChunks: bool, hasInteractions: bool)
    ensures Rank(Floor(now, status, latest, hasChunks, hasInteractions)) < Rank(status)
            <==> Quiet(now, latest) && !hasInteractions && (status.Done? || (status.ChunksReady? && !hasChunks))
  {
  }

  /** A succeeded run whose artifacts are gone: derived DONE, shown TRANSCRIPT_EXTRACTED. */
  lemma FloorLowersDone()
    ensures exists now: Time, latest: seq<Task> ::
      && OnePerKind(latest) && Derived(latest) == Done
      && Rank(Composed(now, latest, false, false)) < Rank(Derived(latest))
  {
    var t := Task(1, PipelineRun, Succeeded, 0, None, "", "");
    var latest := [t];
    assert latest[0] == t;
    assert NewestMaker(latest, t) && !Has(latest, Chunk, Failed);
    RecoveredIsDoneIff(latest, t);
    FloorLowersIff(0, Done, latest, false, false);
    assert Rank(Composed(0, latest, false, false)) < Rank(Derived(latest));
  }

  // ---- Only the set of rows matters ----

  predicate SameRows(a: seq<Task>, b: seq<Task>) {
    && (forall t :: t in a ==> t in b)
    && (forall t :: t in b ==> t in a)
  }

  lemma RowsDecideHas(a: seq<Task>, b: seq<Task>, kind: Kind, status: Status)
    requires SameRows(a, b)
    ensures Has(a, kind, status) <==> Has(b, kind, status)
  {
  }

  lemma RowsDecideInvalidated(a: seq<Task>, b: seq<Task>)
    requires SameRows(a, b)
    ensures Invalidated(a) <==> Invalidated(b)
  {
  }

  /** Permuting the list changes neither the status nor the reported row. */
  lemma OrderDoesNotMatter(now: Time, a: seq<Task>, b: seq<Task>, hasChunks: bool, hasInteractions: bool)
    requires SameRows(a, b)
    ensures Composed(now, a, hasChunks, hasInteractions) == Composed(now, b, hasChunks, hasInteractions)
    ensures forall t :: Reported(a, t) <==> Reported(b, t)
  {
    RowsDecideInvalidated(a, b);
    forall kind, status ensures Has(a, kind, status) <==> Has(b, kind, status) {
      RowsDecideHas(a, b, kind, status);
    }
    forall kind ensures Explained(a, kind) <==> Explained(b, kind) {}
  }

  // ---- The list is cut from the whole table ----

  /** What the query returns: of each kind the newest row of the lesson, and nothing else. */
  predicate LatestOf(latest: seq<Task>, all: set<Task>) {
    && OnePerKind(latest)
    && (forall t :: t in latest ==> t in all)
    && (forall t :: t in all ==> exists i :: 0 <= i < |latest| && latest[i].kind == t.kind && !Newer(t, latest[i]))
  }

  predicate UniqueIds(all: set<Task>) { forall t, u :: t in all && u in all && t.id == u.id ==> t == u }

  predicate NewestMakerOfAll(all: set<Task>, t: Task) {
    t in all && MakesTranscript(t) && forall u :: u in all && MakesTranscript(u) ==> !Newer(u, t)
  }

  /** The transcribe or pipeline row created last, the greater id deciding between rows of one moment. */
  ghost predicate IsNewestTranscriptRun(all: set<Task>, t: Task) {
    && t in all && (t.kind == Transcribe || t.kind == PipelineRun)
    && forall u :: u in all && (u.kind == Transcribe || u.kind == PipelineRun) ==>
         u.createdAt < t.createdAt || (u.createdAt == t.createdAt && u.id <= t.id)
  }

  lemma NewestMeans(all: set<Task>, t: Task)
    ensures NewestMakerOfAll(all, t) <==> IsNewestTranscriptRun(all, t)
  {
  }

  lemma LatestMakerSuffices(latest: seq<Task>, all: set<Task>)
    requires LatestOf(latest, all) && UniqueIds(all)
    ensures Invalidated(latest) <==> exists t :: NewestMakerOfAll(all, t) && LostTranscript(t)
  {
  }

  /** The run failed before its transcript was complete: a pipeline that got to its later stages had one. */
  predicate FailedBeforeTranscript(t: Task) {
    t.status == Failed && (t.kind == PipelineRun ==> !Contains(t.step, "CHUNKING") && !Contains(t.step, "GENERATING"))
  }

  /**
   Looking only at the latest row of each kind loses nothing: the lesson is invalidated exactly
   when the newest of all transcript-making runs it ever had lost its transcript.
   */
  lemma LatestRowsSuffice(latest: seq<Task>, all: set<Task>)
    requires LatestOf(latest, all) && UniqueIds(all)
    ensures Invalidated(latest) <==> exists t: Task :: IsNewestTranscriptRun(all, t) && FailedBeforeTranscript(t)
  {
    LatestMakerSuffices(latest, all);
    forall t ensures NewestMakerOfAll(all, t) <==> IsNewestTranscriptRun(all, t) { NewestMeans(all, t); }
    if t :| NewestMakerOfAll(all, t) && LostTranscript(t) {
      assert IsNewestTranscriptRun(all, t) && FailedBeforeTranscript(t);
    }
    if t :| IsNewestTranscriptRun(all, t) && FailedBeforeTranscript(t) {
      assert NewestMakerOfAll(all, t) && LostTranscript(t);
    }
  }

  /** The artifacts neither hide an ERROR nor make one. */
  lemma FloorKeepsErrors(now: Time, latest: seq<Task>, hasChunks: bool, hasInteractions: bool)
    ensures Composed(now, latest, hasChunks, hasInteractions) == Error <==> Derived(latest) == Error
  {
  }

  // ---- The reported message ----

  /** The row that put the lesson into ERROR. */
  ghost predicate Drives(latest: seq<Task>, t: Task) {
    && t in latest && Derived(latest) == Error
    && if Invalidated(latest) then NewestMaker(latest, t)
       else if StageStatus(latest) == Error then t.kind.Chunk?
       else t.kind.PipelineRun?
  }

  function Preference(k: Kind): nat {
    match k
    case Transcribe => 0
    case Chunk => 1
    case PipelineRun => 2
    case OtherKind(_) => 3
    case QuizGen => 3
  }

  /**
   The message shown is the driving task's exactly when that task left one and no failed row
   preferred to it did; an older failed stage otherwise speaks for it.
   */
  lemma ReportsDriverIff(latest: seq<Task>, t: Task)
    requires OnePerKind(latest) && Drives(latest, t)
    ensures Reported(latest, t)
            <==> && t.errorMsg != ""
                 && forall u :: u in latest && u.status.Failed? && Preference(u.kind) < Preference(t.kind) ==>
                      u.errorMsg == ""
  {
  }

  lemma OlderFailureCanSpeak()
    ensures exists latest: seq<Task>, t: Task, u: Task ::
      && OnePerKind(latest) && Drives(latest, t) && t.errorMsg != ""
      && Reported(latest, u) && u != t && Newer(t, u)
  {
    var u := Task(1, Transcribe, Failed, 10, None, "", "old");
    var p := Task(2, PipelineRun, Succeeded, 20, None, "", "");
    var t := Task(3, Chunk, Failed, 30, None, "", "new");
    var latest := [u, p, t];
    assert latest[0] == u && latest[1] == p && latest[2] == t;
    assert NewestMaker(latest, p);
    NewestIsOnly(latest, p);
    assert Has(latest, Chunk, Failed);
    assert Has(latest, PipelineRun, Succeeded);
    OneStatus(latest, Chunk, Failed, Succeeded);
    OneStatus(latest, Chunk, Failed, Status.Processing);
    OneStatus(latest, Transcribe, Failed, Succeeded) by { assert Has(latest, Transcribe, Failed); }
    OneStatus(latest, Transcribe, Failed, Status.Processing) by { assert Has(latest, Transcribe, Failed); }
    assert StageStatus(latest) == Error;
    assert Explains(u, Transcribe) && Reported(latest, u);
  }

  // ---- The loops ----

  method TranscriptInvalidated(latest: seq<Task>) returns (lost: bool)
    requires OnePerKind(latest)
    ensures lost <==> Invalidated(latest)
  {
    var newest: Option<Task> := None;
    for i := 0 to |latest|
      invariant newest.None? ==> forall t :: t in latest[..i] ==> !MakesTranscript(t)
      invariant newest.Some? ==> NewestMaker(latest[..i], newest.value)
    {
      var t := latest[i];
      assert latest[..i + 1] == latest[..i] + [t];
      if MakesTranscript(t) {
        if newest.None? || t.createdAt > newest.value.createdAt
           || (t.createdAt == newest.value.createdAt && t.id > newest.value.id)
        {
          newest := Some(t);
        }
      }
    }
    assert latest[..|latest|] == latest;
    if newest.None? || !newest.value.status.Failed? {
      if newest.Some? { NewestIsOnly(latest, newest.value); }
      return false;
    }
    NewestIsOnly(latest, newest.value);
    if newest.value.kind.Transcribe? { return true; }
    lost := !Contains(newest.value.step, "CHUNKING") && !Contains(newest.value.step, "GENERATING");
  }

  /** The status of the last row of one kind. */
  method StateOf(latest: seq<Task>, kind: Kind) returns (state: Option<Status>)
    requires OnePerKind(latest)
    ensures forall status :: state == Some(status) <==> Has(latest, kind, status)
  {
    state := None;
    for i := 0 to |latest|
      invariant forall status :: state == Some(status) <==> Has(latest[..i], kind, status)
    {
      assert latest[..i + 1] == latest[..i] + [latest[i]];
      if latest[i].kind == kind {
        assert forall status :: !Has(latest[..i], kind, status);
        state := Some(latest[i].status);
        assert latest[i] in latest[..i + 1];
      }
    }
    assert latest[..|latest|] == latest;
  }

  method DeriveAnalysisFromTasks(latest: seq<Task>) returns (status: AnalysisStatus, errorMsg: Option<string>)
    requires OnePerKind(latest)
    ensures status == Derived(latest)
    ensures errorMsg.Some? ==> status == Error && exists t :: Reported(latest, t) && t.errorMsg == errorMsg.value
    ensures errorMsg.None? ==> status != Error || forall t :: !Reported(latest, t)
  {
    var transcribeState := StateOf(latest, Transcribe);
    var chunkState := StateOf(latest, Chunk);
    var invalidated := TranscriptInvalidated(latest);
    status := Pending;
    if invalidated {
      status := Error;
    } else if chunkState == Some(Succeeded) {
      status := ChunksReady;
    } else if transcribeState == Some(Succeeded) {
      status := TranscriptExtracted;
    } else if transcribeState == Some(Status.Processing) || chunkState == Some(Status.Processing) {
      status := Pending;
    } else if chunkState == Some(Failed) {
      status := Error;
    }
    var hasFailedUpstream := invalidated || chunkState == Some(Failed);
    var quizState := StateOf(latest, QuizGen);
    if quizState == Some(Succeeded) && !hasFailedUpstream { status := Done; }
    var pipelineState := StateOf(latest, PipelineRun);
    match pipelineState {
      case Some(Succeeded) =>
        if !hasFailedUpstream { status := Done; }
      case Some(Processing) =>
        if status == Pending { status := AnalysisStatus.Processing; }
      case Some(Inqueued) =>
        if status == Pending { status := AnalysisStatus.Processing; }
      case Some(Failed) =>
        if status == Pending { status := Error; }
      case _ =>
    }
    errorMsg := None;
    if status == Error { errorMsg := MessageOf(latest); }
  }

  method MessageOf(latest: seq<Task>) returns (errorMsg: Option<string>)
    requires OnePerKind(latest)
    ensures errorMsg.Some? ==> exists t :: Reported(latest, t) && t.errorMsg == errorMsg.value
    ensures errorMsg.None? ==> forall t :: !Reported(latest, t)
  {
    var kinds := [Transcribe, Chunk, PipelineRun];
    for k := 0 to 3
      invariant forall j :: 0 <= j < k ==> !Explained(latest, kinds[j])
    {
      for i := 0 to |latest|
        invariant forall j :: 0 <= j < i ==> !Explains(latest[j], kinds[k])
      {
        var t := latest[i];
        if t.kind == kinds[k] && t.status.Failed? && t.errorMsg != "" {
          assert k > 0 ==> !Explained(latest, kinds[0]);
          assert k > 1 ==> !Explained(latest, kinds[1]);
          assert Reported(latest, t);
          return Some(t.errorMsg);
        }
      }
    }
    assert !Explained(latest, kinds[0]) && !Explained(latest, kinds[1]) && !Explained(latest, kinds[2]);
    errorMsg := None;
  }

  method ApplyArtifactFloor(now: Time, derived: AnalysisStatus, latest: seq<Task>,
                            hasChunks: bool, hasInteractions: bool)
    returns (status: AnalysisStatus)
    ensures status == Floor(now, derived, latest, hasChunks, hasInteractions)
    ensures !AtRest(now, latest) ==> status == derived
    ensures AtRest(now, latest) && hasInteractions ==> status == Done
  {
    status := derived;
    for i := 0 to |latest|
      invariant forall j :: 0 <= j < i ==> !Busy(now, latest[j])
    {
      assert latest[i] in latest;
      match latest[i].status {
        case Failed => return;
        case Inqueued => return;
        case Processing =>
          if latest[i].heartbeat.Some? && now - latest[i].heartbeat.value < PROCESSING_STALE_AFTER { return; }
        case _ =>
      }
    }
    if hasInteractions { return Done; }
    if hasChunks && (status == Pending || status == TranscriptExtracted) { return ChunksReady; }
    if !hasInteractions && status == Done { status := ChunksReady; }
    if !hasChunks && (status == ChunksReady || status == Done) { status := TranscriptExtracted; }
  }

  // ---- The whole answer ----

  datatype Response = Response(
    status: AnalysisStatus, errorMsg: Option<string>,
    chunks: seq<Uuid>, interactions: seq<Uuid>, transcript: string, segments: seq<string>)

  /** The row of the older table, with the message its own run left. */
  datatype LegacyRow = LegacyRow(status: AnalysisStatus, errorMsg: Option<string>)

  predicate ShowsTranscript(s: AnalysisStatus) {
    s.TranscriptExtracted? || s.ChunksReady? || s.Done? || s == AnalysisStatus.Processing
  }

  /**
   GetLessonAnalysis past its permission checks.  The tasks, the row of the older table, whether
   there is a video, and the stored artifacts are what the reads returned.
   */
  method GetLessonAnalysis(now: Time, latest: seq<Task>, legacy: Option<LegacyRow>, hasVideo: bool,
                           chunks: seq<Uuid>, interactions: seq<Uuid>, transcript: string, segments: seq<string>)
    returns (r: Option<Response>)
    requires OnePerKind(latest)
    ensures r.None? <==> latest == [] && legacy.None? && !hasVideo
    ensures latest != [] ==> r.value.status == Composed(now, latest, |chunks| > 0, |interactions| > 0)
    ensures latest == [] && r.Some? ==>
              LegacyRow(r.value.status, r.value.errorMsg)
              == if legacy.Some? then legacy.value else LegacyRow(Pending, None)
    ensures latest != [] && r.value.errorMsg.Some? ==>
              r.value.status == Error && exists t :: Reported(latest, t) && t.errorMsg == r.value.errorMsg.value
    ensures latest != [] && r.value.errorMsg.None? ==> r.value.status != Error || forall t :: !Reported(latest, t)
    ensures Invalidated(latest) ==> r.value.(errorMsg := None) == Response(Error, None, [], [], "", [])
    ensures latest == [] && r.Some? && r.value.status == Error ==>
              r.value == Response(Error, legacy.value.errorMsg, [], [], "", [])
    ensures r.Some? && !Invalidated(latest) && !(latest == [] && r.value.status == Error) ==>
              && r.value.chunks == chunks && r.value.interactions == interactions
    ensures r.Some? && (r.value.status == Pending || r.value.status == Error) ==>
              r.value.transcript == "" && r.value.segments == []
    ensures r.Some? && r.value.status == ChunksReady && latest != [] ==> chunks != [] || Has(latest, Chunk, Succeeded)
    ensures r.Some? ==>
              if r.value.status != Pending && r.value.status != Error
              then r.value.transcript == transcript && r.value.segments == segments
              else r.value.transcript == "" && r.value.segments == []
    ensures r.Some? && latest != [] && Quiet(now, latest) && r.value.status == ChunksReady ==> r.value.chunks != []
    ensures r.Some? && latest != [] && Quiet(now, latest) ==> (r.value.status == Done <==> r.value.interactions != [])
  {
    var status, errorMsg := Pending, None;
    if |latest| == 0 {
      if legacy.Some? {
        status, errorMsg := legacy.value.status, legacy.value.errorMsg;
      } else if !hasVideo {
        return None;
      }
    } else {
      status, errorMsg := DeriveAnalysisFromTasks(latest);
      FloorKeepsErrors(now, latest, |chunks| > 0, |interactions| > 0);
      StatusIsBacked(now, latest, |chunks| > 0, |interactions| > 0);
      status := ApplyArtifactFloor(now, status, latest, |chunks| > 0, |interactions| > 0);
      if Quiet(now, latest) { QuietFollowsArtifacts(now, latest, |chunks| > 0, |interactions| > 0); }
    }
    var shownChunks, shownInteractions := chunks, interactions;
    var lost := TranscriptInvalidated(latest);
    if lost { InvalidatedForcesError(now, latest, |chunks| > 0, |interactions| > 0); }
    if lost || (|latest| == 0 && status == Error) {
      shownChunks, shownInteractions := [], [];
    }
    var shownTranscript, shownSegments := "", [];
    if ShowsTranscript(status) { shownTranscript, shownSegments := transcript, segments; }
    r := Some(Response(status, errorMsg, shownChunks, shownInteractions, shownTranscript, shownSegments));
  }
}
