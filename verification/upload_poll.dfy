/**
 * The upload-and-poll hook (music-frontend/src/hooks/useUploadAndAnalyze.ts) as a reducer.
 * Each poll takes the hook state, the number of polls rescheduled so far, what the status
 * request returned (or that it threw), the elapsed time and what the result request returned;
 * it gives the next state and whether another poll is scheduled, and after how long.
 * Timers, the clock and the HTTP client are these parameters.
 */
module UploadPoll {
  import opened Wrappers
  import opened Analysis
  import Js
  import Server

  const BasePollMs: int := 1000
  const MaxPollMs: int := 5000
  const PollTimeoutMs: int := 20 * 60 * 1000

  const FailureFallback: string := "Something went wrong during analysis."
  const TimeoutError: string := "Processing timeout. The track took too long to analyze. Try a shorter file."
  const NetworkError: string := "Network error while checking status. Make sure the backend is running."
  const UploadError: string := "Failed to upload. Check backend server or file size/format and try again."
  const UploadedMessage: string := "Upload complete. Starting analysis\U{2026}"

  datatype UploadState = UploadState(
    isUploading: bool,
    isProcessing: bool,
    taskId: Option<string>,
    statusMessage: Option<string>,
    analysisStatus: Option<string>,
    error: Option<string>,
    result: Option<AnalysisResult>,
    partial: Option<PartialResult>,
    progress: Option<real>)

  const InitialState := UploadState(false, false, None, None, None, None, None, None, None)

  /** A request's outcome: its value, or a thrown error. */
  datatype Fetch<T> = Got(value: T) | Threw

  datatype Next = Stop | Again(attempts: nat, delayMs: int)

  /** `Math.pow(1.5, n)`. */
  function Pow15(n: nat): (r: real)
    ensures r >= 1.0
  {
    if n == 0 then 1.0 else 1.5 * Pow15(n - 1)
  }

  lemma {:induction false} Pow15Mono(n: nat, m: nat)
    requires n <= m
    ensures Pow15(n) <= Pow15(m)
    decreases m - n
  {
    if n < m {
      Pow15Mono(n + 1, m);
    }
  }

  /** `Math.min(MAX_POLL_MS, Math.round(BASE_POLL_MS * Math.pow(1.5, attempts)))`. */
  function Delay(attempts: nat): (d: int)
    ensures BasePollMs <= d <= MaxPollMs
  {
    var raw := (BasePollMs as real * Pow15(attempts) + 0.5).Floor;
    if raw < MaxPollMs then raw else MaxPollMs
  }

  /** The schedule: 1.5 s, 2.25 s, 3.375 s, then 5 s for ever. */
  lemma DelaySchedule(n: nat)
    requires n >= 4
    ensures Delay(1) == 1500 && Delay(2) == 2250 && Delay(3) == 3375
    ensures Delay(n) == MaxPollMs
  {
    Pow15Mono(4, n);
  }

  /** Polls never come closer together as the attempts grow. */
  lemma DelayNondecreasing(n: nat, m: nat)
    requires n <= m
    ensures Delay(n) <= Delay(m)
  {
    Pow15Mono(n, m);
  }

  /** The two message fields a poll reads from a status response. */
  datatype Messages = Messages(status: Option<string>, error: Option<string>)

  /** `status.info ?? { status: '' }`. */
  function InfoOrEmpty(resp: StatusResponse): (info: StatusInfo)
    ensures resp.info.Some? ==> info == resp.info.value
    ensures resp.info.None? ==> info.status == Some("") && info.error.None? && info.partial.None? && info.progress.None?
  {
    resp.info.GetOr(StatusInfo(Some(""), None, None, None, None))
  }

  /** As written, the hook reads the status text and the error from `info`. */
  function InfoMessages(resp: StatusResponse): (m: Messages)
    ensures m.status == InfoOrEmpty(resp).status && m.error == InfoOrEmpty(resp).error
  {
    var info := InfoOrEmpty(resp);
    Messages(info.status, info.error)
  }

  /** Where the response type declares them: at the top level. */
  function TopLevelMessages(resp: StatusResponse): (m: Messages)
    ensures m.status == resp.status && m.error == resp.error
  {
    Messages(resp.status, resp.error)
  }

  /** `info.error || 'Something went wrong during analysis.'`. */
  function FailureMessage(error: Option<string>): (r: string)
    ensures Js.TruthyString(error) ==> r == error.value
    ensures !Js.TruthyString(error) ==> r == FailureFallback
  {
    if Js.TruthyString(error) then error.value else FailureFallback
  }

  /** The state once a response has been taken in, before any terminal branch. */
  function Absorb(s: UploadState, resp: StatusResponse, msgs: Messages): (r: UploadState)
    ensures r.partial == (if InfoOrEmpty(resp).partial.Some? then InfoOrEmpty(resp).partial else s.partial)
    ensures r.progress == (if InfoOrEmpty(resp).progress.Some? then InfoOrEmpty(resp).progress else s.progress)
    ensures r.isProcessing <==> !resp.state.Success? && !resp.state.Failure?
    ensures r.analysisStatus == (if msgs.status.Some? then msgs.status else s.analysisStatus)
    ensures r.isUploading == s.isUploading && r.taskId == s.taskId && r.statusMessage == s.statusMessage
    ensures r.error == s.error && r.result == s.result
  {
    var info := InfoOrEmpty(resp);
    var s1 := if info.partial.Some? then s.(partial := info.partial) else s;
    var s2 := if info.progress.Some? then s1.(progress := info.progress) else s1;
    s2.(isProcessing := !resp.state.Success? && !resp.state.Failure?,
        analysisStatus := if msgs.status.Some? then msgs.status else s2.analysisStatus)
  }

  /** One poll, reading its messages through `read`. */
  function PollWith(s: UploadState, attempts: nat, status: Fetch<StatusResponse>, read: Messages,
                    elapsedMs: int, result: Fetch<AnalysisResult>): (r: (UploadState, Next))
    ensures status.Threw? ==> r == (s.(isProcessing := false, error := Some(NetworkError)), Stop)
    ensures status.Got? ==> r.0.partial == Absorb(s, status.value, read).partial
    ensures status.Got? && status.value.state.Success? ==>
      && r.1.Stop?
      && (if result.Got? then r.0 == Absorb(s, status.value, read).(isProcessing := false, result := Some(result.value), progress := Some(100.0))
          else r.0 == Absorb(s, status.value, read).(isProcessing := false, error := Some(NetworkError)))
    ensures status.Got? && status.value.state.Failure? ==>
      r == (Absorb(s, status.value, read).(isProcessing := false, error := Some(FailureMessage(read.error))), Stop)
    ensures status.Got? && !status.value.state.Success? && !status.value.state.Failure? ==>
      if elapsedMs > PollTimeoutMs then
        r == (Absorb(s, status.value, read).(isProcessing := false, error := Some(TimeoutError)), Stop)
      else
        r == (Absorb(s, status.value, read), Again(attempts + 1, Delay(attempts + 1)))
  {
    match status
    case Threw => (s.(isProcessing := false, error := Some(NetworkError)), Stop)
    case Got(resp) =>
      var s1 := Absorb(s, resp, read);
      if resp.state.Success? then
        match result
        case Got(v) => (s1.(isProcessing := false, result := Some(v), progress := Some(100.0)), Stop)
        case Threw => (s1.(isProcessing := false, error := Some(NetworkError)), Stop)
      else if resp.state.Failure? then
        (s1.(isProcessing := false, error := Some(FailureMessage(read.error))), Stop)
      else if elapsedMs > PollTimeoutMs then
        (s1.(isProcessing := false, error := Some(TimeoutError)), Stop)
      else
        (s1, Again(attempts + 1, Delay(attempts + 1)))
  }

  /** The hook's `poll` as written. */
  function Poll(s: UploadState, attempts: nat, status: Fetch<StatusResponse>, elapsedMs: int,
                result: Fetch<AnalysisResult>): (r: (UploadState, Next))
    ensures status.Got? ==> r == PollWith(s, attempts, status, InfoMessages(status.value), elapsedMs, result)
    ensures status.Threw? ==> r == PollWith(s, attempts, status, Messages(None, None), elapsedMs, result)
  {
    match status
    case Threw => PollWith(s, attempts, status, Messages(None, None), elapsedMs, result)
    case Got(resp) => PollWith(s, attempts, status, InfoMessages(resp), elapsedMs, result)
  }

  /** The poll reading the messages at the top level of the response. */
  function PollTopLevel(s: UploadState, attempts: nat, status: Fetch<StatusResponse>, elapsedMs: int,
                        result: Fetch<AnalysisResult>): (r: (UploadState, Next))
    ensures status.Got? ==> r == PollWith(s, attempts, status, TopLevelMessages(status.value), elapsedMs, result)
    ensures status.Threw? ==> r == Poll(s, attempts, status, elapsedMs, result)
  {
    match status
    case Threw => PollWith(s, attempts, status, Messages(None, None), elapsedMs, result)
    case Got(resp) => PollWith(s, attempts, status, TopLevelMessages(resp), elapsedMs, result)
  }

  /**
   * After every poll the hook is processing exactly when another poll is scheduled; it stops
   * exactly on a thrown request, SUCCESS, FAILURE or a non-terminal reply past 20 minutes.
   */
  lemma ProcessingIffScheduled(s: UploadState, attempts: nat, status: Fetch<StatusResponse>, read: Messages,
                               elapsedMs: int, result: Fetch<AnalysisResult>)
    ensures var r := PollWith(s, attempts, status, read, elapsedMs, result);
      && (r.0.isProcessing <==> r.1.Again?)
      && (r.1.Stop? <==> status.Threw? || status.value.state.Success? || status.value.state.Failure? ||
                         elapsedMs > PollTimeoutMs)
      && (r.1.Again? ==> r.1.attempts == attempts + 1 && r.1.delayMs == Delay(attempts + 1))
  {
  }

  /**
   * A present `partial` replaces the previous one wholesale, `progress` changes only to a
   * number, and a SUCCESS with its result always ends at progress 100.
   */
  lemma PartialAndProgress(s: UploadState, attempts: nat, resp: StatusResponse, elapsedMs: int,
                           result: Fetch<AnalysisResult>)
    ensures var r := Poll(s, attempts, Got(resp), elapsedMs, result).0;
      && (resp.info.Some? && resp.info.value.partial.Some? ==> r.partial == resp.info.value.partial)
      && (resp.info.None? || resp.info.value.partial.None? ==> r.partial == s.partial)
      && (!resp.state.Success? && (resp.info.None? || resp.info.value.progress.None?) ==> r.progress == s.progress)
      && (resp.state.Success? && result.Got? ==> r.progress == Some(100.0) && r.result == Some(result.value))
  {
  }

  /** A revoked task is not terminal for the hook: it keeps polling until the timeout. */
  lemma RevokedKeepsPolling(s: UploadState, attempts: nat, resp: StatusResponse, elapsedMs: int,
                            result: Fetch<AnalysisResult>)
    requires resp.state.Revoked? && elapsedMs <= PollTimeoutMs
    ensures var r := Poll(s, attempts, Got(resp), elapsedMs, result);
      r.1.Again? && r.0.isProcessing
  {
  }

  /**
   * Against the back end's status route as written, a failed task always shows the fallback
   * message, whatever its error text, and the route's status text never reaches the state.
   */
  lemma FailureShowsFallback(s: UploadState, attempts: nat, taskId: string, t: Server.CeleryTask,
                             elapsedMs: int, result: Fetch<AnalysisResult>)
    requires t.state.Failure?
    ensures var r := Poll(s, attempts, Got(Server.GetStatus(taskId, t)), elapsedMs, result).0;
      r.error == Some(FailureFallback) && r.analysisStatus == Some("")
  {
  }

  /** The route's status text is never shown: the hook keeps its previous one or sets "". */
  lemma BackendStatusNotShown(s: UploadState, attempts: nat, taskId: string, t: Server.CeleryTask,
                              elapsedMs: int, result: Fetch<AnalysisResult>)
    ensures var r := Poll(s, attempts, Got(Server.GetStatus(taskId, t)), elapsedMs, result).0;
      r.analysisStatus == Some("") || r.analysisStatus == s.analysisStatus
  {
    Server.StatusMessagesTopLevel(taskId, t);
  }

  /**
   * Reading the top-level fields, a failed task shows the back end's error text when it has
   * one, and the state carries the route's status text.
   */
  lemma TopLevelShowsBackendError(s: UploadState, attempts: nat, taskId: string, t: Server.CeleryTask,
                                  elapsedMs: int, result: Fetch<AnalysisResult>)
    requires t.state.Failure? && t.infoText != ""
    ensures var r := PollTopLevel(s, attempts, Got(Server.GetStatus(taskId, t)), elapsedMs, result).0;
      r.error == Some(t.infoText) && r.analysisStatus == Some("Something went wrong")
  {
  }

  /** `upload` first replaces the whole state: only `isUploading` is set. */
  function UploadStart(s: UploadState): (r: UploadState)
    ensures r.isUploading && !r.isProcessing
    ensures r.taskId.None? && r.error.None? && r.result.None? && r.statusMessage.None?
    ensures r.analysisStatus.None? && r.partial.None? && r.progress.None?
  {
    UploadState(true, false, None, None, None, None, None, None, None)
  }

  /**
   * The upload request settles: on success the task id is stored and polling starts (the
   * returned id); on failure the error is set, both busy flags cleared and the error rethrown.
   */
  function UploadSettled(s: UploadState, resp: Fetch<string>): (r: (UploadState, Option<string>))
    ensures resp.Got? ==> r.1 == Some(resp.value) && r.0 == s.(isUploading := false, isProcessing := true,
      taskId := Some(resp.value), statusMessage := Some(UploadedMessage))
    ensures resp.Threw? ==> r.1.None? && r.0 == s.(isUploading := false, isProcessing := false, error := Some(UploadError))
  {
    match resp
    case Got(id) =>
      (s.(isUploading := false, isProcessing := true, taskId := Some(id), statusMessage := Some(UploadedMessage)), Some(id))
    case Threw => (s.(isUploading := false, isProcessing := false, error := Some(UploadError)), None)
  }

  /** A new upload forgets everything from the previous run, whatever state it left. */
  lemma UploadForgetsPreviousRun(s: UploadState, t: UploadState, resp: Fetch<string>)
    ensures UploadSettled(UploadStart(s), resp) == UploadSettled(UploadStart(t), resp)
    ensures resp.Got? ==> UploadSettled(UploadStart(s), resp).0.error.None?
  {
  }
}
