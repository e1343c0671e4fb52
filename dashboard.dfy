/**
 * The signed-in dashboard (frontend/src/pages/Dashboard.jsx): the same upload and
 * analysis as the analysis page with looser checks, plus the analysis history, its
 * deletion, a server-rendered report download and logout. `localStorage` is a field
 * of the page; the token is its `"token"` entry. `handleSubmit` is asynchronous and
 * is modelled as the part before the `fetch` and the part after the reply.
 */
module Dashboard {
  import opened Wrappers
  import opened Text
  import opened Wire
  import opened UploadBox
  import Home
  import HomeReport
  import AnalyzeEndpoint

  const MissingInputMessage := "Upload resume and paste JD"
  const CompleteMessage := "Analysis Complete!"
  const FailedMessage := "Analysis failed"
  const NeedResultMessage := "Run analysis first"
  const NeedLoginMessage := "Login required to download report"
  /** The path of a history entry is this prefix followed by its id. */
  const HistoryPrefix := "/history/"

  /** One history entry as the list shows it. */
  datatype HistoryEntry = HistoryEntry(id: int, resumeName: string, matchScore: real, estimatedDays: int)

  /** How the history request ends: it throws, its body is not an array, or an array. */
  datatype HistoryReply = HistoryFailed | NotAnArray | EntryArray(entries: seq<HistoryEntry>)

  /** The form fields of `POST /generate-report/`. */
  datatype ReportPayload = ReportPayload(matchScore: real, readiness: string, missingSkills: string, days: int)

  /** How a click on "Download Report" ends. */
  datatype DownloadOutcome =
    | DownloadRefused(toast: Toast)
    | DownloadRequested(payload: ReportPayload, authorization: string)

  /** `match_score || 0`, `readiness_level || ""`, `(fully_missing || []).join(", ")`,
      `estimated_days_to_ready || 0`: a present field is sent as it is, a missing one
      as its default. */
  function PayloadOf(r: AnalysisResult): (p: ReportPayload)
    ensures r.matchScore.Some? ==> p.matchScore == r.matchScore.value
    ensures r.matchScore.None? ==> p.matchScore == 0.0
    ensures r.readinessLevel.Some? ==> p.readiness == r.readinessLevel.value
    ensures r.readinessLevel.None? ==> p.readiness == ""
    ensures r.fullyMissing.Some? ==> p.missingSkills == JsJoin(r.fullyMissing.value, ", ")
    ensures r.fullyMissing.None? ==> p.missingSkills == ""
    ensures r.estimatedDaysToReady.Some? ==> p.days == r.estimatedDaysToReady.value
    ensures r.estimatedDaysToReady.None? ==> p.days == 0
  {
    ReportPayload(
      r.matchScore.GetOr(0.0),
      r.readinessLevel.GetOr(""),
      JsJoin(r.fullyMissing.GetOr([]), ", "),
      r.estimatedDaysToReady.GetOr(0))
  }

  /** `/history/${id}`. The id can be read back from the path, so a delete reaches the
      entry it was asked for. */
  function HistoryPath(id: int): (path: string)
    ensures |path| > |HistoryPrefix| && path[..|HistoryPrefix|] == HistoryPrefix
    ensures id >= 0 ==> var digits := path[|HistoryPrefix|..];
      IsDigits(digits) && DigitsValue(digits) == id
    ensures id < 0 ==> path[|HistoryPrefix|] == '-' && var digits := path[|HistoryPrefix| + 1..];
      IsDigits(digits) && DigitsValue(digits) == -id
  {
    var path := HistoryPrefix + IntToString(id);
    if id >= 0 then
      NatToStringRoundTrip(id);
      assert path[|HistoryPrefix|..] == NatToString(id);
      path
    else
      NatToStringRoundTrip(-id);
      assert path[|HistoryPrefix| + 1..] == NatToString(-id);
      path
  }

  /** The JavaScript truthiness of `localStorage.getItem("token")`. */
  predicate TokenIn(storage: map<string, string>)
  {
    "token" in storage && storage["token"] != ""
  }

  function StoredToken(storage: map<string, string>): Option<string>
  {
    if "token" in storage then Some(storage["token"]) else None
  }

  /** `!file || !jd`: unlike the analysis page, the job description is not trimmed. */
  predicate Accepts(file: Option<FileInfo>, jd: string)
  {
    file.Some? && jd != ""
  }

  class DashboardPage {
    /** `localStorage`. */
    var storage: map<string, string>
    var history: seq<HistoryEntry>
    var file: Option<FileInfo>
    var jd: string
    var result: Option<AnalysisResult>
    var loading: bool

    constructor(storage0: map<string, string>)
      ensures storage == storage0 && history == [] && file == None && jd == "" && result == None && !loading
    {
      storage, history, file, jd, result, loading := storage0, [], None, "", None, false;
    }

    /** The logout button and the history panel are shown exactly when a token is stored. */
    predicate SignedIn()
      reads this
    {
      TokenIn(storage)
    }

    /** `fetchHistory`: nothing without a token; otherwise the history becomes the reply
        when it is an array and empty in every other case. The returned header is
        `None` when no request is made. */
    method FetchHistory(reply: HistoryReply) returns (authorization: Option<string>)
      modifies this
      ensures authorization.Some? <==> old(SignedIn())
      ensures authorization.Some? ==> authorization.value == BearerHeader(StoredToken(storage))
      ensures !old(SignedIn()) ==> history == old(history)
      ensures old(SignedIn()) ==> history == (if reply.EntryArray? then reply.entries else [])
      ensures storage == old(storage) && file == old(file) && jd == old(jd)
      ensures result == old(result) && loading == old(loading)
    {
      if !TokenIn(storage) {
        return None;
      }
      authorization := Some(BearerHeader(StoredToken(storage)));
      match reply
      case EntryArray(entries) =>
        history := entries;
      case _ =>
        history := [];
    }

    /** Typing in the job-description box, which stays enabled while loading. */
    method EditJobDescription(text: string)
      modifies this
      ensures jd == text
      ensures storage == old(storage) && history == old(history) && file == old(file)
      ensures result == old(result) && loading == old(loading)
    {
      jd := text;
    }

    /** A drop on the upload box, which is never disabled here. */
    method DropFiles(accepted: seq<FileInfo>, rejected: seq<Rejection>) returns (toast: Option<Toast>)
      modifies this
      ensures file == Apply(old(file), OnDrop(accepted, rejected).update) && toast == OnDrop(accepted, rejected).toast
      ensures storage == old(storage) && history == old(history) && jd == old(jd)
      ensures result == old(result) && loading == old(loading)
    {
      var o := OnDrop(accepted, rejected);
      file := Apply(file, o.update);
      toast := o.toast;
    }

    /** `handleSubmit` up to the `fetch`: ignored while loading (the button is disabled),
        refused without a file or with an empty job description, otherwise the form
        goes out with the bearer header when a token is stored. */
    method BeginSubmit() returns (start: Start)
      modifies this
      ensures start.Started? <==> !old(loading) && Accepts(old(file), old(jd))
      ensures old(loading) ==> start == Ignored
      ensures !old(loading) && !Accepts(old(file), old(jd)) ==> start == Refused(ErrorToast(MissingInputMessage))
      ensures start.Started? ==>
        start.request == AnalyzeRequest(old(file).value, old(jd), None, AuthorizationFor(StoredToken(old(storage)))) &&
        loading
      ensures !start.Started? ==> loading == old(loading)
      ensures storage == old(storage) && history == old(history) && file == old(file)
      ensures jd == old(jd) && result == old(result)
    {
      if loading {
        start := Ignored;
      } else if !Accepts(file, jd) {
        start := Refused(ErrorToast(MissingInputMessage));
      } else {
        loading := true;
        start := Started(AnalyzeRequest(file.value, jd, None, AuthorizationFor(StoredToken(storage))));
      }
    }

    /** `handleSubmit` after the reply to `request`. The `ok` flag is not looked at: any
        body that parses replaces the result, `null` included (the property read on it
        then throws); a history refresh follows when the request carried a token, and
        confetti for a score above 80. Loading always ends. */
    method CompleteSubmit(request: AnalyzeRequest, reply: Reply)
      returns (toast: Toast, confetti: bool, refreshHistory: bool)
      modifies this
      ensures reply.Reply? && reply.body.ObjectBody? ==>
        result == Some(reply.body.result) && toast == SuccessToast(CompleteMessage) &&
        confetti == HomeReport.Celebrates(reply.body.result.matchScore)
      ensures reply.Reply? && reply.body.NullBody? ==> result == None
      ensures !(reply.Reply? && reply.body.ObjectBody?) ==> toast == ErrorToast(FailedMessage) && !confetti
      ensures refreshHistory <==> reply.Reply? && !reply.body.Unparsable? && request.authorization.Some?
      ensures !(reply.Reply? && !reply.body.Unparsable?) ==> result == old(result)
      ensures !loading
      ensures storage == old(storage) && history == old(history) && file == old(file) && jd == old(jd)
    {
      toast, confetti, refreshHistory := ErrorToast(FailedMessage), false, false;
      if reply.Reply? {
        match reply.body
        case Unparsable =>
        case NullBody =>
          result := None;
          refreshHistory := request.authorization.Some?;
        case ObjectBody(r) =>
          result := Some(r);
          refreshHistory := request.authorization.Some?;
          confetti := HomeReport.Celebrates(r.matchScore);
          toast := SuccessToast(CompleteMessage);
      }
      loading := false;
    }

    /** `deleteItem(id)`: `DELETE /history/<id>` with the stored token, then a history
        refresh when the request did not throw. Nothing on the page changes here. */
    method DeleteItem(id: int, delivered: bool) returns (path: string, authorization: string, refreshHistory: bool)
      ensures path == HistoryPath(id)
      ensures "token" in storage ==> authorization == "Bearer " + storage["token"]
      ensures "token" !in storage ==> authorization == "Bearer null"
      ensures refreshHistory == delivered
    {
      path := HistoryPath(id);
      authorization := BearerHeader(StoredToken(storage));
      refreshHistory := delivered;
    }

    /** `downloadReport`: a result is needed first, then a token; the form carries the
        result's fields with their defaults. */
    method DownloadReport() returns (outcome: DownloadOutcome)
      ensures result.None? ==> outcome == DownloadRefused(ErrorToast(NeedResultMessage))
      ensures result.Some? && !SignedIn() ==> outcome == DownloadRefused(ErrorToast(NeedLoginMessage))
      ensures outcome.DownloadRequested? <==> result.Some? && SignedIn()
      ensures outcome.DownloadRequested? ==>
        outcome.payload == PayloadOf(result.value) && outcome.authorization == "Bearer " + storage["token"]
    {
      if result.None? {
        return DownloadRefused(ErrorToast(NeedResultMessage));
      }
      if !TokenIn(storage) {
        return DownloadRefused(ErrorToast(NeedLoginMessage));
      }
      outcome := DownloadRequested(PayloadOf(result.value), BearerHeader(StoredToken(storage)));
    }

    /** `logout`: the token entry is removed and every other stored entry kept, so the
        history panel and the logout button disappear. */
    method Logout()
      modifies this
      ensures storage == old(storage) - {"token"}
      ensures !SignedIn()
      ensures forall k :: k in old(storage) && k != "token" ==> k in storage && storage[k] == old(storage)[k]
      ensures history == old(history) && file == old(file) && jd == old(jd)
      ensures result == old(result) && loading == old(loading)
    {
      storage := storage - {"token"};
    }
  }

  /** The report form of a backend response carries its score, its readiness label, its
      missing skills joined by ", " and its total days. */
  lemma PayloadOfBackend(resp: AnalyzeEndpoint.AnalysisResponse)
    ensures PayloadOf(FromBackend(resp)) ==
      ReportPayload(resp.matchScore, resp.readinessLevel, Join(resp.fullyMissing, ", "), resp.estimatedDaysToReady)
  {
    JsJoinStrings(resp.fullyMissing, ", ");
  }

  /** The dashboard accepts every input the analysis page accepts, and in addition a
      job description of white space only. */
  lemma DashboardCheckIsLooser(file: Option<FileInfo>, jd: string)
    ensures file.Some? && Home.HasText(jd) ==> Accepts(file, jd)
    ensures Accepts(file, jd) && !Home.HasText(jd) <==> file.Some? && jd != "" && AllSpace(jd)
  {
    TrimEmptyIff(jd);
  }
}
