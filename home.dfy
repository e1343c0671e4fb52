/**
 * The state of the analysis page (frontend/src/pages/Home.jsx) and its event
 * handlers. `handleAnalyze` is asynchronous: it is modelled as the part before the
 * `fetch` (`BeginAnalyze`), the caption timer firing while the request is pending
 * (`Tick`), and the part after the reply (`CompleteAnalyze`). Inputs the page
 * disables while loading ignore events then.
 */
module Home {
  import opened Wrappers
  import opened Text
  import opened Wire
  import opened UploadBox
  import opened HomeReport

  /** The captions the loading panel cycles through. */
  const LoadingMessages: seq<string> := ["Parsing resume", "Matching skills", "Generating roadmap"]

  const MissingInputMessage := "Please upload resume and paste job description"
  const CompleteMessage := "Analysis Complete!"
  const FailedMessage := "Analysis failed. Please try again."
  const NoResultsMessage := "No analysis results available"

  /** How a click on "Download Report" ends. */
  datatype PdfOutcome = NoResults(toast: Toast) | Pdf(report: Report)

  /** `text.trim()` is not empty. */
  predicate HasText(text: string)
  {
    Trim(text) != ""
  }

  class HomePage {
    var file: Option<FileInfo>
    var jd: string
    var jobRole: string
    var result: Option<AnalysisResult>
    var loading: bool
    var loadingMessage: string
    /** `currentIndex` of the running caption timer. */
    var captionIndex: nat
    /** Timer firings since the current analysis began. */
    ghost var ticks: nat

    /** While loading, the caption is the one the timer has reached. */
    ghost predicate Valid()
      reads this
    {
      captionIndex == ticks % 3 && (loading ==> loadingMessage == LoadingMessages[captionIndex])
    }

    constructor()
      ensures Valid()
      ensures file == None && jd == "" && jobRole == "" && result == None
      ensures !loading && loadingMessage == LoadingMessages[0]
    {
      file, jd, jobRole, result := None, "", "", None;
      loading, loadingMessage := false, LoadingMessages[0];
      captionIndex, ticks := 0, 0;
    }

    /** "Analyze Resume" is enabled: `!(loading || !file || !jd.trim())`. */
    predicate CanAnalyze()
      reads this
    {
      !loading && file.Some? && HasText(jd)
    }

    /** Typing in the job-description box, which is disabled while loading. */
    method EditJobDescription(text: string)
      requires Valid()
      modifies this
      ensures Valid()
      ensures jd == (if old(loading) then old(jd) else text)
      ensures file == old(file) && jobRole == old(jobRole) && result == old(result)
      ensures loading == old(loading) && loadingMessage == old(loadingMessage) && captionIndex == old(captionIndex)
    {
      if !loading {
        jd := text;
      }
    }

    /** Typing in the job-role box, which is disabled while loading. */
    method EditJobRole(text: string)
      requires Valid()
      modifies this
      ensures Valid()
      ensures jobRole == (if old(loading) then old(jobRole) else text)
      ensures file == old(file) && jd == old(jd) && result == old(result)
      ensures loading == old(loading) && loadingMessage == old(loadingMessage) && captionIndex == old(captionIndex)
    {
      if !loading {
        jobRole := text;
      }
    }

    /** A drop on the upload box. The box is disabled while loading, and while a file is
        shown it renders only the preview, which has no drop zone. */
    method DropFiles(accepted: seq<FileInfo>, rejected: seq<Rejection>) returns (toast: Option<Toast>)
      requires Valid()
      modifies this
      ensures Valid()
      ensures old(loading) || old(file).Some? ==> file == old(file) && toast == None
      ensures !old(loading) && old(file).None? ==>
        file == Apply(old(file), OnDrop(accepted, rejected).update) && toast == OnDrop(accepted, rejected).toast
      ensures jd == old(jd) && jobRole == old(jobRole) && result == old(result)
      ensures loading == old(loading) && loadingMessage == old(loadingMessage) && captionIndex == old(captionIndex)
    {
      toast := None;
      if !loading && file.None? {
        var o := OnDrop(accepted, rejected);
        file := Apply(file, o.update);
        toast := o.toast;
      }
    }

    /** The remove button of the file preview, shown only for a file and not while loading. */
    method RemoveFile() returns (toast: Option<Toast>)
      requires Valid()
      modifies this
      ensures Valid()
      ensures !old(loading) && old(file).Some? ==> file == None && toast == OnRemove().toast
      ensures old(loading) || old(file).None? ==> file == old(file) && toast == None
      ensures jd == old(jd) && jobRole == old(jobRole) && result == old(result)
      ensures loading == old(loading) && loadingMessage == old(loadingMessage) && captionIndex == old(captionIndex)
    {
      toast := None;
      if !loading && file.Some? {
        var o := OnRemove();
        file := Apply(file, o.update);
        toast := o.toast;
      }
    }

    /** `handleAnalyze` up to the `fetch`: a request goes out exactly when the button is
        enabled; it carries the job description as typed, the trimmed job role when
        there is one, and the stored token as a bearer header. */
    method BeginAnalyze(token: Option<string>) returns (start: Start)
      requires Valid()
      modifies this
      ensures Valid()
      ensures start.Started? <==> old(CanAnalyze())
      ensures old(loading) ==> start == Ignored
      ensures !old(loading) && !old(CanAnalyze()) ==> start == Refused(ErrorToast(MissingInputMessage))
      ensures start.Started? ==>
        start.request == AnalyzeRequest(old(file).value, old(jd), TrimmedRole(old(jobRole)), AuthorizationFor(token)) &&
        loading && loadingMessage == LoadingMessages[0] && ticks == 0
      ensures !start.Started? ==> loading == old(loading) && loadingMessage == old(loadingMessage) && captionIndex == old(captionIndex)
      ensures file == old(file) && jd == old(jd) && jobRole == old(jobRole)
      ensures result == old(result)
    {
      var enabled := CanAnalyze();
      if loading {
        start := Ignored;
      } else if !enabled {
        start := Refused(ErrorToast(MissingInputMessage));
      } else {
        var request := AnalyzeRequest(file.value, jd, TrimmedRole(jobRole), AuthorizationFor(token));
        loading := true;
        loadingMessage := LoadingMessages[0];
        captionIndex, ticks := 0, 0;
        start := Started(request);
      }
    }

    /** One firing of the two-second caption timer, which runs only while loading: the
        caption moves on to the next of the three, wrapping around. */
    method Tick()
      requires Valid() && loading
      modifies this
      ensures Valid()
      ensures captionIndex == (old(captionIndex) + 1) % 3 && ticks == old(ticks) + 1
      ensures loadingMessage == LoadingMessages[(old(captionIndex) + 1) % 3]
      ensures file == old(file) && jd == old(jd) && jobRole == old(jobRole) && result == old(result) && loading
    {
      captionIndex := (captionIndex + 1) % 3;
      ticks := ticks + 1;
      loadingMessage := LoadingMessages[captionIndex];
    }

    /** `handleAnalyze` after the reply. A result is shown only for an `ok` response
        whose body parses; a `null` body replaces the result before the property read
        on it throws. Confetti for a score above 80. Loading always ends. */
    method CompleteAnalyze(reply: Reply) returns (toast: Toast, confetti: bool)
      requires Valid()
      modifies this
      ensures Valid()
      ensures reply.Reply? && reply.ok && reply.body.ObjectBody? ==>
        result == Some(reply.body.result) && toast == SuccessToast(CompleteMessage) &&
        confetti == Celebrates(reply.body.result.matchScore)
      ensures reply.Reply? && reply.ok && reply.body.NullBody? ==> result == None
      ensures !(reply.Reply? && reply.ok && reply.body.ObjectBody?) ==> toast == ErrorToast(FailedMessage) && !confetti
      ensures !(reply.Reply? && reply.ok && !reply.body.Unparsable?) ==> result == old(result)
      ensures !loading
      ensures file == old(file) && jd == old(jd) && jobRole == old(jobRole)
      ensures loadingMessage == old(loadingMessage) && captionIndex == old(captionIndex) && ticks == old(ticks)
    {
      toast, confetti := ErrorToast(FailedMessage), false;
      if reply.Reply? && reply.ok {
        match reply.body
        case Unparsable =>
        case NullBody =>
          result := None;
        case ObjectBody(r) =>
          result := Some(r);
          confetti := Celebrates(r.matchScore);
          toast := SuccessToast(CompleteMessage);
      }
      loading := false;
    }

    /** "Analyze Another Resume": the form and the result are cleared. */
    method Reset()
      requires Valid()
      modifies this
      ensures Valid()
      ensures file == None && jd == "" && jobRole == "" && result == None && !loading
      ensures loadingMessage == old(loadingMessage) && captionIndex == old(captionIndex)
      ensures ticks == old(ticks)
    {
      file, jd, jobRole, result := None, "", "", None;
      loading := false;
    }

    /** "Download Report": the report of the current result, or a toast when there is
        none. Nothing on the page changes. */
    method DownloadPdf() returns (outcome: PdfOutcome)
      ensures result.None? <==> outcome.NoResults?
      ensures result.None? ==> outcome.toast == ErrorToast(NoResultsMessage)
      ensures result.Some? ==> outcome.report == BuildReport(result.value, jobRole)
    {
      if result.None? {
        return NoResults(ErrorToast(NoResultsMessage));
      }
      outcome := Pdf(BuildReport(result.value, jobRole));
    }
  }

  /** After n timer firings the caption is the (n mod 3)-th, whatever the history. */
  lemma CaptionAfterTicks(p: HomePage)
    requires p.Valid() && p.loading
    ensures p.loadingMessage == LoadingMessages[p.ticks % 3]
  {
  }

  /** "Analyze Another Resume" does not cancel a pending request: if the reply arrives
      after the reset, its result is shown again. */
  method ResetThenReply(p: HomePage, r: AnalysisResult)
    requires p.Valid()
    modifies p
    ensures p.Valid() && p.result == Some(r) && p.file == None && p.jd == ""
  {
    p.Reset();
    var _, _ := p.CompleteAnalyze(Reply(true, ObjectBody(r)));
  }
}
