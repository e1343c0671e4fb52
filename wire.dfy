/**
 * The analysis result as the frontend receives it: parsed JSON in which any
 * field may be absent and a list entry may be a string, an object or some other
 * value. Absent fields are `None`; an empty string in an object field stands
 * for a missing or falsy property.
 */
module Wire {
  import opened Wrappers
  import opened Text
  import AnalyzeEndpoint
  import RoadmapEngine
  import UploadBox

  /** A skill entry: a string, an object with optional `name` / `skill`, `null`, or a
      number or boolean whose `String(v)` is `text`. */
  datatype SkillItem = SkillString(text: string) | SkillObject(name: string, skill: string) | SkillNull | SkillScalar(text: string)

  /** A suggestion entry; `json` is an object's `JSON.stringify` text, and a
      scalar's `text` is its rendering (`"null"` for null). */
  datatype SuggestionItem =
    | SuggestionString(text: string)
    | SuggestionObject(text: string, suggestion: string, message: string, json: string)
    | SuggestionScalar(text: string)

  /** A roadmap entry. For an object, `days` is `duration_days` (0 when absent),
      `tasks` is `Some` only when `tasks` is an array, and `json` is its
      `JSON.stringify` text. */
  datatype RoadmapItem =
    | StepString(text: string)
    | StepObject(skill: string, days: int, tasks: Option<seq<string>>, json: string)
    | StepScalar(text: string)

  /** The parsed body of an `/analyze/` response. */
  datatype AnalysisResult = AnalysisResult(
    matchScore: Option<real>,
    readinessLevel: Option<string>,
    resumeSkills: Option<seq<SkillItem>>,
    fullyMatched: Option<seq<SkillItem>>,
    partiallyMatched: Option<seq<SkillItem>>,
    fullyMissing: Option<seq<SkillItem>>,
    suggestions: Option<seq<SuggestionItem>>,
    roadmap: Option<seq<RoadmapItem>>,
    estimatedDaysToReady: Option<int>)

  /** The text `Array.prototype.join` puts in for an entry (`null` contributes nothing). */
  function JoinText(item: SkillItem): string
  {
    match item
    case SkillString(t) => t
    case SkillObject(_, _) => "[object Object]"
    case SkillNull => ""
    case SkillScalar(t) => t
  }

  /** `list.join(sep)` in JavaScript. */
  function JsJoin(items: seq<SkillItem>, sep: string): string
  {
    Join(seq(|items|, i requires 0 <= i < |items| => JoinText(items[i])), sep)
  }

  /** Every entry a string. */
  function Strings(skills: seq<string>): (r: seq<SkillItem>)
    ensures |r| == |skills| && forall i :: 0 <= i < |r| ==> r[i] == SkillString(skills[i])
  {
    seq(|skills|, i requires 0 <= i < |skills| => SkillString(skills[i]))
  }

  /** Joining string entries joins the strings. */
  lemma JsJoinStrings(skills: seq<string>, sep: string)
    ensures JsJoin(Strings(skills), sep) == Join(skills, sep)
  {
    var items := Strings(skills);
    assert seq(|items|, i requires 0 <= i < |items| => JoinText(items[i])) == skills;
  }

  /** JSON text of a backend roadmap step, as `JSON.stringify` writes it for strings
      that need no escaping. */
  function StepJson(step: RoadmapEngine.Step): string
  {
    "{\"skill\":\"" + step.skill + "\",\"duration_days\":" + NatToString(step.durationDays)
      + ",\"tasks\":[" + Join(seq(|step.tasks|, i requires 0 <= i < |step.tasks| => "\"" + step.tasks[i] + "\""), ",") + "]}"
  }

  function StepItem(step: RoadmapEngine.Step): RoadmapItem
  {
    StepObject(step.skill, step.durationDays, Some(step.tasks), StepJson(step))
  }

  /** What the frontend parses from the backend's response. The backend sends no
      `suggestions` key. */
  function FromBackend(r: AnalyzeEndpoint.AnalysisResponse): (w: AnalysisResult)
    ensures w.matchScore == Some(r.matchScore) && w.readinessLevel == Some(r.readinessLevel)
    ensures w.estimatedDaysToReady == Some(r.estimatedDaysToReady)
    ensures w.resumeSkills == Some(Strings(r.resumeSkills))
    ensures w.fullyMatched == Some(Strings(r.fullyMatched)) && w.partiallyMatched == Some(Strings(r.partiallyMatched))
    ensures w.fullyMissing == Some(Strings(r.fullyMissing)) && w.suggestions == None
    ensures w.roadmap.Some? && |w.roadmap.value| == |r.roadmap|
    ensures forall i :: 0 <= i < |r.roadmap| ==> w.roadmap.value[i] == StepItem(r.roadmap[i])
  {
    AnalysisResult(
      Some(r.matchScore),
      Some(r.readinessLevel),
      Some(Strings(r.resumeSkills)),
      Some(Strings(r.fullyMatched)),
      Some(Strings(r.partiallyMatched)),
      Some(Strings(r.fullyMissing)),
      None,
      Some(seq(|r.roadmap|, i requires 0 <= i < |r.roadmap| => StepItem(r.roadmap[i]))),
      Some(r.estimatedDaysToReady))
  }

  // ---------------------------------------------------------------- requests

  /** The multipart form of a `POST /analyze/` and its `Authorization` header. */
  datatype AnalyzeRequest = AnalyzeRequest(
    file: UploadBox.FileInfo,
    jobDescription: string,
    jobRole: Option<string>,
    authorization: Option<string>)

  /** What `response.json()` yields: a failure to parse (it throws), `null`, or an object. */
  datatype Body = Unparsable | NullBody | ObjectBody(result: AnalysisResult)

  /** How a `fetch` ends: it throws, or a response with its `ok` flag and its body. */
  datatype Reply = NoReply | Reply(ok: bool, body: Body)

  /** `Bearer ${token}`; a missing token reads as `null`. */
  function BearerHeader(token: Option<string>): string
  {
    "Bearer " + (if token.Some? then token.value else "null")
  }

  /** How a click on "Analyze Resume" ends before any request: ignored (the button is
      disabled while loading), refused with a toast, or a request sent. */
  datatype Start = Ignored | Refused(toast: UploadBox.Toast) | Started(request: AnalyzeRequest)

  /** The header a stored token gives: `token ? { Authorization: ... } : {}`. */
  function AuthorizationFor(token: Option<string>): (h: Option<string>)
    ensures h.Some? <==> token.Some? && token.value != ""
    ensures h.Some? ==> h.value == "Bearer " + token.value
  {
    if token.Some? && token.value != "" then Some(BearerHeader(token)) else None
  }
}
