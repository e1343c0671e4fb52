/**
 * The display rules of the analysis page (frontend/src/pages/Home.jsx): how an entry
 * of the result becomes text on the screen and in the PDF report, the colour tier of
 * the score, the celebration threshold, and the contents of each report section.
 */
module HomeReport {
  import opened Wrappers
  import opened Text
  import opened Wire
  import ReportPages
  import AnalyzeEndpoint
  import RoadmapEngine

  /** Where an entry is rendered: the results panel or the PDF. The two differ in the
      fallback for an object they cannot read: `JSON.stringify` on screen, `String`
      (`"[object Object]"`) in the PDF. */
  datatype Surface = Screen | Document

  // ---------------------------------------------------------------- entries

  /** `typeof skill === "string" ? skill : skill?.name || skill?.skill || String(skill)`. */
  function SkillText(item: SkillItem): string
  {
    match item
    case SkillString(t) => t
    case SkillObject(name, skill) => if name != "" then name else if skill != "" then skill else "[object Object]"
    case SkillNull => "null"
    case SkillScalar(t) => t
  }

  function SkillTexts(items: seq<SkillItem>): (r: seq<string>)
    ensures |r| == |items| && forall i :: 0 <= i < |r| ==> r[i] == SkillText(items[i])
  {
    seq(|items|, i requires 0 <= i < |items| => SkillText(items[i]))
  }

  /** Skills sent as strings come back out unchanged. */
  lemma SkillTextsOfStrings(skills: seq<string>)
    ensures SkillTexts(Strings(skills)) == skills
  {
  }

  /** A skill object shows its `name`, failing that its `skill`; an object with neither
      does not show as empty. */
  lemma SkillObjectText(name: string, skill: string)
    ensures SkillText(SkillObject(name, skill)) != ""
    ensures name != "" ==> SkillText(SkillObject(name, skill)) == name
    ensures name == "" && skill != "" ==> SkillText(SkillObject(name, skill)) == skill
  {
  }

  /** `item?.text || item?.suggestion || item?.message || <fallback>`. */
  function SuggestionText(item: SuggestionItem, surface: Surface): string
  {
    match item
    case SuggestionString(t) => t
    case SuggestionObject(text, suggestion, message, json) =>
      if text != "" then text
      else if suggestion != "" then suggestion
      else if message != "" then message
      else if surface == Screen then json else "[object Object]"
    case SuggestionScalar(t) => t
  }

  /** The screen and the PDF show a suggestion differently exactly when it is an object
      with none of `text`, `suggestion`, `message` (and its JSON is not the literal
      `[object Object]`). */
  lemma SuggestionSurfacesDiffer(item: SuggestionItem)
    ensures SuggestionText(item, Screen) != SuggestionText(item, Document) <==>
      item.SuggestionObject? && item.text == "" && item.suggestion == "" && item.message == "" &&
      item.json != "[object Object]"
  {
  }

  /** The ` (N days)` part: only for a truthy `duration_days`. */
  function DurationPart(days: int): string
  {
    if days != 0 then " (" + IntToString(days) + " days)" else ""
  }

  /** The ` - task, task` part: only when `tasks` is an array. */
  function TasksPart(tasks: Option<seq<string>>): string
  {
    if tasks.Some? then " - " + Join(tasks.value, ", ") else ""
  }

  /** A roadmap entry as text: a string as is; an object with a truthy `skill` as the
      skill, its duration and its tasks; anything else by the surface's fallback. */
  function RoadmapText(item: RoadmapItem, surface: Surface): string
  {
    match item
    case StepString(t) => t
    case StepObject(skill, days, tasks, json) =>
      if skill != "" then skill + DurationPart(days) + TasksPart(tasks)
      else if surface == Screen then json else "[object Object]"
    case StepScalar(t) => t
  }

  /** A step as the backend builds it reads "skill (N days) - task, task, task" on
      both surfaces. */
  lemma RoadmapTextOfBackendStep(skill: string, surface: Surface)
    requires skill in RoadmapEngine.RoadmapDb
    ensures var plan := RoadmapEngine.RoadmapDb[skill];
      RoadmapText(StepItem(RoadmapEngine.StepFor(skill)), surface) ==
        skill + " (" + NatToString(plan.days) + " days) - " + Join(plan.tasks, ", ")
  {
    var step := RoadmapEngine.StepFor(skill);
    RoadmapEngine.PlanDurations();
    assert step.durationDays == RoadmapEngine.RoadmapDb[skill].days > 0;
    assert step.tasks == RoadmapEngine.RoadmapDb[skill].tasks;
    ObjectStepText(skill, step.durationDays, step.tasks, StepJson(step), surface);
  }

  /** An object entry with a skill, a positive duration and a task array reads
      "skill (N days) - task, task". */
  lemma ObjectStepText(skill: string, days: nat, tasks: seq<string>, json: string, surface: Surface)
    requires skill != "" && days > 0
    ensures RoadmapText(StepObject(skill, days, Some(tasks), json), surface) ==
      skill + " (" + NatToString(days) + " days) - " + Join(tasks, ", ")
  {
  }

  // ---------------------------------------------------------------- score

  /** Colour tier of the score (`scoreColor` and the doughnut chart). */
  datatype Tier = Green | Amber | Red

  /** `score >= 80 ? green : score >= 60 ? amber : red`; a missing score compares false. */
  function ScoreTier(score: Option<real>): Tier
  {
    if score.Some? && score.value >= 80.0 then Green
    else if score.Some? && score.value >= 60.0 then Amber
    else Red
  }

  /** The tiers cover [80, ..), [60, 80) and the rest. */
  lemma ScoreTierRanges(score: real)
    ensures ScoreTier(Some(score)) == Green <==> score >= 80.0
    ensures ScoreTier(Some(score)) == Amber <==> 60.0 <= score < 80.0
    ensures ScoreTier(Some(score)) == Red <==> score < 60.0
    ensures ScoreTier(None) == Red
  {
  }

  /** `data.match_score > 80`: confetti after an analysis. */
  function Celebrates(score: Option<real>): bool
  {
    score.Some? && score.value > 80.0
  }

  /** Confetti comes only with a green score, but a score of exactly 80 is green
      without confetti. */
  lemma CelebrationIsGreen(score: Option<real>)
    ensures Celebrates(score) ==> ScoreTier(score) == Green
    ensures ScoreTier(Some(80.0)) == Green && !Celebrates(Some(80.0))
  {
  }

  /** How the backend's readiness ladder sits against the frontend's colours: "Interview
      Ready" is always green with confetti, "High Risk" always red, "Moderate" never
      green. */
  lemma TierAgreesWithReadiness(score: real)
    ensures AnalyzeEndpoint.ReadinessOf(score) == AnalyzeEndpoint.InterviewReady ==>
      ScoreTier(Some(score)) == Green && Celebrates(Some(score))
    ensures AnalyzeEndpoint.ReadinessOf(score) == AnalyzeEndpoint.HighRisk ==> ScoreTier(Some(score)) == Red
    ensures AnalyzeEndpoint.ReadinessOf(score) == AnalyzeEndpoint.Moderate ==> ScoreTier(Some(score)) != Green
  {
  }

  // ---------------------------------------------------------------- report sections

  /** The job role the page uses: `jobRole.trim()` when that is not empty. */
  function TrimmedRole(jobRole: string): (r: Option<string>)
    ensures r.Some? ==> r.value == Trim(jobRole) && r.value != ""
  {
    if Trim(jobRole) != "" then Some(Trim(jobRole)) else None
  }

  /** A role is used exactly when the input is not all white space. */
  lemma TrimmedRoleIff(jobRole: string)
    ensures TrimmedRole(jobRole).Some? <==> !AllSpace(jobRole)
  {
    TrimEmptyIff(jobRole);
  }

  /** `?.length || 0`. */
  function Count(items: Option<seq<SkillItem>>): (n: nat)
    ensures items.Some? ==> n == |items.value|
    ensures items.None? ==> n == 0
  {
    if items.Some? then |items.value| else 0
  }

  /** One row of the "Skill Match Breakdown" table. */
  datatype BreakdownRow = BreakdownRow(category: string, count: nat, skills: string)

  /** `[category, list?.length || 0, list?.map(skillText).join(", ") || "None"]`. */
  function BreakdownRowOf(category: string, items: Option<seq<SkillItem>>): (row: BreakdownRow)
    ensures row.category == category && row.count == Count(items)
    ensures row.skills != ""
    ensures items.None? || items.value == [] ==> row.skills == "None"
    ensures items.Some? && Join(SkillTexts(items.value), ", ") != "" ==>
      row.skills == Join(SkillTexts(items.value), ", ")
    ensures items.Some? && Join(SkillTexts(items.value), ", ") == "" ==> row.skills == "None"
  {
    var joined := if items.Some? then Join(SkillTexts(items.value), ", ") else "";
    BreakdownRow(category, Count(items), if joined == "" then "None" else joined)
  }

  function Breakdown(r: AnalysisResult): (rows: seq<BreakdownRow>)
    ensures |rows| == 3
  {
    [BreakdownRowOf("Matched Skills", r.fullyMatched),
     BreakdownRowOf("Partially Matched", r.partiallyMatched),
     BreakdownRowOf("Missing Skills", r.fullyMissing)]
  }

  /** The bars of the skill-match chart: matched, partially matched, missing. */
  function ChartCounts(r: AnalysisResult): (counts: seq<nat>)
    ensures |counts| == 3
  {
    [Count(r.fullyMatched), Count(r.partiallyMatched), Count(r.fullyMissing)]
  }

  /** The roadmap section: its header and its (step, task) rows. */
  datatype RoadmapTable = RoadmapTable(header: string, rows: seq<(string, string)>)

  /** `${value}` of an optional number: `undefined` when missing. */
  function OptionalNumber(n: Option<int>): string
  {
    if n.Some? then IntToString(n.value) else "undefined"
  }

  /** The texts of the report, page by page, and where the pages go. */
  datatype Report = Report(
    targetRole: Option<string>,
    scoreTier: Tier,
    readinessLine: string,
    skillsTable: Option<seq<string>>,
    chartCounts: seq<nat>,
    breakdown: seq<BreakdownRow>,
    gapsTable: Option<seq<string>>,
    suggestionsTable: Option<seq<string>>,
    roadmap: Option<RoadmapTable>,
    layout: ReportPages.Doc)

  /** A list that is present and not empty. */
  predicate NonEmpty<T>(items: Option<seq<T>>)
  {
    items.Some? && |items.value| > 0
  }

  /** The rows of the suggestions table: `"${index + 1}. ${text}"`. */
  function SuggestionRows(items: seq<SuggestionItem>): (rows: seq<string>)
    ensures |rows| == |items|
    ensures forall i :: 0 <= i < |items| ==> rows[i] == NatToString(i + 1) + ". " + SuggestionText(items[i], Document)
  {
    seq(|items|, i requires 0 <= i < |items| => NatToString(i + 1) + ". " + SuggestionText(items[i], Document))
  }

  /** The rows of the roadmap table: `["Step ${index + 1}", text]`. */
  function RoadmapRows(items: seq<RoadmapItem>): (rows: seq<(string, string)>)
    ensures |rows| == |items|
    ensures forall i :: 0 <= i < |items| ==> rows[i] == ("Step " + NatToString(i + 1), RoadmapText(items[i], Document))
  {
    seq(|items|, i requires 0 <= i < |items| => ("Step " + NatToString(i + 1), RoadmapText(items[i], Document)))
  }

  /** A table of entry texts, written only when its list is present and not empty. */
  function SkillTable(items: Option<seq<SkillItem>>): (t: Option<seq<string>>)
    ensures t.Some? <==> NonEmpty(items)
    ensures t.Some? ==> items.Some? && t.value == SkillTexts(items.value) && |t.value| == |items.value|
  {
    if NonEmpty(items) then Some(SkillTexts(items.value)) else None
  }

  /** The numbered suggestions table, written only when there are suggestions. */
  function SuggestionsTable(items: Option<seq<SuggestionItem>>): (t: Option<seq<string>>)
    ensures t.Some? <==> NonEmpty(items)
    ensures t.Some? ==> items.Some? && t.value == SuggestionRows(items.value) && |t.value| == |items.value|
  {
    if NonEmpty(items) then Some(SuggestionRows(items.value)) else None
  }

  /** The roadmap section, written only when there are steps; its header carries
      the total days. */
  function RoadmapSection(items: Option<seq<RoadmapItem>>, days: Option<int>): (t: Option<RoadmapTable>)
    ensures t.Some? <==> NonEmpty(items)
    ensures t.Some? ==>
      items.Some? && t.value.rows == RoadmapRows(items.value) && |t.value.rows| == |items.value| &&
      t.value.header == "Learning Roadmap (" + OptionalNumber(days) + " days)"
  {
    if NonEmpty(items) then
      Some(RoadmapTable("Learning Roadmap (" + OptionalNumber(days) + " days)", RoadmapRows(items.value)))
    else None
  }

  /** The "Target Role" line, written only when the trimmed role is not empty. */
  function RoleLine(jobRole: string): (line: Option<string>)
    ensures line.Some? <==> !AllSpace(jobRole)
    ensures line.Some? ==> line.value == "Target Role: " + Trim(jobRole)
  {
    TrimmedRoleIff(jobRole);
    var role := TrimmedRole(jobRole);
    if role.Some? then Some("Target Role: " + role.value) else None
  }

  /** What `handleDownloadPDF` writes for a result. Each optional table appears only
      when its list is present and not empty. The pages follow the evidently intended
      layout, `ReportPages.CorrectedLayout`, with page n holding the n-th section; the
      calls as written give the five pages of `ReportPages.AsWrittenLayout` instead. */
  function BuildReport(r: AnalysisResult, jobRole: string): (rep: Report)
    ensures rep.targetRole.Some? <==> !AllSpace(jobRole)
    ensures rep.targetRole.Some? ==> rep.targetRole.value == "Target Role: " + Trim(jobRole)
    ensures rep.scoreTier == ScoreTier(r.matchScore)
    ensures r.readinessLevel.Some? ==> rep.readinessLine == "Readiness Level: " + r.readinessLevel.value
    ensures r.readinessLevel.None? ==> rep.readinessLine == "Readiness Level: undefined"
    ensures rep.chartCounts == [Count(r.fullyMatched), Count(r.partiallyMatched), Count(r.fullyMissing)]
    ensures rep.breakdown == [BreakdownRowOf("Matched Skills", r.fullyMatched),
                              BreakdownRowOf("Partially Matched", r.partiallyMatched),
                              BreakdownRowOf("Missing Skills", r.fullyMissing)]
    ensures rep.skillsTable.Some? <==> NonEmpty(r.resumeSkills)
    ensures rep.skillsTable.Some? ==> r.resumeSkills.Some? && rep.skillsTable.value == SkillTexts(r.resumeSkills.value)
    ensures rep.skillsTable.Some? ==> |rep.skillsTable.value| == |r.resumeSkills.value|
    ensures rep.gapsTable.Some? <==> NonEmpty(r.fullyMissing)
    ensures rep.gapsTable.Some? ==> r.fullyMissing.Some? && rep.gapsTable.value == SkillTexts(r.fullyMissing.value)
    ensures rep.gapsTable.Some? ==> |rep.gapsTable.value| == |r.fullyMissing.value|
    ensures rep.suggestionsTable.Some? <==> NonEmpty(r.suggestions)
    ensures rep.suggestionsTable.Some? ==>
      r.suggestions.Some? && rep.suggestionsTable.value == SuggestionRows(r.suggestions.value)
    ensures rep.suggestionsTable.Some? ==> |rep.suggestionsTable.value| == |r.suggestions.value|
    ensures rep.roadmap.Some? <==> NonEmpty(r.roadmap)
    ensures rep.roadmap.Some? ==>
      r.roadmap.Some? && rep.roadmap.value.rows == RoadmapRows(r.roadmap.value) &&
      rep.roadmap.value.header == "Learning Roadmap (" + OptionalNumber(r.estimatedDaysToReady) + " days)"
    ensures rep.roadmap.Some? ==> |rep.roadmap.value.rows| == |r.roadmap.value|
    ensures |rep.layout.pages| == ReportPages.TotalPages
    ensures forall i :: 0 <= i < |rep.layout.pages| ==>
      rep.layout.pages[i] == ReportPages.Page([ReportPages.SectionOrder[i]], [i + 1])
  {
    ReportPages.CorrectedLayoutNumbersPages();
    Report(
      RoleLine(jobRole),
      ScoreTier(r.matchScore),
      "Readiness Level: " + (if r.readinessLevel.Some? then r.readinessLevel.value else "undefined"),
      SkillTable(r.resumeSkills),
      ChartCounts(r),
      Breakdown(r),
      SkillTable(r.fullyMissing),
      SuggestionsTable(r.suggestions),
      RoadmapSection(r.roadmap, r.estimatedDaysToReady),
      ReportPages.CorrectedLayout())
  }

  /** The report of a backend response: no suggestions section (the backend sends
      none), the gaps table is the missing skills and appears exactly when there are
      some, the roadmap section appears exactly when the roadmap has steps and its header
      carries the total days, the chart and the breakdown count the three lists (which
      together count the job-description skills), and the breakdown spells out each
      non-empty list. */
  lemma ReportOfBackend(resp: AnalyzeEndpoint.AnalysisResponse, jobRole: string)
    requires forall s :: s in resp.fullyMatched ==> s != ""
    requires forall s :: s in resp.partiallyMatched ==> s != ""
    requires forall s :: s in resp.fullyMissing ==> s != ""
    ensures var rep := BuildReport(FromBackend(resp), jobRole);
      rep.suggestionsTable == None &&
      (rep.gapsTable.Some? <==> resp.fullyMissing != []) &&
      (rep.gapsTable.Some? ==> rep.gapsTable.value == resp.fullyMissing) &&
      (rep.roadmap.Some? <==> resp.roadmap != []) &&
      (rep.roadmap.Some? ==>
        rep.roadmap.value.header == "Learning Roadmap (" + NatToString(resp.estimatedDaysToReady) + " days)" &&
        |rep.roadmap.value.rows| == |resp.roadmap|) &&
      rep.readinessLine == "Readiness Level: " + resp.readinessLevel &&
      rep.chartCounts == [|resp.fullyMatched|, |resp.partiallyMatched|, |resp.fullyMissing|] &&
      rep.breakdown[0].count == |resp.fullyMatched| &&
      rep.breakdown[1].count == |resp.partiallyMatched| &&
      rep.breakdown[2].count == |resp.fullyMissing| &&
      rep.breakdown[0].skills == (if resp.fullyMatched == [] then "None" else Join(resp.fullyMatched, ", ")) &&
      rep.breakdown[1].skills == (if resp.partiallyMatched == [] then "None" else Join(resp.partiallyMatched, ", ")) &&
      rep.breakdown[2].skills == (if resp.fullyMissing == [] then "None" else Join(resp.fullyMissing, ", "))
  {
    var w := FromBackend(resp);
    SkillTextsOfStrings(resp.fullyMatched);
    SkillTextsOfStrings(resp.partiallyMatched);
    SkillTextsOfStrings(resp.fullyMissing);
    BackendSkillsJoin(resp.fullyMatched);
    BackendSkillsJoin(resp.partiallyMatched);
    BackendSkillsJoin(resp.fullyMissing);
  }

  /** Joining a list of non-empty skills with ", " is empty only for the empty list. */
  lemma BackendSkillsJoin(skills: seq<string>)
    requires forall s :: s in skills ==> s != ""
    ensures Join(skills, ", ") == "" <==> skills == []
  {
    JoinEmpty(skills, ", ");
    if |skills| == 1 {
      assert skills[0] in skills;
    }
  }
}
