# SkillLens AI — a verified model of the matching pipeline and its frontend rules

SkillLens AI compares a resume (a PDF) with a job description. The backend
(`backend/`, Python with FastAPI) extracts the known skills from both texts, sorts
every job-description skill into fully matched, partially matched (a skill of the
same related group is on the resume) or fully missing, builds a learning roadmap for
the missing skills from a fixed table, and maps the match score to a readiness
label. A suggestion builder produces two to five canned sentences. The React
frontend (`frontend/src/`) uploads the file, shows and prints the result, rates
passwords on the sign-up screen, and on the dashboard keeps a history and requests a
server-side report.

This project models that core in Dafny and proves its properties.

| file | module | models |
|---|---|---|
| `wrappers.dfy` | `Wrappers` | `Option` |
| `seqs.dfy` | `Seqs` | filtering, subsequences, duplicates, three-way partitions |
| `text.dfy` | `Text` | ASCII lower case, substring containment, `join`, ASCII `trim`, decimal rendering |
| `skill_engine.dfy` | `SkillEngine` | `SKILL_DB`, `SKILL_GROUPS`, `extract_skills` |
| `roadmap_engine.dfy` | `RoadmapEngine` | `ROADMAP_DB`, `generate_roadmap` |
| `ai_suggestions.dfy` | `AiSuggestions` | `generate_resume_suggestions` |
| `analyze_endpoint.dfy` | `AnalyzeEndpoint` | the classification loop, the readiness ladder and the response of `/analyze/` |
| `wire.dfy` | `Wire` | the parsed JSON result the frontend sees, the request it sends, how a `fetch` ends |
| `password.dfy` | `Password` | `getPasswordStrength` |
| `score_circle.dfy` | `ScoreCircle` | the clamp, the dash offset and the label of the score ring |
| `upload_box.dfy` | `UploadBox` | `MAX_FILE_SIZE`, `onDrop`, `handleRemoveFile` |
| `report_pages.dfy` | `ReportPages` | jsPDF page bookkeeping of the report (`addPage`, `setPage`, `addFooter`) |
| `home_report.dfy` | `HomeReport` | entry texts, score tier, confetti threshold, breakdown rows, report sections |
| `home.dfy` | `Home` | the analysis page as a class: form, upload, analyse, caption timer, reset, PDF |
| `dashboard.dfy` | `Dashboard` | the dashboard as a class: history, submit, delete, report download, logout |

Modelling choices:

- The backend loops are Dafny methods with loop invariants. Each is proved equal to
  a specification function: `Extracted`, `ClassificationOf` and `RoadmapOf`/`TotalDays`.
  The properties are lemmas about those functions.
- A JavaScript value that may be a string, an object or something else is a
  datatype (`Wire.SkillItem`, `SuggestionItem`, `RoadmapItem`). A missing or falsy
  string property is `""`. A field that may be absent is an `Option`; a field set to `null` is not modelled (see "Left out"). A number
  read with `|| 0` has 0 for "absent".
- The page components are classes whose fields are the React state. Their handlers
  are methods with `modifies this`. An asynchronous handler is split at its `await`.
  For example, `handleAnalyze` becomes `BeginAnalyze` (before the `fetch`),
  `CompleteAnalyze` (after the reply) and `Tick` (the caption timer firing in
  between). Replies, stored tokens and dropped files are inputs.
- Controls that a page disables while loading (the analysis page's inputs and its
  upload box) ignore events in that state.
- `localStorage` is the dashboard's `storage` map. The token is its `"token"` entry,
  and JavaScript truthiness makes an empty token count as none.
- Text is ASCII. Python's `str.lower` lower-cases only `A`–`Z` here. JavaScript's
  `trim` removes only space and the characters 9–13. The real functions also handle
  other Unicode letters and white space.
- The match score is a `real` input. The scoring function is not part of this model.

Where the code and the design description disagree, the model follows the code:

- `/analyze/` never sends a `suggestions` key, because `main.py` does not call the
  suggestion builder. `Wire.FromBackend` therefore has `suggestions == None`, and
  `HomeReport.ReportOfBackend` proves that the PDF then has no suggestions section.
- The dashboard checks its job description with `!jd`, not `!jd.trim()`. A
  description of white space only is therefore accepted there
  (`Dashboard.DashboardCheckIsLooser`).
- The dashboard never looks at `response.ok`. Any parsed body becomes the result,
  including an error body or `null`.
- The size check in `onDrop` is `size > MAX_FILE_SIZE`, so a file of exactly 5 MiB
  (5242880 bytes) is accepted (`UploadBox.LimitIsInclusive`).
- "Analyze Another Resume" does not cancel a pending request. A reply that arrives
  after the reset shows its result again (`Home.ResetThenReply`).

## Model

| member | source | states |
|---|---|---|
| SkillEngine.ExtractSkills | backend/skill_engine.py:26-32 | the loop's result is `Extracted(text)`: a table skill is found iff it occurs in the lower-cased text; the result is a subsequence of `SKILL_DB` in table order, has no duplicates, and has at most 32 entries |
| SkillEngine.SkillDbNoDuplicates | backend/skill_engine.py:6-17 | the 32 table entries are pairwise distinct |
| SkillEngine.ExtractedProperties | backend/skill_engine.py:26-32 | membership iff substring of the lower-cased text; table order; no duplicates; length at most 32 |
| SkillEngine.ExtractedCaseInsensitive | backend/skill_engine.py:27 | extracting from a text and from its lower case gives the same list |
| SkillEngine.JavascriptYieldsJava | backend/skill_engine.py:30 | a text containing "javascript" yields both "java" and "javascript" (plain substring test) |
| SkillEngine.MysqlYieldsSql | backend/skill_engine.py:30 | a text containing "mysql" yields both "sql" and "mysql" |
| SkillEngine.SkillGroupsWellFormed | backend/skill_engine.py:19-23 | the three related-skill groups are pairwise disjoint and all their members are in `SKILL_DB` |
| AnalyzeEndpoint.Classify | backend/main.py:44-60 | the loop, with its `partial` flag and `break`, yields exactly `ClassificationOf`: each list is the job-description skills of its kind, in job-description order |
| AnalyzeEndpoint.ClassificationPartition | backend/main.py:48-60 | the three lists together are the job-description skills as a multiset, so their lengths sum to `len(jd_skills)` |
| AnalyzeEndpoint.ClassificationOrder | backend/main.py:48-60 | each list is a subsequence of the job-description skills |
| AnalyzeEndpoint.ClassificationMembership | backend/main.py:49-60 | matched iff on the resume; partial iff not on the resume and some group holds it and a resume skill; missing iff not on the resume and no such group |
| AnalyzeEndpoint.PartialWithSkillGroups | backend/main.py:51-58 | the partial-match condition instantiated with the real `SKILL_GROUPS` of extracted skills |
| AnalyzeEndpoint.ReadinessRanges | backend/main.py:75-82 | the four labels cover [..40), [40, 70), [70, 85), [85..); 40, 70 and 85 go to the higher tier |
| AnalyzeEndpoint.ReadinessMonotone | backend/main.py:75-82 | a higher score never gives a lower readiness tier |
| AnalyzeEndpoint.AnalyzeResume | backend/main.py:41-96 | the response carries the extracted resume skills, the three classified lists (lengths summing to the job-description skill count), the roadmap of the missing skills only, its total days as `estimated_days_to_ready`, and the readiness label of the score |
| RoadmapEngine.GenerateRoadmap | backend/roadmap_engine.py:52-65 | the loop yields `RoadmapOf(missing)` and its `TotalDays`; one step per table-known input skill, in input order, with the table's days and tasks; at most as many steps as inputs; total between 4 and 7 days per step |
| RoadmapEngine.RoadmapIsLookup | backend/roadmap_engine.py:56-62 | the k-th step is the table entry of the k-th table-known input skill, repeats included; unknown skills are dropped |
| RoadmapEngine.PlanDurations | backend/roadmap_engine.py:1-50 | every duration in the table lies between 4 and 7 |
| RoadmapEngine.RoadmapDaysBounds | backend/roadmap_engine.py:63 | the total days lie between 4 and 7 times the number of steps |
| RoadmapEngine.EmptyRoadmap | backend/roadmap_engine.py:53-65 | no missing skills give `([], 0)` |
| AiSuggestions.FirstFive | backend/ai_suggestions.py:26 | `missing_skills[:5]`: a prefix of at most five items, the whole list when it is that short |
| AiSuggestions.GenerateResumeSuggestions | backend/ai_suggestions.py:1-46 | the appends yield exactly `SuggestionsOf`: the opening sentence, then the missing-skills, related-knowledge and projects sentences in that order, each only when its condition holds, then the action-verbs sentence; 2 to 5 sentences |
| AiSuggestions.SuggestionsOfShape | backend/ai_suggestions.py:9-44 | the first sentence by score tier (< 40, < 70, otherwise); the skills sentence second iff skills are missing; the related-knowledge sentence iff partial matches; the projects sentence iff fewer than 5 resume skills; last always the action-verbs sentence; exact length |
| AiSuggestions.CannedTextsDistinct | backend/ai_suggestions.py:10-44 | the five kinds of sentence are pairwise different, so the membership iffs are sharp |
| Text.LowerIdempotent | backend/skill_engine.py:27 | lower-casing is idempotent and leaves lower-case text alone |
| Text.TrimIsSlice | frontend/src/pages/Home.jsx:44 | `trim` cuts only white space from either end and leaves none at either end |
| Text.TrimEmptyIff | frontend/src/pages/Home.jsx:44 | `s.trim()` is empty iff `s` is all white space |
| Text.NatToStringRoundTrip | frontend/src/pages/Home.jsx:310-314 | reading back the decimal digits of a number gives the number |
| Password.GetPasswordStrength | frontend/src/pages/Register.jsx:6-22 | under 6 characters Weak; otherwise Weak for at most one criterion met, Medium for exactly two, Strong for three or more (criteria: length ≥ 8, digit, one of `!@#$%^&*`, `A`–`Z`) |
| Password.LongPlainPasswordIsWeak | frontend/src/pages/Register.jsx:14-19 | 8 or more characters without digit, listed symbol or capital is Weak |
| Password.ShortPasswordStrongIff | frontend/src/pages/Register.jsx:13-21 | a 6- or 7-character password is Strong iff it has a digit, a listed symbol and a capital |
| Password.OtherPunctuationNotSpecial | frontend/src/pages/Register.jsx:10 | appending a character outside `!@#$%^&*` does not make a password have a special character |
| Password.StrengthMonotone | frontend/src/pages/Register.jsx:7-21 | appending characters never lowers the strength |
| ScoreCircle.SafeScore | frontend/src/components/ScoreCircle.jsx:3-4 | the clamped score lies in [0, 100], equals an in-range score, is 100 above, 0 below, and 0 for a missing prop |
| ScoreCircle.DashOffset | frontend/src/components/ScoreCircle.jsx:22 | the offset lies in [0, C]; it is 0 at a clamped 100 and C at a clamped 0 |
| ScoreCircle.DashOffsetMonotone | frontend/src/components/ScoreCircle.jsx:22 | a higher score never gives a larger offset |
| ScoreCircle.Label | frontend/src/components/ScoreCircle.jsx:34 | the label lies in 0..100 and is within half a point of the clamped score, halves rounding up |
| ScoreCircle.LabelOfWholeScore | frontend/src/components/ScoreCircle.jsx:34 | a whole score in range is shown as itself |
| UploadBox.OnDrop | frontend/src/components/UploadBox.jsx:17-43 | any rejection stores nothing; the wrong-type message wins over the size message and other codes give no toast; otherwise the first accepted file is stored iff its size is at most 5 MiB, with the success toast |
| UploadBox.OnRemove | frontend/src/components/UploadBox.jsx:55-59 | remove clears the file and shows "File removed" |
| UploadBox.Apply | frontend/src/components/UploadBox.jsx:38 | storing replaces any previous file; clearing leaves none |
| UploadBox.DropStoresOnlyFittingFiles | frontend/src/components/UploadBox.jsx:19-40 | a drop never clears the file; it stores exactly when there is no rejection and the first accepted file fits; the success toast comes exactly with a stored file |
| UploadBox.LimitIsInclusive | frontend/src/components/UploadBox.jsx:33 | 5242880 bytes are stored, 5242881 bytes are refused with the size message |
| UploadBox.OnlyFirstFileMatters | frontend/src/components/UploadBox.jsx:29-30 | files after the first accepted one do not change the outcome |
| Wire.FromBackend | backend/main.py:86-96 | the frontend sees every response field present with the backend's value, the skill lists as lists of strings, the roadmap as one entry per step in order, and no suggestions |
| Wire.JsJoinStrings | frontend/src/pages/Dashboard.jsx:133 | JavaScript `join` of string entries is the join of the strings |
| Wire.AuthorizationFor | frontend/src/pages/Home.jsx:62-64 | a bearer header is sent iff a non-empty token is stored, and it is "Bearer " followed by the token |
| HomeReport.SkillTextsOfStrings | frontend/src/pages/Home.jsx:431 | skills sent as strings are shown and printed unchanged |
| HomeReport.SkillObjectText | frontend/src/pages/Home.jsx:756 | an object shows its `name`, failing that its `skill`, and never shows as empty |
| HomeReport.SuggestionSurfacesDiffer | frontend/src/pages/Home.jsx:523-529 | screen and PDF text of a suggestion differ iff it is an object with none of `text`, `suggestion`, `message` |
| HomeReport.RoadmapTextOfBackendStep | frontend/src/pages/Home.jsx:556-561 | a backend step reads "skill (N days) - task, task, task" on both surfaces |
| HomeReport.ScoreTierRanges | frontend/src/pages/Home.jsx:399-404 | green iff the score is at least 80, amber iff in [60, 80), red otherwise and when missing (the doughnut chart at lines 228-232 uses the same ladder) |
| HomeReport.CelebrationIsGreen | frontend/src/pages/Home.jsx:81 | confetti (score > 80) implies green, and 80 itself is green without confetti |
| HomeReport.TierAgreesWithReadiness | frontend/src/pages/Home.jsx:399-404 | a score the backend calls "Interview Ready" is green with confetti, "High Risk" is red, "Moderate" is never green |
| HomeReport.TrimmedRole | frontend/src/pages/Home.jsx:55-57 | the job role used is the trimmed input and is never empty |
| HomeReport.TrimmedRoleIff | frontend/src/pages/Home.jsx:380-385 | a job role is sent and printed iff the input is not all white space |
| HomeReport.BreakdownRowOf | frontend/src/pages/Home.jsx:454-476 | a row's count is the list length or 0; its skills text is the entries' texts joined by ", " when that join is not empty, and "None" when the list is missing, empty, or joins to "" |
| HomeReport.SuggestionRows | frontend/src/pages/Home.jsx:523-529 | row i is "i+1. " followed by the PDF text of the i-th suggestion |
| HomeReport.RoadmapRows | frontend/src/pages/Home.jsx:554-563 | row i is ("Step i+1", PDF text of the i-th roadmap entry) |
| HomeReport.ReportOfBackend | frontend/src/pages/Home.jsx:429-577 | for a backend response: no suggestions section; gaps table iff skills are missing, listing them; roadmap section iff steps exist, header with the total days; chart and breakdown counts are the list lengths; breakdown names are the joined lists or "None" |
| ReportPages.AsWrittenLayoutIsOffByOne | frontend/src/pages/Home.jsx:282-579 | the calls as written give five pages: a blank first page with footer 1, each section one page after its footer number, and no footer on the roadmap page |
| ReportPages.CorrectedLayoutNumbersPages | frontend/src/pages/Home.jsx:286-316 | without the first `addPage`, the report has 4 pages and page n holds the n-th section and a single footer, numbered n |
| ReportPages.FooterTextNamesOnePage | frontend/src/pages/Home.jsx:310-314 | the footer text "Page n of 4" determines n: different page numbers give different footers |
| ReportPages.AddFooter | frontend/src/pages/Home.jsx:289-316 | `addFooter(n)` moves to page n when it exists and appends footer n there, leaving other pages alone |
| ReportPages.SetPage | frontend/src/pages/Home.jsx:290 | `setPage(n)` moves to page n when it exists and otherwise changes nothing |
| Home.HomePage.BeginAnalyze | frontend/src/pages/Home.jsx:43-59 | a request goes out iff the button is enabled (not loading, a file, a non-blank description); its payload is the file, the description as typed, the trimmed role when non-empty and the bearer header; loading starts with the caption "Parsing resume"; a refusal shows the missing-input toast and changes nothing |
| Home.HomePage.Tick | frontend/src/pages/Home.jsx:31-37 | each timer firing moves the caption to the next of the three, wrapping around |
| Home.CaptionAfterTicks | frontend/src/pages/Home.jsx:31-36 | after k firings the caption is `messages[k mod 3]` |
| Home.HomePage.CompleteAnalyze | frontend/src/pages/Home.jsx:72-103 | the result is replaced only by an `ok` reply whose body parses (a `null` body clears it); every other reply keeps it and shows the failure toast; confetti above 80; loading always ends; the form and the caption state keep their values |
| Home.HomePage.Reset | frontend/src/pages/Home.jsx:107-112 | file, description, role and result are cleared and loading ends; the caption and its counter keep their values |
| Home.HomePage.DropFiles | frontend/src/pages/Home.jsx:638 | while loading, or while a file is shown (the upload box then renders only its preview, which has no drop zone), a drop changes nothing; otherwise the drop decision is applied |
| Home.HomePage.RemoveFile | frontend/src/components/UploadBox.jsx:98-100 | the remove button works only for a file and not while loading |
| Home.HomePage.EditJobDescription | frontend/src/pages/Home.jsx:640-644 | the description box takes input only when not loading |
| Home.HomePage.EditJobRole | frontend/src/pages/Home.jsx:628-633 | the role box takes input only when not loading |
| Home.HomePage.DownloadPdf | frontend/src/pages/Home.jsx:273-278 | no result gives the "No analysis results available" toast; otherwise the report of the result and the role, laid out on the intended 4 pages |
| HomeReport.BuildReport | frontend/src/pages/Home.jsx:380-563 | a target-role line iff the role is not all white space, showing the trimmed role; the score tier and the readiness line ("undefined" when absent); the chart counts and the three breakdown rows of the three lists; the skills and gaps tables iff their lists are present and non-empty, holding the entries' texts; the numbered suggestions rows and the roadmap rows under a header with the total days, each iff its list is non-empty, one row per entry; 4 pages, page n holding the n-th section and footer number n |
| Home.ResetThenReply | frontend/src/pages/Home.jsx:78 | a reply arriving after a reset puts its result back on the cleared page |
| Dashboard.DashboardPage.FetchHistory | frontend/src/pages/Dashboard.jsx:26-44 | no request without a token; otherwise the history becomes an array reply and `[]` for any other reply or an error |
| Dashboard.DashboardPage.BeginSubmit | frontend/src/pages/Dashboard.jsx:51-74 | ignored while loading; refused without a file or with an empty description; otherwise the form goes out with the bearer header when a token is stored |
| Dashboard.DashboardPage.CompleteSubmit | frontend/src/pages/Dashboard.jsx:76-96 | any parsed body replaces the result without an `ok` check; history refresh iff a token was sent and the body parsed; confetti above 80; loading always ends |
| Dashboard.DashboardPage.DeleteItem | frontend/src/pages/Dashboard.jsx:100-113 | the request goes to the entry's path with "Bearer " and the stored token ("Bearer null" without one), then a refresh unless the request threw |
| Dashboard.HistoryPath | frontend/src/pages/Dashboard.jsx:102 | the path is "/history/" followed by the id's decimal digits (after a "-" for a negative id), and those digits read back to the id |
| Dashboard.DashboardPage.DownloadReport | frontend/src/pages/Dashboard.jsx:116-138 | no result is refused first, then no token; otherwise the payload of the result with the stored token |
| Dashboard.PayloadOf | frontend/src/pages/Dashboard.jsx:128-138 | each present field is sent as it is (the missing skills joined by ", "); a missing score, readiness, skill list or day count is sent as 0, "", "" or 0 |
| Dashboard.DashboardPage.EditJobDescription | frontend/src/pages/Dashboard.jsx:189-194 | the description box always takes input, also while loading, and nothing else changes |
| Dashboard.DashboardPage.DropFiles | frontend/src/pages/Dashboard.jsx:187 | the upload box is never disabled: every drop applies the drop decision of the upload box |
| Dashboard.PayloadOfBackend | frontend/src/pages/Dashboard.jsx:128-138 | the payload of a backend response is its score, readiness label, missing skills joined by ", " and total days |
| Dashboard.DashboardPage.Logout | frontend/src/pages/Dashboard.jsx:20-23 | the token entry is removed, every other entry kept, and the page is signed out |
| Dashboard.DashboardCheckIsLooser | frontend/src/pages/Dashboard.jsx:52-55 | the dashboard accepts whatever the analysis page accepts, and in addition exactly the non-empty all-white-space descriptions |

## Left out

- `calculate_similarity` and `calculate_final_score` (backend/skill_engine.py:35-87): TF-IDF and cosine similarity in floating point. The match score is an input instead.
- Saving the upload and `extract_text_from_pdf` (backend/main.py:34-39): disk I/O and a module that is not part of this model. The resume text is an input. The FastAPI application, CORS set-up and the debug `print`s are out too.
- Network, storage and UI effects: `fetch`, `toast.loading`, `confetti`, `scrollIntoView`, `setTimeout`, `navigate` and Framer Motion. The model returns the toast, the confetti flag and the request instead, and takes replies as inputs.
- Chart.js rendering and the jsPDF drawing (`yPos` arithmetic, colours, images, the timestamp, `${match_score}%` number formatting). Pages that autoTable adds for long tables are also out. Only the section placement, footer numbering and the text of the table rows are modelled.
- `formatFileSize` (frontend/src/components/UploadBox.jsx:9-15): floating-point logarithms. The file preview markup is out too.
- react-dropzone's own `accept`, `maxSize` and `multiple` filtering: its verdict is the input of `OnDrop`.
- The loading toast ("AI is analyzing your resume...") that the success or failure toast later replaces.
- `handleRegister`, Login.jsx, models.py, App.jsx, Navbar.jsx, Analyze.jsx and ParticlesBg.jsx: network code, declarations, routing and animation.
- A `null` field value of the analysis result is not modelled: `Wire.AnalysisResult` has only an absent field (`None`) and a present value (`Some`). Where the model's `HomeReport.BuildReport` prints "undefined" for an absent `readiness_level` or `estimated_days_to_ready` (frontend/src/pages/Home.jsx:415 and 549), a `null` value prints "null"; the dashboard's `||` defaults (frontend/src/pages/Dashboard.jsx:129 and 136) treat `null` like an absent field. The backend always sends both fields.
- A JSON reply that is a number, string or array where an object is expected is not modelled. Such a reply is an object with only absent fields, a `null`, or unparsable.
- Non-string values inside `tasks` of a roadmap entry, and non-string `skill` properties, are not modelled.
- The backend's `/history/` and `/generate-report/` endpoints are not in `main.py`. The dashboard's requests to them are modelled only up to the request.
- HomeReport.BuildReport: it lays the report out on the evidently intended 4 pages (`ReportPages.CorrectedLayout`). The calls as written give the 5 pages of `ReportPages.AsWrittenLayout` (see Findings), so the model does not capture the blank first page or the shifted footers of the real PDF.
- Home.HomePage.DownloadPdf: its report follows `HomeReport.BuildReport`, so the same 4-page layout stands in for the 5 pages as written.
- HomeReport.ReportOfBackend: it assumes that the skill lists contain no empty string. This holds for backend output because every `SKILL_DB` entry is non-empty, but the model does not prove it.
- Home.HomePage.BeginAnalyze: pressing the button while loading is treated as ignored, because the button is then disabled (frontend/src/pages/Home.jsx:653). The handler itself has no such check.
- Dashboard.DashboardPage.CompleteSubmit: the dashboard reads its token once per render. The model instead takes the token the request carried.
- Unicode: lower-casing and trimming are ASCII only, and string lengths count characters, not UTF-16 code units.

## Findings

| source | as written | input that shows it | evidently intended | confidence | as-written member | corrected member |
|---|---|---|---|---|---|---|
| frontend/src/pages/Home.jsx:333 | `doc.addPage()` runs before the cover, although `new jsPDF()` already holds an empty page. The report has five pages: page 1 is blank except for the "Page 1 of 4" footer, every section sits one page after its footer number, and the roadmap page has no footer | any result, with tables short enough that autoTable adds no page | the cover on the first page and 4 pages, page n holding the n-th section with footer "Page n of 4" | not executed | ReportPages.AsWrittenLayoutIsOffByOne | ReportPages.CorrectedLayoutNumbersPages |
