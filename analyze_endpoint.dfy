/**
 * The `/analyze/` handler of the backend (backend/main.py): it extracts the
 * skills of the resume and of the job description, sorts every job-description
 * skill into fully matched, partially matched (a skill of the same group is on
 * the resume) or fully missing, builds the roadmap for the missing ones, maps
 * the score to a readiness label and assembles the response.
 */
module AnalyzeEndpoint {
  import opened Seqs
  import opened SkillEngine
  import opened RoadmapEngine

  /** The three lists the classification loop fills. */
  datatype Classification = Classification(
    fullyMatched: seq<string>,
    partiallyMatched: seq<string>,
    fullyMissing: seq<string>)

  /** `any(skill in resume_skills for skill in group)`. */
  predicate AnyOnResume(group: seq<string>, resumeSkills: seq<string>)
  {
    exists skill :: skill in group && skill in resumeSkills
  }

  /** Some group contains `skill` and also a skill that is on the resume. */
  predicate HasGroupMate(skill: string, resumeSkills: seq<string>, groups: seq<SkillGroup>)
  {
    exists g :: 0 <= g < |groups| && skill in groups[g].members && AnyOnResume(groups[g].members, resumeSkills)
  }

  function IsMatched(resumeSkills: seq<string>): string -> bool
  {
    skill => skill in resumeSkills
  }

  function IsPartial(resumeSkills: seq<string>, groups: seq<SkillGroup>): string -> bool
  {
    skill => skill !in resumeSkills && HasGroupMate(skill, resumeSkills, groups)
  }

  function IsMissing(resumeSkills: seq<string>, groups: seq<SkillGroup>): string -> bool
  {
    skill => skill !in resumeSkills && !HasGroupMate(skill, resumeSkills, groups)
  }

  /** What the classification loop produces: each list is the job-description skills
      of its kind, in job-description order. */
  function ClassificationOf(resumeSkills: seq<string>, jdSkills: seq<string>, groups: seq<SkillGroup>): Classification
  {
    Classification(
      Filter(jdSkills, IsMatched(resumeSkills)),
      Filter(jdSkills, IsPartial(resumeSkills, groups)),
      Filter(jdSkills, IsMissing(resumeSkills, groups)))
  }

  /** The loop of `analyze_resume`, with its `partial` flag and the `break` out of the
      scan over the groups. */
  method Classify(resumeSkills: seq<string>, jdSkills: seq<string>, groups: seq<SkillGroup>)
    returns (c: Classification)
    ensures c == ClassificationOf(resumeSkills, jdSkills, groups)
    ensures |c.fullyMatched| + |c.partiallyMatched| + |c.fullyMissing| == |jdSkills|
  {
    var fullyMatched, partiallyMatched, fullyMissing := [], [], [];
    var i := 0;
    while i < |jdSkills|
      invariant 0 <= i <= |jdSkills|
      invariant fullyMatched == Filter(jdSkills[..i], IsMatched(resumeSkills))
      invariant partiallyMatched == Filter(jdSkills[..i], IsPartial(resumeSkills, groups))
      invariant fullyMissing == Filter(jdSkills[..i], IsMissing(resumeSkills, groups))
    {
      var jdSkill := jdSkills[i];
      assert jdSkills[..i + 1] == jdSkills[..i] + [jdSkill];
      FilterSnoc(jdSkills[..i], jdSkill, IsMatched(resumeSkills));
      FilterSnoc(jdSkills[..i], jdSkill, IsPartial(resumeSkills, groups));
      FilterSnoc(jdSkills[..i], jdSkill, IsMissing(resumeSkills, groups));
      if jdSkill in resumeSkills {
        fullyMatched := fullyMatched + [jdSkill];
      } else {
        var partial := false;
        var j := 0;
        while j < |groups|
          invariant 0 <= j <= |groups|
          invariant !partial
          invariant forall k :: 0 <= k < j ==>
            !(jdSkill in groups[k].members && AnyOnResume(groups[k].members, resumeSkills))
        {
          if jdSkill in groups[j].members {
            if AnyOnResume(groups[j].members, resumeSkills) {
              partiallyMatched := partiallyMatched + [jdSkill];
              partial := true;
              break;
            }
          }
          j := j + 1;
        }
        if !partial {
          fullyMissing := fullyMissing + [jdSkill];
        }
      }
      i := i + 1;
    }
    assert jdSkills[..i] == jdSkills;
    c := Classification(fullyMatched, partiallyMatched, fullyMissing);
    ClassificationPartition(resumeSkills, jdSkills, groups);
  }

  /** Every job-description skill lands in exactly one of the three lists: together they
      hold the job-description skills exactly, so their lengths add up. */
  lemma ClassificationPartition(resumeSkills: seq<string>, jdSkills: seq<string>, groups: seq<SkillGroup>)
    ensures var c := ClassificationOf(resumeSkills, jdSkills, groups);
      multiset(c.fullyMatched) + multiset(c.partiallyMatched) + multiset(c.fullyMissing) == multiset(jdSkills) &&
      |c.fullyMatched| + |c.partiallyMatched| + |c.fullyMissing| == |jdSkills|
  {
    var matched, partial, missing := IsMatched(resumeSkills), IsPartial(resumeSkills, groups), IsMissing(resumeSkills, groups);
    forall i | 0 <= i < |jdSkills| ensures ExactlyOne(matched(jdSkills[i]), partial(jdSkills[i]), missing(jdSkills[i])) {
    }
    FilterPartition3(jdSkills, matched, partial, missing);
  }

  /** Each list keeps the job-description order. */
  lemma ClassificationOrder(resumeSkills: seq<string>, jdSkills: seq<string>, groups: seq<SkillGroup>)
    ensures var c := ClassificationOf(resumeSkills, jdSkills, groups);
      IsSubsequence(c.fullyMatched, jdSkills) && IsSubsequence(c.partiallyMatched, jdSkills) &&
      IsSubsequence(c.fullyMissing, jdSkills)
  {
    FilterIsSubsequence(jdSkills, IsMatched(resumeSkills));
    FilterIsSubsequence(jdSkills, IsPartial(resumeSkills, groups));
    FilterIsSubsequence(jdSkills, IsMissing(resumeSkills, groups));
  }

  /** What it takes to land in each list: fully matched skills are on the resume;
      partially matched ones are not, but a group holds them together with a resume
      skill; fully missing ones are not on the resume and have no such group-mate. */
  lemma ClassificationMembership(resumeSkills: seq<string>, jdSkills: seq<string>, groups: seq<SkillGroup>, skill: string)
    ensures var c := ClassificationOf(resumeSkills, jdSkills, groups);
      (skill in c.fullyMatched <==> skill in jdSkills && skill in resumeSkills) &&
      (skill in c.partiallyMatched <==>
        skill in jdSkills && skill !in resumeSkills &&
        exists g :: 0 <= g < |groups| && skill in groups[g].members &&
          exists mate :: mate in groups[g].members && mate in resumeSkills) &&
      (skill in c.fullyMissing <==>
        skill in jdSkills && skill !in resumeSkills && !HasGroupMate(skill, resumeSkills, groups))
  {
    FilterMembership(jdSkills, IsMatched(resumeSkills), skill);
    FilterMembership(jdSkills, IsPartial(resumeSkills, groups), skill);
    FilterMembership(jdSkills, IsMissing(resumeSkills, groups), skill);
  }

  // ---------------------------------------------------------------- readiness

  datatype Readiness = HighRisk | Moderate | Strong | InterviewReady {
    /** The `readiness_level` text. */
    function Label(): string
    {
      match this
      case HighRisk => "High Risk - Major skill gaps"
      case Moderate => "Moderate - Needs Improvement"
      case Strong => "Strong - Interview Possible"
      case InterviewReady => "Interview Ready"
    }

    /** Position on the ladder, lowest first. */
    function Rank(): nat
    {
      match this
      case HighRisk => 0
      case Moderate => 1
      case Strong => 2
      case InterviewReady => 3
    }
  }

  /** The if/elif ladder on `match_score`. */
  function ReadinessOf(matchScore: real): Readiness
  {
    if matchScore < 40.0 then HighRisk
    else if matchScore < 70.0 then Moderate
    else if matchScore < 85.0 then Strong
    else InterviewReady
  }

  /** Each tier covers a half-open score range, so 40, 70 and 85 belong to the higher tier. */
  lemma ReadinessRanges(matchScore: real)
    ensures ReadinessOf(matchScore) == HighRisk <==> matchScore < 40.0
    ensures ReadinessOf(matchScore) == Moderate <==> 40.0 <= matchScore < 70.0
    ensures ReadinessOf(matchScore) == Strong <==> 70.0 <= matchScore < 85.0
    ensures ReadinessOf(matchScore) == InterviewReady <==> 85.0 <= matchScore
    ensures ReadinessOf(40.0) == Moderate && ReadinessOf(70.0) == Strong && ReadinessOf(85.0) == InterviewReady
  {
  }

  /** A higher score never gives a lower tier. */
  lemma ReadinessMonotone(lower: real, higher: real)
    requires lower <= higher
    ensures ReadinessOf(lower).Rank() <= ReadinessOf(higher).Rank()
  {
  }

  // ---------------------------------------------------------------- response

  /** The JSON object `analyze_resume` returns. */
  datatype AnalysisResponse = AnalysisResponse(
    matchScore: real,
    resumeSkills: seq<string>,
    fullyMatched: seq<string>,
    partiallyMatched: seq<string>,
    fullyMissing: seq<string>,
    estimatedDaysToReady: nat,
    roadmap: seq<Step>,
    readinessLevel: string)

  /** `analyze_resume` after the upload has been saved and its text extracted:
      `resumeText` is that text and `matchScore` what the scoring function returned. */
  method AnalyzeResume(resumeText: string, jobDescription: string, matchScore: real)
    returns (r: AnalysisResponse)
    ensures r.matchScore == matchScore
    ensures r.resumeSkills == Extracted(resumeText)
    ensures var c := ClassificationOf(Extracted(resumeText), Extracted(jobDescription), SkillGroups);
      r.fullyMatched == c.fullyMatched && r.partiallyMatched == c.partiallyMatched && r.fullyMissing == c.fullyMissing
    ensures |r.fullyMatched| + |r.partiallyMatched| + |r.fullyMissing| == |Extracted(jobDescription)|
    ensures r.roadmap == RoadmapOf(r.fullyMissing)
    ensures r.estimatedDaysToReady == TotalDays(r.roadmap)
    ensures r.readinessLevel == ReadinessOf(matchScore).Label()
  {
    var resumeSkills := ExtractSkills(resumeText);
    var jdSkills := ExtractSkills(jobDescription);
    var c := Classify(resumeSkills, jdSkills, SkillGroups);
    var roadmap, totalDays := GenerateRoadmap(c.fullyMissing);
    var readiness := ReadinessOf(matchScore);
    r := AnalysisResponse(matchScore, resumeSkills, c.fullyMatched, c.partiallyMatched, c.fullyMissing,
                          totalDays, roadmap, readiness.Label());
  }

  /** With the real skill groups: a skill is partially matched exactly when it is not on
      the resume and one of the groups holds both it and a resume skill. */
  lemma PartialWithSkillGroups(resumeText: string, jobDescription: string, skill: string)
    ensures var resumeSkills := Extracted(resumeText);
      var c := ClassificationOf(resumeSkills, Extracted(jobDescription), SkillGroups);
      skill in c.partiallyMatched <==>
        skill in Extracted(jobDescription) && skill !in resumeSkills &&
        exists g :: 0 <= g < 3 && skill in SkillGroups[g].members &&
          exists mate :: mate in SkillGroups[g].members && mate in resumeSkills
  {
    ClassificationMembership(Extracted(resumeText), Extracted(jobDescription), SkillGroups, skill);
  }
}
