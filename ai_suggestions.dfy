/**
 * The canned resume suggestions of the backend (backend/ai_suggestions.py): one
 * score-dependent sentence, up to three conditional ones, and a closing
 * sentence about action verbs, in that order.
 */
module AiSuggestions {
  import opened Text

  // Each sentence is written as its clauses joined, which lets the verifier read
  // its first letter.
  const MajorGaps := "Your resume has major skill gaps." + " Focus on learning core required technologies first."
  const CloseToRequirements := "You are close to the job requirements." + " Strengthen your weak areas and add more projects."
  const ProfileStrong := "Your profile is strong." + " Focus on polishing achievements and interview preparation."
  const AddSkillsPrefix := "Consider adding these skills: "
  const RelatedKnowledge := "You have related knowledge." + " Improve depth in partially matched skills."
  const MoreProjects := "Add more technical projects" + " to strengthen your resume."
  const ActionVerbs := "Use action verbs and quantify achievements" + " (e.g., Improved accuracy by 20%)."

  /** At most the first five missing skills (Python `missing_skills[:5]`). */
  function FirstFive(skills: seq<string>): (r: seq<string>)
    ensures |r| <= 5 && |r| <= |skills| && r == skills[..|r|]
    ensures |skills| <= 5 ==> r == skills
  {
    if |skills| <= 5 then skills else skills[..5]
  }

  /** The missing-skills sentence: the first five skills joined by ", ". */
  function AddSkillsText(missingSkills: seq<string>): string
  {
    AddSkillsPrefix + Join(FirstFive(missingSkills), ", ")
  }

  /** The score-dependent opening sentence. */
  function OpeningSentence(matchScore: real): string
  {
    if matchScore < 40.0 then MajorGaps
    else if matchScore < 70.0 then CloseToRequirements
    else ProfileStrong
  }

  /** One sentence when the condition holds, none otherwise. */
  function When(cond: bool, sentence: string): seq<string>
  {
    if cond then [sentence] else []
  }

  /** The whole list in source order: opening, missing skills, related knowledge,
      projects, action verbs, each conditional one present only when its condition
      holds. */
  function SuggestionsOf(matchScore: real, missingSkills: seq<string>,
                         partiallyMatched: seq<string>, resumeSkills: seq<string>): seq<string>
  {
    [OpeningSentence(matchScore)]
      + When(missingSkills != [], AddSkillsText(missingSkills))
      + When(partiallyMatched != [], RelatedKnowledge)
      + When(|resumeSkills| < 5, MoreProjects)
      + [ActionVerbs]
  }

  /** `generate_resume_suggestions`: the list grows by conditional appends. */
  method GenerateResumeSuggestions(matchScore: real, missingSkills: seq<string>,
                                   partiallyMatched: seq<string>, resumeSkills: seq<string>)
    returns (suggestions: seq<string>)
    ensures suggestions == SuggestionsOf(matchScore, missingSkills, partiallyMatched, resumeSkills)
    ensures 2 <= |suggestions| <= 5 && suggestions[|suggestions| - 1] == ActionVerbs
  {
    suggestions := [];
    if matchScore < 40.0 {
      suggestions := suggestions + [MajorGaps];
    } else if matchScore < 70.0 {
      suggestions := suggestions + [CloseToRequirements];
    } else {
      suggestions := suggestions + [ProfileStrong];
    }
    assert suggestions == [OpeningSentence(matchScore)];
    if missingSkills != [] {
      suggestions := suggestions + [AddSkillsText(missingSkills)];
    }
    assert suggestions == [OpeningSentence(matchScore)] + When(missingSkills != [], AddSkillsText(missingSkills));
    if partiallyMatched != [] {
      suggestions := suggestions + [RelatedKnowledge];
    }
    assert suggestions == [OpeningSentence(matchScore)] + When(missingSkills != [], AddSkillsText(missingSkills))
      + When(partiallyMatched != [], RelatedKnowledge);
    if |resumeSkills| < 5 {
      suggestions := suggestions + [MoreProjects];
    }
    suggestions := suggestions + [ActionVerbs];
  }

  /** What `generate_resume_suggestions` promises: 2 to 5 sentences, the opening one by score tier, the
      missing-skills sentence second when there is one, each conditional sentence present
      exactly when its condition holds, and the action-verbs sentence last. */
  lemma SuggestionsOfShape(matchScore: real, missingSkills: seq<string>,
                           partiallyMatched: seq<string>, resumeSkills: seq<string>)
    ensures var l := SuggestionsOf(matchScore, missingSkills, partiallyMatched, resumeSkills);
      2 <= |l| <= 5 &&
      (matchScore < 40.0 ==> l[0] == MajorGaps) &&
      (40.0 <= matchScore < 70.0 ==> l[0] == CloseToRequirements) &&
      (70.0 <= matchScore ==> l[0] == ProfileStrong) &&
      (missingSkills != [] ==> l[1] == AddSkillsText(missingSkills)) &&
      (AddSkillsText(missingSkills) in l <==> missingSkills != []) &&
      (RelatedKnowledge in l <==> partiallyMatched != []) &&
      (MoreProjects in l <==> |resumeSkills| < 5) &&
      l[|l| - 1] == ActionVerbs &&
      |l| == 2 + (if missingSkills != [] then 1 else 0)
        + (if partiallyMatched != [] then 1 else 0) + (if |resumeSkills| < 5 then 1 else 0)
  {
    var first := OpeningSentence(matchScore);
    var a := When(missingSkills != [], AddSkillsText(missingSkills));
    var b := When(partiallyMatched != [], RelatedKnowledge);
    var c := When(|resumeSkills| < 5, MoreProjects);
    var l := [first] + a + b + c + [ActionVerbs];
    assert l == SuggestionsOf(matchScore, missingSkills, partiallyMatched, resumeSkills);
    CannedTextsDistinct(missingSkills, first);
    assert forall x :: x in l <==> x == first || x in a || x in b || x in c || x == ActionVerbs;
  }

  /** The sentences cannot be mistaken for one another. */
  lemma CannedTextsDistinct(missingSkills: seq<string>, first: string)
    requires first in {MajorGaps, CloseToRequirements, ProfileStrong}
    ensures AddSkillsText(missingSkills) !in {first, RelatedKnowledge, MoreProjects, ActionVerbs}
    ensures RelatedKnowledge !in {first, MoreProjects, ActionVerbs}
    ensures MoreProjects !in {first, ActionVerbs}
  {
    var t := AddSkillsText(missingSkills);
    assert t[0] == 'C';
    assert MajorGaps[0] == 'Y' && CloseToRequirements[0] == 'Y' && ProfileStrong[0] == 'Y';
    assert RelatedKnowledge[0] == 'Y' && MoreProjects[0] == 'A' && ActionVerbs[0] == 'U';
    assert |MajorGaps| == 85 && |CloseToRequirements| == 88 && |ProfileStrong| == 82;
    assert |RelatedKnowledge| == 70 && |MoreProjects| == 54 && |ActionVerbs| == 76;
  }
}
