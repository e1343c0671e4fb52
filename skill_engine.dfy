/**
 * The skill vocabulary and the skill extractor of the backend
 * (backend/skill_engine.py): a fixed table of 32 skill names, three groups of
 * related skills, and a scan that keeps, in table order, every table entry that
 * occurs as a substring of the lower-cased text.
 */
module SkillEngine {
  import opened Seqs
  import opened Text

  /** `SKILL_DB`, in its order. */
  const SkillDb: seq<string> := [
    "python", "java", "c++", "sql", "mysql", "postgresql",
    "machine learning", "deep learning", "tensorflow", "pytorch",
    "react", "node.js", "fastapi", "flask", "django",
    "data structures", "algorithms", "system design",
    "aws", "azure", "gcp",
    "docker", "kubernetes",
    "rest api", "microservices",
    "html", "css", "javascript",
    "mongodb", "redis",
    "git", "linux"
  ]

  /** One entry of the `SKILL_GROUPS` dictionary: a key and its list of related skills. */
  datatype SkillGroup = SkillGroup(name: string, members: seq<string>)

  /** `SKILL_GROUPS`, in the dictionary's insertion order (the order of `.values()`). */
  const SkillGroups: seq<SkillGroup> := [
    SkillGroup("cloud", ["aws", "azure", "gcp"]),
    SkillGroup("backend_framework", ["fastapi", "flask", "django"]),
    SkillGroup("database", ["sql", "mysql", "postgresql", "mongodb"])
  ]

  /** The test applied to each table entry: does it occur in `text`? */
  function OccursIn(text: string): string -> bool
  {
    skill => Contains(text, skill)
  }

  /** What `extract_skills(text)` returns. */
  function Extracted(text: string): seq<string>
  {
    Filter(SkillDb, OccursIn(Lower(text)))
  }

  /** `extract_skills`: lower-case the text, then scan the table in order. */
  method ExtractSkills(text: string) returns (found: seq<string>)
    ensures found == Extracted(text)
    ensures forall skill :: skill in found <==> skill in SkillDb && Contains(Lower(text), skill)
    ensures IsSubsequence(found, SkillDb) && NoDuplicates(found) && |found| <= |SkillDb| == 32
  {
    var lowered := Lower(text);
    found := [];
    var i := 0;
    while i < |SkillDb|
      invariant 0 <= i <= |SkillDb|
      invariant found == Filter(SkillDb[..i], OccursIn(lowered))
    {
      var skill := SkillDb[i];
      assert SkillDb[..i + 1] == SkillDb[..i] + [skill];
      FilterSnoc(SkillDb[..i], skill, OccursIn(lowered));
      if Contains(lowered, skill) {
        found := found + [skill];
      }
      i := i + 1;
    }
    assert SkillDb[..i] == SkillDb;
    ExtractedProperties(text);
  }

  /** The table lists no skill twice. */
  lemma SkillDbNoDuplicates()
    ensures NoDuplicates(SkillDb)
  {
    SkillDbFirstHalfDistinct();
    SkillDbSecondHalfDistinct();
    SkillDbHalvesDisjoint();
  }

  lemma SkillDbFirstHalfDistinct()
    ensures forall i, j :: 0 <= i < j < 16 ==> SkillDb[i] != SkillDb[j]
  {
  }

  lemma SkillDbSecondHalfDistinct()
    ensures forall i, j :: 16 <= i < j < 32 ==> SkillDb[i] != SkillDb[j]
  {
  }

  lemma SkillDbHalvesDisjoint()
    ensures forall i, j :: 0 <= i < 16 <= j < 32 ==> SkillDb[i] != SkillDb[j]
  {
  }

  /** Membership, order and the absence of duplicates in the extractor's result. */
  lemma ExtractedProperties(text: string)
    ensures forall skill :: skill in Extracted(text) <==> skill in SkillDb && Contains(Lower(text), skill)
    ensures IsSubsequence(Extracted(text), SkillDb)
    ensures NoDuplicates(Extracted(text))
    ensures |Extracted(text)| <= |SkillDb| == 32
  {
    var p := OccursIn(Lower(text));
    forall skill ensures skill in Extracted(text) <==> skill in SkillDb && Contains(Lower(text), skill) {
      FilterMembership(SkillDb, p, skill);
    }
    FilterIsSubsequence(SkillDb, p);
    SkillDbNoDuplicates();
    FilterNoDuplicates(SkillDb, p);
    FilterLength(SkillDb, p);
  }

  /** Extraction ignores case: the text and its lower case give the same skills. */
  lemma ExtractedCaseInsensitive(text: string)
    ensures Extracted(text) == Extracted(Lower(text))
  {
    LowerIdempotent(text);
  }

  /** Matching is plain substring matching: a text mentioning "javascript" also yields
      "java". */
  lemma JavascriptYieldsJava(text: string)
    requires Contains(Lower(text), "javascript")
    ensures "java" in Extracted(text) && "javascript" in Extracted(text)
  {
    var p := OccursIn(Lower(text));
    assert OccursAt("javascript", "java", 0);
    ContainsTransitive(Lower(text), "javascript", "java");
    assert SkillDb[1] == "java" && SkillDb[27] == "javascript";
    FilterMembership(SkillDb, p, "java");
    FilterMembership(SkillDb, p, "javascript");
  }

  /** Likewise a text mentioning "mysql" also yields "sql". */
  lemma MysqlYieldsSql(text: string)
    requires Contains(Lower(text), "mysql")
    ensures "sql" in Extracted(text) && "mysql" in Extracted(text)
  {
    var p := OccursIn(Lower(text));
    assert OccursAt("mysql", "sql", 2);
    ContainsTransitive(Lower(text), "mysql", "sql");
    assert SkillDb[3] == "sql" && SkillDb[4] == "mysql";
    FilterMembership(SkillDb, p, "sql");
    FilterMembership(SkillDb, p, "mysql");
  }

  /** The three groups share no skill, and every grouped skill is in the table. */
  lemma SkillGroupsWellFormed()
    ensures forall g, h :: 0 <= g < h < |SkillGroups| ==>
      forall s :: s in SkillGroups[g].members ==> s !in SkillGroups[h].members
    ensures forall g, s :: 0 <= g < |SkillGroups| && s in SkillGroups[g].members ==> s in SkillDb
  {
  }
}
