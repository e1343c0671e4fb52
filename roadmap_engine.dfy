/**
 * The learning-roadmap builder of the backend (backend/roadmap_engine.py): a fixed
 * table from skill to study days and tasks, and a loop that turns a list of missing
 * skills into roadmap steps, adding up the days.
 */
module RoadmapEngine {
  import opened Seqs

  /** One value of `ROADMAP_DB`: its `"days"` and `"tasks"`. */
  datatype Plan = Plan(days: nat, tasks: seq<string>)

  /** `ROADMAP_DB`. */
  const RoadmapDb: map<string, Plan> := map[
    "fastapi" := Plan(7, ["Learn FastAPI basics", "Build CRUD API project", "Deploy on Render"]),
    "docker" := Plan(5, ["Learn Docker fundamentals", "Dockerize a Python app", "Push image to Docker Hub"]),
    "system design" := Plan(7, ["Learn scalability basics", "Study load balancing", "Design URL shortener system"]),
    "rest api" := Plan(4, ["Understand REST principles", "Learn HTTP methods", "Build RESTful backend"]),
    "postgresql" := Plan(5, ["Learn PostgreSQL basics", "Practice joins and indexing", "Integrate with backend project"]),
    "aws" := Plan(7, ["Learn EC2 basics", "Deploy app on AWS", "Understand S3 and IAM"])
  ]

  /** One roadmap item: `{"skill", "duration_days", "tasks"}`. */
  datatype Step = Step(skill: string, durationDays: nat, tasks: seq<string>)

  /** Does the table know this skill? */
  function HasPlan(): string -> bool
  {
    skill => skill in RoadmapDb
  }

  /** The step the loop appends for a skill the table knows. */
  function StepFor(skill: string): (r: Step)
    requires skill in RoadmapDb
    ensures r.skill == skill
  {
    Step(skill, RoadmapDb[skill].days, RoadmapDb[skill].tasks)
  }

  /** The roadmap `generate_roadmap(missing)` returns, built from the end as the loop does. */
  function RoadmapOf(missing: seq<string>): seq<Step>
  {
    if missing == [] then []
    else
      var last := missing[|missing| - 1];
      RoadmapOf(missing[..|missing| - 1]) + (if last in RoadmapDb then [StepFor(last)] else [])
  }

  /** The sum of the steps' durations. */
  function TotalDays(steps: seq<Step>): nat
  {
    if steps == [] then 0 else TotalDays(steps[..|steps| - 1]) + steps[|steps| - 1].durationDays
  }

  /** `generate_roadmap`: one step per table-known skill, in input order, and the total days. */
  method GenerateRoadmap(missing: seq<string>) returns (roadmap: seq<Step>, totalDays: nat)
    ensures roadmap == RoadmapOf(missing) && totalDays == TotalDays(roadmap)
    ensures |roadmap| == |Filter(missing, HasPlan())| <= |missing|
    ensures forall k :: 0 <= k < |roadmap| ==>
      var skill := Filter(missing, HasPlan())[k];
      skill in RoadmapDb && roadmap[k] == Step(skill, RoadmapDb[skill].days, RoadmapDb[skill].tasks)
    ensures 4 * |roadmap| <= totalDays <= 7 * |roadmap|
  {
    roadmap, totalDays := [], 0;
    var i := 0;
    while i < |missing|
      invariant 0 <= i <= |missing|
      invariant roadmap == RoadmapOf(missing[..i])
      invariant totalDays == TotalDays(roadmap)
    {
      var skill := missing[i];
      assert missing[..i + 1][..i] == missing[..i];
      if skill in RoadmapDb {
        var step := StepFor(skill);
        assert (roadmap + [step])[..|roadmap|] == roadmap;
        roadmap := roadmap + [step];
        totalDays := totalDays + RoadmapDb[skill].days;
      }
      i := i + 1;
    }
    assert missing[..i] == missing;
    RoadmapIsLookup(missing);
    FilterLength(missing, HasPlan());
    RoadmapDaysBounds(missing);
  }

  /** The roadmap is the table lookup of exactly the input skills the table knows, in
      input order and with repeats; the other skills are dropped. */
  lemma {:induction false} RoadmapIsLookup(missing: seq<string>)
    ensures |RoadmapOf(missing)| == |Filter(missing, HasPlan())|
    ensures forall k :: 0 <= k < |RoadmapOf(missing)| ==>
      Filter(missing, HasPlan())[k] in RoadmapDb &&
      RoadmapOf(missing)[k] == StepFor(Filter(missing, HasPlan())[k])
  {
    if missing != [] {
      var init, last := missing[..|missing| - 1], missing[|missing| - 1];
      RoadmapIsLookup(init);
      var f, fi := Filter(missing, HasPlan()), Filter(init, HasPlan());
      assert f == fi + (if last in RoadmapDb then [last] else []);
      assert RoadmapOf(missing) == RoadmapOf(init) + (if last in RoadmapDb then [StepFor(last)] else []);
    }
  }

  /** Every duration in the table lies between 4 and 7 days. */
  lemma PlanDurations()
    ensures forall skill :: skill in RoadmapDb ==> 4 <= RoadmapDb[skill].days <= 7
  {
  }

  /** Hence the total lies between 4 and 7 days per step. */
  lemma {:induction false} RoadmapDaysBounds(missing: seq<string>)
    ensures 4 * |RoadmapOf(missing)| <= TotalDays(RoadmapOf(missing)) <= 7 * |RoadmapOf(missing)|
  {
    if missing != [] {
      var init, last := missing[..|missing| - 1], missing[|missing| - 1];
      RoadmapDaysBounds(init);
      PlanDurations();
      var r, ri := RoadmapOf(missing), RoadmapOf(init);
      if last in RoadmapDb {
        assert r == ri + [StepFor(last)];
        assert r[..|r| - 1] == ri;
        assert TotalDays(r) == TotalDays(ri) + RoadmapDb[last].days;
      } else {
        assert r == ri;
      }
    }
  }

  /** An empty list of missing skills gives an empty roadmap of zero days. */
  lemma EmptyRoadmap()
    ensures RoadmapOf([]) == [] && TotalDays(RoadmapOf([])) == 0
  {
  }
}
