/** The state handlers of the company dashboard
    (components/dashboards/company-dashboard/CompanyDashboard.tsx): the
    case-insensitive skill filter over the candidate fixture, interview
    scheduling, and add / edit / delete of internship positions. */
module CompanyDashboard {
  import opened Wrappers
  import opened Js
  import opened Entities
  import IdLists

  /** The candidate fixture the filter always starts from
      (`mockCandidates` in mocks/dashboardData.ts). */
  const MockCandidates: seq<Candidate> := [
    Candidate(1, "Alice Johnson", ["React", "Node.js", "Python"], 95),
    Candidate(2, "Bob Smith", ["Java", "Spring Boot", "MySQL"], 88)
  ]

  /** `candidate.skills.some(s => s.toLowerCase().includes(skill.toLowerCase()))`. */
  predicate HasSkill(c: Candidate, skill: string)
  {
    exists k :: 0 <= k < |c.skills| && Includes(Lower(c.skills[k]), Lower(skill))
  }

  /** The list `filterCandidatesBySkill(skill)` stores: the whole fixture for
      the empty string, otherwise the fixture's candidates that have a
      matching skill, in fixture order. */
  function FilterBySkill(fixture: seq<Candidate>, skill: string): (r: seq<Candidate>)
    ensures skill == "" ==> r == fixture
    ensures skill != "" ==> forall i :: 0 <= i < |r| ==> HasSkill(r[i], skill)
    ensures skill != "" ==> forall i :: 0 <= i < |fixture| && HasSkill(fixture[i], skill) ==> fixture[i] in r
    ensures skill != "" ==> |r| == |fixture| - IdLists.CountWhere(fixture, (c: Candidate) => !HasSkill(c, skill))
    ensures IdLists.IsSubsequence(r, fixture)
  {
    if skill == "" then
      SubsequenceRefl(fixture);
      fixture
    else IdLists.RemoveWhere(fixture, (c: Candidate) => !HasSkill(c, skill))
  }

  lemma {:induction false} SubsequenceRefl(xs: seq<Candidate>)
    ensures IdLists.IsSubsequence(xs, xs)
    decreases |xs|
  {
    if xs != [] {
      SubsequenceRefl(xs[1..]);
    }
  }

  /** The handler ignores the list currently shown. */
  function OnSkillFilter(shown: seq<Candidate>, skill: string): (r: seq<Candidate>)
    ensures IdLists.IsSubsequence(r, MockCandidates)
  {
    FilterBySkill(MockCandidates, skill)
  }

  /** Filtering is not cumulative: filtering by `a` and then by `b` is
      filtering by `b`. */
  lemma FilterNotCumulative(shown: seq<Candidate>, a: string, b: string)
    ensures OnSkillFilter(OnSkillFilter(shown, a), b) == OnSkillFilter(shown, b)
  {
  }

  /** Typing more narrows the result: every candidate shown for `t + u` is
      shown for `t`. */
  lemma LongerFilterNarrows(fixture: seq<Candidate>, t: string, u: string, c: Candidate)
    requires c in FilterBySkill(fixture, t + u)
    ensures c in FilterBySkill(fixture, t)
  {
    var r := FilterBySkill(fixture, t + u);
    var i :| 0 <= i < |r| && r[i] == c;
    assert c in fixture by {
      SubsequenceMembers(r, fixture, i);
    }
    if t != "" {
      if t + u != "" {
        var k :| 0 <= k < |c.skills| && Includes(Lower(c.skills[k]), Lower(t + u));
        LowerConcat(t, u);
        IncludesPrefix(Lower(c.skills[k]), Lower(t), Lower(u));
      }
    }
  }

  lemma {:induction false} SubsequenceMembers(a: seq<Candidate>, b: seq<Candidate>, i: int)
    requires IdLists.IsSubsequence(a, b)
    requires 0 <= i < |a|
    ensures a[i] in b
    decreases |b|
  {
    if a[0] == b[0] {
      if i > 0 {
        SubsequenceMembers(a[1..], b[1..], i - 1);
      }
    } else {
      SubsequenceMembers(a, b[1..], i);
    }
  }

  /** The empty filter short-circuits: it shows a candidate with no skills,
      which any non-empty filter hides. */
  lemma EmptyFilterShowsSkillless(fixture: seq<Candidate>, skill: string, c: Candidate)
    requires c in fixture && c.skills == []
    requires skill != ""
    ensures c in FilterBySkill(fixture, "")
    ensures c !in FilterBySkill(fixture, skill)
  {
  }

  /** No two adjacent characters of `s` spell the first two of `t`, so `s`
      does not include `t`. */
  lemma NoOccurrence(s: string, t: string)
    requires |t| >= 2
    requires forall i :: 0 <= i < |s| - 1 ==> !(s[i] == t[0] && s[i + 1] == t[1])
    ensures !Includes(s, t)
  {
    IncludesIff(s, t);
  }

  /** Step of `ReactSelectsAlice`: Alice's first skill matches. */
  lemma AliceKnowsReact()
    ensures HasSkill(MockCandidates[0], "react")
  {
    assert Lower("React") == "react" && Lower("react") == "react";
    assert StartsWith(Lower(MockCandidates[0].skills[0]), Lower("react"));
  }

  /** A skill whose lower-cased text never has "re" at adjacent positions
      does not match "react". */
  lemma SkillLacksReact(skill: string, lower: string)
    requires Lower(skill) == lower
    requires forall i :: 0 <= i < |lower| - 1 ==> !(lower[i] == 'r' && lower[i + 1] == 'e')
    ensures !Includes(Lower(skill), Lower("react"))
  {
    assert Lower("react") == "react";
    NoOccurrence(lower, "react");
  }

  /** Step of `ReactSelectsAlice`: none of Bob's three skills includes
      "react". */
  lemma BobSkillsLackReact()
    ensures !Includes(Lower("Java"), Lower("react"))
    ensures !Includes(Lower("Spring Boot"), Lower("react"))
    ensures !Includes(Lower("MySQL"), Lower("react"))
  {
    assert !Includes(Lower("Java"), Lower("react")) by {
      SkillLacksReact("Java", "java");
    }
    assert !Includes(Lower("Spring Boot"), Lower("react")) by {
      SkillLacksReact("Spring Boot", "spring boot");
    }
    assert !Includes(Lower("MySQL"), Lower("react")) by {
      SkillLacksReact("MySQL", "mysql");
    }
  }

  /** Step of `ReactSelectsAlice`: Bob has no matching skill. */
  lemma BobDoesNotKnowReact()
    ensures !HasSkill(MockCandidates[1], "react")
  {
    BobSkillsLackReact();
    assert MockCandidates[1].skills == ["Java", "Spring Boot", "MySQL"];
  }

  /** The fixture filtered by "react" holds Alice alone. */
  lemma ReactSelectsAlice(shown: seq<Candidate>)
    ensures OnSkillFilter(shown, "react") == [MockCandidates[0]]
  {
    AliceKnowsReact();
    BobDoesNotKnowReact();
    var r := OnSkillFilter(shown, "react");
    assert |r| <= 2;
    assert MockCandidates[0] in r;
    assert forall i :: 0 <= i < |r| ==> r[i] != MockCandidates[1];
    assert r[0] == MockCandidates[0] by {
      SubsequenceMembers(r, MockCandidates, 0);
    }
    if |r| == 2 {
      SubsequenceMembers(r, MockCandidates, 1);
    }
  }

  // ----------------------------------------------------------- interviews

  /** `handleScheduleInterview(id, date, time, notes)`: the record for the
      candidate becomes `{ date, time, notes }`, replacing any earlier one
      whole, and no other candidate's record changes. */
  function ScheduleInterview(m: ScheduledInterviews, id: int, date: string, time: string, notes: string): (r: ScheduledInterviews)
    ensures r.Keys == m.Keys + {id}
    ensures r[id].date == date && r[id].time == time && r[id].notes == notes
    ensures r[id].interviewDate.None? && r[id].status.None? && r[id].decisionNotes.None?
    ensures forall k :: k in m && k != id ==> r[k] == m[k]
  {
    m[id := ScheduledInterview(date, time, notes, None, None, None)]
  }

  /** Scheduling the same candidate twice keeps only the later record. */
  lemma RescheduleOverwrites(m: ScheduledInterviews, id: int, d1: string, t1: string, n1: string, d2: string, t2: string, n2: string)
    ensures ScheduleInterview(ScheduleInterview(m, id, d1, t1, n1), id, d2, t2, n2) == ScheduleInterview(m, id, d2, t2, n2)
  {
  }

  /** Schedules of two different candidates do not interfere. */
  lemma SchedulesCommute(m: ScheduledInterviews, a: int, b: int, d1: string, t1: string, n1: string, d2: string, t2: string, n2: string)
    requires a != b
    ensures ScheduleInterview(ScheduleInterview(m, a, d1, t1, n1), b, d2, t2, n2)
         == ScheduleInterview(ScheduleInterview(m, b, d2, t2, n2), a, d1, t1, n1)
  {
  }

  // ------------------------------------------------------------ positions

  /** The values the add-position form submits. */
  datatype PositionForm = PositionForm(title: string, department: string, location: string, status: PositionStatus)

  /** `handleAddPosition(e)`: appends a position with id `length + 1` and no
      applicants. */
  function AddPosition(ps: seq<InternshipPosition>, form: PositionForm): (r: seq<InternshipPosition>)
    ensures |r| == |ps| + 1 && r[..|ps|] == ps
    ensures r[|ps|].id == |ps| + 1 && r[|ps|].applicants == 0
    ensures r[|ps|].title == form.title && r[|ps|].department == form.department
    ensures r[|ps|].location == form.location && r[|ps|].status == form.status
  {
    var p := InternshipPosition(IdLists.NextId(ps), form.title, form.department, form.location, form.status, 0);
    var r := ps + [p];
    assert r[..|ps|] == ps;
    r
  }

  /** `handleDeletePosition(id)`. */
  function DeletePosition(ps: seq<InternshipPosition>, id: int): (r: seq<InternshipPosition>)
    ensures forall i :: 0 <= i < |r| ==> r[i].id != id
    ensures forall i :: 0 <= i < |ps| && ps[i].id != id ==> ps[i] in r
    ensures IdLists.IsSubsequence(r, ps)
    ensures |r| == |ps| - IdLists.CountWhere(ps, (p: InternshipPosition) => p.id == id)
  {
    IdLists.RemoveWhere(ps, (p: InternshipPosition) => p.id == id)
  }

  /** A `Partial<InternshipPosition>`. */
  datatype PositionPatch = PositionPatch(
    id: Option<int>,
    title: Option<string>,
    department: Option<string>,
    location: Option<string>,
    status: Option<PositionStatus>,
    applicants: Option<int>)

  /** `{ ...position, ...patch }`. */
  function MergePosition(p: InternshipPosition, q: PositionPatch): InternshipPosition
  {
    InternshipPosition(q.id.GetOr(p.id), q.title.GetOr(p.title), q.department.GetOr(p.department),
                       q.location.GetOr(p.location), q.status.GetOr(p.status), q.applicants.GetOr(p.applicants))
  }

  /** `handleEditPosition(id, patch)`. */
  function EditPosition(ps: seq<InternshipPosition>, id: int, patch: PositionPatch): (r: seq<InternshipPosition>)
    ensures |r| == |ps|
    ensures forall i :: 0 <= i < |ps| && ps[i].id != id ==> r[i] == ps[i]
    ensures forall i :: 0 <= i < |ps| && ps[i].id == id ==> r[i] == MergePosition(ps[i], patch)
  {
    IdLists.UpdateWhere(ps, (p: InternshipPosition) => p.id == id, (p: InternshipPosition) => MergePosition(p, patch))
  }

  /** Closing a position (the status select of the position row) changes
      that position's status and nothing else. */
  lemma ClosingChangesOnlyStatus(ps: seq<InternshipPosition>, i: int)
    requires 0 <= i < |ps|
    ensures var r := EditPosition(ps, ps[i].id, PositionPatch(None, None, None, None, Some(Closed), None));
            r[i] == ps[i].(status := Closed)
  {
  }

  /** Ids are not collision-safe: deleting the first of positions 1 and 2
      and adding one gives two positions with id 2. */
  lemma PositionIdCollision(p1: InternshipPosition, p2: InternshipPosition, form: PositionForm)
    requires p1.id == 1 && p2.id == 2
    ensures var r := AddPosition(DeletePosition([p1, p2], 1), form);
            |r| == 2 && r[0].id == 2 && r[1].id == 2
  {
    IdLists.AppendAfterDeleteCollides([p1, p2], (p: InternshipPosition) => p.id, 0);
    var kept := DeletePosition([p1, p2], 1);
    assert p2 in kept;
  }
}
