/** The state handlers of the mentor dashboard
    (components/dashboards/mentor-dashboard/MentorDashboard.tsx): recording a
    project evaluation's status, updating and adding weekly evaluations, and
    the add form's mapping of the generic dialog's record into a payload.
    The timestamp `new Date()` is a parameter. */
module MentorDashboard {
  import opened Wrappers
  import opened Js
  import opened Entities
  import IdLists
  import FormDialog
  import EvaluationDialog

  /** `handleSubmitEvaluation(id, evaluationStatus)`: only the status of the
      matching entries changes. */
  function SubmitEvaluation(evals: seq<ProjectEvaluation>, id: int, status: EvaluationStatus): (r: seq<ProjectEvaluation>)
    ensures |r| == |evals|
    ensures forall i :: 0 <= i < |evals| && evals[i].id != id ==> r[i] == evals[i]
    ensures forall i :: 0 <= i < |evals| && evals[i].id == id ==> r[i] == evals[i].(evaluationStatus := Some(status))
  {
    IdLists.UpdateWhere(evals, (e: ProjectEvaluation) => e.id == id,
                        (e: ProjectEvaluation) => e.(evaluationStatus := Some(status)))
  }

  /** Recording a status twice keeps the later one. */
  lemma LaterStatusWins(evals: seq<ProjectEvaluation>, id: int, s1: EvaluationStatus, s2: EvaluationStatus)
    ensures SubmitEvaluation(SubmitEvaluation(evals, id, s1), id, s2) == SubmitEvaluation(evals, id, s2)
  {
    var a := SubmitEvaluation(SubmitEvaluation(evals, id, s1), id, s2);
    var b := SubmitEvaluation(evals, id, s2);
    assert forall i :: 0 <= i < |evals| ==> a[i] == b[i];
  }

  /** `handleSubmitWeeklyEvaluation(id, technicalSkills, weeklyProgress,
      notes, lastUpdated)`: the matching entries take the new skills, notes
      and time, and their progress goes up by one; the `weeklyProgress`
      argument is not used. */
  function SubmitWeeklyEvaluation(ws: seq<WeeklyEvaluation>, id: int, technicalSkills: Num, weeklyProgress: int, notes: string, lastUpdated: Instant): (r: seq<WeeklyEvaluation>)
    ensures |r| == |ws|
    ensures forall i :: 0 <= i < |ws| && ws[i].id != id ==> r[i] == ws[i]
    ensures forall i :: 0 <= i < |ws| && ws[i].id == id ==>
      && r[i].id == ws[i].id && r[i].studentName == ws[i].studentName
      && r[i].technicalSkills == technicalSkills && r[i].notes == notes
      && r[i].lastUpdated == Some(lastUpdated)
      && r[i].weeklyProgress == ws[i].weeklyProgress + 1
  {
    IdLists.UpdateWhere(ws, (w: WeeklyEvaluation) => w.id == id,
      (w: WeeklyEvaluation) => w.(technicalSkills := technicalSkills, weeklyProgress := w.weeklyProgress + 1,
                                  notes := notes, lastUpdated := Some(lastUpdated)))
  }

  /** The `weeklyProgress` argument makes no difference. */
  lemma WeeklyProgressArgumentIgnored(ws: seq<WeeklyEvaluation>, id: int, t: Num, p1: int, p2: int, notes: string, now: Instant)
    ensures SubmitWeeklyEvaluation(ws, id, t, p1, notes, now) == SubmitWeeklyEvaluation(ws, id, t, p2, notes, now)
  {
  }

  /** Progress is not capped at the 1-5 scale the dialog offers: an entry
      at 5 goes to 6. */
  lemma WeeklyProgressLeavesScale(ws: seq<WeeklyEvaluation>, i: int, t: Num, notes: string, now: Instant)
    requires 0 <= i < |ws| && ws[i].weeklyProgress == 5
    ensures SubmitWeeklyEvaluation(ws, ws[i].id, t, ws[i].weeklyProgress, notes, now)[i].weeklyProgress == 6
  {
  }

  /** The payload of the add form. */
  datatype WeeklyData = WeeklyData(studentName: string, technicalSkills: Num, feedback: string)

  /** `handleAddWeeklyEvaluation(data)`: appends an entry with id
      `length + 1`, progress 1 and the feedback as notes. */
  function AddWeeklyEvaluation(ws: seq<WeeklyEvaluation>, data: WeeklyData, now: Instant): (r: seq<WeeklyEvaluation>)
    ensures |r| == |ws| + 1 && r[..|ws|] == ws
    ensures r[|ws|].id == |ws| + 1 && r[|ws|].weeklyProgress == 1
    ensures r[|ws|].studentName == data.studentName && r[|ws|].technicalSkills == data.technicalSkills
    ensures r[|ws|].notes == data.feedback && r[|ws|].lastUpdated == Some(now)
  {
    var e := WeeklyEvaluation(IdLists.NextId(ws), data.studentName, data.technicalSkills, 1, data.feedback, Some(now));
    var r := ws + [e];
    assert r[..|ws|] == ws;
    r
  }

  /** The students a mentor can pick in the add form. */
  const MentorStudents: seq<string> := ["John Doe", "Jane Smith", "Alice Johnson"]

  const RatingOptions: seq<string> := ["1", "2", "3", "4", "5"]

  /** The fields of the add-weekly-evaluation form. */
  const WeeklyFormFields: seq<FormDialog.FormField> := [
    FormDialog.FormField("studentName", "Student", FormDialog.SelectField, None, true, MentorStudents, None),
    FormDialog.FormField("technicalSkills", "Technical Skills (1-5)", FormDialog.SelectField, None, true, RatingOptions, None),
    FormDialog.FormField("feedback", "Notes", FormDialog.TextareaField, Some("Add evaluation notes..."), true, [], None)
  ]

  /** The add form's `onSubmit`: names and feedback pass through, the
      skills rating goes through `parseInt`. */
  function WeeklyDataFromRecord(rec: map<string, string>): (d: WeeklyData)
    requires "studentName" in rec && "technicalSkills" in rec && "feedback" in rec
    ensures d.studentName == rec["studentName"] && d.feedback == rec["feedback"]
    ensures d.technicalSkills == ParseInt(rec["technicalSkills"])
  {
    WeeklyData(rec["studentName"], ParseInt(rec["technicalSkills"]), rec["feedback"])
  }

  /** The generic dialog always hands the add form's handler the three
      keys it reads. */
  lemma WeeklyFormRecordKeys(st: FormDialog.DialogState, raw: string -> string, format: FormDialog.DateValue -> string)
    ensures FormDialog.Submit(WeeklyFormFields, st, raw, format).record.Keys == {"studentName", "technicalSkills", "feedback"}
  {
    var fs := WeeklyFormFields;
    assert FormDialog.Ids(fs) == {fs[0].id, fs[1].id, fs[2].id};
  }

  /** The picked rating reaches the record unchanged. */
  lemma WeeklyFormRatingRecorded(st: FormDialog.DialogState, raw: string -> string, format: FormDialog.DateValue -> string, v: string)
    requires v != "" && st.selectValues == map["technicalSkills" := v]
    ensures var rec := FormDialog.Submit(WeeklyFormFields, st, raw, format).record;
            "technicalSkills" in rec && rec["technicalSkills"] == v
  {
    var fs := WeeklyFormFields;
    assert FormDialog.LastWithId(fs, 1);
  }

  /** Every rating option parses to the number it names. */
  lemma RatingOptionParses(k: int)
    requires 1 <= k <= 5
    ensures ParseInt(RatingOptions[k - 1]) == Int(k)
  {
    assert RatingOptions[k - 1] == NatToString(k);
    ParseIntOfNatToString(k);
  }

  /** Submitting the add form appends an entry whose skills are the number
      the picked rating option names. */
  lemma WeeklyFormRatingParses(ws: seq<WeeklyEvaluation>, st: FormDialog.DialogState, raw: string -> string, format: FormDialog.DateValue -> string, now: Instant, k: int)
    requires 1 <= k <= 5
    requires st.selectValues == map["technicalSkills" := RatingOptions[k - 1]]
    ensures var rec := FormDialog.Submit(WeeklyFormFields, st, raw, format).record;
            "studentName" in rec && "technicalSkills" in rec && "feedback" in rec &&
            AddWeeklyEvaluation(ws, WeeklyDataFromRecord(rec), now)[|ws|].technicalSkills == Int(k)
  {
    WeeklyFormRecordKeys(st, raw, format);
    WeeklyFormRatingRecorded(st, raw, format, RatingOptions[k - 1]);
    RatingOptionParses(k);
  }

  // ------------------------------------------------- evaluation dialogs

  /** The project dialog of a table row: `handleSubmitEvaluation(row.id,
      data.evaluationStatus!)`. A status text outside the union (the empty
      text when no status was picked) has no value in the model, and the
      result is then `None`. */
  function OnProjectDialogSubmit(evals: seq<ProjectEvaluation>, row: ProjectEvaluation, p: EvaluationDialog.Payload): (r: Option<seq<ProjectEvaluation>>)
    ensures r.Some? <==> p.evaluationStatus.Some? && ParseStatus(p.evaluationStatus.value).Some?
    ensures r.Some? ==> |r.value| == |evals|
    ensures r.Some? ==> forall i :: 0 <= i < |evals| ==>
      r.value[i] == (if evals[i].id == row.id
                     then evals[i].(evaluationStatus := ParseStatus(p.evaluationStatus.value))
                     else evals[i])
  {
    match p.evaluationStatus
    case None => None
    case Some(text) =>
      match ParseStatus(text)
      case None => None
      case Some(status) => Some(SubmitEvaluation(evals, row.id, status))
  }

  /** Picking "passed" in the dialog of row `i` marks that row passed and
      changes nothing else in it or in rows with other ids. */
  lemma ProjectDialogPasses(evals: seq<ProjectEvaluation>, i: int, raw: string -> string)
    requires 0 <= i < |evals| && raw("status") == "passed"
    ensures var r := OnProjectDialogSubmit(evals, evals[i], EvaluationDialog.SubmitDialog(EvaluationDialog.ProjectEval, raw).payload);
            r.Some? && r.value[i] == evals[i].(evaluationStatus := Some(Passed)) &&
            forall j :: 0 <= j < |evals| && evals[j].id != evals[i].id ==> r.value[j] == evals[j]
  {
  }

  /** The weekly dialog of a table row: `handleSubmitWeeklyEvaluation(
      row.id, data.technicalSkills, row.weeklyProgress, data.feedback, now)`. */
  function OnWeeklyDialogSubmit(ws: seq<WeeklyEvaluation>, row: WeeklyEvaluation, p: EvaluationDialog.Payload, now: Instant): (r: seq<WeeklyEvaluation>)
    ensures |r| == |ws|
    ensures forall i :: 0 <= i < |ws| && ws[i].id != row.id ==> r[i] == ws[i]
    ensures forall i :: 0 <= i < |ws| && ws[i].id == row.id ==>
      r[i] == ws[i].(technicalSkills := p.technicalSkills, notes := p.feedback,
                     weeklyProgress := ws[i].weeklyProgress + 1, lastUpdated := Some(now))
  {
    SubmitWeeklyEvaluation(ws, row.id, p.technicalSkills, row.weeklyProgress, p.feedback, now)
  }

  /** The progress picked in the weekly dialog is discarded: two snapshots
      that agree on the skills and the notes give the same list. */
  lemma WeeklyDialogProgressDiscarded(ws: seq<WeeklyEvaluation>, row: WeeklyEvaluation, raw1: string -> string, raw2: string -> string, now: Instant)
    requires raw1("technical-skills") == raw2("technical-skills") && raw1("feedback") == raw2("feedback")
    ensures OnWeeklyDialogSubmit(ws, row, EvaluationDialog.SubmitDialog(EvaluationDialog.WeeklyEval, raw1).payload, now)
         == OnWeeklyDialogSubmit(ws, row, EvaluationDialog.SubmitDialog(EvaluationDialog.WeeklyEval, raw2).payload, now)
  {
    var p1 := EvaluationDialog.SubmitDialog(EvaluationDialog.WeeklyEval, raw1).payload;
    var p2 := EvaluationDialog.SubmitDialog(EvaluationDialog.WeeklyEval, raw2).payload;
    assert p1.technicalSkills == p2.technicalSkills && p1.feedback == p2.feedback;
  }
}
