/** The evaluation dialog (components/dashboard/EvaluationDialog.tsx): a
    fixed form in two variants, project and weekly, whose submit handler
    turns the browser's form snapshot into a payload and closes the dialog.
    The snapshot is the parameter `raw`, the text each rendered field holds. */
module EvaluationDialog {
  import opened Wrappers
  import opened Js
  import opened Entities

  datatype EvalType = ProjectEval | WeeklyEval

  /** The names of the fields the dialog renders. */
  function RenderedFields(t: EvalType): (names: set<string>)
    ensures {"technical-skills", "soft-skills", "overall-score", "feedback"} <= names
    ensures "status" in names <==> t == ProjectEval
    ensures "weekly-progress" in names <==> t == WeeklyEval
    ensures names - {"status", "weekly-progress"} == {"technical-skills", "soft-skills", "overall-score", "feedback"}
  {
    var shared := {"technical-skills", "soft-skills", "overall-score", "feedback"};
    match t
    case ProjectEval => shared + {"status"}
    case WeeklyEval => shared + {"weekly-progress"}
  }

  /** `formData.get(name)`: the field's text if it is rendered, `null`
      otherwise. */
  function FormGet(t: EvalType, raw: string -> string, name: string): (v: Option<string>)
    ensures v.Some? <==> name in RenderedFields(t)
    ensures v.Some? ==> v.value == raw(name)
  {
    FormDataGet(RenderedFields(t), raw, name)
  }

  /** The status options of the project variant. */
  const StatusOptions: seq<string> := ["passed", "failed"]

  /** The status options name the passed and failed statuses. */
  lemma StatusOptionsParse()
    ensures ParseStatus(StatusOptions[0]) == Some(Passed)
    ensures ParseStatus(StatusOptions[1]) == Some(Failed)
    ensures forall i :: 0 <= i < |StatusOptions| ==> ParseStatus(StatusOptions[i]) != Some(Pending)
  {
  }

  /** The label of a rating: the ternary chain and the three-entry array
      of the option list, `None` where the array read falls outside it. */
  function RatingLabel(v: int): (l: Option<string>)
    ensures l.Some? <==> 1 <= v <= 5
  {
    if v == 1 then Some("Poor")
    else if v == 5 then Some("Excellent")
    else if 0 <= v - 2 < 3 then Some(["Fair", "Good", "Very Good"][v - 2])
    else None
  }

  /** The five labels of the 1-5 scale. */
  lemma RatingLabels()
    ensures RatingLabel(1) == Some("Poor") && RatingLabel(2) == Some("Fair")
    ensures RatingLabel(3) == Some("Good") && RatingLabel(4) == Some("Very Good")
    ensures RatingLabel(5) == Some("Excellent")
  {
  }

  /** No two ratings share a label. */
  lemma RatingLabelInjective(a: int, b: int)
    requires RatingLabel(a).Some? && RatingLabel(a) == RatingLabel(b)
    ensures a == b
  {
  }

  /** The value of the `k`-th option of a rating select, `value.toString()`. */
  function RatingOption(k: int): (s: string)
    requires 1 <= k <= 5
    ensures |s| == 1 && AllDigits(s)
  {
    NatToString(k)
  }

  /** Every rating option reads back as its number through `Number`. */
  lemma RatingOptionNumber(k: int)
    requires 1 <= k <= 5
    ensures NumberOf(Some(RatingOption(k))) == Int(k)
  {
    NumberOfNatToString(k);
  }

  /** The payload handed to `onSubmit`. `evaluationStatus` is the status
      text as it stands (`None` where the form had no status field);
      `weeklyProgress` is `None` for the project variant. */
  datatype Payload = Payload(
    evaluationStatus: Option<string>,
    technicalSkills: Num,
    softSkills: Num,
    overallScore: Num,
    weeklyProgress: Option<Num>,
    feedback: string)

  datatype DialogResult = DialogResult(payload: Payload, open: bool)

  /** The form's submit handler. */
  function SubmitDialog(t: EvalType, raw: string -> string): (r: DialogResult)
    ensures !r.open
    ensures r.payload.weeklyProgress.Some? <==> t == WeeklyEval
    ensures r.payload.evaluationStatus.Some? <==> t == ProjectEval
    ensures t == ProjectEval ==> r.payload.evaluationStatus.value == raw("status")
    ensures t == WeeklyEval ==> r.payload.weeklyProgress.value == NumberOf(Some(raw("weekly-progress")))
    ensures r.payload.technicalSkills == NumberOf(Some(raw("technical-skills")))
    ensures r.payload.softSkills == NumberOf(Some(raw("soft-skills")))
    ensures r.payload.overallScore == NumberOf(Some(raw("overall-score")))
    ensures r.payload.feedback == raw("feedback")
  {
    var p := Payload(
      FormGet(t, raw, "status"),
      NumberOf(FormGet(t, raw, "technical-skills")),
      NumberOf(FormGet(t, raw, "soft-skills")),
      NumberOf(FormGet(t, raw, "overall-score")),
      if t == WeeklyEval then Some(NumberOf(FormGet(t, raw, "weekly-progress"))) else None,
      FormGet(t, raw, "feedback").GetOr(""));
    DialogResult(p, false)
  }

  /** When every rating select holds one of its options, every rating in
      the payload is that option's number. */
  lemma PickedRatingsArrive(t: EvalType, raw: string -> string, a: int, b: int, c: int, w: int)
    requires 1 <= a <= 5 && 1 <= b <= 5 && 1 <= c <= 5 && 1 <= w <= 5
    requires raw("technical-skills") == RatingOption(a) && raw("soft-skills") == RatingOption(b)
    requires raw("overall-score") == RatingOption(c) && raw("weekly-progress") == RatingOption(w)
    ensures var p := SubmitDialog(t, raw).payload;
            p.technicalSkills == Int(a) && p.softSkills == Int(b) && p.overallScore == Int(c) &&
            (t == WeeklyEval ==> p.weeklyProgress == Some(Int(w)))
  {
    RatingOptionNumber(a);
    RatingOptionNumber(b);
    RatingOptionNumber(c);
    RatingOptionNumber(w);
  }

  /** A weekly submission with ratings 3 and 4 and the note "ok". */
  lemma WeeklyScenario(raw: string -> string)
    requires raw("technical-skills") == "3" && raw("weekly-progress") == "4" && raw("feedback") == "ok"
    ensures var p := SubmitDialog(WeeklyEval, raw).payload;
            p.technicalSkills == Int(3) && p.weeklyProgress == Some(Int(4)) &&
            p.feedback == "ok" && p.evaluationStatus.None?
  {
    assert NatToString(3) == "3" && NatToString(4) == "4";
    NumberOfNatToString(3);
    NumberOfNatToString(4);
  }
}
