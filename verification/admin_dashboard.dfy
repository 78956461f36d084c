/** The state handlers of the admin dashboard
    (components/dashboards/admin-dashboard/AdminDashboard.tsx): building a
    user whose shape depends on the role, the user upsert and delete, the
    user form handler, and add / edit / delete of workshops. Every handler
    is a pure function from the old list to the new one; a `throw` of the
    source is an `Err`. */
module AdminDashboard {
  import opened Wrappers
  import opened Js
  import opened Entities
  import IdLists

  /** The three errors `createUserByRole` throws. */
  datatype UserError = CohortRequiredForStudents | CohortRequiredForMentors | InvalidRole

  /** The common fields `createUserByRole` receives; `role` is an
      unchecked tag. */
  datatype BaseData = BaseData(id: int, name: string, email: string, role: string)

  /** A user as `createUserByRole` leaves it: students and mentors belong to
      a cohort with a truthy (non-zero) number. */
  predicate CohortIsSet(u: User)
  {
    HasCohort(u.Role()) ==> u.cohort != 0
  }

  /** `createUserByRole(baseData, cohortData)`. The function reads nothing
      of `cohortData` but `cohortData?.cohort`, which is `cohort` here. */
  function CreateUserByRole(base: BaseData, cohort: Option<Num>): (r: Result<User, UserError>)
    ensures r.Ok? <==> ParseRole(base.role).Some? && (HasCohort(ParseRole(base.role).value) ==> Truthy(cohort))
    ensures r.Ok? ==> r.value.id == base.id && r.value.name == base.name && r.value.email == base.email
    ensures r.Ok? ==> RoleName(r.value.Role()) == base.role
    ensures r.Ok? && HasCohort(r.value.Role()) ==> r.value.CohortField() == cohort
    ensures r.Ok? ==> CohortIsSet(r.value)
    ensures r.Err? ==> r.error == (if base.role == "student" then CohortRequiredForStudents
                                   else if base.role == "mentor" then CohortRequiredForMentors
                                   else InvalidRole)
  {
    match ParseRole(base.role)
    case Some(StudentRole) =>
      if Truthy(cohort) then Ok(Student(base.id, base.name, base.email, cohort.value.n))
      else Err(CohortRequiredForStudents)
    case Some(MentorRole) =>
      if Truthy(cohort) then Ok(Mentor(base.id, base.name, base.email, cohort.value.n))
      else Err(CohortRequiredForMentors)
    case Some(AdminRole) => Ok(Admin(base.id, base.name, base.email))
    case Some(CompanyRole) => Ok(Company(base.id, base.name, base.email))
    case None => Err(InvalidRole)
  }

  /** A cohort of 0 counts as missing, and so does one `parseInt` could
      not read. */
  lemma FalsyCohortIsMissing(base: BaseData, cohort: Option<Num>)
    requires base.role == "student" || base.role == "mentor"
    requires cohort == Some(Int(0)) || cohort == Some(NaN) || cohort == None
    ensures CreateUserByRole(base, cohort).Err?
  {
  }

  /** Admins and companies never carry a cohort, whatever was supplied. */
  lemma AdminAndCompanyDropCohort(base: BaseData, cohort: Option<Num>)
    requires base.role == "admin" || base.role == "company"
    ensures CreateUserByRole(base, cohort).Ok?
    ensures CreateUserByRole(base, cohort).value.CohortField() == None
  {
  }

  /** The edit path's callback for one matching user: every empty field of
      the form falls back to the user's current value, and the cohort is
      passed on only when the resulting role is student or mentor. */
  function EditUser(u: User, data: NewUserFormData): (r: Result<User, UserError>)
    ensures r.Ok? <==>
      var role := ParseRole(OrStr(data.role, RoleName(u.Role())));
      role.Some? && (HasCohort(role.value) ==> Truthy(data.cohort) || Truthy(u.CohortField()))
    ensures r.Ok? ==> r.value.id == u.id
    ensures r.Ok? ==> r.value.name == (if data.name != "" then data.name else u.name)
    ensures r.Ok? ==> r.value.email == (if data.email != "" then data.email else u.email)
    ensures r.Ok? ==> r.value.Role() == (if data.role != "" then ParseRole(data.role).value else u.Role())
    ensures r.Ok? && HasCohort(r.value.Role()) ==>
      r.value.CohortField() == (if Truthy(data.cohort) then data.cohort else u.CohortField())
    ensures r.Ok? ==> CohortIsSet(r.value)
  {
    var newRole := OrStr(data.role, RoleName(u.Role()));
    var cohort := if newRole == "student" || newRole == "mentor" then OrNum(data.cohort, u.CohortField()) else None;
    assert data.role == "" ==> ParseRole(newRole) == Some(u.Role()) by {
      RoleNameRoundTrip(u.Role());
    }
    CreateUserByRole(BaseData(u.id, OrStr(data.name, u.name), OrStr(data.email, u.email), newRole), cohort)
  }

  /** `handleUserUpsert(userData, userId)`: with an id, every user with that
      id is rebuilt by `EditUser` and the first failure aborts the update;
      without one, a user with id `length + 1` is appended. */
  function UpsertUser(users: seq<User>, data: NewUserFormData, userId: Option<int>): (r: Result<seq<User>, UserError>)
    ensures userId.Some? ==>
      (r.Ok? <==> forall i :: 0 <= i < |users| && users[i].id == userId.value ==> EditUser(users[i], data).Ok?)
    ensures userId.Some? && r.Ok? ==> |r.value| == |users|
    ensures userId.Some? && r.Ok? ==>
      forall i :: 0 <= i < |users| && users[i].id != userId.value ==> r.value[i] == users[i]
    ensures userId.Some? && r.Ok? ==>
      forall i :: 0 <= i < |users| && users[i].id == userId.value ==> EditUser(users[i], data) == Ok(r.value[i])
    ensures userId.Some? && r.Err? ==>
      exists i :: IdLists.FirstFailure(users, (u: User) => u.id == userId.value, (u: User) => EditUser(u, data), i)
                  && EditUser(users[i], data) == Err(r.error)
    ensures userId.None? ==>
      (r.Ok? <==> ParseRole(data.role).Some? && (HasCohort(ParseRole(data.role).value) ==> Truthy(data.cohort)))
    ensures userId.None? && r.Ok? ==> |r.value| == |users| + 1 && r.value[..|users|] == users
    ensures userId.None? && r.Ok? ==>
      var u := r.value[|users|];
      u.id == |users| + 1 && u.name == data.name && u.email == data.email && RoleName(u.Role()) == data.role
    ensures userId.None? && r.Ok? && HasCohort(r.value[|users|].Role()) ==> r.value[|users|].CohortField() == data.cohort
  {
    match userId
    case Some(uid) =>
      IdLists.TryUpdateWhere(users, (u: User) => u.id == uid, (u: User) => EditUser(u, data))
    case None =>
      var created := CreateUserByRole(
        BaseData(IdLists.NextId(users), data.name, data.email, data.role),
        if Truthy(data.cohort) then data.cohort else None);
      if created.Err? then Err(created.error)
      else
        var r := users + [created.value];
        assert r[..|users|] == users;
        Ok(r)
  }

  /** Editing a user into a student or mentor when neither the form nor the
      user has a cohort fails, so an admin cannot become a student without
      one. */
  lemma PromotionNeedsCohort(users: seq<User>, data: NewUserFormData, i: int)
    requires 0 <= i < |users|
    requires users[i].Admin? || users[i].Company?
    requires data.role == "student" && !Truthy(data.cohort)
    ensures UpsertUser(users, data, Some(users[i].id)) == Err(CohortRequiredForStudents)
  {
    var r := UpsertUser(users, data, Some(users[i].id));
    assert EditUser(users[i], data) == Err(CohortRequiredForStudents);
    if r.Err? {
      var j :| 0 <= j < |users| && users[j].id == users[i].id && EditUser(users[j], data) == Err(r.error);
    }
  }

  /** An upsert-edit for an id no user has leaves the list as it was. */
  lemma EditUnknownIdIsNoop(users: seq<User>, data: NewUserFormData, uid: int)
    requires forall i :: 0 <= i < |users| ==> users[i].id != uid
    ensures UpsertUser(users, data, Some(uid)) == Ok(users)
  {
    var r := UpsertUser(users, data, Some(uid));
    assert r.Ok?;
    assert r.value == users;
  }

  /** The raw values the user form submits under `name`, `email`, `role`
      and `cohort`; a control left unset reads as "". */
  datatype UserForm = UserForm(name: string, email: string, role: string, cohort: string)

  datatype FormType = AddForm | EditForm

  /** The form-to-payload step of `handleUserFormSubmit`: the cohort is read
      and parsed only for the student and mentor roles, and only when the
      control holds something. */
  function UserDataFromForm(form: UserForm): (d: NewUserFormData)
    ensures d.name == form.name && d.email == form.email && d.role == form.role
    ensures d.cohort.Some? <==> (form.role == "student" || form.role == "mentor") && form.cohort != ""
    ensures d.cohort.Some? ==> d.cohort.value == ParseInt(form.cohort)
  {
    var cohort := if (form.role == "student" || form.role == "mentor") && form.cohort != ""
                  then Some(ParseInt(form.cohort)) else None;
    NewUserFormData(form.name, form.email, form.role, cohort)
  }

  /** `handleUserFormSubmit(e, formType, userId)`: the id is passed on only
      for the edit form. */
  function UserFormSubmit(users: seq<User>, form: UserForm, formType: FormType, userId: Option<int>): (r: Result<seq<User>, UserError>)
    ensures formType == AddForm || userId.None? ==>
      (r.Ok? <==> ParseRole(form.role).Some? &&
                  (HasCohort(ParseRole(form.role).value) ==> Truthy(UserDataFromForm(form).cohort)))
    ensures (formType == AddForm || userId.None?) && r.Ok? ==>
      |r.value| == |users| + 1 && r.value[..|users|] == users &&
      var u := r.value[|users|];
      u.id == |users| + 1 && u.name == form.name && u.email == form.email &&
      Some(u.Role()) == ParseRole(form.role) &&
      (HasCohort(u.Role()) ==> u.CohortField() == Some(ParseInt(form.cohort)))
    ensures formType == EditForm && userId.Some? ==>
      (r.Ok? <==> forall i :: 0 <= i < |users| && users[i].id == userId.value ==>
                    EditUser(users[i], UserDataFromForm(form)).Ok?)
    ensures formType == EditForm && userId.Some? && r.Ok? ==>
      |r.value| == |users| &&
      forall i :: 0 <= i < |users| ==>
        if users[i].id == userId.value then EditUser(users[i], UserDataFromForm(form)) == Ok(r.value[i])
        else r.value[i] == users[i]
  {
    UpsertUser(users, UserDataFromForm(form), if formType == EditForm then userId else None)
  }

  /** The edit form submitted while no user is being edited (`userId`
      undefined) appends a new user instead of editing one. */
  lemma EditWithoutIdAdds(users: seq<User>, form: UserForm)
    ensures UserFormSubmit(users, form, EditForm, None) == UserFormSubmit(users, form, AddForm, None)
  {
  }

  /** A cohort typed for an admin or company user is never parsed. */
  lemma CohortIgnoredForOtherRoles(form: UserForm)
    requires form.role == "admin" || form.role == "company"
    ensures UserDataFromForm(form).cohort == None
  {
  }

  /** `handleDeleteUser(id)`. */
  function DeleteUser(users: seq<User>, id: int): (r: seq<User>)
    ensures forall i :: 0 <= i < |r| ==> r[i].id != id
    ensures forall i :: 0 <= i < |users| && users[i].id != id ==> users[i] in r
    ensures IdLists.IsSubsequence(r, users)
    ensures |r| == |users| - IdLists.CountWhere(users, (u: User) => u.id == id)
  {
    IdLists.RemoveWhere(users, (u: User) => u.id == id)
  }

  // ------------------------------------------------------------ workshops

  /** `handleAddWorkshop(data)`: `{ id: length + 1, attendees: 0, ...data }`,
      so a payload `attendees` overrides the default 0. */
  function AddWorkshop(ws: seq<Workshop>, data: NewWorkshopFormData): (r: seq<Workshop>)
    ensures |r| == |ws| + 1 && r[..|ws|] == ws
    ensures r[|ws|].id == |ws| + 1
    ensures r[|ws|].attendees == (if data.attendees.Some? then data.attendees.value else 0)
    ensures r[|ws|].title == data.title && r[|ws|].kind == data.kind && r[|ws|].date == data.date
    ensures r[|ws|].time == data.time && r[|ws|].location == data.location
  {
    var w := Workshop(IdLists.NextId(ws), data.title, data.kind, data.date, data.time, data.location,
                      data.attendees.GetOr(0));
    var r := ws + [w];
    assert r[..|ws|] == ws;
    r
  }

  /** A `Partial<Workshop>`: `None` for a key the patch does not have. */
  datatype WorkshopPatch = WorkshopPatch(
    id: Option<int>,
    title: Option<string>,
    kind: Option<WorkshopType>,
    date: Option<string>,
    time: Option<string>,
    location: Option<string>,
    attendees: Option<int>)

  /** `{ ...w, ...patch }`. */
  function MergeWorkshop(w: Workshop, p: WorkshopPatch): Workshop
  {
    Workshop(p.id.GetOr(w.id), p.title.GetOr(w.title), p.kind.GetOr(w.kind), p.date.GetOr(w.date),
             p.time.GetOr(w.time), p.location.GetOr(w.location), p.attendees.GetOr(w.attendees))
  }

  /** `handleEditWorkshop(id, patch)`. */
  function EditWorkshop(ws: seq<Workshop>, id: int, patch: WorkshopPatch): (r: seq<Workshop>)
    ensures |r| == |ws|
    ensures forall i :: 0 <= i < |ws| && ws[i].id != id ==> r[i] == ws[i]
    ensures forall i :: 0 <= i < |ws| && ws[i].id == id ==> r[i] == MergeWorkshop(ws[i], patch)
  {
    IdLists.UpdateWhere(ws, (w: Workshop) => w.id == id, (w: Workshop) => MergeWorkshop(w, patch))
  }

  /** A patch without keys changes nothing. */
  lemma EditWithEmptyPatch(ws: seq<Workshop>, id: int)
    ensures EditWorkshop(ws, id, WorkshopPatch(None, None, None, None, None, None, None)) == ws
  {
    var r := EditWorkshop(ws, id, WorkshopPatch(None, None, None, None, None, None, None));
    assert forall i :: 0 <= i < |ws| ==> r[i] == ws[i];
  }

  /** Applying the same edit twice is applying it once, as long as the patch
      does not move the entry to another id. */
  lemma EditWorkshopIdempotent(ws: seq<Workshop>, id: int, patch: WorkshopPatch)
    requires patch.id.None? || patch.id == Some(id)
    ensures EditWorkshop(EditWorkshop(ws, id, patch), id, patch) == EditWorkshop(ws, id, patch)
  {
    var once := EditWorkshop(ws, id, patch);
    var twice := EditWorkshop(once, id, patch);
    assert forall i :: 0 <= i < |ws| ==> twice[i] == once[i];
  }

  /** `handleDeleteWorkshop(id)`. */
  function DeleteWorkshop(ws: seq<Workshop>, id: int): (r: seq<Workshop>)
    ensures forall i :: 0 <= i < |r| ==> r[i].id != id
    ensures forall i :: 0 <= i < |ws| && ws[i].id != id ==> ws[i] in r
    ensures IdLists.IsSubsequence(r, ws)
    ensures |r| == |ws| - IdLists.CountWhere(ws, (w: Workshop) => w.id == id)
  {
    IdLists.RemoveWhere(ws, (w: Workshop) => w.id == id)
  }

  /** The five values the workshop form submits. */
  datatype WorkshopForm = WorkshopForm(title: string, kind: WorkshopType, date: string, time: string, location: string)

  /** `handleWorkshopFormSubmit(e, formType, workshopId)`: the add form
      appends with no `attendees` key (so 0); the edit form merges all five
      values into the entry, but only when `workshopId` is truthy, so an
      edit of id 0 or without an id does nothing. */
  function WorkshopFormSubmit(ws: seq<Workshop>, form: WorkshopForm, formType: FormType, workshopId: Option<int>): (r: seq<Workshop>)
    ensures formType == AddForm ==> |r| == |ws| + 1 && r[..|ws|] == ws && r[|ws|].attendees == 0
    ensures formType == EditForm && (workshopId.None? || workshopId == Some(0)) ==> r == ws
    ensures formType == EditForm && workshopId.Some? && workshopId.value != 0 ==>
      |r| == |ws| &&
      forall i :: 0 <= i < |ws| ==>
        r[i] == if ws[i].id == workshopId.value
                then Workshop(ws[i].id, form.title, form.kind, form.date, form.time, form.location, ws[i].attendees)
                else ws[i]
  {
    match formType
    case AddForm =>
      AddWorkshop(ws, NewWorkshopFormData(form.title, form.kind, form.date, form.time, form.location, None))
    case EditForm =>
      if workshopId.Some? && workshopId.value != 0 then
        EditWorkshop(ws, workshopId.value,
          WorkshopPatch(None, Some(form.title), Some(form.kind), Some(form.date), Some(form.time), Some(form.location), None))
      else ws
  }

  /** The keys `handleWorkshopFormSubmit` reads from the form. */
  const WorkshopFormKeys: set<string> := {"title", "type", "date", "time", "location"}

  /** The `name`s the add and edit workshop forms give their controls: none,
      since every control carries only an `id`. */
  const RenderedWorkshopNames: set<string> := {}

  /** The payload the handler reads from a form whose named controls are
      `names`: a usable `WorkshopForm` only when every key it reads is
      submitted and the type text names a workshop type. */
  function ReadWorkshopForm(names: set<string>, raw: string -> string): (f: Option<WorkshopForm>)
    ensures f.Some? <==> WorkshopFormKeys <= names && ParseWorkshopType(raw("type")).Some?
    ensures f.Some? ==> f.value.title == raw("title") && WorkshopTypeName(f.value.kind) == raw("type")
    ensures f.Some? ==> f.value.date == raw("date") && f.value.time == raw("time") && f.value.location == raw("location")
  {
    var title := FormDataGet(names, raw, "title");
    var kind := FormDataGet(names, raw, "type");
    var date := FormDataGet(names, raw, "date");
    var time := FormDataGet(names, raw, "time");
    var location := FormDataGet(names, raw, "location");
    if title.None? || kind.None? || date.None? || time.None? || location.None? then None
    else
      match ParseWorkshopType(kind.value)
      case None => None
      case Some(t) => Some(WorkshopForm(title.value, t, date.value, time.value, location.value))
  }

  /** As rendered, the workshop forms submit nothing the handler reads:
      every `formData.get` it makes gives `null`, so no usable payload
      exists whatever the user typed. */
  lemma RenderedWorkshopFormReadsNull(raw: string -> string)
    ensures forall k :: k in WorkshopFormKeys ==> FormDataGet(RenderedWorkshopNames, raw, k).None?
    ensures ReadWorkshopForm(RenderedWorkshopNames, raw).None?
  {
  }

  /** With its controls named after the keys the handler reads, the add
      form appends a workshop holding exactly what the user entered. */
  lemma NamedWorkshopFormAdds(ws: seq<Workshop>, raw: string -> string, t: WorkshopType)
    requires raw("type") == WorkshopTypeName(t)
    ensures var f := ReadWorkshopForm(WorkshopFormKeys, raw);
            f.Some? &&
            var r := WorkshopFormSubmit(ws, f.value, AddForm, None);
            |r| == |ws| + 1 && r[..|ws|] == ws &&
            r[|ws|] == Workshop(|ws| + 1, raw("title"), t, raw("date"), raw("time"), raw("location"), 0)
  {
    WorkshopTypeNameRoundTrip(t);
  }

  /** The "Schedule Workshop" button of the add form, the form's only
      button: `type="button"`, so the form is never submitted, and its click
      adds a fixed workshop whatever was typed. */
  function ScheduleWorkshopButton(ws: seq<Workshop>): (r: seq<Workshop>)
    ensures |r| == |ws| + 1 && r[..|ws|] == ws
    ensures r[|ws|] == Workshop(|ws| + 1, "New Workshop", Technical, "2024-05-01", "14:00", "Room 101", 0)
  {
    AddWorkshop(ws, NewWorkshopFormData("New Workshop", Technical, "2024-05-01", "14:00", "Room 101", Some(0)))
  }

  /** The "Update Workshop" button of the edit form of workshop `w`, also
      `type="button"`: a fixed title, date, time and location, with `w`'s
      own type and attendees, whatever was typed. */
  function UpdateWorkshopButton(ws: seq<Workshop>, w: Workshop): (r: seq<Workshop>)
    ensures |r| == |ws|
    ensures forall i :: 0 <= i < |ws| && ws[i].id != w.id ==> r[i] == ws[i]
    ensures forall i :: 0 <= i < |ws| && ws[i].id == w.id ==>
      r[i] == Workshop(ws[i].id, "Updated Workshop", w.kind, "2024-05-15", "15:00", "Room 202", w.attendees)
  {
    EditWorkshop(ws, w.id,
      WorkshopPatch(None, Some("Updated Workshop"), Some(w.kind), Some("2024-05-15"), Some("15:00"), Some("Room 202"), Some(w.attendees)))
  }

  /** Updating a listed workshop through its button keeps its id, type and
      attendees and overwrites the rest with the fixed values. */
  lemma UpdateButtonKeepsTypeAndAttendees(ws: seq<Workshop>, i: int)
    requires 0 <= i < |ws|
    ensures var r := UpdateWorkshopButton(ws, ws[i]);
            r[i].id == ws[i].id && r[i].kind == ws[i].kind && r[i].attendees == ws[i].attendees &&
            r[i].title == "Updated Workshop" && r[i].location == "Room 202"
  {
  }
}
