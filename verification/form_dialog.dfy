/** The generic form dialog (components/dashboard/FormDialog.tsx): a list of
    field descriptions, the transient picker state the dialog keeps (one
    date, one hour / minute / period triple shared by every time field, one
    chosen value per select field), what opening the dialog loads into that
    state from the fields' defaults, and the flat record a submit emits.
    Date parsing (`new Date(s)`) and formatting (`format(d, "PPP")`) are
    foreign: a parsed date is an opaque `DateValue`, and the formatter is a
    parameter. */
module FormDialog {
  import opened Wrappers
  import opened Js

  datatype FieldKind = TextField | DateField | TimeField | TextareaField | SelectField

  /** One field description (`caption` is the source's `label`); `options`
      is empty when the source leaves it
      out, and `required` only reaches the native input. */
  datatype FormField = FormField(
    id: string,
    caption: string,
    kind: FieldKind,
    placeholder: Option<string>,
    required: bool,
    options: seq<string>,
    defaultValue: Option<string>)

  /** A calendar date as the picker holds it. */
  datatype DateValue = DateValue(source: string)

  /** The dialog's React state. `hour` is always a string, but `minute` and
      `period` can become `undefined` when a time default lacks a ':' or a
      ' '. */
  datatype DialogState = DialogState(
    open: bool,
    selectedDate: Option<DateValue>,
    hour: string,
    minute: Option<string>,
    period: Option<string>,
    selectValues: map<string, string>)

  /** The state a fresh dialog starts in and a submit returns to. */
  const Cleared: DialogState := DialogState(false, None, "", Some(""), Some("AM"), map[])

  /** `field.defaultValue` is truthy. */
  predicate HasDefault(f: FormField)
  {
    f.defaultValue.Some? && f.defaultValue.value != ""
  }

  // ------------------------------------------------------------------ time

  datatype TimeParts = TimeParts(hour: string, minute: Option<string>, period: Option<string>)

  /** `const [time, period] = s.split(" "); const [hour, minute] = time.split(":")`. */
  function ParseTime(s: string): (t: TimeParts)
    ensures t.period.None? <==> ' ' !in s
    ensures ':' !in t.hour
    ensures ' ' !in s ==> (t.minute.None? <==> ':' !in s)
    ensures ' ' !in s && ':' !in s ==> t == TimeParts(s, None, None)
  {
    var halves := Split(s, ' ');
    var hm := Split(halves[0], ':');
    if ' ' !in s then
      SplitNoSeparator(s, ' ');
      if ':' !in s then SplitNoSeparator(s, ':'); TimeParts(hm[0], None, None)
      else TimeParts(hm[0], if |hm| > 1 then Some(hm[1]) else None, None)
    else
      TimeParts(hm[0], if |hm| > 1 then Some(hm[1]) else None, if |halves| > 1 then Some(halves[1]) else None)
  }

  /** `${hour}:${minute} ${period}`. */
  function ComposeTime(hour: string, minute: Option<string>, period: Option<string>): (s: string)
    ensures TimeToken(hour) && minute.Some? && TimeToken(minute.value) && period.Some? && ' ' !in period.value ==>
              ParseTime(s) == TimeParts(hour, minute, period)
    ensures period.None? ==> |s| >= 9 && s[|s| - 9..] == "undefined"
  {
    var s := hour + ":" + Show(minute) + " " + Show(period);
    if TimeToken(hour) && minute.Some? && TimeToken(minute.value) && period.Some? && ' ' !in period.value then
      assert ParseTime(s) == TimeParts(hour, minute, period) by {
        ParseComposedTime(hour, minute.value, period.value);
      }
      s
    else s
  }

  /** Hour and minute texts hold neither separator. */
  predicate TimeToken(s: string)
  {
    ' ' !in s && ':' !in s
  }

  /** Splitting a composed time gives back its parts. */
  lemma ParseComposedTime(h: string, m: string, p: string)
    requires TimeToken(h) && TimeToken(m) && ' ' !in p
    ensures ParseTime(h + ":" + m + " " + p) == TimeParts(h, Some(m), Some(p))
  {
    var hm := h + ":" + m;
    assert ' ' !in hm by {
      assert forall k :: 0 <= k < |hm| ==> hm[k] == (if k < |h| then h[k] else if k == |h| then ':' else m[k - |h| - 1]);
    }
    assert Join([h, m], ':') == hm;
    SplitJoin([h, m], ':');
    assert Join([hm, p], ' ') == h + ":" + m + " " + p;
    SplitJoin([hm, p], ' ');
  }

  /** A time string with exactly one ' ' and, before it, exactly one ':'
      survives being parsed and composed again. */
  lemma ComposeParsedTime(s: string)
    requires |Split(s, ' ')| == 2 && |Split(Split(s, ' ')[0], ':')| == 2
    ensures var t := ParseTime(s); ComposeTime(t.hour, t.minute, t.period) == s
  {
    var halves := Split(s, ' ');
    var hm := Split(halves[0], ':');
    assert halves[1..] == [halves[1]];
    assert s == Join(halves, ' ') == halves[0] + [' '] + halves[1];
    assert hm[1..] == [hm[1]];
    assert halves[0] == Join(hm, ':') == hm[0] + [':'] + hm[1];
  }

  /** "9:30" has no space, so it parses to an hour and a minute only. */
  lemma ParseWithoutPeriod()
    ensures ParseTime("9:30") == TimeParts("9", Some("30"), None)
  {
    var s := "9:30";
    assert ' ' !in s by {
      assert s == ['9', ':', '3', '0'];
    }
    SplitNoSeparator(s, ' ');
    assert Join(["9", "30"], ':') == s by {
      assert Join(["30"], ':') == "30";
    }
    SplitJoin(["9", "30"], ':');
  }

  /** A default without a period composes with the text "undefined". */
  lemma MissingPeriodShowsUndefined()
    ensures var t := ParseTime("9:30"); ComposeTime(t.hour, t.minute, t.period) == "9:30 undefined"
  {
    ParseWithoutPeriod();
    assert ComposeTime("9", Some("30"), None) == "9" + ":" + "30" + " " + "undefined";
  }

  /** `n.toString().padStart(2, "0")`. */
  function Pad2(n: nat): (s: string)
    requires n < 100
    ensures |s| == 2 && AllDigits(s) && DigitsValue(s) == n
  {
    var digits := NatToString(n);
    if |digits| < 2 then
      var s := "0" + digits;
      assert s[..1] == "0";
      s
    else digits
  }

  /** The hour picker's options, "01" to "12". */
  function HourOptions(): (hs: seq<string>)
    ensures |hs| == 12
    ensures forall i :: 0 <= i < 12 ==> |hs[i]| == 2 && AllDigits(hs[i]) && DigitsValue(hs[i]) == i + 1
  {
    seq(12, i requires 0 <= i < 12 => Pad2(i + 1))
  }

  /** The minute picker's options, "00" to "59". */
  function MinuteOptions(): (ms: seq<string>)
    ensures |ms| == 60
    ensures forall i :: 0 <= i < 60 ==> |ms[i]| == 2 && AllDigits(ms[i]) && DigitsValue(ms[i]) == i
  {
    seq(60, i requires 0 <= i < 60 => Pad2(i))
  }

  const PeriodOptions: seq<string> := ["AM", "PM"]

  lemma DigitsAreTimeTokens(s: string)
    requires AllDigits(s)
    ensures TimeToken(s)
  {
  }

  /** A time picked from the three pickers is emitted in a form that parses
      back into the same picks. */
  lemma PickedTimeRoundTrip(h: int, m: int, p: int)
    requires 0 <= h < 12 && 0 <= m < 60 && 0 <= p < 2
    ensures var s := ComposeTime(HourOptions()[h], Some(MinuteOptions()[m]), Some(PeriodOptions[p]));
            ParseTime(s) == TimeParts(HourOptions()[h], Some(MinuteOptions()[m]), Some(PeriodOptions[p]))
  {
    DigitsAreTimeTokens(HourOptions()[h]);
    DigitsAreTimeTokens(MinuteOptions()[m]);
    ParseComposedTime(HourOptions()[h], MinuteOptions()[m], PeriodOptions[p]);
  }

  // ------------------------------------------------------------------ open

  /** The select values loaded on open: the default of every select field
      that has one (a later field of the same id wins). */
  function InitialSelectValues(fields: seq<FormField>): (m: map<string, string>)
    ensures m.Keys == SelectDefaultIds(fields)
    ensures forall i :: LastSelectDefault(fields, i) ==> m[fields[i].id] == fields[i].defaultValue.value
    decreases |fields|
  {
    if fields == [] then map[]
    else
      var n := |fields| - 1;
      var m := InitialSelectValues(fields[..n]);
      LastSelectDefaultOfPrefix(fields);
      if fields[n].kind == SelectField && HasDefault(fields[n]) then m[fields[n].id := fields[n].defaultValue.value]
      else m
  }

  /** The ids of the select fields that have a default. */
  ghost function SelectDefaultIds(fields: seq<FormField>): set<string>
  {
    set i | 0 <= i < |fields| && fields[i].kind == SelectField && HasDefault(fields[i]) :: fields[i].id
  }

  lemma LastSelectDefaultOfPrefix(fields: seq<FormField>)
    requires fields != []
    ensures var n := |fields| - 1;
            forall i :: LastSelectDefault(fields, i) && i < n ==> LastSelectDefault(fields[..n], i)
    ensures var n := |fields| - 1;
            forall i :: LastSelectDefault(fields, i) && i < n && fields[n].kind == SelectField && HasDefault(fields[n]) ==> fields[i].id != fields[n].id
    ensures var n := |fields| - 1;
            SelectDefaultIds(fields) == SelectDefaultIds(fields[..n])
              + (if fields[n].kind == SelectField && HasDefault(fields[n]) then {fields[n].id} else {})
  {
    var n := |fields| - 1;
    assert forall i :: 0 <= i < n ==> fields[..n][i] == fields[i];
  }

  /** Field `i` is the last select field with a default under its id. */
  ghost predicate LastSelectDefault(fields: seq<FormField>, i: int)
  {
    && 0 <= i < |fields|
    && fields[i].kind == SelectField && HasDefault(fields[i])
    && forall j :: i < j < |fields| && fields[j].id == fields[i].id ==> !(fields[j].kind == SelectField && HasDefault(fields[j]))
  }

  /** One step of the second `forEach` of `handleDialogOpen`. */
  function LoadDefault(f: FormField, st: DialogState): DialogState
  {
    var st1 := if f.kind == TimeField && HasDefault(f) then
                 var t := ParseTime(f.defaultValue.value);
                 st.(hour := t.hour, minute := t.minute, period := t.period)
               else st;
    if f.kind == DateField && HasDefault(f) then st1.(selectedDate := Some(DateValue(f.defaultValue.value)))
    else st1
  }

  /** The second `forEach` of `handleDialogOpen`, field by field. */
  function LoadDefaults(fields: seq<FormField>, st: DialogState): DialogState
    decreases |fields|
  {
    if fields == [] then st else LoadDefaults(fields[1..], LoadDefault(fields[0], st))
  }

  /** `handleDialogOpen(isOpen)`. Opening reloads the select values and the
      time and date defaults; what no default covers keeps its old value.
      Closing without submitting changes nothing but `open`. */
  function OnOpenChange(fields: seq<FormField>, st: DialogState, isOpen: bool): (r: DialogState)
    ensures r.open == isOpen
    ensures !isOpen ==> r == st.(open := false)
    ensures isOpen ==> r.selectValues == InitialSelectValues(fields)
    ensures isOpen ==> match LastDefault(fields, DateField)
                       case Some(d) => r.selectedDate == Some(DateValue(d))
                       case None => r.selectedDate == st.selectedDate
    ensures isOpen ==> match LastDefault(fields, TimeField)
                       case Some(d) => TimeParts(r.hour, r.minute, r.period) == ParseTime(d)
                       case None => r.hour == st.hour && r.minute == st.minute && r.period == st.period
  {
    if isOpen then
      var st0 := st.(selectValues := InitialSelectValues(fields));
      LoadDefaultsKeepsSelects(fields, st0);
      LoadDefaultsTime(fields, st0);
      LoadDefaultsDate(fields, st0);
      LoadDefaults(fields, st0).(open := true)
    else st.(open := false)
  }

  /** The default of the last field of kind `kind` that has one. */
  function LastDefault(fields: seq<FormField>, kind: FieldKind): (d: Option<string>)
    ensures d.None? <==> forall i :: 0 <= i < |fields| ==> !(fields[i].kind == kind && HasDefault(fields[i]))
    ensures d.Some? ==> exists i :: 0 <= i < |fields| && fields[i].kind == kind && HasDefault(fields[i])
                          && d.value == fields[i].defaultValue.value
                          && forall j :: i < j < |fields| ==> !(fields[j].kind == kind && HasDefault(fields[j]))
    decreases |fields|
  {
    if fields == [] then None
    else
      var rest := LastDefault(fields[1..], kind);
      assert forall i :: 1 <= i < |fields| ==> fields[i] == fields[1..][i - 1];
      if rest.Some? then
        var i :| 0 <= i < |fields[1..]| && fields[1..][i].kind == kind && HasDefault(fields[1..][i])
                 && rest.value == fields[1..][i].defaultValue.value
                 && forall j :: i < j < |fields[1..]| ==> !(fields[1..][j].kind == kind && HasDefault(fields[1..][j]));
        assert fields[i + 1] == fields[1..][i];
        rest
      else if fields[0].kind == kind && HasDefault(fields[0]) then fields[0].defaultValue
      else None
  }

  /** All time fields share one hour / minute / period, so opening leaves
      there the parts of the last time default, or the old parts when no
      time field has a default. */
  lemma {:induction false} LoadDefaultsTime(fields: seq<FormField>, st: DialogState)
    ensures var r := LoadDefaults(fields, st);
            match LastDefault(fields, TimeField)
            case Some(d) => TimeParts(r.hour, r.minute, r.period) == ParseTime(d)
            case None => r.hour == st.hour && r.minute == st.minute && r.period == st.period
    decreases |fields|
  {
    if fields != [] {
      LoadDefaultsTime(fields[1..], LoadDefault(fields[0], st));
    }
  }

  /** Opening leaves as the picked date the default of the last date field
      that has one, or the old date when no date field has a default. */
  lemma {:induction false} LoadDefaultsDate(fields: seq<FormField>, st: DialogState)
    ensures var r := LoadDefaults(fields, st);
            match LastDefault(fields, DateField)
            case Some(d) => r.selectedDate == Some(DateValue(d))
            case None => r.selectedDate == st.selectedDate
    decreases |fields|
  {
    if fields != [] {
      LoadDefaultsDate(fields[1..], LoadDefault(fields[0], st));
    }
  }

  /** Loading defaults never touches the select values. */
  lemma {:induction false} LoadDefaultsKeepsSelects(fields: seq<FormField>, st: DialogState)
    ensures LoadDefaults(fields, st).selectValues == st.selectValues
    ensures LoadDefaults(fields, st).open == st.open
    decreases |fields|
  {
    if fields != [] {
      LoadDefaultsKeepsSelects(fields[1..], LoadDefault(fields[0], st));
    }
  }

  // ---------------------------------------------------------------- submit

  /** The value one field contributes to the record. `raw` is the browser's
      form snapshot (`formData.get(id)`) and `format` the date formatter. */
  function Emit(f: FormField, st: DialogState, raw: string -> string, format: DateValue -> string): (v: string)
    ensures f.kind == TextField || f.kind == TextareaField ==> v == raw(f.id)
    ensures f.kind == SelectField ==>
      v == (if f.id in st.selectValues && st.selectValues[f.id] != "" then st.selectValues[f.id] else raw(f.id))
    ensures f.kind == DateField ==> v == (if st.selectedDate.Some? then format(st.selectedDate.value) else "")
    ensures f.kind == TimeField ==> v == ComposeTime(st.hour, st.minute, st.period)
  {
    match f.kind
    case DateField => if st.selectedDate.Some? then format(st.selectedDate.value) else ""
    case TimeField => ComposeTime(st.hour, st.minute, st.period)
    case SelectField =>
      if f.id in st.selectValues && st.selectValues[f.id] != "" then st.selectValues[f.id] else raw(f.id)
    case TextField => raw(f.id)
    case TextareaField => raw(f.id)
  }

  /** Field `i` is the last field with its id, the one whose value the
      record keeps. */
  ghost predicate LastWithId(fields: seq<FormField>, i: int)
  {
    0 <= i < |fields| && forall j :: i < j < |fields| ==> fields[j].id != fields[i].id
  }

  /** The ids of the fields. */
  ghost function Ids(fields: seq<FormField>): set<string>
  {
    set i | 0 <= i < |fields| :: fields[i].id
  }

  lemma LastWithIdOfPrefix(fields: seq<FormField>)
    requires fields != []
    ensures var n := |fields| - 1;
            forall i :: LastWithId(fields, i) && i < n ==> LastWithId(fields[..n], i) && fields[i].id != fields[n].id
    ensures var n := |fields| - 1;
            Ids(fields) == Ids(fields[..n]) + {fields[n].id}
  {
    var n := |fields| - 1;
    assert forall i :: 0 <= i < n ==> fields[..n][i] == fields[i];
  }

  /** `fields.forEach(f => rec[f.id] = value(f))`: one key per id, holding
      the value of the last field with that id. */
  function RecordOf(fields: seq<FormField>, value: FormField -> string): (rec: map<string, string>)
    ensures rec.Keys == Ids(fields)
    ensures forall i :: LastWithId(fields, i) ==> rec[fields[i].id] == value(fields[i])
    decreases |fields|
  {
    if fields == [] then map[]
    else
      var n := |fields| - 1;
      var rec := RecordOf(fields[..n], value);
      var r := rec[fields[n].id := value(fields[n])];
      LastWithIdOfPrefix(fields);
      assert forall i :: LastWithId(fields, i) ==> r[fields[i].id] == value(fields[i]) by {
        forall i | LastWithId(fields, i)
          ensures r[fields[i].id] == value(fields[i])
        {
          if i < n {
            assert fields[..n][i] == fields[i];
          }
        }
      }
      r
  }

  /** The record the submit handler builds, one key per field id. */
  function BuildRecord(fields: seq<FormField>, st: DialogState, raw: string -> string, format: DateValue -> string): (rec: map<string, string>)
    ensures rec.Keys == Ids(fields)
    ensures forall i :: LastWithId(fields, i) ==> rec[fields[i].id] == Emit(fields[i], st, raw, format)
  {
    RecordOf(fields, f => Emit(f, st, raw, format))
  }

  datatype Submission = Submission(record: map<string, string>, next: DialogState)

  /** The form's submit handler: build the record, hand it on, close the
      dialog and clear the pickers. */
  function Submit(fields: seq<FormField>, st: DialogState, raw: string -> string, format: DateValue -> string): (s: Submission)
    ensures s.record.Keys == Ids(fields)
    ensures forall i :: LastWithId(fields, i) ==> s.record[fields[i].id] == Emit(fields[i], st, raw, format)
    ensures !s.next.open && s.next.selectedDate.None? && s.next.selectValues == map[]
    ensures s.next.hour == "" && s.next.minute == Some("") && s.next.period == Some("AM")
  {
    Submission(BuildRecord(fields, st, raw, format), Cleared)
  }

  /** Every time field of a form emits the same string. */
  lemma TimeFieldsAgree(fields: seq<FormField>, st: DialogState, raw: string -> string, format: DateValue -> string, i: int, j: int)
    requires LastWithId(fields, i) && LastWithId(fields, j)
    requires fields[i].kind == TimeField && fields[j].kind == TimeField
    ensures var rec := Submit(fields, st, raw, format).record;
            rec[fields[i].id] == rec[fields[j].id] == ComposeTime(st.hour, st.minute, st.period)
  {
  }

  /** A date field emits "" when no date is picked. */
  lemma UnpickedDateIsEmpty(fields: seq<FormField>, st: DialogState, raw: string -> string, format: DateValue -> string, i: int)
    requires LastWithId(fields, i) && fields[i].kind == DateField
    requires st.selectedDate.None?
    ensures Submit(fields, st, raw, format).record[fields[i].id] == ""
  {
  }

  /** Opening a dialog whose last time default is a well-formed
      "HH:MM P" and submitting without touching the pickers emits that
      default for every time field. */
  lemma OpenSubmitTimeRoundTrip(fields: seq<FormField>, st: DialogState, raw: string -> string, format: DateValue -> string, i: int, h: string, m: string, p: string)
    requires LastDefault(fields, TimeField) == Some(ComposeTime(h, Some(m), Some(p)))
    requires TimeToken(h) && TimeToken(m) && ' ' !in p
    requires LastWithId(fields, i) && fields[i].kind == TimeField
    ensures Submit(fields, OnOpenChange(fields, st, true), raw, format).record[fields[i].id] == ComposeTime(h, Some(m), Some(p))
  {
    var st0 := st.(selectValues := InitialSelectValues(fields));
    LoadDefaultsTime(fields, st0);
    ParseComposedTime(h, m, p);
  }

  /** Opening a dialog and submitting without touching a select field emits
      that field's default. */
  lemma OpenSubmitSelectDefault(fields: seq<FormField>, st: DialogState, raw: string -> string, format: DateValue -> string, i: int)
    requires LastWithId(fields, i) && LastSelectDefault(fields, i)
    ensures Submit(fields, OnOpenChange(fields, st, true), raw, format).record[fields[i].id] == fields[i].defaultValue.value
  {
    var st0 := st.(selectValues := InitialSelectValues(fields));
    LoadDefaultsKeepsSelects(fields, st0);
  }
}
