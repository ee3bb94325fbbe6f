/** The request body `handleTaskSubmit` builds for a task: the form's date,
    and for a new task with a recurrence type the recurrence fields, read
    from the raw form texts. Nothing checks the interval, the day of the
    month or the weekday list; an empty end date stops the submit. */
module Recurrence {
  import opened Wrappers
  import opened Strings
  import opened JsNumber

  /** A JSON number field of the body: left out, `null` (what `JSON.stringify`
      writes for NaN), or a number. */
  datatype NumberField = Absent | Null | Number(n: int)

  /** The recurrence part of the form, as the inputs hold it. */
  datatype Form = Form(
    taskId: string,          // `task-id`: empty for a new task
    date: string,            // `task-date`
    recursType: string,      // `task-recurs-type`: "", "n_dias", "dia_mes", "dia_semana"
    recursStart: string,
    recursEnd: string,
    interval: string,
    dayOfMonth: string,
    checkedDays: seq<string>) // values of the checked `.recurs-weekday` boxes, in page order

  datatype RecurrenceFields = RecurrenceFields(
    tipo: string,
    inicio: Option<string>,       // `null` when neither start nor task date is set
    fim: string,
    intervalo: NumberField,
    diaMes: NumberField,
    diasSemana: Option<string>)   // present only for "dia_semana"

  /** What the submit does: stops with an alert, or sends a body with the
      task date (`null` when empty) and perhaps recurrence fields. */
  datatype Submit = Stopped | Send(data: Option<string>, recurrence: Option<RecurrenceFields>)

  /** `x || fallback` on a text: an empty text is false. */
  function OrElse(x: string, fallback: Option<string>): Option<string> {
    if x != "" then Some(x) else fallback
  }

  /** `parseInt(text)` as it lands in the body. */
  function NumberOf(text: string): NumberField {
    match ParseInt(text)
    case None => Null
    case Some(n) => Number(n)
  }

  function Build(f: Form): Submit {
    var data := OrElse(f.date, None);
    if f.recursType != "" && f.taskId == "" then
      if f.recursEnd == "" then Stopped
      else
        Send(data, Some(RecurrenceFields(
          f.recursType,
          OrElse(f.recursStart, data),
          f.recursEnd,
          if f.recursType == "n_dias" then NumberOf(f.interval) else Absent,
          if f.recursType == "dia_mes" then NumberOf(f.dayOfMonth) else Absent,
          if f.recursType == "dia_semana" then Some(Join(f.checkedDays, ",")) else None)))
    else
      Send(data, None)
  }

  /** The submit stops exactly for a new recurring task without an end date. */
  lemma StoppedIff(f: Form)
    ensures Build(f) == Stopped <==> f.recursType != "" && f.taskId == "" && f.recursEnd == ""
  {
  }

  /** Recurrence fields are sent exactly for a new task with a recurrence type
      and an end date; editing a task never sends them. */
  lemma RecurrenceSentIff(f: Form)
    ensures (Build(f).Send? && Build(f).recurrence.Some?)
        <==> f.recursType != "" && f.taskId == "" && f.recursEnd != ""
  {
  }

  /** The recurrence starts at the typed start, or else at the task's date,
      and ends at the typed end. */
  lemma StartDefaultsToDate(f: Form)
    requires Build(f).Send? && Build(f).recurrence.Some?
    ensures var r := Build(f).recurrence.value;
      r.tipo == f.recursType && r.fim == f.recursEnd
      && (f.recursStart != "" ==> r.inicio == Some(f.recursStart))
      && (f.recursStart == "" ==> r.inicio == Build(f).data)
      && (f.recursStart == "" && f.date == "" ==> r.inicio == None)
  {
  }

  /** Only the field of the chosen type is present. */
  lemma OnlyMatchingField(f: Form)
    requires Build(f).Send? && Build(f).recurrence.Some?
    ensures var r := Build(f).recurrence.value;
      (r.intervalo != Absent <==> f.recursType == "n_dias")
      && (r.diaMes != Absent <==> f.recursType == "dia_mes")
      && (r.diasSemana.Some? <==> f.recursType == "dia_semana")
  {
  }

  /** An interval typed as the decimal text of any number arrives as that
      number: zero and negative intervals are not refused. */
  lemma IntervalUnchecked(f: Form, n: int)
    requires f.recursType == "n_dias" && f.taskId == "" && f.recursEnd != ""
    requires f.interval == (if n >= 0 then Decimal(n) else ['-'] + Decimal(-n))
    ensures Build(f).recurrence.value.intervalo == Number(n)
  {
    ParseDecimal(n);
  }

  /** An interval box that is empty arrives as `null`. */
  lemma EmptyIntervalIsNull(f: Form)
    requires f.recursType == "n_dias" && f.taskId == "" && f.recursEnd != "" && f.interval == ""
    ensures Build(f).recurrence.value.intervalo == Null
  {
    EmptyIsNaN();
  }

  /** The weekday list is the checked values joined by commas, in page order:
      splitting it gives the checked values back, and with none checked it is
      the empty text. */
  lemma WeekdaysRoundTrip(f: Form)
    requires f.recursType == "dia_semana" && f.taskId == "" && f.recursEnd != ""
    requires forall i :: 0 <= i < |f.checkedDays| ==> ',' !in f.checkedDays[i]
    ensures var w := Build(f).recurrence.value.diasSemana.value;
      (|f.checkedDays| >= 1 ==> Split(w, ',') == f.checkedDays)
      && (|f.checkedDays| == 0 ==> w == "")
  {
    if |f.checkedDays| >= 1 {
      SplitJoin(f.checkedDays, ',');
    }
  }
}
