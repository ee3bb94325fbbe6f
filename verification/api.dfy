/** The task, insight and sharing endpoints of the API over the abstract
    store: who reads which tasks, who may change or delete them, what an
    update writes, how an insight becomes a task, and how a plan is shared.
    Request bodies are parsed into optional fields; a required field that is
    missing is answered with 422 before the endpoint runs. */
module Api {
  import opened Wrappers
  import opened Seqs
  import opened Calendar
  import opened Records
  import opened Accounts
  import Board

  // ---------------------------------------------------------------------------
  // Reading tasks

  /** The owners who shared their plan with `email`. */
  function SharedOwners(shares: seq<Share>, email: string): set<int> {
    set i | 0 <= i < |shares| && shares[i].email == email && shares[i].ownerId.Some? :: shares[i].ownerId.value
  }

  /** What a non-administrator reads: their own tasks and those of the owners
      who shared with their email. A task without owner matches neither (SQL
      compares NULL as unknown). */
  predicate Visible(s: Store, me: User, row: Row<Task>) {
    row.owner == Some(me.id) || (row.owner.Some? && row.owner.value in SharedOwners(s.shares, me.email))
  }

  function VisibleTest(s: Store, me: User): Row<Task> -> bool {
    (row: Row<Task>) => Visible(s, me, row)
  }

  /** `.offset(skip).limit(limit)`. */
  function Page<T>(xs: seq<T>, skip: nat, limit: nat): seq<T> {
    var a := if skip < |xs| then skip else |xs|;
    var b := if skip + limit < |xs| then skip + limit else |xs|;
    xs[a..b]
  }

  /** The sort key of `sort(key=id, reverse=True)`. */
  function IdDescending(row: Row<Task>): int {
    -row.id
  }

  /** `GET /tasks`: administrators read every task, the others what
      `Visible` allows; the page is sorted by id, highest first. */
  function ReadTasks(s: Store, me: User, skip: nat, limit: nat): seq<Row<Task>> {
    var rows := if IsAdmin(me) then s.tasks else Keep(s.tasks, VisibleTest(s, me));
    SortBy(Page(rows, skip, limit), IdDescending)
  }

  /** With the whole table on one page, a reader gets each visible task
      exactly once, and an administrator gets the whole table. */
  lemma ReadTasksContents(s: Store, me: User, limit: nat)
    requires limit >= |s.tasks|
    ensures var r := ReadTasks(s, me, 0, limit);
      (IsAdmin(me) ==> multiset(r) == multiset(s.tasks))
      && (!IsAdmin(me) ==> multiset(r) == multiset(Keep(s.tasks, VisibleTest(s, me))))
      && (forall x :: x in r <==> x in s.tasks && (IsAdmin(me) || Visible(s, me, x)))
  {
    var rows := if IsAdmin(me) then s.tasks else Keep(s.tasks, VisibleTest(s, me));
    assert Page(rows, 0, limit) == rows;
    SortByPermutes(rows, IdDescending);
    var r := ReadTasks(s, me, 0, limit);
    forall x
      ensures x in r <==> x in rows
    {
      assert x in r <==> x in multiset(r);
      assert x in rows <==> x in multiset(rows);
    }
  }

  /** The answer is sorted by id, highest first, with no id twice. */
  lemma ReadTasksDescending(s: Store, me: User, skip: nat, limit: nat)
    requires DistinctIds(s.tasks)
    ensures var r := ReadTasks(s, me, skip, limit);
      forall i, j :: 0 <= i < j < |r| ==> r[i].id > r[j].id
  {
    var rows := if IsAdmin(me) then s.tasks else Keep(s.tasks, VisibleTest(s, me));
    assert KeysDistinct(s.tasks, IdDescending);
    if !IsAdmin(me) {
      KeepKeysDistinct(s.tasks, VisibleTest(s, me), IdDescending);
    }
    var page := Page(rows, skip, limit);
    assert KeysDistinct(page, IdDescending);
    SortByKeysDistinct(page, IdDescending);
  }

  /** Sharing is what widens a reader's view: without shares addressed to
      them, a user reads only their own tasks. */
  lemma NoSharesOwnOnly(s: Store, me: User, row: Row<Task>)
    requires forall i :: 0 <= i < |s.shares| ==> s.shares[i].email != me.email
    ensures Visible(s, me, row) <==> row.owner == Some(me.id)
  {
  }

  // ---------------------------------------------------------------------------
  // Writing tasks

  /** The extended fields of a request: each may be left out. */
  datatype DetailsBody = DetailsBody(
    oQue: Option<string>, como: Option<string>, onde: Option<string>, cta: Option<string>,
    duracao: Option<string>, kpiMeta: Option<string>, tipoDia: Option<string>,
    diaSemana: Option<string>, temaMacro: Option<string>, angulo: Option<string>,
    canalArea: Option<string>)

  const EmptyDetailsBody := DetailsBody(None, None, None, None, None, None, None, None, None, None, None)

  /** The `TaskCreate` body as sent. */
  datatype TaskBody = TaskBody(
    descricao: Option<string>, data: Option<PyDate>, status: Option<string>,
    prioridade: Option<string>, categoria: Option<string>, details: DetailsBody)

  /** A `TaskCreate` after validation: every field has a value. */
  datatype TaskFields = TaskFields(
    descricao: string, data: Option<PyDate>, status: string, prioridade: string,
    categoria: string, details: Details)

  /** Left-out extended fields read as the empty text. */
  function FillDetails(b: DetailsBody): Details {
    Details(b.oQue.GetOr(""), b.como.GetOr(""), b.onde.GetOr(""), b.cta.GetOr(""),
            b.duracao.GetOr(""), b.kpiMeta.GetOr(""), b.tipoDia.GetOr(""),
            b.diaSemana.GetOr(""), b.temaMacro.GetOr(""), b.angulo.GetOr(""),
            b.canalArea.GetOr(""))
  }

  /** `descricao` is required (422); the others default to no date,
      "A fazer", "Média", "Geral" and empty texts. */
  function Validate(b: TaskBody): Outcome<TaskFields> {
    if b.descricao.None? then Fail(422)
    else Ok(TaskFields(b.descricao.value, b.data, b.status.GetOr("A fazer"),
                       b.prioridade.GetOr("Média"), b.categoria.GetOr("Geral"),
                       FillDetails(b.details)))
  }

  /** A body that states every field. */
  function FullBody(f: TaskFields): TaskBody {
    var d := f.details;
    TaskBody(Some(f.descricao), f.data, Some(f.status), Some(f.prioridade), Some(f.categoria),
      DetailsBody(Some(d.oQue), Some(d.como), Some(d.onde), Some(d.cta), Some(d.duracao),
                  Some(d.kpiMeta), Some(d.tipoDia), Some(d.diaSemana), Some(d.temaMacro),
                  Some(d.angulo), Some(d.canalArea)))
  }

  /** Validation keeps what a full body states. */
  lemma ValidateFullBody(f: TaskFields)
    ensures Validate(FullBody(f)) == Ok(f)
  {
  }

  /** A body with only a description gets every declared default. */
  lemma ValidateDefaults(descricao: string)
    ensures Validate(TaskBody(Some(descricao), None, None, None, None, EmptyDetailsBody))
         == Ok(TaskFields(descricao, None, "A fazer", "Média", "Geral", NoDetails))
  {
  }

  /** The body `{status}` that the board's drag and drop sends is refused:
      it has no `descricao`. */
  lemma StatusOnlyBodyRefused(s: Store, me: User, id: int, status: string)
    ensures UpdateTask(s, me, id, TaskBody(None, None, Some(status), None, None, EmptyDetailsBody)) == Fail(422)
  {
  }

  /** The task `POST /tasks` stores. `TaskCreate` declares no recurrence
      field, so whatever recurrence the request carries is not stored. */
  function NewTask(f: TaskFields): Task {
    Task(f.descricao, f.data, f.status, f.prioridade, f.categoria, f.details, "", NoRecurrence)
  }

  /** `POST /tasks`: the new task belongs to the caller. */
  function CreateTask(s: Store, me: User, b: TaskBody, newId: int): Outcome<Store>
    requires FreshId(s.tasks, newId)
  {
    match Validate(b)
    case Fail(code) => Fail(code)
    case Ok(f) => Ok(s.(tasks := s.tasks + [Row(newId, Some(me.id), NewTask(f))]))
  }

  /** Who may change or delete a row: an administrator or its owner. */
  predicate MayChange<T>(me: User, row: Row<T>) {
    IsAdmin(me) || row.owner == Some(me.id)
  }

  /** `setattr` of every `TaskCreate` field; the original description and the
      recurrence columns are not among them. */
  function Overwrite(t: Task, f: TaskFields): Task {
    t.(descricao := f.descricao, data := f.data, status := f.status,
       prioridade := f.prioridade, categoria := f.categoria, details := f.details)
  }

  /** `PUT /tasks/{id}`: 422 for a body without description, 404 for an
      unknown id, 403 for someone who may not change the task. */
  function UpdateTask(s: Store, me: User, id: int, b: TaskBody): Outcome<Store> {
    match Validate(b)
    case Fail(code) => Fail(code)
    case Ok(f) =>
      match Find(s.tasks, id)
      case None => Fail(404)
      case Some(i) =>
        if !MayChange(me, s.tasks[i]) then Fail(403)
        else Ok(s.(tasks := s.tasks[i := s.tasks[i].(value := Overwrite(s.tasks[i].value, f))]))
  }

  function NotId<T>(id: int): Row<T> -> bool {
    (row: Row<T>) => row.id != id
  }

  /** `DELETE /tasks/{id}`: 404 for an unknown id, 403 for someone who may
      not change the task. */
  function DeleteTask(s: Store, me: User, id: int): Outcome<Store> {
    match Find(s.tasks, id)
    case None => Fail(404)
    case Some(i) =>
      if !MayChange(me, s.tasks[i]) then Fail(403)
      else Ok(s.(tasks := Keep(s.tasks, NotId(id))))
  }

  /** The refusals of update and delete: 404 exactly for an unknown id, 403
      exactly for a task the caller neither owns nor administers. */
  lemma ChangeGuards(s: Store, me: User, id: int, b: TaskBody)
    requires b.descricao.Some?
    ensures (UpdateTask(s, me, id, b) == Fail(404)) == (DeleteTask(s, me, id) == Fail(404)) == FreshId(s.tasks, id)
    ensures (UpdateTask(s, me, id, b) == Fail(403)) == (DeleteTask(s, me, id) == Fail(403))
    ensures DeleteTask(s, me, id) == Fail(403)
        <==> !FreshId(s.tasks, id) && !IsAdmin(me) && s.tasks[Find(s.tasks, id).value].owner != Some(me.id)
  {
  }

  /** An update writes the validated body into that task, keeps its id, owner,
      original description and recurrence, and touches no other row. */
  lemma UpdateTaskEffect(s: Store, me: User, id: int, b: TaskBody)
    requires UpdateTask(s, me, id, b).Ok?
    ensures var t := UpdateTask(s, me, id, b).value;
      var i := Find(s.tasks, id).value;
      var f := Validate(b).value;
      |t.tasks| == |s.tasks|
      && (forall j :: 0 <= j < |s.tasks| && j != i ==> t.tasks[j] == s.tasks[j])
      && t.tasks[i].id == id && t.tasks[i].owner == s.tasks[i].owner
      && t.tasks[i].value.descricao == f.descricao && t.tasks[i].value.data == f.data
      && t.tasks[i].value.status == f.status && t.tasks[i].value.prioridade == f.prioridade
      && t.tasks[i].value.categoria == f.categoria && t.tasks[i].value.details == f.details
      && t.tasks[i].value.descricaoOriginal == s.tasks[i].value.descricaoOriginal
      && t.tasks[i].value.recurrence == s.tasks[i].value.recurrence
      && SameExceptTasks(s, t)
  {
  }

  /** Sending the same update twice leaves the store as sending it once. */
  lemma UpdateTaskIdempotent(s: Store, me: User, id: int, b: TaskBody)
    requires UpdateTask(s, me, id, b).Ok?
    ensures UpdateTask(UpdateTask(s, me, id, b).value, me, id, b) == UpdateTask(s, me, id, b)
  {
    var t := UpdateTask(s, me, id, b).value;
    var i := Find(s.tasks, id).value;
    var f := Validate(b).value;
    FindSameIds(s.tasks, t.tasks, id);
    assert Overwrite(t.tasks[i].value, f) == t.tasks[i].value;
    assert t.tasks[i := t.tasks[i].(value := Overwrite(t.tasks[i].value, f))] == t.tasks;
  }

  /** A deletion removes every row with that id and keeps the others in
      order; deleting again answers 404. */
  lemma DeleteTaskEffect(s: Store, me: User, id: int)
    requires DeleteTask(s, me, id).Ok?
    ensures var t := DeleteTask(s, me, id).value;
      FreshId(t.tasks, id)
      && IsSubsequence(t.tasks, s.tasks)
      && (forall x :: x in t.tasks <==> x in s.tasks && x.id != id)
      && |t.tasks| < |s.tasks|
      && DeleteTask(t, me, id) == Fail(404)
      && SameExceptTasks(s, t)
  {
    KeepIsSubsequence(s.tasks, NotId(id));
    var i := Find(s.tasks, id).value;
    KeepSplits(s.tasks, NotId(id));
    assert s.tasks[i] in Keep(s.tasks, Not(NotId(id)));
  }

  /** A created task is the caller's and holds the validated body, exactly
      one row is appended, and validation answers for a body without
      description. */
  lemma CreateTaskEffect(s: Store, me: User, b: TaskBody, newId: int)
    requires FreshId(s.tasks, newId)
    ensures b.descricao.None? <==> CreateTask(s, me, b, newId) == Fail(422)
    ensures CreateTask(s, me, b, newId).Ok? ==>
      var t := CreateTask(s, me, b, newId).value;
      var f := Validate(b).value;
      |t.tasks| == |s.tasks| + 1
      && t.tasks[|s.tasks|] == Row(newId, Some(me.id), NewTask(f))
      && t.tasks[|s.tasks|].value.descricao == b.descricao.value
      && t.tasks[|s.tasks|].value.data == b.data
      && t.tasks[|s.tasks|].value.details == FillDetails(b.details)
      && Find(t.tasks, newId) == Some(|s.tasks|)
      && t.tasks[|s.tasks|].owner == Some(me.id)
      && t.tasks[|s.tasks|].value.recurrence == NoRecurrence
      && t.tasks[..|s.tasks|] == s.tasks
      && SameExceptTasks(s, t)
  {
    if CreateTask(s, me, b, newId).Ok? {
      var t := CreateTask(s, me, b, newId).value;
      assert t.tasks[|s.tasks|].id == newId;
      FindAfterFresh(s.tasks, t.tasks[|s.tasks|]);
    }
  }

  // ---------------------------------------------------------------------------
  // Insights

  /** `InsightUpdate` with `exclude_unset`: only the fields sent. A date sent
      as `null` clears `data_prevista`, so that field is an option of an
      option. */
  datatype InsightPatch = InsightPatch(
    descricao: Option<string>, categoria: Option<string>, dataPrevista: Option<Option<PyDate>>,
    status: Option<string>, details: DetailsBody, prioridade: Option<string>)

  const EmptyPatch := InsightPatch(None, None, None, None, EmptyDetailsBody, None)

  function PatchDetails(d: Details, b: DetailsBody): Details {
    Details(b.oQue.GetOr(d.oQue), b.como.GetOr(d.como), b.onde.GetOr(d.onde), b.cta.GetOr(d.cta),
            b.duracao.GetOr(d.duracao), b.kpiMeta.GetOr(d.kpiMeta), b.tipoDia.GetOr(d.tipoDia),
            b.diaSemana.GetOr(d.diaSemana), b.temaMacro.GetOr(d.temaMacro),
            b.angulo.GetOr(d.angulo), b.canalArea.GetOr(d.canalArea))
  }

  function Patch(x: Insight, p: InsightPatch): Insight {
    Insight(p.descricao.GetOr(x.descricao), p.dataPrevista.GetOr(x.dataPrevista),
            p.status.GetOr(x.status), p.categoria.GetOr(x.categoria),
            PatchDetails(x.details, p.details), p.prioridade.GetOr(x.prioridade))
  }

  /** `PUT /insights/{id}`: 404 for an unknown id, 403 for someone who may
      not change it, otherwise the fields sent are written. */
  function UpdateInsight(s: Store, me: User, id: int, p: InsightPatch): Outcome<Store> {
    match Find(s.insights, id)
    case None => Fail(404)
    case Some(i) =>
      if !MayChange(me, s.insights[i]) then Fail(403)
      else Ok(s.(insights := s.insights[i := s.insights[i].(value := Patch(s.insights[i].value, p))]))
  }

  /** A field that is not sent keeps its value; a field that is sent takes
      the value sent. */
  lemma PatchOnlySent(x: Insight, p: InsightPatch)
    ensures var y := Patch(x, p);
      (p.descricao.None? ==> y.descricao == x.descricao) && (p.descricao.Some? ==> y.descricao == p.descricao.value)
      && (p.status.None? ==> y.status == x.status) && (p.status.Some? ==> y.status == p.status.value)
      && (p.categoria.None? ==> y.categoria == x.categoria) && (p.categoria.Some? ==> y.categoria == p.categoria.value)
      && (p.prioridade.None? ==> y.prioridade == x.prioridade) && (p.prioridade.Some? ==> y.prioridade == p.prioridade.value)
      && (p.dataPrevista.None? ==> y.dataPrevista == x.dataPrevista)
      && (p.dataPrevista.Some? ==> y.dataPrevista == p.dataPrevista.value)
      && (p.details == EmptyDetailsBody ==> y.details == x.details)
      && DetailsPatched(x.details, p.details, y.details)
  {
    PatchDetailsOnlySent(x.details, p.details);
  }

  /** A field left out keeps `before`'s value; a field sent takes it. */
  predicate SentOrKept(sent: Option<string>, before: string, after: string) {
    (sent.None? ==> after == before) && (sent.Some? ==> after == sent.value)
  }

  /** Each of the eleven extended fields is written exactly when it is sent. */
  predicate DetailsPatched(d: Details, b: DetailsBody, e: Details) {
    SentOrKept(b.oQue, d.oQue, e.oQue) && SentOrKept(b.como, d.como, e.como)
    && SentOrKept(b.onde, d.onde, e.onde) && SentOrKept(b.cta, d.cta, e.cta)
    && SentOrKept(b.duracao, d.duracao, e.duracao) && SentOrKept(b.kpiMeta, d.kpiMeta, e.kpiMeta)
    && SentOrKept(b.tipoDia, d.tipoDia, e.tipoDia) && SentOrKept(b.diaSemana, d.diaSemana, e.diaSemana)
    && SentOrKept(b.temaMacro, d.temaMacro, e.temaMacro) && SentOrKept(b.angulo, d.angulo, e.angulo)
    && SentOrKept(b.canalArea, d.canalArea, e.canalArea)
  }

  /** The extended fields of an insight update, field by field. */
  lemma PatchDetailsOnlySent(d: Details, b: DetailsBody)
    ensures DetailsPatched(d, b, PatchDetails(d, b))
  {
  }

  /** An empty update changes nothing, and an update sent twice is the same
      as sent once. */
  lemma PatchEmptyAndIdempotent(x: Insight, p: InsightPatch)
    ensures Patch(x, EmptyPatch) == x
    ensures Patch(Patch(x, p), p) == Patch(x, p)
  {
  }

  /** An update writes only the chosen insight. */
  lemma UpdateInsightEffect(s: Store, me: User, id: int, p: InsightPatch)
    requires UpdateInsight(s, me, id, p).Ok?
    ensures var t := UpdateInsight(s, me, id, p).value;
      var i := Find(s.insights, id).value;
      |t.insights| == |s.insights|
      && (forall j :: 0 <= j < |s.insights| && j != i ==> t.insights[j] == s.insights[j])
      && t.insights[i] == s.insights[i].(value := Patch(s.insights[i].value, p))
      && SameExceptInsights(s, t)
  {
  }

  /** The task an insight becomes: its description, category and extended
      fields, its planned date or else today, status "A fazer" and priority
      "Média". */
  function TaskFromInsight(x: Insight, today: PyDate): Task {
    Task(x.descricao, Some(x.dataPrevista.GetOr(today)), "A fazer", "Média", x.categoria,
         x.details, "", NoRecurrence)
  }

  /** `POST /insights/{id}/convert`: 404 and 403 as for updates; otherwise a
      task owned by the caller is added and the insight is marked
      "Convertido". */
  function ConvertInsight(s: Store, me: User, id: int, today: PyDate, newId: int): Outcome<Store>
    requires FreshId(s.tasks, newId)
  {
    match Find(s.insights, id)
    case None => Fail(404)
    case Some(i) =>
      var row := s.insights[i];
      if !MayChange(me, row) then Fail(403)
      else Ok(s.(tasks := s.tasks + [Row(newId, Some(me.id), TaskFromInsight(row.value, today))],
                 insights := s.insights[i := row.(value := row.value.(status := "Convertido"))]))
  }

  /** The converted task carries the insight's content, is dated, belongs to
      the caller (an administrator converting someone else's insight gets the
      task), and the insight drops out of the board's insight list. */
  lemma ConvertEffect(s: Store, me: User, id: int, today: PyDate, newId: int)
    requires FreshId(s.tasks, newId)
    requires ConvertInsight(s, me, id, today, newId).Ok?
    ensures var t := ConvertInsight(s, me, id, today, newId).value;
      var i := Find(s.insights, id).value;
      var x := s.insights[i].value;
      |t.tasks| == |s.tasks| + 1 && t.tasks[..|s.tasks|] == s.tasks
      && t.tasks[|s.tasks|] == Row(newId, Some(me.id), TaskFromInsight(x, today))
      && t.tasks[|s.tasks|].value.data.Some?
      && (x.dataPrevista.Some? ==> t.tasks[|s.tasks|].value.data == x.dataPrevista)
      && t.tasks[|s.tasks|].value.descricao == x.descricao
      && t.tasks[|s.tasks|].value.details == x.details
      && (x.dataPrevista.None? ==> t.tasks[|s.tasks|].value.data == Some(today))
      && t.tasks[|s.tasks|].value.status == "A fazer" && t.tasks[|s.tasks|].value.prioridade == "Média"
      && t.tasks[|s.tasks|].value.categoria == x.categoria
      && t.tasks[|s.tasks|].value.recurrence == NoRecurrence
      && |t.insights| == |s.insights|
      && t.insights[i] == s.insights[i].(value := x.(status := "Convertido"))
      && t.insights[i] !in Board.ListedInsights(t.insights)
      && (forall j :: 0 <= j < |s.insights| && j != i ==> t.insights[j] == s.insights[j])
      && t.users == s.users && t.shares == s.shares && t.strategies == s.strategies
  {
  }

  /** Nothing stops a second conversion: converting the same insight again
      adds a second task. */
  lemma ConvertTwice(s: Store, me: User, id: int, today: PyDate, newId: int, otherId: int)
    requires FreshId(s.tasks, newId) && otherId != newId && FreshId(s.tasks, otherId)
    requires ConvertInsight(s, me, id, today, newId).Ok?
    ensures var t := ConvertInsight(s, me, id, today, newId).value;
      FreshId(t.tasks, otherId)
      && ConvertInsight(t, me, id, today, otherId).Ok?
      && |ConvertInsight(t, me, id, today, otherId).value.tasks| == |s.tasks| + 2
  {
    var t := ConvertInsight(s, me, id, today, newId).value;
    FindSameIds(s.insights, t.insights, id);
  }

  // ---------------------------------------------------------------------------
  // Sharing

  /** At most one share per owner and email. */
  predicate UniqueShares(shares: seq<Share>) {
    forall i, j :: 0 <= i < j < |shares| && shares[i].ownerId.Some? && shares[i].ownerId == shares[j].ownerId
      ==> shares[i].email != shares[j].email
  }

  predicate FreshShareId(shares: seq<Share>, id: int) {
    forall i :: 0 <= i < |shares| ==> shares[i].id != id
  }

  /** Position of the first share of `owner` with `email`. */
  function FindShare(shares: seq<Share>, owner: int, email: string): (r: Option<nat>)
    ensures r.Some? ==> r.value < |shares| && shares[r.value].ownerId == Some(owner) && shares[r.value].email == email
    ensures r.None? ==> forall i :: 0 <= i < |shares| ==> !(shares[i].ownerId == Some(owner) && shares[i].email == email)
    decreases |shares|
  {
    if shares == [] then None
    else if shares[0].ownerId == Some(owner) && shares[0].email == email then Some(0)
    else match FindShare(shares[1..], owner, email)
      case None => None
      case Some(k) => Some(k + 1)
  }

  /** `POST /share`: updates the permission of an existing share with that
      email, or adds one. Nobody checks that the email belongs to a user. */
  function SharePlan(s: Store, me: User, email: string, permission: string, newId: int): Store
    requires FreshShareId(s.shares, newId)
  {
    match FindShare(s.shares, me.id, email)
    case Some(i) => s.(shares := s.shares[i := s.shares[i].(permission := permission)])
    case None => s.(shares := s.shares + [Share(newId, Some(me.id), email, permission)])
  }

  /** Sharing keeps one share per owner and email, with the permission last
      sent; sharing again does not add a row. */
  lemma {:induction false} ShareUpserts(s: Store, me: User, email: string, permission: string, newId: int)
    requires FreshShareId(s.shares, newId) && UniqueShares(s.shares)
    ensures var t := SharePlan(s, me, email, permission, newId);
      UniqueShares(t.shares)
      && (exists i :: 0 <= i < |t.shares| && t.shares[i].ownerId == Some(me.id) && t.shares[i].email == email
                      && t.shares[i].permission == permission)
      && (FindShare(s.shares, me.id, email).Some? ==>
            var k := FindShare(s.shares, me.id, email).value;
            |t.shares| == |s.shares| && t.shares[k] == s.shares[k].(permission := permission)
            && forall j :: 0 <= j < |s.shares| && j != k ==> t.shares[j] == s.shares[j])
      && (FindShare(s.shares, me.id, email).None? ==>
            t.shares == s.shares + [Share(newId, Some(me.id), email, permission)])
      && SameExceptShares(s, t)
  {
    var t := SharePlan(s, me, email, permission, newId);
    match FindShare(s.shares, me.id, email)
    case Some(i) =>
      assert t.shares[i].ownerId == Some(me.id) && t.shares[i].email == email;
      forall a, b | 0 <= a < b < |t.shares| && t.shares[a].ownerId.Some? && t.shares[a].ownerId == t.shares[b].ownerId
        ensures t.shares[a].email != t.shares[b].email
      {
        assert s.shares[a].ownerId == t.shares[a].ownerId && s.shares[a].email == t.shares[a].email;
        assert s.shares[b].ownerId == t.shares[b].ownerId && s.shares[b].email == t.shares[b].email;
      }
    case None =>
      var n := |s.shares|;
      assert t.shares[n].ownerId == Some(me.id) && t.shares[n].email == email;
  }

  /** After sharing with an email, the user with that email reads every task
      of the sharer. */
  lemma ShareGrantsRead(s: Store, me: User, email: string, permission: string, newId: int, reader: User, row: Row<Task>)
    requires FreshShareId(s.shares, newId)
    requires reader.email == email && row.owner == Some(me.id)
    ensures Visible(SharePlan(s, me, email, permission, newId), reader, row)
  {
    var t := SharePlan(s, me, email, permission, newId);
    match FindShare(s.shares, me.id, email)
    case Some(i) =>
      assert t.shares[i].email == email && t.shares[i].ownerId == Some(me.id);
    case None =>
      assert t.shares[|s.shares|].email == email;
  }
}
