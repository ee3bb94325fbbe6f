/** The rows the planner stores (the SQLAlchemy models): users, plan shares,
    tasks ("atividades"), weekly strategies and insights. Nullable text columns
    are strings; a missing date is `None`. */
module Records {
  import opened Wrappers
  import opened Calendar

  /** A row of a table whose records belong to a user: its primary key, its
      nullable `user_id` column and the remaining columns. */
  datatype Row<T> = Row(id: int, owner: Option<int>, value: T)

  datatype User = User(id: int, email: string, hashedPassword: string, role: string)

  /** `plan_shares`: `owner` lets the user with `email` read their tasks. */
  datatype Share = Share(id: int, ownerId: Option<int>, email: string, permission: string)

  /** The spreadsheet columns that tasks and insights both carry. */
  datatype Details = Details(
    oQue: string, como: string, onde: string, cta: string, duracao: string,
    kpiMeta: string, tipoDia: string, diaSemana: string, temaMacro: string,
    angulo: string, canalArea: string)

  const NoDetails := Details("", "", "", "", "", "", "", "", "", "", "")

  /** The recurrence columns of a task. */
  datatype Recurrence = Recurrence(
    tipo: Option<string>, intervalo: Option<int>, diaMes: Option<int>,
    diasSemana: Option<string>, inicio: Option<PyDate>, fim: Option<PyDate>)

  const NoRecurrence := Recurrence(None, None, None, None, None, None)

  datatype Task = Task(
    descricao: string, data: Option<PyDate>, status: string, prioridade: string,
    categoria: string, details: Details, descricaoOriginal: string,
    recurrence: Recurrence)

  datatype Strategy = Strategy(
    tema: string, semanaInicio: Date, semanaFim: Date, descricaoDetalhada: string)

  datatype Insight = Insight(
    descricao: string, dataPrevista: Option<PyDate>, status: string,
    categoria: string, details: Details, prioridade: string)

  /** The whole database, each table in the order the database returns it. */
  datatype Store = Store(
    users: seq<User>, shares: seq<Share>, tasks: seq<Row<Task>>,
    strategies: seq<Row<Strategy>>, insights: seq<Row<Insight>>)

  /** No row has primary key `id`. */
  predicate FreshId<T>(rows: seq<Row<T>>, id: int) {
    forall i :: 0 <= i < |rows| ==> rows[i].id != id
  }

  /** Position of the first row with primary key `id` (`.filter(id == …).first()`). */
  function Find<T>(rows: seq<Row<T>>, id: int): (r: Option<nat>)
    ensures r.Some? ==> r.value < |rows| && rows[r.value].id == id
    ensures r.Some? ==> forall j :: 0 <= j < r.value ==> rows[j].id != id
    ensures r.None? <==> FreshId(rows, id)
    decreases |rows|
  {
    if rows == [] then None
    else if rows[0].id == id then Some(0)
    else match Find(rows[1..], id)
      case None => None
      case Some(k) => Some(k + 1)
  }

  /** `Find` looks at the ids only. */
  lemma {:induction false} FindSameIds<T>(a: seq<Row<T>>, b: seq<Row<T>>, id: int)
    requires |a| == |b| && forall i :: 0 <= i < |a| ==> a[i].id == b[i].id
    ensures Find(a, id) == Find(b, id)
    decreases |a|
  {
    if a != [] && a[0].id != id {
      FindSameIds(a[1..], b[1..], id);
    }
  }

  /** A row added under a fresh id is found at the end. */
  lemma {:induction false} FindAfterFresh<T>(rows: seq<Row<T>>, row: Row<T>)
    requires FreshId(rows, row.id)
    ensures Find(rows + [row], row.id) == Some(|rows|)
    decreases |rows|
  {
    if rows != [] {
      assert (rows + [row])[1..] == rows[1..] + [row];
      FindAfterFresh(rows[1..], row);
    }
  }

  /** Primary keys are unique. */
  predicate DistinctIds<T>(rows: seq<Row<T>>) {
    forall i, j :: 0 <= i < j < |rows| ==> rows[i].id != rows[j].id
  }

  /** The row moved from owner `from` to owner `to`, if `from` owns it. */
  function Move<T>(row: Row<T>, from: int, to: Option<int>): Row<T> {
    if row.owner == Some(from) then row.(owner := to) else row
  }

  /** Every row of owner `from` handed to `to` (`None` leaves them without
      an owner); the other rows, and the order, stay. */
  function Reown<T>(rows: seq<Row<T>>, from: int, to: Option<int>): seq<Row<T>> {
    seq(|rows|, i requires 0 <= i < |rows| => Move(rows[i], from, to))
  }

  /** One table handed over: the rows of `from` now belong to `to`, every
      other row keeps its owner, and ids, contents and order stay. */
  predicate Reowned<T(==)>(before: seq<Row<T>>, after: seq<Row<T>>, from: int, to: Option<int>) {
    |after| == |before|
    && forall i :: 0 <= i < |before| ==>
         after[i].id == before[i].id && after[i].value == before[i].value
         && after[i].owner == (if before[i].owner == Some(from) then to else before[i].owner)
  }

  lemma ReownSpec<T>(rows: seq<Row<T>>, from: int, to: Option<int>)
    ensures Reowned(rows, Reown(rows, from, to), from, to)
  {
  }

  /** Two stores that differ at most in one table. */
  predicate SameExceptUsers(s: Store, t: Store) {
    t.(users := s.users) == s
  }

  predicate SameExceptShares(s: Store, t: Store) {
    t.(shares := s.shares) == s
  }

  predicate SameExceptTasks(s: Store, t: Store) {
    t.(tasks := s.tasks) == s
  }

  predicate SameExceptInsights(s: Store, t: Store) {
    t.(insights := s.insights) == s
  }

  /** After handing over, `from` owns nothing (unless it is also `to`). */
  lemma ReownLeavesNothing<T>(rows: seq<Row<T>>, from: int, to: Option<int>)
    requires to != Some(from)
    ensures forall i :: 0 <= i < |Reown(rows, from, to)| ==> Reown(rows, from, to)[i].owner != Some(from)
  {
  }
}
