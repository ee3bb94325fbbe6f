/** The spreadsheet import: every row of the "Plano Diário" sheet that has a
    date becomes a task of the default user, every row of "Temas Semanais"
    that has a start date becomes a weekly strategy. The task and strategy
    tables are emptied first, and the new rows are committed together or not
    at all. */
module Importer {
  import opened Wrappers
  import opened Strings
  import opened Seqs
  import opened Calendar
  import opened Records

  /** A cell as pandas reads it: empty (NaN), text, or a date. */
  datatype Cell = NaN | Text(s: string) | When(d: PyDate)

  /** A sheet row: the value of each column the sheet has. */
  type SheetRow = map<string, Cell>

  /** `str(value)`: NaN prints as `nan`, a date as a pandas timestamp. */
  function Str(c: Cell): string {
    match c
    case NaN => "nan"
    case Text(s) => s
    case When(d) => IsoString(d) + " 00:00:00"
  }

  /** `str(row.get(col, default))`: the default only stands in for a column
      the sheet does not have. */
  function Get(row: SheetRow, col: string, default: string): (r: string)
    ensures col !in row ==> r == default
    ensures col in row && row[col] == NaN ==> r == "nan"
  {
    if col in row then Str(row[col]) else default
  }

  /** `str(row.get(col) if not pd.isna(row.get(col)) else '')`: an empty
      cell and a missing column both give the empty text. */
  function TextOf(row: SheetRow, col: string): (r: string)
    ensures (col !in row || row[col] == NaN) ==> r == ""
    ensures col in row && row[col].Text? ==> r == row[col].s
  {
    if col !in row || row[col] == NaN then "" else Str(row[col])
  }

  /** How one sheet row is imported: no record, one record, or the whole
      import stops. */
  datatype RowResult<T> = Skip | Add(value: T) | Abort

  /** `pd.to_datetime` on a text cell: the date it reads, or `None` when it
      raises. Which texts pandas reads as dates is left to the caller. */
  type DateParser = string -> Option<PyDate>

  /** A non-empty date cell as `pd.to_datetime` reads it. */
  function DateOf(parse: DateParser, c: Cell): Option<PyDate> {
    match c
    case When(d) => Some(d)
    case Text(s) => parse(s)
    case NaN => None
  }

  const DoneWords: seq<string> := ["ok", "feito", "concluído", "concluido"]

  /** The status text: one of the done words, in any letter case, means
      `Feito`; anything else means `A fazer`. */
  function StatusFromText(raw: string): string {
    if Lower(raw) in DoneWords then "Feito" else "A fazer"
  }

  /** The status column, read as text (`None` when the column is missing). */
  function StatusOf(row: SheetRow): string {
    StatusFromText(if "Status" in row then Str(row["Status"]) else "None")
  }

  /** The description: "O que" unless it is blank, else "Descrição da ação". */
  function DescricaoOf(row: SheetRow): string {
    var oQue := TextOf(row, "O que");
    if Strip(oQue) != "" then oQue else TextOf(row, "Descrição da ação")
  }

  function DetailsOf(row: SheetRow): Details {
    Details(
      TextOf(row, "O que"), Get(row, "Como", ""), Get(row, "Onde", ""), Get(row, "CTA", ""),
      Get(row, "Duração (min)", ""), Get(row, "KPI/Meta", ""), Get(row, "Tipo de dia", ""),
      Get(row, "Dia da semana", ""), Get(row, "Tema macro", ""), Get(row, "Ângulo/Trilha", ""),
      Get(row, "Canal/Área", ""))
  }

  /** A "Plano Diário" row as a task. */
  function TaskOfRow(parse: DateParser, row: SheetRow): RowResult<Task> {
    if "Data" !in row || row["Data"] == NaN then Skip
    else
      match DateOf(parse, row["Data"])
      case None => Abort
      case Some(d) =>
        Add(Task(
          DescricaoOf(row), Some(d), StatusOf(row),
          Get(row, "Prioridade", "Média"), Get(row, "Categoria", "Geral"),
          DetailsOf(row), TextOf(row, "Descrição da ação"), NoRecurrence))
  }

  /** The plan sheet's row reader. */
  function PlanRow(parse: DateParser): SheetRow -> RowResult<Task> {
    row => TaskOfRow(parse, row)
  }

  // ---------------------------------------------------------------------------
  // The weekly themes

  const Separator := " | "

  /** The three angle texts, each labelled with its angle. */
  function Angles(row: SheetRow): seq<string> {
    [ "Financeiro: " + Get(row, "Ângulo Financeiro", ""),
      "Negociação: " + Get(row, "Ângulo Negociação/Vendas", ""),
      "Gestão: " + Get(row, "Ângulo Gestão Comercial", "") ]
  }

  /** An angle text is kept unless its lower-case form contains `nan` (meant
      to catch empty cells). */
  function NoNan(a: string): bool {
    !Contains(Lower(a), "nan")
  }

  function DescricaoDetalhadaOf(row: SheetRow): string {
    Join(Keep(Angles(row), NoNan), Separator)
  }

  /** A "Temas Semanais" row as a strategy: the week runs from the start date
      to six days later. */
  function StrategyOfRow(parse: DateParser, row: SheetRow): RowResult<Strategy> {
    var col := "Semana (início)";
    if col !in row || row[col] == NaN then Skip
    else
      match DateOf(parse, row[col])
      case None => Abort
      case Some(start) => Add(StrategyFrom(row, start))
  }

  /** The strategy of a theme row whose week starts on `start`. */
  function StrategyFrom(row: SheetRow, start: PyDate): (st: Strategy)
    ensures st.semanaInicio == start && Valid(st.semanaFim) && Days(st.semanaFim) == Days(start) + 6
    ensures Before(st.semanaInicio, st.semanaFim)
  {
    DaysNonNegative(start);
    var st := Strategy(Get(row, "Tema macro", ""), start, AddDays(start, 6), DescricaoDetalhadaOf(row));
    DaysOrder(st.semanaInicio, st.semanaFim);
    st
  }

  /** The theme sheet's row reader. */
  function ThemeRow(parse: DateParser): SheetRow -> RowResult<Strategy> {
    row => StrategyOfRow(parse, row)
  }

  // ---------------------------------------------------------------------------
  // Whole sheets

  /** The rows that become records. */
  function Added<T>(f: SheetRow -> RowResult<T>): SheetRow -> bool {
    row => f(row).Add?
  }

  /** The records of a sheet in row order, or `None` when a row stops the import. */
  function ImportRows<T>(rows: seq<SheetRow>, f: SheetRow -> RowResult<T>): Option<seq<T>>
    decreases |rows|
  {
    if rows == [] then Some([])
    else
      match f(rows[0])
      case Abort => None
      case Skip => ImportRows(rows[1..], f)
      case Add(x) =>
        match ImportRows(rows[1..], f)
        case None => None
        case Some(xs) => Some([x] + xs)
  }

  /** The import stops exactly when some row stops it. */
  lemma {:induction false} ImportRowsAborts<T>(rows: seq<SheetRow>, f: SheetRow -> RowResult<T>)
    ensures ImportRows(rows, f).None? <==> exists i :: 0 <= i < |rows| && f(rows[i]).Abort?
    decreases |rows|
  {
    if rows != [] {
      ImportRowsAborts(rows[1..], f);
      if exists i :: 0 <= i < |rows[1..]| && f(rows[1..][i]).Abort? {
        var i :| 0 <= i < |rows[1..]| && f(rows[1..][i]).Abort?;
        assert f(rows[i + 1]).Abort?;
      }
      if exists i :: 0 <= i < |rows| && f(rows[i]).Abort? {
        var i :| 0 <= i < |rows| && f(rows[i]).Abort?;
        if i > 0 {
          assert f(rows[1..][i - 1]).Abort?;
        }
      }
    }
  }

  /** Otherwise there is one record per row that yields one, each the record
      its row yields, in row order. */
  lemma {:induction false} ImportRowsContents<T>(rows: seq<SheetRow>, f: SheetRow -> RowResult<T>)
    requires ImportRows(rows, f).Some?
    ensures var xs := ImportRows(rows, f).value;
      var added := Keep(rows, Added(f));
      |xs| == |added| && forall i :: 0 <= i < |xs| ==> f(added[i]) == Add(xs[i])
    decreases |rows|
  {
    if rows != [] {
      ImportRowsContents(rows[1..], f);
    }
  }

  /** pandas' `drop_duplicates()`: the first of equal rows is kept. */
  function DropDuplicates(rows: seq<SheetRow>): (r: seq<SheetRow>)
    decreases |rows|
  {
    if rows == [] then []
    else [rows[0]] + DropDuplicates(Keep(rows[1..], Differs(rows[0])))
  }

  function Differs(x: SheetRow): SheetRow -> bool {
    y => y != x
  }

  /** Dropping duplicates keeps every distinct row once. */
  lemma {:induction false} DropDuplicatesSpec(rows: seq<SheetRow>)
    ensures forall r :: r in DropDuplicates(rows) <==> r in rows
    ensures var d := DropDuplicates(rows); forall i, j :: 0 <= i < j < |d| ==> d[i] != d[j]
    decreases |rows|
  {
    if rows != [] {
      var rest := Keep(rows[1..], Differs(rows[0]));
      DropDuplicatesSpec(rest);
      forall r | r in rows[1..] && r != rows[0]
        ensures r in rest
      {
        var k :| 0 <= k < |rows[1..]| && rows[1..][k] == r;
      }
      var d := DropDuplicates(rows);
      forall i, j | 0 <= i < j < |d|
        ensures d[i] != d[j]
      {
        if i == 0 {
          assert d[j] in DropDuplicates(rest);
        } else {
          assert d[i] == DropDuplicates(rest)[i - 1] && d[j] == DropDuplicates(rest)[j - 1];
        }
      }
    }
  }

  /** Rows without repeats pass unchanged, so dropping twice is dropping once. */
  lemma {:induction false} DropDuplicatesNoRepeats(rows: seq<SheetRow>)
    requires forall i, j :: 0 <= i < j < |rows| ==> rows[i] != rows[j]
    ensures DropDuplicates(rows) == rows
    decreases |rows|
  {
    if rows != [] {
      forall k | 0 <= k < |rows[1..]|
        ensures Differs(rows[0])(rows[1..][k])
      {
        assert rows[1..][k] == rows[k + 1];
      }
      KeepAll(rows[1..], Differs(rows[0]));
      DropDuplicatesNoRepeats(rows[1..]);
    }
  }

  lemma DropDuplicatesIdempotent(rows: seq<SheetRow>)
    ensures DropDuplicates(DropDuplicates(rows)) == DropDuplicates(rows)
  {
    DropDuplicatesSpec(rows);
    DropDuplicatesNoRepeats(DropDuplicates(rows));
  }

  // ---------------------------------------------------------------------------
  // The import into the database

  /** Records numbered from `first` on and given to `owner`. */
  function Number<T>(xs: seq<T>, first: int, owner: int): (r: seq<Row<T>>)
    ensures |r| == |xs|
    ensures forall i :: 0 <= i < |r| ==> r[i] == Row(first + i, Some(owner), xs[i])
  {
    seq(|xs|, i requires 0 <= i < |xs| => Row(first + i, Some(owner), xs[i]))
  }

  /** `import_data`: empty the task and strategy tables (a commit of its own),
      then add the tasks of the de-duplicated plan sheet and the strategies
      of the theme sheet in one commit, which a stopping row rolls back. */
  function Import(s: Store, parse: DateParser, plan: seq<SheetRow>, themes: seq<SheetRow>, owner: int,
                  firstTask: int, firstStrategy: int): Store
  {
    var cleared := s.(tasks := [], strategies := []);
    match (ImportRows(DropDuplicates(plan), PlanRow(parse)), ImportRows(themes, ThemeRow(parse)))
    case (Some(ts), Some(ss)) =>
      cleared.(tasks := Number(ts, firstTask, owner), strategies := Number(ss, firstStrategy, owner))
    case _ => cleared
  }

  /** Some row of the sheet stops the import. */
  predicate SomeRowAborts<T>(rows: seq<SheetRow>, f: SheetRow -> RowResult<T>) {
    exists i :: 0 <= i < |rows| && f(rows[i]).Abort?
  }

  /** `table` holds the records of the rows that yield one, in row order,
      numbered from `first` and owned by `owner`. */
  predicate Holds<T(==)>(table: seq<Row<T>>, rows: seq<SheetRow>, f: SheetRow -> RowResult<T>, first: int, owner: int) {
    var added := Keep(rows, Added(f));
    |table| == |added|
    && forall i :: 0 <= i < |table| ==>
         table[i].id == first + i && table[i].owner == Some(owner) && f(added[i]) == Add(table[i].value)
  }

  /** Dropping duplicates neither adds nor removes a row that stops the import. */
  lemma DropKeepsAborts<T>(plan: seq<SheetRow>, f: SheetRow -> RowResult<T>)
    ensures SomeRowAborts(DropDuplicates(plan), f) <==> SomeRowAborts(plan, f)
  {
    DropDuplicatesSpec(plan);
    var d := DropDuplicates(plan);
    if SomeRowAborts(plan, f) {
      var i :| 0 <= i < |plan| && f(plan[i]).Abort?;
      assert plan[i] in d;
    }
    if SomeRowAborts(d, f) {
      var i :| 0 <= i < |d| && f(d[i]).Abort?;
      assert d[i] in plan;
    }
  }

  /** A sheet that imports holds its records once numbered. */
  lemma NumberHolds<T>(rows: seq<SheetRow>, f: SheetRow -> RowResult<T>, first: int, owner: int)
    requires ImportRows(rows, f).Some?
    ensures Holds(Number(ImportRows(rows, f).value, first, owner), rows, f, first, owner)
  {
    ImportRowsContents(rows, f);
  }

  /** Every imported task has a date. */
  lemma HeldTasksDated(parse: DateParser, table: seq<Row<Task>>, rows: seq<SheetRow>, first: int, owner: int)
    requires Holds(table, rows, PlanRow(parse), first, owner)
    ensures forall i :: 0 <= i < |table| ==> table[i].value.data.Some?
  {
    var added := Keep(rows, Added(PlanRow(parse)));
    forall i | 0 <= i < |table|
      ensures table[i].value.data.Some?
    {
      assert TaskOfRow(parse, added[i]) == Add(table[i].value);
    }
  }

  /** The import replaces every user's tasks and strategies with the sheets'
      records, numbered in row order and all owned by the importing user, or
      leaves both tables empty when a row of either sheet stops it; users,
      shares and insights are untouched. */
  lemma ImportEffect(s: Store, parse: DateParser, plan: seq<SheetRow>, themes: seq<SheetRow>, owner: int,
                     firstTask: int, firstStrategy: int)
    ensures var r := Import(s, parse, plan, themes, owner, firstTask, firstStrategy);
      r.users == s.users && r.shares == s.shares && r.insights == s.insights
      && (forall i :: 0 <= i < |r.tasks| ==> r.tasks[i].owner == Some(owner) && r.tasks[i].value.data.Some?)
      && (forall i :: 0 <= i < |r.strategies| ==> r.strategies[i].owner == Some(owner))
      && (SomeRowAborts(plan, PlanRow(parse)) || SomeRowAborts(themes, ThemeRow(parse)) ==>
            r.tasks == [] && r.strategies == [])
      && (!SomeRowAborts(plan, PlanRow(parse)) && !SomeRowAborts(themes, ThemeRow(parse)) ==>
            Holds(r.tasks, DropDuplicates(plan), PlanRow(parse), firstTask, owner)
            && Holds(r.strategies, themes, ThemeRow(parse), firstStrategy, owner))
  {
    var r := Import(s, parse, plan, themes, owner, firstTask, firstStrategy);
    DropKeepsAborts(plan, PlanRow(parse));
    ImportRowsAborts(DropDuplicates(plan), PlanRow(parse));
    ImportRowsAborts(themes, ThemeRow(parse));
    var tr, sr := ImportRows(DropDuplicates(plan), PlanRow(parse)), ImportRows(themes, ThemeRow(parse));
    if tr.Some? && sr.Some? {
      NumberHolds(DropDuplicates(plan), PlanRow(parse), firstTask, owner);
      NumberHolds(themes, ThemeRow(parse), firstStrategy, owner);
      HeldTasksDated(parse, r.tasks, DropDuplicates(plan), firstTask, owner);
    }
  }

  // ---------------------------------------------------------------------------
  // Row-level facts

  /** A plan row is skipped exactly when it has no date. */
  lemma SkipIffNoDate(parse: DateParser, row: SheetRow)
    ensures TaskOfRow(parse, row).Skip? <==> "Data" !in row || row["Data"] == NaN
    ensures TaskOfRow(parse, row).Abort? <==> "Data" in row && row["Data"].Text? && parse(row["Data"].s).None?
    ensures TaskOfRow(parse, row).Add? ==> TaskOfRow(parse, row).value.data == DateOf(parse, row["Data"])
    ensures "Data" in row && row["Data"].When? ==> TaskOfRow(parse, row).Add?
  {
  }

  /** The done words mark a task done in any letter case; an empty cell or a
      missing column leaves it to do. */
  lemma StatusCases(row: SheetRow)
    ensures StatusOf(row) == "Feito" <==> "Status" in row && Lower(Str(row["Status"])) in DoneWords
    ensures StatusOf(row) != "Feito" ==> StatusOf(row) == "A fazer"
    ensures "Status" !in row || row["Status"] == NaN ==> StatusOf(row) == "A fazer"
  {
    assert Lower("None") == "none";
    assert Lower("nan") == "nan";
  }

  /** `OK` in capitals marks a task done. */
  lemma StatusOkCapitals()
    ensures StatusFromText("OK") == "Feito"
  {
    assert Lower("OK") == "ok";
  }

  /** `Concluído` with a capital and an accent marks a task done. */
  lemma StatusConcluidoAccented()
    ensures StatusFromText("Concluído") == "Feito"
  {
    assert Lower("Concluído") == "concluído";
    assert Lower("Concluído") == DoneWords[2];
  }

  /** Any other word leaves the task to do. */
  lemma StatusOtherWord()
    ensures StatusFromText("Pendente") == "A fazer"
  {
    assert Lower("Pendente") == "pendente";
  }

  /** The description is "O que" when that has a non-blank character, else
      "Descrição da ação"; the original description is always kept aside. */
  lemma DescricaoFallback(row: SheetRow)
    ensures var oQue := TextOf(row, "O que");
      DescricaoOf(row) == if exists i :: 0 <= i < |oQue| && !IsPySpace(oQue[i]) then oQue
                          else TextOf(row, "Descrição da ação")
  {
    StripEmptyIff(TextOf(row, "O que"));
  }

  /** The defaults `Média` and `Geral` stand in for missing columns only; an
      empty cell of an existing column gives the text `nan`. */
  lemma DefaultsForMissingColumns(parse: DateParser, row: SheetRow)
    requires TaskOfRow(parse, row).Add?
    ensures "Prioridade" !in row ==> TaskOfRow(parse, row).value.prioridade == "Média"
    ensures "Categoria" !in row ==> TaskOfRow(parse, row).value.categoria == "Geral"
    ensures "Prioridade" in row && row["Prioridade"] == NaN ==> TaskOfRow(parse, row).value.prioridade == "nan"
  {
  }

  // ---------------------------------------------------------------------------
  // The angle filter

  /** Position `i` of `a` cannot start `p`: its character, or the next one,
      differs from `p`'s. */
  predicate Blocks(a: string, i: int, p: string)
    requires 0 <= i < |a| && |p| >= 2
  {
    a[i] != p[0] || (i + 1 < |a| && a[i + 1] != p[1])
  }

  /** A prefix none of whose positions can start `p` adds no match. */
  lemma {:induction false} ContainsAfterPrefix(a: string, b: string, p: string)
    requires |p| >= 2
    requires forall i :: 0 <= i < |a| ==> Blocks(a, i, p)
    ensures Contains(a + b, p) <==> Contains(b, p)
    decreases |a|
  {
    if |a| == 0 {
      assert a + b == b;
    } else {
      assert Blocks(a, 0, p);
      assert !StartsWith(a + b, p) by {
        if a[0] == p[0] {
          assert (a + b)[1] == a[1];
        }
      }
      assert (a + b)[1..] == a[1..] + b;
      forall i | 0 <= i < |a[1..]|
        ensures Blocks(a[1..], i, p)
      {
        assert Blocks(a, i + 1, p);
      }
      ContainsAfterPrefix(a[1..], b, p);
    }
  }

  /** The Financeiro label itself contains `nan` ("fi-nan-ceiro"), so that
      angle never reaches the description. */
  lemma FinanceiroAlwaysDropped(v: string)
    ensures !NoNan("Financeiro: " + v)
  {
    var a := "Financeiro: " + v;
    var t := Lower(a);
    assert a[2] == 'n' && a[3] == 'a' && a[4] == 'n';
    assert t[2] == 'n' && t[3] == 'a' && t[4] == 'n';
    assert t[2..][..3] == "nan";
    assert StartsWith(t[2..], "nan");
    assert t[1..][1..] == t[2..];
    assert Contains(t[1..], "nan");
  }

  lemma NegociacaoBlocks()
    ensures forall i :: 0 <= i < |"negociação: "| ==> Blocks("negociação: ", i, "nan")
  {
  }

  lemma GestaoBlocks()
    ensures forall i :: 0 <= i < |"gestão: "| ==> Blocks("gestão: ", i, "nan")
  {
  }

  /** Neither of the other two labels can start a `nan`. */
  lemma LabelsWithoutNan(v: string)
    ensures Contains("negociação: " + v, "nan") <==> Contains(v, "nan")
    ensures Contains("gestão: " + v, "nan") <==> Contains(v, "nan")
  {
    NegociacaoBlocks();
    ContainsAfterPrefix("negociação: ", v, "nan");
    GestaoBlocks();
    ContainsAfterPrefix("gestão: ", v, "nan");
  }

  /** The other two angles are kept exactly when their cell text does not
      contain `nan` in any letter case. */
  lemma OtherAnglesKept(v: string)
    ensures NoNan("Negociação: " + v) <==> !Contains(Lower(v), "nan")
    ensures NoNan("Gestão: " + v) <==> !Contains(Lower(v), "nan")
  {
    NegociacaoKept(v);
    GestaoKept(v);
  }

  lemma NegociacaoLowers()
    ensures LowersTo("Negociação: ", "negociação: ")
  {
  }

  lemma GestaoLowers()
    ensures LowersTo("Gestão: ", "gestão: ")
  {
  }

  lemma NegociacaoKept(v: string)
    ensures NoNan("Negociação: " + v) <==> !Contains(Lower(v), "nan")
  {
    NegociacaoLowers();
    LowerAfter("Negociação: ", "negociação: ", v);
    LabelsWithoutNan(Lower(v));
  }

  lemma GestaoKept(v: string)
    ensures NoNan("Gestão: " + v) <==> !Contains(Lower(v), "nan")
  {
    GestaoLowers();
    LowerAfter("Gestão: ", "gestão: ", v);
    LabelsWithoutNan(Lower(v));
  }

  /** The detailed description of a week is the Negociação and Gestão angles
      whose cells pass the filter, joined by ` | `. */
  lemma DescricaoDetalhadaSegments(row: SheetRow)
    ensures var neg := "Negociação: " + Get(row, "Ângulo Negociação/Vendas", "");
      var ges := "Gestão: " + Get(row, "Ângulo Gestão Comercial", "");
      DescricaoDetalhadaOf(row)
        == Join((if NoNan(neg) then [neg] else []) + (if NoNan(ges) then [ges] else []), Separator)
  {
    var a := Angles(row);
    var neg, ges := a[1], a[2];
    FinanceiroAlwaysDropped(Get(row, "Ângulo Financeiro", ""));
    assert a[1..] == [neg, ges] && [neg, ges][1..] == [ges] && [ges][1..] == [];
    assert Keep([ges], NoNan) == if NoNan(ges) then [ges] else [];
    assert Keep([neg, ges], NoNan) == (if NoNan(neg) then [neg] else []) + Keep([ges], NoNan);
    assert Keep(a, NoNan) == Keep(a[1..], NoNan);
  }

  /** An empty theme row contributes no angle at all. */
  lemma EmptyAnglesEmptyDescription(row: SheetRow)
    requires forall c :: c in ["Ângulo Financeiro", "Ângulo Negociação/Vendas", "Ângulo Gestão Comercial"] ==> c in row && row[c] == NaN
    ensures DescricaoDetalhadaOf(row) == ""
  {
    var negCol, gesCol := "Ângulo Negociação/Vendas", "Ângulo Gestão Comercial";
    assert negCol in row && row[negCol] == NaN;
    assert gesCol in row && row[gesCol] == NaN;
    var x, y := Get(row, negCol, ""), Get(row, gesCol, "");
    NanAnglesDropped(x, y);
    DescricaoDetalhadaSegments(row);
    var none: seq<string> := [];
    assert DescricaoDetalhadaOf(row) == Join(none, Separator);
  }

  /** Empty angle cells, which read `nan`, are filtered out. */
  lemma NanAnglesDropped(x: string, y: string)
    requires x == "nan" && y == "nan"
    ensures !NoNan("Negociação: " + x) && !NoNan("Gestão: " + y)
  {
    OtherAnglesKept(x);
    OtherAnglesKept(y);
    LowersToLower(x, "nan");
    assert StartsWith(x, "nan");
  }

  /** A strategy's week ends six days after it starts. */
  lemma StrategyWeek(parse: DateParser, row: SheetRow)
    requires StrategyOfRow(parse, row).Add?
    ensures "Semana (início)" in row && DateOf(parse, row["Semana (início)"]).Some?
    ensures var st := StrategyOfRow(parse, row).value;
      st.semanaInicio == DateOf(parse, row["Semana (início)"]).value
      && Valid(st.semanaInicio) && Valid(st.semanaFim) && Days(st.semanaFim) == Days(st.semanaInicio) + 6
      && Before(st.semanaInicio, st.semanaFim)
  {
  }
}
