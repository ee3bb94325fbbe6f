/** The browser's task board: the filter chain of `getFilteredTasks`, the
    status clean-up of `loadData`, the kanban columns of `renderTasks`, the
    `DD/MM/YYYY` date shown on cards, the tasks listed in a calendar cell and
    the insights list. Dates are calendar dates: the `YYYY-MM-DD` texts the
    browser compares order and match exactly as the dates do
    (`Calendar.IsoStringOrder`). `today` is a parameter instead of the clock. */
module Board {
  import opened Wrappers
  import opened Strings
  import opened Seqs
  import opened Calendar
  import opened IsoWeek
  import opened JsNumber
  import opened Records

  /** The values of the filter controls. */
  datatype Controls = Controls(
    date: Option<PyDate>,   // `filter-date`; `None` when empty
    weekType: string,       // `filter-week-type`: "all", "current", "previous", "next", "number"
    weekNum: string,        // `filter-week-num`, as typed
    showAFazer: bool,       // `filter-status-afazer` checked
    showFazendo: bool,
    showFeito: bool,
    lateOnly: bool)         // `filter-late` checked

  /** The controls as the page starts. */
  const Defaults := Controls(None, "all", "", true, true, true, false)

  /** `getWeekNumber(new Date(t.data))`, for dated tasks. */
  predicate InWeek(t: Task, w: int) {
    t.data.Some? && WeekNumber(t.data.value) == w
  }

  /** The week the controls select, if they select one: relative to `today`,
      or the typed number when `parseInt` reads one other than 0 (`if (num)`
      treats NaN and 0 as false). */
  function SelectedWeek(c: Controls, today: PyDate): Option<int> {
    var current := WeekNumber(today);
    if c.weekType == "current" then Some(current)
    else if c.weekType == "previous" then Some(current - 1)
    else if c.weekType == "next" then Some(current + 1)
    else if c.weekType == "number" then
      match ParseInt(c.weekNum)
      case Some(n) => if n != 0 then Some(n) else None
      case None => None
    else None
  }

  // ---------------------------------------------------------------------------
  // The tests the filters apply

  /** `t.data === dateInput.value`, or no test when the date box is empty. */
  function DateTest(c: Controls): Task -> bool {
    (t: Task) => c.date.None? || t.data == c.date
  }

  function InWeekTest(w: int): Task -> bool {
    (t: Task) => InWeek(t, w)
  }

  /** The week test, or no test when no week is selected. */
  function WeekTest(c: Controls, today: PyDate): Task -> bool {
    (t: Task) => SelectedWeek(c, today).None? || InWeek(t, SelectedWeek(c, today).value)
  }

  /** `t.status !== s`. */
  function StatusIsNot(s: string): Task -> bool {
    (t: Task) => t.status != s
  }

  /** A status box: checked lets every task through, unchecked removes the
      tasks whose status is exactly `s`. */
  function BoxTest(checked: bool, s: string): Task -> bool {
    (t: Task) => checked || t.status != s
  }

  function StatusTest(c: Controls): Task -> bool {
    Both(Both(BoxTest(c.showAFazer, "A fazer"), BoxTest(c.showFazendo, "Fazendo")), BoxTest(c.showFeito, "Feito"))
  }

  /** `t.data < today && t.status !== 'Feito'`: an undated task compares as
      false. */
  predicate Late(t: Task, today: PyDate) {
    t.data.Some? && Before(t.data.value, today) && t.status != "Feito"
  }

  function LateTest(today: PyDate): Task -> bool {
    (t: Task) => Late(t, today)
  }

  function LateBoxTest(c: Controls, today: PyDate): Task -> bool {
    (t: Task) => !c.lateOnly || Late(t, today)
  }

  // ---------------------------------------------------------------------------
  // The filter chain, one step at a time as the code runs it

  function ByDate(tasks: seq<Task>, c: Controls): seq<Task> {
    if c.date.Some? then Keep(tasks, DateTest(c)) else tasks
  }

  function ByWeek(tasks: seq<Task>, c: Controls, today: PyDate): seq<Task> {
    if c.weekType == "all" then tasks
    else
      var current := WeekNumber(today);
      if c.weekType == "current" then Keep(tasks, InWeekTest(current))
      else if c.weekType == "previous" then Keep(tasks, InWeekTest(current - 1))
      else if c.weekType == "next" then Keep(tasks, InWeekTest(current + 1))
      else if c.weekType == "number" then
        match ParseInt(c.weekNum)
        case Some(n) => if n != 0 then Keep(tasks, InWeekTest(n)) else tasks
        case None => tasks
      else tasks
  }

  function ByStatus(tasks: seq<Task>, c: Controls): seq<Task> {
    var a := if !c.showAFazer then Keep(tasks, StatusIsNot("A fazer")) else tasks;
    var b := if !c.showFazendo then Keep(a, StatusIsNot("Fazendo")) else a;
    if !c.showFeito then Keep(b, StatusIsNot("Feito")) else b
  }

  function ByLate(tasks: seq<Task>, c: Controls, today: PyDate): seq<Task> {
    if c.lateOnly then Keep(tasks, LateTest(today)) else tasks
  }

  /** `getFilteredTasks()`. */
  function Filtered(tasks: seq<Task>, c: Controls, today: PyDate): seq<Task> {
    ByLate(ByStatus(ByWeek(ByDate(tasks, c), c, today), c), c, today)
  }

  // ---------------------------------------------------------------------------
  // The same filter as one test

  /** Whether one task passes every control: the tests are ANDed, the week
      test compares week numbers only, and the status boxes remove exactly
      the three raw status texts. */
  predicate Passes(c: Controls, today: PyDate, t: Task) {
    (c.date.None? || t.data == c.date)
    && (SelectedWeek(c, today).None? || InWeek(t, SelectedWeek(c, today).value))
    && (c.showAFazer || t.status != "A fazer")
    && (c.showFazendo || t.status != "Fazendo")
    && (c.showFeito || t.status != "Feito")
    && (!c.lateOnly || Late(t, today))
  }

  function PassesTest(c: Controls, today: PyDate): Task -> bool {
    (t: Task) => Passes(c, today, t)
  }

  lemma ByDateKeeps(tasks: seq<Task>, c: Controls)
    ensures ByDate(tasks, c) == Keep(tasks, DateTest(c))
  {
    if c.date.None? {
      KeepAll(tasks, DateTest(c));
    }
  }

  lemma ByWeekKeeps(tasks: seq<Task>, c: Controls, today: PyDate)
    ensures ByWeek(tasks, c, today) == Keep(tasks, WeekTest(c, today))
  {
    ByWeekSelects(tasks, c, today);
    var sel := SelectedWeek(c, today);
    if sel.None? {
      KeepAll(tasks, WeekTest(c, today));
    } else {
      KeepCongruent(tasks, InWeekTest(sel.value), WeekTest(c, today));
    }
  }

  /** The week step keeps the tasks of the selected week, if any. */
  lemma ByWeekSelects(tasks: seq<Task>, c: Controls, today: PyDate)
    ensures SelectedWeek(c, today).None? ==> ByWeek(tasks, c, today) == tasks
    ensures SelectedWeek(c, today).Some? ==> ByWeek(tasks, c, today) == Keep(tasks, InWeekTest(SelectedWeek(c, today).value))
  {
    if c.weekType == "all" {
    } else if c.weekType == "current" || c.weekType == "previous" || c.weekType == "next" {
    } else if c.weekType == "number" {
      match ParseInt(c.weekNum)
      case Some(n) =>
      case None =>
    }
  }

  /** One status box as the code applies it. */
  lemma BoxKeeps(tasks: seq<Task>, checked: bool, s: string)
    ensures (if !checked then Keep(tasks, StatusIsNot(s)) else tasks) == Keep(tasks, BoxTest(checked, s))
  {
    if checked {
      KeepAll(tasks, BoxTest(checked, s));
    } else {
      KeepCongruent(tasks, StatusIsNot(s), BoxTest(checked, s));
    }
  }

  lemma ByStatusKeeps(tasks: seq<Task>, c: Controls)
    ensures ByStatus(tasks, c) == Keep(tasks, StatusTest(c))
  {
    var p1, p2, p3 := BoxTest(c.showAFazer, "A fazer"), BoxTest(c.showFazendo, "Fazendo"), BoxTest(c.showFeito, "Feito");
    var a := if !c.showAFazer then Keep(tasks, StatusIsNot("A fazer")) else tasks;
    var b := if !c.showFazendo then Keep(a, StatusIsNot("Fazendo")) else a;
    BoxKeeps(tasks, c.showAFazer, "A fazer");
    BoxKeeps(a, c.showFazendo, "Fazendo");
    BoxKeeps(b, c.showFeito, "Feito");
    KeepKeep(tasks, p1, p2);
    KeepKeep(tasks, Both(p1, p2), p3);
  }

  lemma ByLateKeeps(tasks: seq<Task>, c: Controls, today: PyDate)
    ensures ByLate(tasks, c, today) == Keep(tasks, LateBoxTest(c, today))
  {
    if c.lateOnly {
      KeepCongruent(tasks, LateTest(today), LateBoxTest(c, today));
    } else {
      KeepAll(tasks, LateBoxTest(c, today));
    }
  }

  /** The four tests together are `Passes`. */
  lemma TestsArePasses(tasks: seq<Task>, c: Controls, today: PyDate)
    ensures Keep(tasks, Both(Both(Both(DateTest(c), WeekTest(c, today)), StatusTest(c)), LateBoxTest(c, today)))
         == Keep(tasks, PassesTest(c, today))
  {
    var p := Both(Both(Both(DateTest(c), WeekTest(c, today)), StatusTest(c)), LateBoxTest(c, today));
    forall i | 0 <= i < |tasks|
      ensures p(tasks[i]) == PassesTest(c, today)(tasks[i])
    {
      TestsPassOne(tasks[i], c, today);
    }
    KeepCongruent(tasks, p, PassesTest(c, today));
  }

  lemma TestsPassOne(t: Task, c: Controls, today: PyDate)
    ensures Both(Both(Both(DateTest(c), WeekTest(c, today)), StatusTest(c)), LateBoxTest(c, today))(t)
         == Passes(c, today, t)
  {
    WeekTestAt(t, c, today);
    StatusTestAt(t, c);
  }

  lemma WeekTestAt(t: Task, c: Controls, today: PyDate)
    ensures WeekTest(c, today)(t)
        == (SelectedWeek(c, today).None? || InWeek(t, SelectedWeek(c, today).value))
  {
  }

  lemma StatusTestAt(t: Task, c: Controls)
    ensures StatusTest(c)(t)
        == ((c.showAFazer || t.status != "A fazer") && (c.showFazendo || t.status != "Fazendo")
            && (c.showFeito || t.status != "Feito"))
  {
  }

  /** The chain of filters is one filter by the conjunction of the tests. */
  lemma FilteredIsConjunction(tasks: seq<Task>, c: Controls, today: PyDate)
    ensures Filtered(tasks, c, today) == Keep(tasks, PassesTest(c, today))
  {
    var pd, pw, ps, pl := DateTest(c), WeekTest(c, today), StatusTest(c), LateBoxTest(c, today);
    var a := ByDate(tasks, c);
    var b := ByWeek(a, c, today);
    var e := ByStatus(b, c);
    assert Filtered(tasks, c, today) == ByLate(e, c, today);
    ByDateKeeps(tasks, c);
    ByWeekKeeps(a, c, today);
    ByStatusKeeps(b, c);
    ByLateKeeps(e, c, today);
    KeepKeep(tasks, pd, pw);
    KeepKeep(tasks, Both(pd, pw), ps);
    KeepKeep(tasks, Both(Both(pd, pw), ps), pl);
    TestsArePasses(tasks, c, today);
  }

  /** The board shows an order-preserving selection of the tasks: exactly the
      tasks that pass every control. */
  lemma FilteredSelects(tasks: seq<Task>, c: Controls, today: PyDate)
    ensures IsSubsequence(Filtered(tasks, c, today), tasks)
    ensures forall t :: t in Filtered(tasks, c, today) <==> t in tasks && Passes(c, today, t)
  {
    FilteredIsConjunction(tasks, c, today);
    KeepIsSubsequence(tasks, PassesTest(c, today));
  }

  /** With the controls as the page starts, every task is shown. */
  lemma DefaultsShowAll(tasks: seq<Task>, today: PyDate)
    ensures Filtered(tasks, Defaults, today) == tasks
  {
    FilteredIsConjunction(tasks, Defaults, today);
    KeepAll(tasks, PassesTest(Defaults, today));
  }

  /** Filtering the board's own output with the same controls changes nothing. */
  lemma FilteredIdempotent(tasks: seq<Task>, c: Controls, today: PyDate)
    ensures Filtered(Filtered(tasks, c, today), c, today) == Filtered(tasks, c, today)
  {
    FilteredIsConjunction(tasks, c, today);
    FilteredIsConjunction(Filtered(tasks, c, today), c, today);
    KeepIdempotent(tasks, PassesTest(c, today));
  }

  /** Week matching ignores the year: choosing "previous" while today is in
      week 1 asks for week 0, which no date has, so nothing is shown. */
  lemma PreviousInWeekOne(tasks: seq<Task>, c: Controls, today: PyDate)
    requires c.weekType == "previous"
    ensures WeekNumber(today) == 1 ==> Filtered(tasks, c, today) == []
  {
    if WeekNumber(today) == 1 {
      FilteredIsConjunction(tasks, c, today);
      KeepNone(tasks, PassesTest(c, today));
    }
  }

  /** A week box that is empty, not a number, or 0 switches the week filter off. */
  lemma WeekNumberIgnored(c: Controls, today: PyDate)
    requires c.weekType == "number"
    requires ParseInt(c.weekNum) == None || ParseInt(c.weekNum) == Some(0)
    ensures SelectedWeek(c, today) == None
  {
  }

  /** The week box typed as the decimal text of `n` selects week `n`, whatever
      `n` is; no range check happens. */
  lemma WeekNumberTyped(c: Controls, today: PyDate, n: nat)
    requires c.weekType == "number" && c.weekNum == Decimal(n) && n != 0
    ensures SelectedWeek(c, today) == Some(n)
  {
    ParseDecimal(n);
  }

  /** The late filter compares the `YYYY-MM-DD` texts: a dated task is late
      exactly when its text sorts before today's. */
  lemma LateIsTextOrder(t: Task, today: PyDate)
    requires t.data.Some?
    ensures Late(t, today) <==> LexLess(IsoString(t.data.value), IsoString(today)) && t.status != "Feito"
  {
    IsoStringOrder(t.data.value, today);
  }

  /** Unchecking the "Feito" box removes the tasks whose status is exactly
      "Feito" and nothing else: a status such as "Concluído" stays. */
  lemma FeitoBoxRemovesExactly(tasks: seq<Task>, today: PyDate)
    ensures var c := Defaults.(showFeito := false);
      Filtered(tasks, c, today) == Keep(tasks, StatusIsNot("Feito"))
  {
    var c := Defaults.(showFeito := false);
    FilteredIsConjunction(tasks, c, today);
    KeepCongruent(tasks, PassesTest(c, today), StatusIsNot("Feito"));
  }

  // ---------------------------------------------------------------------------
  // Status clean-up and kanban columns

  /** `loadData`'s clean-up of legacy statuses. */
  function Normalize(status: string): (r: string)
    ensures status == "Pendente" ==> r == "A fazer"
    ensures status == "Concluído" ==> r == "Feito"
    ensures status != "Pendente" && status != "Concluído" ==> r == status
  {
    if status == "Pendente" then "A fazer"
    else if status == "Concluído" then "Feito"
    else status
  }

  predicate IsColumn(s: string) {
    s == "A fazer" || s == "Fazendo" || s == "Feito"
  }

  /** The names every object literal inherits from `Object.prototype`. Looking
      one up in `cols` finds a truthy value (a function, or the prototype
      itself for `__proto__`), so `!cols[status]` does not send the card to
      "A fazer", and `cols[status].appendChild(card)` then throws. */
  predicate Inherited(s: string) {
    s in {"constructor", "__proto__", "__defineGetter__", "__defineSetter__",
          "__lookupGetter__", "__lookupSetter__", "hasOwnProperty", "isPrototypeOf",
          "propertyIsEnumerable", "toLocaleString", "toString", "valueOf"}
  }

  /** The column `renderTasks` puts a card in: the legacy names are mapped,
      a column name is kept, and any other status goes to "A fazer" unless it
      is an inherited name, for which the render throws (`None`). */
  function Column(status: string): (r: Option<string>)
    ensures r.Some? ==> IsColumn(r.value)
    ensures IsColumn(status) ==> r == Some(status)
  {
    var s := Normalize(status);
    if IsColumn(s) then Some(s) else if Inherited(s) then None else Some("A fazer")
  }

  /** The column of a raw status: "Feito" for `Feito` and `Concluído`,
      "Fazendo" for `Fazendo`, no column (the render throws) for an inherited
      name, and "A fazer" for everything else, `Pendente` included. */
  lemma ColumnOfStatus(status: string)
    ensures Column(status) == Some("Feito") <==> status == "Feito" || status == "Concluído"
    ensures Column(status) == Some("Fazendo") <==> status == "Fazendo"
    ensures Column(status) == None <==> Inherited(status)
    ensures Column(status) == Some("A fazer")
        <==> status != "Feito" && status != "Concluído" && status != "Fazendo" && !Inherited(status)
  {
    NotInheritedLegacy(status);
  }

  /** No column name and no legacy name is an inherited one. */
  lemma NotInheritedLegacy(status: string)
    ensures IsColumn(status) || status == "Pendente" || status == "Concluído" ==> !Inherited(status)
  {
  }

  /** Cleaning up the status first does not move any card. */
  lemma ColumnAfterNormalize(status: string)
    ensures Column(Normalize(status)) == Column(status)
  {
  }

  /** Cleaning up twice is cleaning up once. */
  lemma NormalizeIdempotent(status: string)
    ensures Normalize(Normalize(status)) == Normalize(status)
  {
  }

  /** `app.state.tasks` after `loadData`. */
  function NormalizeAll(tasks: seq<Task>): (r: seq<Task>)
    ensures |r| == |tasks|
    ensures forall i :: 0 <= i < |r| ==> r[i] == tasks[i].(status := Normalize(tasks[i].status))
  {
    if tasks == [] then [] else [tasks[0].(status := Normalize(tasks[0].status))] + NormalizeAll(tasks[1..])
  }

  /** After loading, no task carries a legacy status. */
  lemma NoLegacyAfterLoad(tasks: seq<Task>)
    ensures forall t :: t in NormalizeAll(tasks) ==> t.status != "Pendente" && t.status != "Concluído"
  {
  }

  function ColumnTest(col: string): Task -> bool {
    (t: Task) => Column(t.status) == Some(col)
  }

  /** The tasks whose card makes `renderTasks` throw. */
  function Throws(): Task -> bool {
    (t: Task) => Column(t.status).None?
  }

  /** The cards of one column. */
  function InColumn(tasks: seq<Task>, col: string): seq<Task> {
    Keep(tasks, ColumnTest(col))
  }

  /** Every task is in exactly one of the three columns or is one whose card
      throws, so with no such task the three counters add up to the number
      of shown tasks. */
  lemma ColumnsPartition(tasks: seq<Task>)
    ensures |InColumn(tasks, "A fazer")| + |InColumn(tasks, "Fazendo")| + |InColumn(tasks, "Feito")|
          + |Keep(tasks, Throws())| == |tasks|
    ensures multiset(InColumn(tasks, "A fazer")) + multiset(InColumn(tasks, "Fazendo"))
          + multiset(InColumn(tasks, "Feito")) + multiset(Keep(tasks, Throws())) == multiset(tasks)
  {
    forall i | 0 <= i < |tasks|
      ensures OneOfFour(ColumnTest("A fazer")(tasks[i]), ColumnTest("Fazendo")(tasks[i]),
                        ColumnTest("Feito")(tasks[i]), Throws()(tasks[i]))
    {
      var c := Column(tasks[i].status);
      OneColumn(c);
    }
    KeepFour(tasks, ColumnTest("A fazer"), ColumnTest("Fazendo"), ColumnTest("Feito"), Throws());
  }

  /** A card has one column or none. */
  lemma OneColumn(c: Option<string>)
    requires c.Some? ==> IsColumn(c.value)
    ensures OneOfFour(c == Some("A fazer"), c == Some("Fazendo"), c == Some("Feito"), c.None?)
  {
  }

  /** The values `renderTasks` writes into the three counters. */
  datatype Counts = Counts(aFazer: nat, fazendo: nat, feito: nat)

  /** `k` holds the column sizes of `xs`. */
  predicate Counted(xs: seq<Task>, k: Counts) {
    k.aFazer == |InColumn(xs, "A fazer")| && k.fazendo == |InColumn(xs, "Fazendo")|
    && k.feito == |InColumn(xs, "Feito")|
  }

  /** `countVals[status]++`. */
  function Bump(k: Counts, col: string): Counts {
    if col == "A fazer" then k.(aFazer := k.aFazer + 1)
    else if col == "Fazendo" then k.(fazendo := k.fazendo + 1)
    else k.(feito := k.feito + 1)
  }

  /** One step of the counting loop. */
  lemma CountStep(tasks: seq<Task>, i: int, k: Counts, col: string)
    requires 0 <= i < |tasks| && Column(tasks[i].status) == Some(col)
    requires Keep(tasks[..i], Throws()) == [] && Counted(tasks[..i], k)
    ensures Keep(tasks[..i + 1], Throws()) == [] && Counted(tasks[..i + 1], Bump(k, col))
  {
    KeepPrefixStep(tasks, i, Throws());
    KeepPrefixStep(tasks, i, ColumnTest("A fazer"));
    KeepPrefixStep(tasks, i, ColumnTest("Fazendo"));
    KeepPrefixStep(tasks, i, ColumnTest("Feito"));
  }

  /** `countVals` as `renderTasks` accumulates it, one card at a time; `None`
      when a card throws, so that the counters are never written. */
  method CountColumns(tasks: seq<Task>) returns (r: Option<Counts>)
    ensures r.None? <==> exists i :: 0 <= i < |tasks| && Column(tasks[i].status).None?
    ensures r.Some? ==> r.value.aFazer == |InColumn(tasks, "A fazer")|
    ensures r.Some? ==> r.value.fazendo == |InColumn(tasks, "Fazendo")|
    ensures r.Some? ==> r.value.feito == |InColumn(tasks, "Feito")|
    ensures r.Some? ==> r.value.aFazer + r.value.fazendo + r.value.feito == |tasks|
  {
    var k := Counts(0, 0, 0);
    var i := 0;
    while i < |tasks|
      invariant 0 <= i <= |tasks|
      invariant Keep(tasks[..i], Throws()) == []
      invariant Counted(tasks[..i], k)
    {
      var c := Column(tasks[i].status);
      if c.None? {
        return None;
      }
      CountStep(tasks, i, k, c.value);
      k := Bump(k, c.value);
      i := i + 1;
    }
    assert tasks[..i] == tasks;
    NoneThrows(tasks);
    r := Some(k);
  }

  /** With no card that throws, the three columns hold every task. */
  lemma NoneThrows(tasks: seq<Task>)
    requires Keep(tasks, Throws()) == []
    ensures forall j :: 0 <= j < |tasks| ==> Column(tasks[j].status).Some?
    ensures |InColumn(tasks, "A fazer")| + |InColumn(tasks, "Fazendo")| + |InColumn(tasks, "Feito")| == |tasks|
  {
    ColumnsPartition(tasks);
  }

  // ---------------------------------------------------------------------------
  // Small views

  /** `const [y, m, d] = text.split('-'); `${d}/${m}/${y}``: a missing piece
      reads as `undefined`. */
  function Reorder(text: string): string {
    var parts := Split(text, '-');
    Piece(parts, 2) + "/" + Piece(parts, 1) + "/" + Piece(parts, 0)
  }

  function Piece(parts: seq<string>, i: nat): string {
    if i < |parts| then parts[i] else "undefined"
  }

  /** The date a card shows: nothing for an undated task. */
  function DisplayDate(data: Option<PyDate>): string {
    match data
    case None => ""
    case Some(d) => Reorder(IsoString(d))
  }

  /** A date's card text is its day, month and year fields, zero-padded, in
      that order. */
  lemma DisplayDateFields(d: PyDate)
    ensures DisplayDate(Some(d)) == Digits(d.day, 2) + "/" + Digits(d.month, 2) + "/" + Digits(d.year, 4)
  {
    IsoStringFields(d);
    SplitJoin([Digits(d.year, 4), Digits(d.month, 2), Digits(d.day, 2)], '-');
  }

  /** Different dates show different texts. */
  lemma DisplayDateInjective(a: PyDate, b: PyDate)
    requires DisplayDate(Some(a)) == DisplayDate(Some(b))
    ensures a == b
  {
    DisplayDateFields(a);
    DisplayDateFields(b);
    CardFieldsEqual("/", Digits(a.day, 2), Digits(a.month, 2), Digits(a.year, 4),
                    Digits(b.day, 2), Digits(b.month, 2), Digits(b.year, 4));
    assert Pow10(2) == 100 && Pow10(4) == 10000;
    DigitsOrder(a.day, b.day, 2);
    DigitsOrder(a.month, b.month, 2);
    DigitsOrder(a.year, b.year, 4);
  }

  /** Equal card texts have equal fields. */
  lemma CardFieldsEqual(sep: string, da: string, ma: string, ya: string, db: string, mb: string, yb: string)
    requires |sep| == 1 && |da| == |db| == 2 && |ma| == |mb| == 2 && |ya| == |yb| == 4
    requires da + sep + ma + sep + ya == db + sep + mb + sep + yb
    ensures da == db && ma == mb && ya == yb
  {
    var s, t := da + sep + ma + sep + ya, db + sep + mb + sep + yb;
    assert da == s[..2] && db == t[..2];
    assert ma == s[3..5] && mb == t[3..5];
    assert ya == s[6..] && yb == t[6..];
  }

  function CellTest(day: PyDate): Task -> bool {
    (t: Task) => t.data == Some(day) && t.status != "Feito"
  }

  /** The tasks listed in the month view's cell for `day`: that date, not done. */
  function CellTasks(tasks: seq<Task>, day: PyDate): seq<Task> {
    Keep(tasks, CellTest(day))
  }

  /** A calendar cell lists what the board shows for that date with the
      "Feito" box unchecked. */
  lemma CellMatchesBoard(tasks: seq<Task>, day: PyDate, today: PyDate)
    ensures CellTasks(tasks, day) == Filtered(tasks, Defaults.(date := Some(day), showFeito := false), today)
  {
    var c := Defaults.(date := Some(day), showFeito := false);
    FilteredIsConjunction(tasks, c, today);
    KeepCongruent(tasks, CellTest(day), PassesTest(c, today));
  }

  /** `renderInsights` skips converted insights and keeps the table order. */
  function ListedInsights(insights: seq<Row<Insight>>): (r: seq<Row<Insight>>)
    ensures IsSubsequence(r, insights)
    ensures forall x :: x in r <==> x in insights && x.value.status != "Convertido"
  {
    var listed := (x: Row<Insight>) => x.value.status != "Convertido";
    KeepIsSubsequence(insights, listed);
    Keep(insights, listed)
  }
}
