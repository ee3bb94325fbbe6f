/** The desktop briefing: today's tasks of every user, most urgent first,
    each with a colour for its priority. */
module Briefing {
  import opened Wrappers
  import opened Strings
  import opened Seqs
  import opened Calendar
  import opened Records

  function DueOn(today: PyDate): Row<Task> -> bool {
    (row: Row<Task>) => row.value.data == Some(today)
  }

  /** The tasks dated today, in table order. */
  function TodayTasks(rows: seq<Row<Task>>, today: PyDate): (r: seq<Row<Task>>)
    ensures IsSubsequence(r, rows)
    ensures forall row :: row in r <==> row in rows && row.value.data == Some(today)
  {
    KeepIsSubsequence(rows, DueOn(today));
    Keep(rows, DueOn(today))
  }

  /** `priority_map.get(prioridade, 3)`: `Alta` 0, `Média` or `Media` 1,
      `Baixa` 2, anything else 3. */
  function Rank(row: Row<Task>): (k: int)
    ensures 0 <= k <= 3
    ensures k == 0 <==> row.value.prioridade == "Alta"
    ensures k == 1 <==> row.value.prioridade in {"Média", "Media"}
    ensures k == 2 <==> row.value.prioridade == "Baixa"
  {
    var p := row.value.prioridade;
    if p == "Alta" then 0
    else if p == "Média" || p == "Media" then 1
    else if p == "Baixa" then 2
    else 3
  }

  /** The list the window shows. */
  function Briefing(rows: seq<Row<Task>>, today: PyDate): seq<Row<Task>> {
    SortBy(TodayTasks(rows, today), Rank)
  }

  /** The briefing holds exactly today's tasks, as often as the table does,
      ordered by priority, tasks of one priority in table order. */
  lemma BriefingSpec(rows: seq<Row<Task>>, today: PyDate, k: int)
    ensures multiset(Briefing(rows, today)) == multiset(TodayTasks(rows, today))
    ensures forall row :: row in Briefing(rows, today) <==> row in rows && row.value.data == Some(today)
    ensures SortedBy(Briefing(rows, today), Rank)
    ensures Keep(Briefing(rows, today), KeyIs(Rank, k)) == Keep(TodayTasks(rows, today), KeyIs(Rank, k))
  {
    var t := TodayTasks(rows, today);
    SortByPermutes(t, Rank);
    SortBySorted(t, Rank);
    SortByStable(t, Rank, k);
    forall row
      ensures row in Briefing(rows, today) <==> row in t
    {
      assert row in Briefing(rows, today) <==> row in multiset(Briefing(rows, today));
      assert row in t <==> row in multiset(t);
    }
  }

  /** An `Alta` task is listed before every task of another priority. */
  lemma AltaFirst(rows: seq<Row<Task>>, today: PyDate, i: int, j: int)
    requires 0 <= i < |Briefing(rows, today)| && 0 <= j < |Briefing(rows, today)|
    requires Briefing(rows, today)[i].value.prioridade == "Alta"
    requires Briefing(rows, today)[j].value.prioridade != "Alta"
    ensures i < j
  {
    SortBySorted(TodayTasks(rows, today), Rank);
  }

  datatype Colour = Red | Orange | Green

  /** The label colour: red for exactly `Alta`, orange for any text
      containing `Média` or `Media`, green otherwise. */
  function ColourOf(prioridade: string): Colour {
    if prioridade == "Alta" then Red
    else if Contains(prioridade, "Média") || Contains(prioridade, "Media") then Orange
    else Green
  }

  lemma ContainsItself(s: string)
    ensures Contains(s, s)
  {
    assert s[..|s|] == s;
  }

  /** The colour agrees with the sort for the four known priorities: red for
      rank 0, orange for rank 1, green for rank 2. */
  lemma ColourFollowsRank(row: Row<Task>)
    ensures ColourOf(row.value.prioridade) == Red <==> Rank(row) == 0
    ensures Rank(row) == 1 ==> ColourOf(row.value.prioridade) == Orange
    ensures Rank(row) == 2 ==> ColourOf(row.value.prioridade) == Green
  {
    var p := row.value.prioridade;
    ContainsItself(p);
    if p == "Baixa" {
      assert !Contains(p, "Média") && !Contains(p, "Media") by {
        assert !StartsWith("Baixa", "Média") && !StartsWith("Baixa", "Media");
        assert !Contains("Baixa"[1..], "Média") && !Contains("Baixa"[1..], "Media");
      }
    }
  }

  /** Unknown priorities that mention `Média` are orange although they sort
      last. */
  lemma MediaTextOrangeButLast()
    ensures ColourOf("Média alta") == Orange
    ensures Rank(Row(0, None, Task("", None, "", "Média alta", "", NoDetails, "", NoRecurrence))) == 3
  {
    var s := "Média alta";
    assert s[..|"Média"|] == "Média";
  }
}
