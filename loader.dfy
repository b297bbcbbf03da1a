/**
 * Reading the reference questions: the sheet's question column without its
 * empty cells, and a random selection of at most the requested number of
 * them. The spreadsheet file and the random generator are inputs: a sheet is
 * what reading the file gives, and the random choices are a sequence of
 * picks.
 */
module Loader {
  import opened Wrappers

  const QuestionsToSelect: nat := 50
  const QuestionColumnName: string := "Question Text"

  /** What reading the spreadsheet file gives: no file, a file that cannot be read, or its columns. */
  datatype Sheet =
    | Missing
    | Unreadable
    | Table(columns: map<string, seq<Option<string>>>)

  /** The column's values without its empty cells, in row order (`dropna`). */
  function Present(cells: seq<Option<string>>): (r: seq<string>)
    ensures |r| <= |cells|
    decreases |cells|
  {
    if cells == [] then []
    else if cells[0].Some? then [cells[0].value] + Present(cells[1..])
    else Present(cells[1..])
  }

  /** A value is kept exactly when some cell holds it. */
  lemma {:induction false} PresentKeeps(cells: seq<Option<string>>, x: string)
    ensures x in Present(cells) <==> Some(x) in cells
    decreases |cells|
  {
    if cells != [] {
      PresentKeeps(cells[1..], x);
      assert cells == [cells[0]] + cells[1..];
    }
  }

  /**
   * How many questions are selected: none at all (an error) when the column
   * has no values, otherwise the requested number or every value when there
   * are fewer.
   */
  function SelectionCount(available: nat, requested: nat): (r: Option<nat>)
    ensures r.None? <==> available == 0
    ensures r.Some? ==> r.value <= available && r.value <= requested
    ensures r.Some? ==> r.value == available || r.value == requested
  {
    if available == 0 then None
    else if available < requested then Some(available)
    else Some(requested)
  }

  /**
   * A random selection of `n` values of `pool` without replacement: each
   * pick chooses one of the values not taken yet; missing picks choose the
   * first.
   */
  function Sample<T>(pool: seq<T>, picks: seq<nat>, n: nat): (r: seq<T>)
    requires n <= |pool|
    ensures |r| == n && multiset(r) <= multiset(pool)
    decreases n
  {
    if n == 0 then []
    else
      var j := (if picks == [] then 0 else picks[0]) % |pool|;
      var others := pool[..j] + pool[j + 1..];
      assert pool == pool[..j] + [pool[j]] + pool[j + 1..];
      [pool[j]] + Sample(others, if picks == [] then [] else picks[1..], n - 1)
  }

  /**
   * `load_and_select_questions`: nothing when the file is missing or cannot
   * be read, when the column is missing, or when it has no values; otherwise
   * the requested number of distinct rows of the column, or all of them when
   * there are fewer, in random order.
   */
  function LoadAndSelect(sheet: Sheet, numQuestions: nat, columnName: string, picks: seq<nat>): (r: Option<seq<string>>)
    ensures r.Some? <==> sheet.Table? && columnName in sheet.columns && Present(sheet.columns[columnName]) != []
    ensures r.Some? ==>
      var available := Present(sheet.columns[columnName]);
      && |r.value| == (if |available| < numQuestions then |available| else numQuestions)
      && multiset(r.value) <= multiset(available)
  {
    match sheet
    case Missing => None
    case Unreadable => None
    case Table(columns) =>
      if columnName !in columns then None
      else
        var available := Present(columns[columnName]);
        match SelectionCount(|available|, numQuestions)
        case None => None
        case Some(n) => Some(Sample(available, picks, n))
  }

}
