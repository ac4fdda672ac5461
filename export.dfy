/**
 The rows that to_csv hands to the CSV writer: a fixed six-column header and
 one row per question, in the order given. Writing the file and quoting the
 fields are left to the library and are not part of this model.
 */
module Export {
  import opened Questions
  import Filtration

  /** The column names, in the order the writer emits them. */
  const Header: seq<string> := ["id", "title", "likes", "dislikes", "like/dislikes_ratio", "difficulty"]

  /** One data row, one field per column of Header. */
  datatype Row = Row(
    id: string,
    title: string,
    likes: nat,
    dislikes: nat,
    ratio: Ratio,
    difficulty: Difficulty)

  /** Reads the question back from its row. */
  function QuestionOf(row: Row): Question
  {
    Question(row.id, row.title, row.likes, row.dislikes, row.difficulty)
  }

  /** The mapping lambda of to_csv: a row loses nothing of the question, and its ratio column
      is the very ratio the sort ranked it by. */
  function RowOf(q: Question): (row: Row)
    ensures QuestionOf(row) == q
    ensures row.ratio == KeyOf(q).ratio
    ensures q.dislikes == 0 ==> RatioEqual(row.ratio, Ratio(q.likes, 1))
  {
    Row(q.frontendId, q.title, q.likes, q.dislikes, LikeRatio(q), q.difficulty)
  }

  /** list(map(...)) over the questions: one row per question, in order. */
  function Rows(qs: seq<Question>): (rows: seq<Row>)
    ensures |rows| == |qs|
    ensures forall i :: 0 <= i < |qs| ==> QuestionOf(rows[i]) == qs[i] && rows[i].ratio == LikeRatio(qs[i])
  {
    if qs == [] then [] else [RowOf(qs[0])] + Rows(qs[1..])
  }

  /** What the writer is given: the header line, then the data rows. */
  datatype CsvTable = CsvTable(header: seq<string>, rows: seq<Row>)

  function ToCsv(qs: seq<Question>): (t: CsvTable)
    ensures t.header == Header
    ensures |t.rows| == |qs|
    ensures forall i :: 0 <= i < |qs| ==> QuestionOf(t.rows[i]) == qs[i] && t.rows[i].ratio == LikeRatio(qs[i])
  {
    CsvTable(Header, Rows(qs))
  }

  /** The questions the rows of a table stand for, read back row by row. */
  function QuestionsOfRows(rows: seq<Row>): (qs: seq<Question>)
    ensures |qs| == |rows|
    ensures forall i :: 0 <= i < |rows| ==> qs[i] == QuestionOf(rows[i])
  {
    if rows == [] then [] else [QuestionOf(rows[0])] + QuestionsOfRows(rows[1..])
  }

  /** Reading the rows back gives exactly the questions they were made from, in order. */
  lemma RowsReadBack(qs: seq<Question>)
    ensures QuestionsOfRows(Rows(qs)) == qs
  {
    var back := QuestionsOfRows(Rows(qs));
    assert |back| == |qs|;
    assert forall i :: 0 <= i < |qs| ==> back[i] == qs[i];
  }

  /** The sort key read off a row's likes and ratio columns. */
  function RowKey(row: Row): SortKey
  {
    SortKey(row.likes, row.ratio)
  }

  /** Sorted questions give rows whose likes and ratio columns never increase down the file. */
  lemma RowsOfDescending(qs: seq<Question>)
    requires Filtration.Descending(qs)
    ensures forall i :: 0 < i < |qs| ==> KeyAtLeast(RowKey(Rows(qs)[i - 1]), RowKey(Rows(qs)[i]))
  {
    var rows := Rows(qs);
    forall i | 0 < i < |qs| ensures KeyAtLeast(RowKey(rows[i - 1]), RowKey(rows[i])) {
      assert RowKey(rows[i - 1]) == KeyOf(qs[i - 1]);
      assert RowKey(rows[i]) == KeyOf(qs[i]);
    }
  }
}
