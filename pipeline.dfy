/**
 The pure part of questions_filtration end to end: fetched details in,
 CSV table out. Fetching the details is not part of this model; a detail
 whose response could not be decoded arrives as None.
 */
module Pipeline {
  import opened Wrappers
  import opened Questions
  import opened Filtration
  import opened Export

  /** Filter by difficulty, rank, and turn the ranking into the CSV table, as questions_filtration does. */
  function QuestionsFiltration(infos: seq<Option<Question>>, selected: set<Difficulty>): (t: CsvTable)
    ensures t.header == Header
    ensures multiset(QuestionsOfRows(t.rows)) == multiset(Filtered(infos, selected))
    ensures forall i :: 0 <= i < |t.rows| ==>
      Some(QuestionOf(t.rows[i])) in infos && t.rows[i].difficulty in selected
    ensures forall i :: 0 <= i < |t.rows| ==> t.rows[i].ratio == LikeRatio(QuestionOf(t.rows[i]))
    ensures forall i :: 0 < i < |t.rows| ==> KeyAtLeast(RowKey(t.rows[i - 1]), RowKey(t.rows[i]))
    ensures forall k :: TiedWith(QuestionsOfRows(t.rows), k) == TiedWith(Filtered(infos, selected), k)
  {
    var ranked := Ranked(infos, selected);
    RankedExport(infos, selected, ranked);
    ToCsv(ranked)
  }

  lemma RankedExport(infos: seq<Option<Question>>, selected: set<Difficulty>, ranked: seq<Question>)
    requires ranked == Ranked(infos, selected)
    ensures multiset(QuestionsOfRows(ToCsv(ranked).rows)) == multiset(Filtered(infos, selected))
    ensures forall i :: 0 <= i < |ranked| ==>
      Some(QuestionOf(ToCsv(ranked).rows[i])) in infos && ToCsv(ranked).rows[i].difficulty in selected
    ensures forall i :: 0 < i < |ranked| ==> KeyAtLeast(RowKey(ToCsv(ranked).rows[i - 1]), RowKey(ToCsv(ranked).rows[i]))
    ensures forall k :: TiedWith(QuestionsOfRows(ToCsv(ranked).rows), k) == TiedWith(Filtered(infos, selected), k)
  {
    var rows := ToCsv(ranked).rows;
    RowsOfDescending(ranked);
    RowsReadBack(ranked);
    forall i | 0 <= i < |ranked|
      ensures Some(QuestionOf(rows[i])) in infos && rows[i].difficulty in selected
    {
      assert QuestionOf(rows[i]) == ranked[i] && ranked[i] in ranked;
    }
  }

  /** With the empty selection the file holds the header and no data row. */
  lemma EmptySelectionExportsHeaderOnly(infos: seq<Option<Question>>)
    ensures QuestionsFiltration(infos, {}).rows == []
    ensures QuestionsFiltration(infos, {}).header == Header
  {
  }

  lemma {:induction false} RankedCountsMatchInput(infos: seq<Option<Question>>, selected: set<Difficulty>, q: Question)
    requires q.difficulty in selected
    ensures multiset(Ranked(infos, selected))[q] == multiset(infos)[Some(q)]
  {
    if infos != [] {
      var n := |infos| - 1;
      RankedCountsMatchInput(infos[..n], selected, q);
      assert infos == infos[..n] + [infos[n]];
    }
  }

  /** Each question with a selected difficulty has as many rows in the export as times it was fetched;
      a question with another difficulty has none. */
  lemma ExportCountsMatchInput(infos: seq<Option<Question>>, selected: set<Difficulty>, q: Question)
    ensures multiset(QuestionsOfRows(QuestionsFiltration(infos, selected).rows))[q]
      == if q.difficulty in selected then multiset(infos)[Some(q)] else 0
  {
    if q.difficulty in selected {
      RankedCountsMatchInput(infos, selected, q);
    } else {
      FilteredMembership(infos, selected, q);
    }
  }

  /** Without a --difficulty option every fetched question labelled Easy, Medium or Hard reaches the file. */
  lemma DefaultSelectionExportsEveryLabelled(infos: seq<Option<Question>>, q: Question)
    requires Some(q) in infos && q.difficulty in DefaultDifficulties
    ensures q in QuestionsOfRows(QuestionsFiltration(infos, DefaultDifficulties).rows)
  {
    ExportCountsMatchInput(infos, DefaultDifficulties, q);
  }

  /** A worked example: question 1 is Easy with 10 likes and no dislikes, question 2 is Easy
      with 5 likes and 5 dislikes, question 3 is Hard with 20 likes; a fourth detail failed to decode. */
  const Q1 := Question("1", "one", 10, 0, "Easy")
  const Q2 := Question("2", "two", 5, 5, "Easy")
  const Q3 := Question("3", "three", 20, 4, "Hard")
  const ExampleInfos := [Some(Q2), Some(Q3), None, Some(Q1)]

  lemma ExampleFilter()
    ensures Filtered(ExampleInfos, {"Easy"}) == [Q2, Q1]
  {
    var s1, s2, s3 := [Some(Q2)], [Some(Q2), Some(Q3)], [Some(Q2), Some(Q3), None];
    assert s1[..0] == [] && s2[..1] == s1 && s3[..2] == s2 && ExampleInfos[..3] == s3;
    assert Filtered(s1, {"Easy"}) == [Q2];
    assert Filtered(s2, {"Easy"}) == [Q2];
    assert Filtered(s3, {"Easy"}) == [Q2];
  }

  lemma ExampleRank()
    ensures Ranked(ExampleInfos, {"Easy"}) == [Q1, Q2]
  {
    ExampleFilter();
    assert SortDescending([Q1]) == [Q1];
    assert Insert(Q2, [Q1]) == [Q1, Q2];
  }

  /** With Easy selected the file lists question 1 then question 2 (more likes first); the Hard
      question and the undecodable detail are left out. */
  lemma ExampleRun()
    ensures |QuestionsFiltration(ExampleInfos, {"Easy"}).rows| == 2
    ensures QuestionsFiltration(ExampleInfos, {"Easy"}).rows[0].id == "1"
    ensures QuestionsFiltration(ExampleInfos, {"Easy"}).rows[1].id == "2"
  {
    ExampleRank();
    assert Rows([Q1, Q2]) == [RowOf(Q1)] + Rows([Q2]);
  }
}
