/** The unit tests' cases for the weighted score ranker. */
module WeightedScoresExamples {
  import W = WeightedScores


  function TestCriteria(): seq<W.Criterion>
  {
    [W.Criterion("Custo", 50.0), W.Criterion("Qualidade", 30.0), W.Criterion("Prazo", 20.0)]
  }

  function TestOptions(): seq<W.Option>
  {
    [ W.Option("Opção A", map["Custo" := 10.0, "Qualidade" := 6.0, "Prazo" := 8.0]),
      W.Option("Opção B", map["Custo" := 7.0, "Qualidade" := 9.0, "Prazo" := 9.0]),
      W.Option("Opção C", map["Custo" := 9.0, "Qualidade" := 8.0, "Prazo" := 6.0]) ]
  }

  /** The worked example's three options score 8.4, 8.0 and 8.1. */
  lemma TestOptionScores()
    ensures W.RankAll(TestCriteria(), TestOptions())
      == [W.Ranked("Opção A", 8.4), W.Ranked("Opção B", 8.0), W.Ranked("Opção C", 8.1)]
  {
    var cs, os := TestCriteria(), TestOptions();
    assert W.RankOption(cs, os[0]) == W.Ranked("Opção A", 8.4);
    assert W.RankOption(cs, os[1]) == W.Ranked("Opção B", 8.0);
    assert W.RankOption(cs, os[2]) == W.Ranked("Opção C", 8.1);
  }

  /** Sorting three lines whose last outscores the middle one moves it ahead. */
  lemma SortThree(a: W.Ranked, b: W.Ranked, c: W.Ranked)
    requires a.score >= c.score > b.score
    ensures W.SortDesc([a, b, c]) == [a, c, b]
  {
    var s := [a, b, c];
    assert s[0] == a && s[1..] == [b, c];
    assert [b, c][0] == b && [b, c][1..] == [c];
    assert [c][0] == c && [c][1..] == [];
    assert W.SortDesc([c]) == [c];
    assert W.Insert(b, []) == [b];
    assert W.Insert(b, [c]) == [c, b];
    assert W.SortDesc([b, c]) == W.Insert(b, W.SortDesc([c]));
    assert W.SortDesc([b, c]) == [c, b];
    assert W.SortDesc(s) == W.Insert(a, W.SortDesc([b, c]));
    assert W.Insert(a, [c, b]) == [a, c, b];
  }

  /** A=8.4, B=8.0, C=8.1 ranks as [A, C, B]. */
  lemma RankingExample()
    ensures W.CalculateWeightedScores(W.Present(TestCriteria()), W.Present(TestOptions()))
      == [W.Ranked("Opção A", 8.4), W.Ranked("Opção C", 8.1), W.Ranked("Opção B", 8.0)]
  {
    var a, b, c := W.Ranked("Opção A", 8.4), W.Ranked("Opção B", 8.0), W.Ranked("Opção C", 8.1);
    TestOptionScores();
    W.RankingIsPipeline(TestCriteria(), TestOptions());
    assert W.KeepNamed([a, b, c]) == [a, b, c];
    SortThree(a, b, c);
  }

  /** An option missing the score for "Prazo" scores (10 * 0.5) + (5 * 0.3) = 6.5. */
  lemma MissingScoreExample()
    ensures W.CalculateWeightedScores(W.Present(TestCriteria()), W.Present([W.Option("Opção D", map["Custo" := 10.0, "Qualidade" := 5.0])]))
      == [W.Ranked("Opção D", 6.5)]
  {
    var o := W.Option("Opção D", map["Custo" := 10.0, "Qualidade" := 5.0]);
    assert W.ScoreOn(o.scores, "Prazo") == 0.0;
    assert W.WeightedSum(TestCriteria(), o.scores) == 6.5;
    W.RankingIsPipeline(TestCriteria(), [o]);
    assert W.RankAll(TestCriteria(), [o]) == [W.Ranked("Opção D", 6.5)];
  }

  /** An unnamed fourth option is left out of the ranking. */
  lemma UnnamedOptionExample()
    ensures |W.CalculateWeightedScores(W.Present(TestCriteria()),
      W.Present(TestOptions() + [W.Option("", map["Custo" := 1.0, "Qualidade" := 1.0, "Prazo" := 1.0])]))| == 3
  {
    var os := TestOptions() + [W.Option("", map["Custo" := 1.0, "Qualidade" := 1.0, "Prazo" := 1.0])];
    W.RankingLength(TestCriteria(), os);
    W.NamedOptionsAppend(TestOptions(), [os[3]]);
    assert |W.NamedOptions(TestOptions())| == 3;
  }

  /** An absent list on either side gives an empty ranking. */
  lemma AbsentListExample()
    ensures W.CalculateWeightedScores(W.Present([]), W.Null) == []
    ensures W.CalculateWeightedScores(W.Null, W.Present([])) == []
  {
  }
}
