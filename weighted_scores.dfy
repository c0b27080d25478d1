/**
  The weighted score ranker: every named option gets the sum, over the
  criteria that count, of its score on the criterion times the criterion's
  weight as a fraction of 100; the named options are then ranked by
  descending score, options with equal scores keeping their input order
  (`Array.prototype.sort` is stable).
 */
module WeightedScores {

  /** A JavaScript value that may be `null`; an empty array is not `null`. */
  datatype Nullable<T> = Null | Present(value: T)

  /** A comparison dimension; `weight` is a percentage. */
  datatype Criterion = Criterion(name: string, weight: real)

  /** An alternative, with its score on each criterion it was rated on. */
  datatype Option = Option(name: string, scores: map<string, real>)

  /** One line of the ranking. */
  datatype Ranked = Ranked(name: string, score: real)

  // ---------------------------------------------------------------------
  // The score of one option.
  // ---------------------------------------------------------------------

  /** `opt.scores[name] || 0`: a criterion the option was not rated on scores 0. */
  function ScoreOn(scores: map<string, real>, name: string): real
  {
    if name in scores then scores[name] else 0.0
  }

  /** A criterion with an empty name or a zero weight is skipped. */
  predicate Counts(c: Criterion)
  {
    c.name != "" && c.weight != 0.0
  }

  /** What one criterion adds to an option's score. */
  function Contribution(c: Criterion, scores: map<string, real>): real
  {
    if Counts(c) then ScoreOn(scores, c.name) * (c.weight / 100.0) else 0.0
  }

  /** The weighted score as a plain sum over the criteria. */
  function WeightedSum(criteria: seq<Criterion>, scores: map<string, real>): real
  {
    if criteria == [] then 0.0 else Contribution(criteria[0], scores) + WeightedSum(criteria[1..], scores)
  }

  /**
    One step of the source's `reduce`: a skipped criterion leaves the running
    total alone, any other adds the criterion's share of the plain sum.
   */
  function Step(acc: real, c: Criterion, scores: map<string, real>): real
  {
    if c.name == "" || c.weight == 0.0 then acc else acc + ScoreOn(scores, c.name) * (c.weight / 100.0)
  }

  /** `criteria.reduce(step, acc)`, folding from the left: it adds the plain sum to `acc`. */
  function Reduce(criteria: seq<Criterion>, scores: map<string, real>, acc: real): (r: real)
    ensures r == acc + WeightedSum(criteria, scores)
  {
    if criteria == [] then acc else Reduce(criteria[1..], scores, Step(acc, criteria[0], scores))
  }

  /** A criterion the option was not rated on counts exactly as a score of 0 would. */
  lemma {:induction false} MissingScoreIsZero(criteria: seq<Criterion>, scores: map<string, real>, k: string)
    requires k !in scores
    ensures WeightedSum(criteria, scores) == WeightedSum(criteria, scores[k := 0.0])
  {
    if criteria != [] {
      MissingScoreIsZero(criteria[1..], scores, k);
      assert Contribution(criteria[0], scores) == Contribution(criteria[0], scores[k := 0.0]);
    }
  }

  /** The body of the source's `options.map`: an unnamed option gets a blank line scoring 0. */
  function RankOption(criteria: seq<Criterion>, opt: Option): (r: Ranked)
    ensures r.name == opt.name
    ensures opt.name != "" ==> r.score == WeightedSum(criteria, opt.scores)
    ensures opt.name == "" ==> r.score == 0.0
  {
    if opt.name == "" then Ranked("", 0.0) else Ranked(opt.name, Reduce(criteria, opt.scores, 0.0))
  }

  /** The criteria that count, in input order. */
  function Counted(criteria: seq<Criterion>): (r: seq<Criterion>)
    ensures forall c :: c in r <==> c in criteria && Counts(c)
  {
    if criteria == [] then []
    else if Counts(criteria[0]) then [criteria[0]] + Counted(criteria[1..])
    else Counted(criteria[1..])
  }

  /** Skipped criteria make no difference to any score. */
  lemma {:induction false} SkippedCriteriaDoNotMatter(criteria: seq<Criterion>, scores: map<string, real>)
    ensures WeightedSum(criteria, scores) == WeightedSum(Counted(criteria), scores)
  {
    if criteria != [] {
      SkippedCriteriaDoNotMatter(criteria[1..], scores);
      if Counts(criteria[0]) {
        assert ([criteria[0]] + Counted(criteria[1..]))[1..] == Counted(criteria[1..]);
      }
    }
  }

  /** The sum of the weights of the criteria that count. */
  function TotalWeight(criteria: seq<Criterion>): real
  {
    if criteria == [] then 0.0
    else (if Counts(criteria[0]) then criteria[0].weight else 0.0) + TotalWeight(criteria[1..])
  }

  /** One criterion's share stays within 0 and 10 times its weight percentage. */
  lemma ContributionBounds(c: Criterion, scores: map<string, real>)
    requires c.weight >= 0.0
    requires forall k :: k in scores ==> 0.0 <= scores[k] <= 10.0
    ensures 0.0 <= Contribution(c, scores)
    ensures Contribution(c, scores) <= 10.0 * (if Counts(c) then c.weight else 0.0) / 100.0
  {
    if Counts(c) {
      var v := ScoreOn(scores, c.name);
      assert 0.0 <= v <= 10.0;
      assert Contribution(c, scores) == v * (c.weight / 100.0);
      assert c.weight / 100.0 >= 0.0;
      assert v * (c.weight / 100.0) <= 10.0 * (c.weight / 100.0);
      assert 10.0 * (c.weight / 100.0) == 10.0 * c.weight / 100.0;
    }
  }

  /**
    With the weights and scores the weighted-analysis form admits (weights at
    least 0, scores between 0 and 10), a score lies between 0 and 10 times the
    total weight percentage: between 0 and 10 when the weights sum to 100.
   */
  lemma {:induction false} ScoreBounds(criteria: seq<Criterion>, scores: map<string, real>)
    requires forall i :: 0 <= i < |criteria| ==> criteria[i].weight >= 0.0
    requires forall k :: k in scores ==> 0.0 <= scores[k] <= 10.0
    ensures 0.0 <= WeightedSum(criteria, scores) <= 10.0 * TotalWeight(criteria) / 100.0
  {
    if criteria != [] {
      ContributionBounds(criteria[0], scores);
      ScoreBounds(criteria[1..], scores);
    }
  }

  // ---------------------------------------------------------------------
  // The pipeline: map, keep the named lines, sort.
  // ---------------------------------------------------------------------

  /** `options.map(...)` */
  function RankAll(criteria: seq<Criterion>, options: seq<Option>): (r: seq<Ranked>)
    ensures |r| == |options|
    ensures forall i :: 0 <= i < |options| ==> r[i] == RankOption(criteria, options[i])
  {
    if options == [] then [] else [RankOption(criteria, options[0])] + RankAll(criteria, options[1..])
  }

  /** `.filter(s => s.name)`: keeps exactly the lines with a name, in order. */
  function KeepNamed(rs: seq<Ranked>): (r: seq<Ranked>)
    ensures |r| <= |rs|
    ensures forall x :: x in r <==> x in rs && x.name != ""
  {
    if rs == [] then []
    else if rs[0].name != "" then [rs[0]] + KeepNamed(rs[1..])
    else KeepNamed(rs[1..])
  }

  /** The options with a name, in input order. */
  function NamedOptions(options: seq<Option>): (r: seq<Option>)
    ensures |r| <= |options|
    ensures forall o :: o in r <==> o in options && o.name != ""
  {
    if options == [] then []
    else if options[0].name != "" then [options[0]] + NamedOptions(options[1..])
    else NamedOptions(options[1..])
  }

  /** Keeping the named options distributes over concatenation. */
  lemma {:induction false} NamedOptionsAppend(a: seq<Option>, b: seq<Option>)
    ensures NamedOptions(a + b) == NamedOptions(a) + NamedOptions(b)
  {
    if a == [] {
      assert a + b == b;
    } else {
      assert (a + b)[0] == a[0];
      assert (a + b)[1..] == a[1..] + b;
      NamedOptionsAppend(a[1..], b);
    }
  }

  /**
    What the ranking must contain, computed in one pass: a line for each
    named option, in input order, scored with its weighted sum.
   */
  function Expected(criteria: seq<Criterion>, options: seq<Option>): (r: seq<Ranked>)
    ensures |r| == |NamedOptions(options)|
    ensures forall o :: o in options && o.name != "" ==> Ranked(o.name, WeightedSum(criteria, o.scores)) in r
    ensures forall x :: x in r ==> x.name != "" && exists o :: o in options && x == Ranked(o.name, WeightedSum(criteria, o.scores))
  {
    if options == [] then []
    else if options[0].name != "" then
      [Ranked(options[0].name, WeightedSum(criteria, options[0].scores))] + Expected(criteria, options[1..])
    else
      Expected(criteria, options[1..])
  }

  /** Scoring every option and then dropping the unnamed lines gives the expected lines. */
  lemma {:induction false} KeepNamedAfterRanking(criteria: seq<Criterion>, options: seq<Option>)
    ensures KeepNamed(RankAll(criteria, options)) == Expected(criteria, options)
  {
    if options != [] {
      KeepNamedAfterRanking(criteria, options[1..]);
      var all := RankAll(criteria, options);
      assert all[0] == RankOption(criteria, options[0]);
      assert all[1..] == RankAll(criteria, options[1..]);
    }
  }

  // ---------------------------------------------------------------------
  // The stable sort by descending score.
  // ---------------------------------------------------------------------

  /** Non-increasing scores. */
  predicate SortedDesc(rs: seq<Ranked>)
  {
    forall i, j :: 0 <= i < j < |rs| ==> rs[i].score >= rs[j].score
  }

  /** `[x]` when `x` scores `v`, otherwise nothing. */
  function Keep(x: Ranked, v: real): seq<Ranked>
  {
    if x.score == v then [x] else []
  }

  /** The lines scoring exactly `v`, in their order. */
  function WithScore(rs: seq<Ranked>, v: real): seq<Ranked>
  {
    if rs == [] then [] else Keep(rs[0], v) + WithScore(rs[1..], v)
  }

  /**
    Inserts `x` in front of the first line scoring no more than it, so that
    `x` precedes every line with its own score.
   */
  function Insert(x: Ranked, sorted: seq<Ranked>): (r: seq<Ranked>)
    ensures |r| == |sorted| + 1
    ensures r[0] == x || (sorted != [] && r[0] == sorted[0])
  {
    if sorted == [] || x.score >= sorted[0].score then
      [x] + sorted
    else
      [sorted[0]] + Insert(x, sorted[1..])
  }

  /** Inserting adds `x` and loses nothing. */
  lemma {:induction false} InsertPermutes(x: Ranked, sorted: seq<Ranked>)
    ensures multiset(Insert(x, sorted)) == multiset(sorted) + multiset{x}
  {
    if sorted != [] && x.score < sorted[0].score {
      InsertPermutes(x, sorted[1..]);
      assert sorted == [sorted[0]] + sorted[1..];
    }
  }

  /** Inserting into a sorted sequence keeps it sorted. */
  lemma {:induction false} InsertSorted(x: Ranked, sorted: seq<Ranked>)
    requires SortedDesc(sorted)
    ensures SortedDesc(Insert(x, sorted))
  {
    if sorted != [] && x.score < sorted[0].score {
      var rest := Insert(x, sorted[1..]);
      InsertSorted(x, sorted[1..]);
      var r := [sorted[0]] + rest;
      assert sorted[0].score >= rest[0].score;
      forall i, j | 0 <= i < j < |r|
        ensures r[i].score >= r[j].score
      {
        if i == 0 && j > 1 {
          assert rest[0].score >= rest[j - 1].score;
        }
      }
    }
  }

  /** `.sort((a, b) => b.score - a.score)`: insertion sort, stable. */
  function SortDesc(rs: seq<Ranked>): (r: seq<Ranked>)
    ensures |r| == |rs|
  {
    if rs == [] then [] else Insert(rs[0], SortDesc(rs[1..]))
  }

  /** The sort's result is a permutation of its input. */
  lemma {:induction false} SortDescPermutes(rs: seq<Ranked>)
    ensures multiset(SortDesc(rs)) == multiset(rs)
  {
    if rs != [] {
      SortDescPermutes(rs[1..]);
      InsertPermutes(rs[0], SortDesc(rs[1..]));
      assert rs == [rs[0]] + rs[1..];
    }
  }

  /** The sort's result has non-increasing scores. */
  lemma {:induction false} SortDescSorted(rs: seq<Ranked>)
    ensures SortedDesc(SortDesc(rs))
  {
    if rs != [] {
      SortDescSorted(rs[1..]);
      InsertSorted(rs[0], SortDesc(rs[1..]));
    }
  }

  /** Inserting `x` places it ahead of the lines that share its score. */
  lemma {:induction false} InsertKeepsTies(x: Ranked, sorted: seq<Ranked>, v: real)
    ensures WithScore(Insert(x, sorted), v) == Keep(x, v) + WithScore(sorted, v)
  {
    if sorted == [] || x.score >= sorted[0].score {
      var r := [x] + sorted;
      assert r[0] == x && r[1..] == sorted;
    } else {
      var head, tail := sorted[0], sorted[1..];
      var r := [head] + Insert(x, tail);
      assert r[0] == head && r[1..] == Insert(x, tail);
      InsertKeepsTies(x, tail, v);
      // `head` scores more than `x`, so at most one of them scores `v`
      if x.score == v {
        assert Keep(head, v) == [];
      } else {
        assert Keep(x, v) == [];
      }
    }
  }

  /** Stability: the lines with any one score come out in the order they went in. */
  lemma {:induction false} SortDescIsStable(rs: seq<Ranked>, v: real)
    ensures WithScore(SortDesc(rs), v) == WithScore(rs, v)
  {
    if rs != [] {
      SortDescIsStable(rs[1..], v);
      InsertKeepsTies(rs[0], SortDesc(rs[1..]), v);
    }
  }

  // ---------------------------------------------------------------------
  // calculateWeightedScores
  // ---------------------------------------------------------------------

  /** calculateWeightedScores: an absent `criteria` or `options` gives no ranking. */
  function CalculateWeightedScores(criteria: Nullable<seq<Criterion>>, options: Nullable<seq<Option>>): (r: seq<Ranked>)
    ensures criteria.Null? || options.Null? ==> r == []
    ensures criteria.Present? && options.Present? ==>
      && multiset(r) == multiset(Expected(criteria.value, options.value))
      && SortedDesc(r)
      && (forall v :: WithScore(r, v) == WithScore(Expected(criteria.value, options.value), v))
  {
    if criteria.Null? || options.Null? then []
    else
      var named := KeepNamed(RankAll(criteria.value, options.value));
      var ranked := SortDesc(named);
      KeepNamedAfterRanking(criteria.value, options.value);
      SortDescPermutes(named);
      SortDescSorted(named);
      forall v ensures WithScore(ranked, v) == WithScore(Expected(criteria.value, options.value), v) {
        SortDescIsStable(named, v);
      }
      ranked
  }

  /** The ranking of two present lists is the sorted named lines. */
  lemma RankingIsPipeline(criteria: seq<Criterion>, options: seq<Option>)
    ensures CalculateWeightedScores(Present(criteria), Present(options)) == SortDesc(KeepNamed(RankAll(criteria, options)))
  {
  }

  /** Every line of the ranking is a named option with its weighted sum. */
  lemma RankingLinesComeFromOptions(criteria: seq<Criterion>, options: seq<Option>)
    ensures forall x :: x in CalculateWeightedScores(Present(criteria), Present(options)) ==>
      x.name != "" && exists o :: o in options && x == Ranked(o.name, WeightedSum(criteria, o.scores))
  {
    var r := CalculateWeightedScores(Present(criteria), Present(options));
    forall x | x in r
      ensures x in Expected(criteria, options)
    {
      assert x in multiset(r);
    }
  }

  /** Every named option appears in the ranking with its weighted sum. */
  lemma RankingCoversNamedOptions(criteria: seq<Criterion>, options: seq<Option>)
    ensures forall o :: o in options && o.name != "" ==>
      Ranked(o.name, WeightedSum(criteria, o.scores)) in CalculateWeightedScores(Present(criteria), Present(options))
  {
    var r := CalculateWeightedScores(Present(criteria), Present(options));
    var e := Expected(criteria, options);
    forall o | o in options && o.name != ""
      ensures Ranked(o.name, WeightedSum(criteria, o.scores)) in r
    {
      assert Ranked(o.name, WeightedSum(criteria, o.scores)) in multiset(e);
    }
  }

  /** The ranking has exactly one line per named option. */
  lemma RankingLength(criteria: seq<Criterion>, options: seq<Option>)
    ensures |CalculateWeightedScores(Present(criteria), Present(options))| == |NamedOptions(options)|
  {
    var r := CalculateWeightedScores(Present(criteria), Present(options));
    var e := Expected(criteria, options);
    assert |r| == |multiset(r)| == |multiset(e)| == |e|;
  }

  /** The first line has the highest score of any named option. */
  lemma FirstIsBest(criteria: seq<Criterion>, options: seq<Option>)
    requires NamedOptions(options) != []
    ensures CalculateWeightedScores(Present(criteria), Present(options)) != []
    ensures forall o :: o in options && o.name != "" ==>
      WeightedSum(criteria, o.scores) <= CalculateWeightedScores(Present(criteria), Present(options))[0].score
  {
    RankingLength(criteria, options);
    RankingCoversNamedOptions(criteria, options);
    var r := CalculateWeightedScores(Present(criteria), Present(options));
    forall o | o in options && o.name != ""
      ensures WeightedSum(criteria, o.scores) <= r[0].score
    {
      var j :| 0 <= j < |r| && r[j] == Ranked(o.name, WeightedSum(criteria, o.scores));
    }
  }

  /**
    An empty (but present) list of criteria ranks every named option at 0,
    in input order: it is not the same as an absent list.
   */
  lemma NoCriteriaKeepsInputOrder(options: seq<Option>)
    ensures CalculateWeightedScores(Present([]), Present(options)) == Expected([], options)
    ensures forall x :: x in CalculateWeightedScores(Present([]), Present(options)) ==> x.score == 0.0
  {
    var r := CalculateWeightedScores(Present([]), Present(options));
    var e := Expected([], options);
    AllScoreIs(e, 0.0);
    assert forall x :: x in r ==> x in multiset(e);
    AllScoreIs(r, 0.0);
  }

  /** A sequence whose lines all score `v` is its own `WithScore(_, v)`. */
  lemma {:induction false} AllScoreIs(rs: seq<Ranked>, v: real)
    requires forall x :: x in rs ==> x.score == v
    ensures WithScore(rs, v) == rs
  {
    if rs != [] {
      AllScoreIs(rs[1..], v);
      assert rs == [rs[0]] + rs[1..];
    }
  }
}
