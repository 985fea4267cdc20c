/**
  The per-competency level ("niveau") of getNiveauPerKompetence: the mean of the
  positive scores the current tasks give a competency, rounded to one decimal
  with Math.round, and 0 when no task scores it. Levels are kept in tenths, so
  a level of 5.8 is the integer 58.
 */
module Aggregation {
  import opened SkillModel

  /** One entry of the aggregation: the competency's id and name and its level in tenths. */
  datatype Level = Level(id: nat, name: string, tenths: int)

  /** The highest level, 10.0, in tenths. */
  const MaxTenths: int := 100

  /** The contribution of one point to a sum: only positive points count. */
  function Positive(p: int): int { if p > 0 then p else 0 }

  /** The sum of the positive points the tasks give the competency, accumulated in task order. */
  function ScoreSum(tasks: seq<Task>, scores: Scores, competencyId: nat): int {
    if tasks == [] then 0
    else ScoreSum(tasks[..|tasks| - 1], scores, competencyId)
         + Positive(GetPoint(scores, tasks[|tasks| - 1].id, competencyId))
  }

  /** The number of tasks that give the competency a positive point. */
  function ScoreCount(tasks: seq<Task>, scores: Scores, competencyId: nat): nat {
    if tasks == [] then 0
    else ScoreCount(tasks[..|tasks| - 1], scores, competencyId)
         + (if GetPoint(scores, tasks[|tasks| - 1].id, competencyId) > 0 then 1 else 0)
  }

  /**
    Math.round(sum / count * 10) for count > 0, and 0 otherwise. Math.round
    rounds half up, so the result is the integer t with
    t - 1/2 <= 10 * sum / count < t + 1/2.
   */
  function RoundedMeanTenths(sum: int, count: nat): (t: int)
    ensures count == 0 ==> t == 0
    ensures count > 0 ==> 2 * count * t <= 20 * sum + count < 2 * count * t + 2 * count
  {
    if count == 0 then 0
    else
      var q := (20 * sum + count) / (2 * count);
      assert q * (2 * count) <= 20 * sum + count < q * (2 * count) + 2 * count;
      q
  }

  function LevelFor(tasks: seq<Task>, scores: Scores, c: Competency): Level {
    Level(c.id, c.name,
          RoundedMeanTenths(ScoreSum(tasks, scores, c.id), ScoreCount(tasks, scores, c.id)))
  }

  /** getNiveauPerKompetence: one level per competency, in the competencies' order. */
  function LevelsOf(tasks: seq<Task>, competencies: seq<Competency>, scores: Scores): (r: seq<Level>)
    ensures |r| == |competencies|
    ensures forall i :: 0 <= i < |r| ==> r[i] == LevelFor(tasks, scores, competencies[i])
  {
    if competencies == [] then []
    else LevelsOf(tasks, competencies[..|competencies| - 1], scores)
         + [LevelFor(tasks, scores, competencies[|competencies| - 1])]
  }

  /** Extending the prefix of tasks by one adds that task's positive point. */
  lemma ScoreStep(tasks: seq<Task>, i: nat, scores: Scores, competencyId: nat)
    requires i < |tasks|
    ensures var p := GetPoint(scores, tasks[i].id, competencyId);
            && ScoreSum(tasks[..i + 1], scores, competencyId) == ScoreSum(tasks[..i], scores, competencyId) + Positive(p)
            && ScoreCount(tasks[..i + 1], scores, competencyId) == ScoreCount(tasks[..i], scores, competencyId) + (if p > 0 then 1 else 0)
  {
    assert tasks[..i + 1][..i] == tasks[..i];
  }

  /** Each level carries its competency's id and name, position by position. */
  lemma LevelsMatchCompetencies(tasks: seq<Task>, competencies: seq<Competency>, scores: Scores)
    ensures |LevelsOf(tasks, competencies, scores)| == |competencies|
    ensures forall i :: 0 <= i < |competencies| ==>
              LevelsOf(tasks, competencies, scores)[i].id == competencies[i].id
              && LevelsOf(tasks, competencies, scores)[i].name == competencies[i].name
  {
  }

  /** With every stored score in [1, 10], each counted point adds between 1 and 10 to the sum. */
  lemma {:induction false} SumBetweenCountAndTenfold(tasks: seq<Task>, scores: Scores, competencyId: nat)
    requires ScoresInRange(scores)
    ensures ScoreCount(tasks, scores, competencyId) <= ScoreSum(tasks, scores, competencyId)
    ensures ScoreSum(tasks, scores, competencyId) <= MaxScore * ScoreCount(tasks, scores, competencyId)
  {
    if tasks != [] {
      SumBetweenCountAndTenfold(tasks[..|tasks| - 1], scores, competencyId);
      PositivePointIffStored(scores, tasks[|tasks| - 1].id, competencyId);
    }
  }

  /** Multiplying by a non-negative factor keeps order. */
  lemma MulMonotone(k: int, a: int, b: int)
    requires k >= 0 && a <= b
    ensures k * a <= k * b
  {
  }

  /** The same for real factors. */
  lemma RealMulMonotone(k: real, a: real, b: real)
    requires k >= 0.0 && a <= b
    ensures k * a <= k * b
  {
  }

  /** Products of non-negative factors keep the factors' order. */
  lemma ProductOrder(a: real, b: real, c: real, d: real)
    requires 0.0 <= a <= b && 0.0 <= c <= d
    ensures a * c <= b * d
    ensures a < b && c < d ==> a * c < b * d
  {
    RealMulMonotone(a, c, d);
    RealMulMonotone(d, a, b);
    if a < b && c < d {
      ScaleOrder(d, a, b);
    }
  }

  /** Multiplying by a positive real keeps strict order, both ways. */
  lemma ScaleOrder(k: real, a: real, b: real)
    requires k > 0.0
    ensures a < b <==> k * a < k * b
    ensures a <= b <==> k * a <= k * b
  {
  }

  /** A rounded mean of points in [1, 10] lies in [1.0, 10.0]. */
  lemma RoundedMeanBounds(sum: int, count: nat)
    requires count > 0 && count <= sum <= MaxScore * count
    ensures 10 <= RoundedMeanTenths(sum, count) <= MaxTenths
  {
    var t := RoundedMeanTenths(sum, count);
    if t > MaxTenths {
      MulMonotone(2 * count, MaxTenths + 1, t);
    }
    if t < 10 {
      MulMonotone(2 * count, t + 1, 10);
    }
  }

  /**
    With every stored score in [1, 10] a level lies in [0.0, 10.0]; it is 0 exactly
    when no current task scores the competency, and at least 1.0 otherwise.
   */
  lemma LevelInRange(tasks: seq<Task>, scores: Scores, c: Competency)
    requires ScoresInRange(scores)
    ensures 0 <= LevelFor(tasks, scores, c).tenths <= MaxTenths
    ensures LevelFor(tasks, scores, c).tenths == 0 <==> ScoreCount(tasks, scores, c.id) == 0
    ensures ScoreCount(tasks, scores, c.id) > 0 ==> LevelFor(tasks, scores, c).tenths >= 10
  {
    var s, n := ScoreSum(tasks, scores, c.id), ScoreCount(tasks, scores, c.id);
    SumBetweenCountAndTenfold(tasks, scores, c.id);
    if n > 0 {
      RoundedMeanBounds(s, n);
    }
  }

  lemma QuotientTimesDivisor(a: real, b: real)
    requires b != 0.0
    ensures (a / b) * b == a
  {
  }

  lemma CastOfProduct(a: int, b: int)
    ensures (a * b) as real == (a as real) * (b as real)
  {
  }

  /** The floor of y is t when y * d == n lies in [d * t, d * (t + 1)) for a positive d. */
  lemma FloorFromScaledBounds(y: real, d: real, n: real, t: int)
    requires d > 0.0 && y * d == n
    requires d * (t as real) <= n < d * (t as real + 1.0)
    ensures y.Floor == t
  {
    var tr := t as real;
    ScaleOrder(d, y, tr);
    ScaleOrder(d, tr + 1.0, y);
  }

  /** Ten times a mean plus one half, scaled by 2 * count, is 20 * sum + count. */
  lemma ScaledRoundingArgument(sum: int, count: nat)
    requires count > 0
    ensures (10.0 * (sum as real / count as real) + 0.5) * (2 * count) as real == (20 * sum + count) as real
  {
    var sr, nr := sum as real, count as real;
    QuotientTimesDivisor(sr, nr);
    assert (10.0 * (sr / nr) + 0.5) * (2.0 * nr) == 20.0 * ((sr / nr) * nr) + nr;
  }

  /** The lower bound of the rounding, read as reals. */
  lemma RoundingLowerAsReal(sum: int, count: nat, t: int)
    requires 2 * count * t <= 20 * sum + count
    ensures ((2 * count) as real) * (t as real) <= (20 * sum + count) as real
  {
    var lo := 2 * count * t;
    CastOfProduct(2 * count, t);
    assert lo as real <= (20 * sum + count) as real;
  }

  /** The upper bound of the rounding, read as reals. */
  lemma RoundingUpperAsReal(sum: int, count: nat, t: int)
    requires 20 * sum + count < 2 * count * t + 2 * count
    ensures (20 * sum + count) as real < ((2 * count) as real) * (t as real + 1.0)
  {
    var hi := 2 * count * (t + 1);
    assert hi == 2 * count * t + 2 * count;
    CastOfProduct(2 * count, t + 1);
    assert (20 * sum + count) as real < hi as real;
  }

  /** Any t with the bounds of RoundedMeanTenths is the floor of 10 * sum / count + 1/2. */
  lemma RoundHalfUpCharacterization(sum: int, count: nat, t: int)
    requires count > 0
    requires 2 * count * t <= 20 * sum + count < 2 * count * t + 2 * count
    ensures t == (10.0 * (sum as real / count as real) + 0.5).Floor
  {
    var y, d, n := 10.0 * (sum as real / count as real) + 0.5, (2 * count) as real, (20 * sum + count) as real;
    ScaledRoundingArgument(sum, count);
    RoundingLowerAsReal(sum, count, t);
    RoundingUpperAsReal(sum, count, t);
    FloorFromScaledBounds(y, d, n, t);
  }

  /** RoundedMeanTenths is Math.round(10 * sum / count) on the exact quotient. */
  lemma RoundedMeanIsRound(sum: int, count: nat)
    requires count > 0
    ensures RoundedMeanTenths(sum, count) == (10.0 * (sum as real / count as real) + 0.5).Floor
  {
    RoundHalfUpCharacterization(sum, count, RoundedMeanTenths(sum, count));
  }

  /**
    The level as the mean itself: for a scored competency it is Math.round applied
    to ten times the exact mean of its points.
   */
  lemma LevelIsRoundedMean(tasks: seq<Task>, scores: Scores, c: Competency)
    requires ScoreCount(tasks, scores, c.id) > 0
    ensures var mean := ScoreSum(tasks, scores, c.id) as real / ScoreCount(tasks, scores, c.id) as real;
            LevelFor(tasks, scores, c).tenths == (10.0 * mean + 0.5).Floor
  {
    RoundedMeanIsRound(ScoreSum(tasks, scores, c.id), ScoreCount(tasks, scores, c.id));
  }

  /** The sum over tasks split in two is the sum of the two parts. */
  lemma {:induction false} ScoreSumAppend(a: seq<Task>, b: seq<Task>, scores: Scores, competencyId: nat)
    ensures ScoreSum(a + b, scores, competencyId) == ScoreSum(a, scores, competencyId) + ScoreSum(b, scores, competencyId)
    ensures ScoreCount(a + b, scores, competencyId) == ScoreCount(a, scores, competencyId) + ScoreCount(b, scores, competencyId)
  {
    if b != [] {
      var b' := b[..|b| - 1];
      assert (a + b)[..|a + b| - 1] == a + b';
      assert (a + b)[|a + b| - 1] == b[|b| - 1];
      ScoreSumAppend(a, b', scores, competencyId);
    } else {
      assert a + b == a;
    }
  }

  /** A score row of a task that is not in the list has no effect on any level. */
  lemma {:induction false} RowsOfAbsentTasksIgnored(tasks: seq<Task>, scores: Scores, taskId: nat, competencyId: nat)
    requires taskId !in TaskIds(tasks)
    ensures ScoreSum(tasks, scores - {taskId}, competencyId) == ScoreSum(tasks, scores, competencyId)
    ensures ScoreCount(tasks, scores - {taskId}, competencyId) == ScoreCount(tasks, scores, competencyId)
  {
    if tasks != [] {
      var init := tasks[..|tasks| - 1];
      assert TaskIds(init) <= TaskIds(tasks) by {
        forall x | x in init ensures x in tasks { }
      }
      assert tasks[|tasks| - 1] in tasks;
      RowsOfAbsentTasksIgnored(init, scores, taskId, competencyId);
    }
  }
}
