/**
  The entity store: the module-level state of app.js (tasks, competencies,
  scores and the two id counters) as one object, and the state changes its
  event handlers make. Rendering, redrawing and persisting after each change
  are the caller's business and are not part of this model.
 */
module SkillStore {
  import opened SkillModel
  import opened Aggregation
  import Demo

  class Store {
    var tasks: seq<Task>
    var competencies: seq<Competency>
    var scores: Scores
    var nextTaskId: nat
    var nextCompetencyId: nat

    /**
      The store's invariant: ids are unique, at least 1 and below their counter;
      every score refers to a present task and competency and lies in [1, 10].
     */
    ghost predicate Valid()
      reads this
    {
      && 1 <= nextTaskId && 1 <= nextCompetencyId
      && UniqueKeys(tasks, TaskKey)
      && UniqueKeys(competencies, CompetencyKey)
      && (forall t :: t in tasks ==> 1 <= t.id < nextTaskId)
      && (forall c :: c in competencies ==> 1 <= c.id < nextCompetencyId)
      && NoOrphans(scores, TaskIds(tasks), CompetencyIds(competencies))
      && ScoresInRange(scores)
    }

    /** The initial state of app.js: no entities, both counters at 1. */
    constructor ()
      ensures Valid()
      ensures tasks == [] && competencies == [] && scores == map[]
      ensures nextTaskId == 1 && nextCompetencyId == 1
    {
      tasks, competencies, scores := [], [], map[];
      nextTaskId, nextCompetencyId := 1, 1;
    }

    /** loadDemo: replaces the state by the demo data set. */
    method LoadDemo()
      modifies this
      ensures Valid()
      ensures tasks == Demo.Tasks && competencies == Demo.Competencies && scores == Demo.Scores
      ensures nextTaskId == 10 && nextCompetencyId == 5
    {
      competencies := Demo.Competencies;
      nextCompetencyId := 5;
      tasks := Demo.Tasks;
      nextTaskId := 10;
      scores := Demo.Scores;
      Demo.DemoIsConsistent();
    }

    /**
      The submit handler of the form for new tasks: a name that is empty after trimming is
      rejected and nothing changes; otherwise a task with the next id and the
      trimmed name and description is appended and the counter advances.
     */
    method AddTask(name: string, description: string)
      requires Valid()
      modifies this
      ensures Valid()
      ensures Trim(name) == [] ==>
                tasks == old(tasks) && nextTaskId == old(nextTaskId)
      ensures Trim(name) != [] ==>
                tasks == old(tasks) + [Task(old(nextTaskId), Trim(name), Trim(description))]
                && nextTaskId == old(nextTaskId) + 1
      ensures competencies == old(competencies) && scores == old(scores)
      ensures nextCompetencyId == old(nextCompetencyId)
    {
      var trimmed := Trim(name);
      if trimmed == [] {
        return;
      }
      var t := Task(nextTaskId, trimmed, Trim(description));
      assert t.id !in TaskIds(tasks);
      tasks := tasks + [t];
      nextTaskId := nextTaskId + 1;
      assert TaskIds(tasks) == TaskIds(old(tasks)) + {t.id};
    }

    /**
      The competency form's submit handler: the same empty-name rule, a
      competency with the next id is appended and the counter advances.
     */
    method AddCompetency(name: string)
      requires Valid()
      modifies this
      ensures Valid()
      ensures Trim(name) == [] ==>
                competencies == old(competencies) && nextCompetencyId == old(nextCompetencyId)
      ensures Trim(name) != [] ==>
                competencies == old(competencies) + [Competency(old(nextCompetencyId), Trim(name))]
                && nextCompetencyId == old(nextCompetencyId) + 1
      ensures tasks == old(tasks) && scores == old(scores)
      ensures nextTaskId == old(nextTaskId)
    {
      var trimmed := Trim(name);
      if trimmed == [] {
        return;
      }
      var c := Competency(nextCompetencyId, trimmed);
      assert c.id !in CompetencyIds(competencies);
      competencies := competencies + [c];
      nextCompetencyId := nextCompetencyId + 1;
      assert CompetencyIds(competencies) == CompetencyIds(old(competencies)) + {c.id};
    }

    /** A task's delete button: that task is filtered out and its score row deleted. */
    method DeleteTask(id: nat)
      requires Valid()
      modifies this
      ensures Valid()
      ensures tasks == Filter(old(tasks), (t: Task) => t.id != id)
      ensures scores == old(scores) - {id}
      ensures competencies == old(competencies)
      ensures nextTaskId == old(nextTaskId) && nextCompetencyId == old(nextCompetencyId)
    {
      FilterKeepsUniqueKeys(tasks, (t: Task) => t.id != id, TaskKey);
      UpdatesKeepScoresInRange(scores, id, 0, 0);
      UpdatesKeepNoOrphans(scores, TaskIds(tasks), CompetencyIds(competencies), id, 0, 0);
      tasks := Filter(tasks, (t: Task) => t.id != id);
      scores := scores - {id};
      assert TaskIds(tasks) == TaskIds(old(tasks)) - {id};
    }

    /**
      A competency's delete button: the competency is filtered out and its
      entry deleted from every score row, one row at a time.
     */
    method DeleteCompetency(id: nat)
      requires Valid()
      modifies this
      ensures Valid()
      ensures competencies == Filter(old(competencies), (c: Competency) => c.id != id)
      ensures scores == WithoutColumn(old(scores), id)
      ensures tasks == old(tasks)
      ensures nextTaskId == old(nextTaskId) && nextCompetencyId == old(nextCompetencyId)
    {
      FilterKeepsUniqueKeys(competencies, (c: Competency) => c.id != id, CompetencyKey);
      UpdatesKeepScoresInRange(scores, 0, id, 0);
      UpdatesKeepNoOrphans(scores, TaskIds(tasks), CompetencyIds(competencies), 0, id, 0);
      competencies := Filter(competencies, (c: Competency) => c.id != id);
      assert CompetencyIds(competencies) == CompetencyIds(old(competencies)) - {id};
      DeleteColumn(id);
    }

    /** The forEach over Object.keys(point) that deletes one competency's entry from every row. */
    method DeleteColumn(id: nat)
      modifies this`scores
      ensures scores == WithoutColumn(old(scores), id)
    {
      var pending := scores.Keys;
      while pending != {}
        invariant pending <= scores.Keys == old(scores).Keys
        invariant forall t :: t in pending ==> scores[t] == old(scores)[t]
        invariant forall t :: t in scores && t !in pending ==> scores[t] == old(scores)[t] - {id}
        decreases pending
      {
        var t :| t in pending;
        if id in scores[t] {
          scores := scores[t := scores[t] - {id}];
        }
        pending := pending - {t};
      }
    }

    /**
      setPoint: creates that task's row when it is missing and stores the value
      clamped into [1, 10]. Its callers only pass ids of present entities.
     */
    method SetPoint(taskId: nat, competencyId: nat, value: int)
      requires Valid()
      requires taskId in TaskIds(tasks) && competencyId in CompetencyIds(competencies)
      modifies this`scores
      ensures Valid()
      ensures scores == WithScore(old(scores), taskId, competencyId, value)
      ensures GetPoint(scores, taskId, competencyId) == ClampScore(value)
    {
      UpdatesKeepScoresInRange(scores, taskId, competencyId, value);
      UpdatesKeepNoOrphans(scores, TaskIds(tasks), CompetencyIds(competencies), taskId, competencyId, value);
      if taskId !in scores {
        scores := scores[taskId := map[]];
      }
      var row: map<nat, int> := scores[taskId];
      scores := scores[taskId := row[competencyId := ClampScore(value)]];
      assert scores == WithScore(old(scores), taskId, competencyId, value);
    }

    /** The "Fjern" button: deletes one entry when that task has a row, otherwise does nothing. */
    method RemoveScore(taskId: nat, competencyId: nat)
      requires Valid()
      modifies this`scores
      ensures Valid()
      ensures scores == WithoutScore(old(scores), taskId, competencyId)
      ensures GetPoint(scores, taskId, competencyId) == 0
    {
      UpdatesKeepScoresInRange(scores, taskId, competencyId, 0);
      UpdatesKeepNoOrphans(scores, TaskIds(tasks), CompetencyIds(competencies), taskId, competencyId, 0);
      if taskId in scores {
        scores := scores[taskId := scores[taskId] - {competencyId}];
      }
    }

    /**
      A score input's change handler. `parsed` is parseInt of the input's text
      (None for NaN). The normalised value replaces the score when it is
      positive and removes it otherwise; either way the point read back is the
      normalised value.
     */
    method ChangeScore(taskId: nat, competencyId: nat, parsed: Option<int>)
      requires Valid()
      requires taskId in TaskIds(tasks) && competencyId in CompetencyIds(competencies)
      modifies this`scores
      ensures Valid()
      ensures NormalizeScoreInput(parsed) > 0 ==>
                scores == WithScore(old(scores), taskId, competencyId, NormalizeScoreInput(parsed))
      ensures NormalizeScoreInput(parsed) == 0 ==>
                scores == WithoutScore(old(scores), taskId, competencyId)
      ensures GetPoint(scores, taskId, competencyId) == NormalizeScoreInput(parsed)
    {
      var num := NormalizeScoreInput(parsed);
      if num > 0 {
        SetPoint(taskId, competencyId, num);
      } else {
        RemoveScore(taskId, competencyId);
      }
    }

    /**
      The running totals after the first i tasks: for every competency id, the
      sum and the count of the positive points those tasks gave it.
     */
    ghost predicate TotalsAfter(sum: map<nat, int>, count: map<nat, nat>, i: nat)
      reads this
      requires i <= |tasks|
    {
      forall k :: 0 <= k < |competencies| ==>
        && competencies[k].id in sum && competencies[k].id in count
        && sum[competencies[k].id] == ScoreSum(tasks[..i], scores, competencies[k].id)
        && count[competencies[k].id] == ScoreCount(tasks[..i], scores, competencies[k].id)
    }

    /** The first loop of getNiveauPerKompetence: a zero sum and count for every competency id. */
    method ZeroTotals() returns (sum: map<nat, int>, count: map<nat, nat>)
      ensures TotalsAfter(sum, count, 0)
    {
      sum, count := map[], map[];
      var j := 0;
      while j < |competencies|
        invariant 0 <= j <= |competencies|
        invariant forall k :: 0 <= k < j ==>
                    competencies[k].id in sum && sum[competencies[k].id] == 0
                    && competencies[k].id in count && count[competencies[k].id] == 0
      {
        sum := sum[competencies[j].id := 0];
        count := count[competencies[j].id := 0];
        j := j + 1;
      }
    }

    /** One pass of the loop over tasks: adds task i's positive points to its competencies' totals. */
    method AddTaskTotals(i: nat, sum0: map<nat, int>, count0: map<nat, nat>) returns (sum: map<nat, int>, count: map<nat, nat>)
      requires UniqueKeys(competencies, CompetencyKey)
      requires i < |tasks| && TotalsAfter(sum0, count0, i)
      ensures TotalsAfter(sum, count, i + 1)
    {
      sum, count := sum0, count0;
      var o := tasks[i];
      var j := 0;
      while j < |competencies|
        invariant 0 <= j <= |competencies|
        invariant forall k :: 0 <= k < |competencies| ==> competencies[k].id in sum && competencies[k].id in count
        invariant forall k :: 0 <= k < j ==>
                    sum[competencies[k].id] == ScoreSum(tasks[..i + 1], scores, competencies[k].id)
                    && count[competencies[k].id] == ScoreCount(tasks[..i + 1], scores, competencies[k].id)
        invariant forall k :: j <= k < |competencies| ==>
                    sum[competencies[k].id] == ScoreSum(tasks[..i], scores, competencies[k].id)
                    && count[competencies[k].id] == ScoreCount(tasks[..i], scores, competencies[k].id)
      {
        var kid := competencies[j].id;
        var p := GetPoint(scores, o.id, kid);
        ScoreStep(tasks, i, scores, kid);
        assert forall k :: 0 <= k < |competencies| && k != j ==> competencies[k].id != kid;
        if p > 0 {
          sum := sum[kid := sum[kid] + p];
          count := count[kid := count[kid] + 1];
        }
        assert sum[kid] == ScoreSum(tasks[..i + 1], scores, kid);
        assert count[kid] == ScoreCount(tasks[..i + 1], scores, kid);
        j := j + 1;
      }
    }

    /**
      getNiveauPerKompetence: sums and counts the positive points per competency
      id over every task, then maps each competency to its rounded mean.
     */
    method Levels() returns (levels: seq<Level>)
      requires Valid()
      ensures levels == LevelsOf(tasks, competencies, scores)
    {
      var sum: map<nat, int>, count: map<nat, nat> := ZeroTotals();
      var i := 0;
      while i < |tasks|
        invariant 0 <= i <= |tasks|
        invariant TotalsAfter(sum, count, i)
      {
        sum, count := AddTaskTotals(i, sum, count);
        i := i + 1;
      }
      assert tasks[..|tasks|] == tasks;
      levels := [];
      var j := 0;
      while j < |competencies|
        invariant 0 <= j <= |competencies|
        invariant levels == LevelsOf(tasks, competencies[..j], scores)
      {
        var k := competencies[j];
        levels := levels + [Level(k.id, k.name, RoundedMeanTenths(sum[k.id], count[k.id]))];
        assert competencies[..j + 1][..j] == competencies[..j];
        j := j + 1;
      }
      assert competencies[..|competencies|] == competencies;
    }
  }
}
