/**
  The demo data set that app.js loads when nothing is stored (loadDemo): four
  language competencies and nine tasks, each task scoring every competency.
 */
module Demo {
  import opened SkillModel
  import opened Aggregation

  const Competencies: seq<Competency> := [
    Competency(1, "Reception"),
    Competency(2, "Production"),
    Competency(3, "Interaction"),
    Competency(4, "Mediation")
  ]

  const Tasks: seq<Task> := [
    Task(1, "Læse og forstå autentisk artikel", "Læs en artikel og besvar forståelses- og analyseopgaver"),
    Task(2, "Skrive argumenterende tekst", "Skriv en kort argumenterende tekst ud fra et givet perspektiv"),
    Task(3, "Gruppedebat om et emne", "Deltag i en struktureret debat med forberedte argumenter"),
    Task(4, "Oversætte og forklare uddrag", "Oversæt et uddrag og forklar valg og vinkler for modtageren"),
    Task(5, "Lytte til podcast og lave noter", "Lyt til en podcast og udarbejd strukturerede noter"),
    Task(6, "Fremlæggelse med præsentation", "Hold en kort fremlæggelse med visuel understøttelse"),
    Task(7, "Sammenligne to tekster", "Læs to tekster og skriv en sammenlignende analyse"),
    Task(8, "Rollespil: samtale i butik", "Før en situationel samtale (fx køb/returnering) med makker"),
    Task(9, "Sammenfatning af lydkilde", "Lyt til en lydkilde og skriv en præcis sammenfatning")
  ]

  const Scores: Scores := map[
    1 := map[1 := 8, 2 := 2, 3 := 1, 4 := 5],
    2 := map[1 := 4, 2 := 9, 3 := 2, 4 := 3],
    3 := map[1 := 5, 2 := 5, 3 := 9, 4 := 4],
    4 := map[1 := 6, 2 := 4, 3 := 2, 4 := 9],
    5 := map[1 := 8, 2 := 6, 3 := 1, 4 := 3],
    6 := map[1 := 3, 2 := 8, 3 := 7, 4 := 5],
    7 := map[1 := 7, 2 := 4, 3 := 2, 4 := 8],
    8 := map[1 := 4, 2 := 5, 3 := 9, 4 := 3],
    9 := map[1 := 7, 2 := 7, 3 := 2, 4 := 6]
  ]

  /** The demo ids are 1, 2, ... in list order. */
  lemma DemoIdsArePositions()
    ensures forall i :: 0 <= i < |Tasks| ==> Tasks[i].id == i + 1
    ensures forall i :: 0 <= i < |Competencies| ==> Competencies[i].id == i + 1
  {
  }

  /** Ids that number the records 1, 2, ... in list order are unique and cover 1 to |s|. */
  lemma NumberedTasks(ts: seq<Task>)
    requires forall i :: 0 <= i < |ts| ==> ts[i].id == i + 1
    ensures UniqueKeys(ts, TaskKey)
    ensures forall x :: x in TaskIds(ts) <==> 1 <= x <= |ts|
  {
    forall x | x in TaskIds(ts) ensures 1 <= x <= |ts| {
      var t :| t in ts && t.id == x;
    }
    forall x | 1 <= x <= |ts| ensures x in TaskIds(ts) {
      assert ts[x - 1] in ts;
    }
  }

  lemma NumberedCompetencies(cs: seq<Competency>)
    requires forall i :: 0 <= i < |cs| ==> cs[i].id == i + 1
    ensures UniqueKeys(cs, CompetencyKey)
    ensures forall x :: x in CompetencyIds(cs) <==> 1 <= x <= |cs|
  {
    forall x | x in CompetencyIds(cs) ensures 1 <= x <= |cs| {
      var c :| c in cs && c.id == x;
    }
    forall x | 1 <= x <= |cs| ensures x in CompetencyIds(cs) {
      assert cs[x - 1] in cs;
    }
  }

  /** So the demo ids are unique, and they are exactly 1 to 9 and 1 to 4. */
  lemma DemoIdsUnique()
    ensures UniqueKeys(Tasks, TaskKey) && UniqueKeys(Competencies, CompetencyKey)
    ensures forall x :: x in TaskIds(Tasks) <==> 1 <= x <= 9
    ensures forall x :: x in CompetencyIds(Competencies) <==> 1 <= x <= 4
  {
    DemoIdsArePositions();
    NumberedTasks(Tasks);
    NumberedCompetencies(Competencies);
  }

  /** Every demo row scores exactly competencies 1 to 4, with scores in [1, 10]. */
  lemma DemoScoresWellFormed()
    ensures forall t :: t in Scores ==> 1 <= t <= 9
    ensures forall t, c :: t in Scores && c in Scores[t] ==> 1 <= c <= 4
    ensures ScoresInRange(Scores)
  {
    forall t | t in Scores
      ensures forall c :: c in Scores[t] ==> 1 <= c <= 4
      ensures forall c :: c in Scores[t] ==> MinScore <= Scores[t][c] <= MaxScore
    {
      assert 1 <= t <= 9;
    }
  }

  /** The demo data meets the store's invariant with counters 10 (tasks) and 5 (competencies). */
  lemma DemoIsConsistent()
    ensures UniqueKeys(Tasks, TaskKey) && UniqueKeys(Competencies, CompetencyKey)
    ensures forall t :: t in Tasks ==> 1 <= t.id < 10
    ensures forall c :: c in Competencies ==> 1 <= c.id < 5
    ensures NoOrphans(Scores, TaskIds(Tasks), CompetencyIds(Competencies))
    ensures ScoresInRange(Scores)
  {
    DemoIdsUnique();
    DemoScoresWellFormed();
  }

  /** The positive points that tasks 1 to n give competency c. */
  function ColumnSum(scores: Scores, c: nat, n: nat): int {
    if n == 0 then 0 else ColumnSum(scores, c, n - 1) + Positive(GetPoint(scores, n, c))
  }

  function ColumnCount(scores: Scores, c: nat, n: nat): nat {
    if n == 0 then 0 else ColumnCount(scores, c, n - 1) + (if GetPoint(scores, n, c) > 0 then 1 else 0)
  }

  /** For tasks numbered 1, 2, ... in list order, the level's sum and count run down the column. */
  lemma {:induction false} NumberedTasksColumn(ts: seq<Task>, scores: Scores, c: nat)
    requires forall i :: 0 <= i < |ts| ==> ts[i].id == i + 1
    ensures ScoreSum(ts, scores, c) == ColumnSum(scores, c, |ts|)
    ensures ScoreCount(ts, scores, c) == ColumnCount(scores, c, |ts|)
  {
    if ts != [] {
      NumberedTasksColumn(ts[..|ts| - 1], scores, c);
    }
  }

  /** Reception: the nine demo tasks give it 52 points. */
  lemma DemoColumn1()
    ensures ColumnSum(Scores, 1, 9) == 52 && ColumnCount(Scores, 1, 9) == 9
  {
    assert ColumnSum(Scores, 1, 1) == 8 && ColumnCount(Scores, 1, 1) == 1;
    assert ColumnSum(Scores, 1, 2) == 12 && ColumnCount(Scores, 1, 2) == 2;
    assert ColumnSum(Scores, 1, 3) == 17 && ColumnCount(Scores, 1, 3) == 3;
    assert ColumnSum(Scores, 1, 4) == 23 && ColumnCount(Scores, 1, 4) == 4;
    assert ColumnSum(Scores, 1, 5) == 31 && ColumnCount(Scores, 1, 5) == 5;
    assert ColumnSum(Scores, 1, 6) == 34 && ColumnCount(Scores, 1, 6) == 6;
    assert ColumnSum(Scores, 1, 7) == 41 && ColumnCount(Scores, 1, 7) == 7;
    assert ColumnSum(Scores, 1, 8) == 45 && ColumnCount(Scores, 1, 8) == 8;
  }

  /** Production: the nine demo tasks give it 50 points. */
  lemma DemoColumn2()
    ensures ColumnSum(Scores, 2, 9) == 50 && ColumnCount(Scores, 2, 9) == 9
  {
    assert ColumnSum(Scores, 2, 1) == 2 && ColumnCount(Scores, 2, 1) == 1;
    assert ColumnSum(Scores, 2, 2) == 11 && ColumnCount(Scores, 2, 2) == 2;
    assert ColumnSum(Scores, 2, 3) == 16 && ColumnCount(Scores, 2, 3) == 3;
    assert ColumnSum(Scores, 2, 4) == 20 && ColumnCount(Scores, 2, 4) == 4;
    assert ColumnSum(Scores, 2, 5) == 26 && ColumnCount(Scores, 2, 5) == 5;
    assert ColumnSum(Scores, 2, 6) == 34 && ColumnCount(Scores, 2, 6) == 6;
    assert ColumnSum(Scores, 2, 7) == 38 && ColumnCount(Scores, 2, 7) == 7;
    assert ColumnSum(Scores, 2, 8) == 43 && ColumnCount(Scores, 2, 8) == 8;
  }

  /** Interaction: the nine demo tasks give it 35 points. */
  lemma DemoColumn3()
    ensures ColumnSum(Scores, 3, 9) == 35 && ColumnCount(Scores, 3, 9) == 9
  {
    assert ColumnSum(Scores, 3, 1) == 1 && ColumnCount(Scores, 3, 1) == 1;
    assert ColumnSum(Scores, 3, 2) == 3 && ColumnCount(Scores, 3, 2) == 2;
    assert ColumnSum(Scores, 3, 3) == 12 && ColumnCount(Scores, 3, 3) == 3;
    assert ColumnSum(Scores, 3, 4) == 14 && ColumnCount(Scores, 3, 4) == 4;
    assert ColumnSum(Scores, 3, 5) == 15 && ColumnCount(Scores, 3, 5) == 5;
    assert ColumnSum(Scores, 3, 6) == 22 && ColumnCount(Scores, 3, 6) == 6;
    assert ColumnSum(Scores, 3, 7) == 24 && ColumnCount(Scores, 3, 7) == 7;
    assert ColumnSum(Scores, 3, 8) == 33 && ColumnCount(Scores, 3, 8) == 8;
  }

  /** Mediation: the nine demo tasks give it 46 points. */
  lemma DemoColumn4()
    ensures ColumnSum(Scores, 4, 9) == 46 && ColumnCount(Scores, 4, 9) == 9
  {
    assert ColumnSum(Scores, 4, 1) == 5 && ColumnCount(Scores, 4, 1) == 1;
    assert ColumnSum(Scores, 4, 2) == 8 && ColumnCount(Scores, 4, 2) == 2;
    assert ColumnSum(Scores, 4, 3) == 12 && ColumnCount(Scores, 4, 3) == 3;
    assert ColumnSum(Scores, 4, 4) == 21 && ColumnCount(Scores, 4, 4) == 4;
    assert ColumnSum(Scores, 4, 5) == 24 && ColumnCount(Scores, 4, 5) == 5;
    assert ColumnSum(Scores, 4, 6) == 29 && ColumnCount(Scores, 4, 6) == 6;
    assert ColumnSum(Scores, 4, 7) == 37 && ColumnCount(Scores, 4, 7) == 7;
    assert ColumnSum(Scores, 4, 8) == 40 && ColumnCount(Scores, 4, 8) == 8;
  }

  /** Over the demo tasks, every competency is scored by all nine tasks, with totals 52, 50, 35, 46. */
  lemma DemoSums()
    ensures ScoreSum(Tasks, Scores, 1) == 52 && ScoreCount(Tasks, Scores, 1) == 9
    ensures ScoreSum(Tasks, Scores, 2) == 50 && ScoreCount(Tasks, Scores, 2) == 9
    ensures ScoreSum(Tasks, Scores, 3) == 35 && ScoreCount(Tasks, Scores, 3) == 9
    ensures ScoreSum(Tasks, Scores, 4) == 46 && ScoreCount(Tasks, Scores, 4) == 9
  {
    DemoIdsArePositions();
    NumberedTasksColumn(Tasks, Scores, 1);
    NumberedTasksColumn(Tasks, Scores, 2);
    NumberedTasksColumn(Tasks, Scores, 3);
    NumberedTasksColumn(Tasks, Scores, 4);
    DemoColumn1();
    DemoColumn2();
    DemoColumn3();
    DemoColumn4();
  }

  /** The demo chart: Reception 5.8, Production 5.6, Interaction 3.9, Mediation 5.1. */
  lemma DemoLevels()
    ensures LevelsOf(Tasks, Competencies, Scores)
         == [Level(1, "Reception", 58), Level(2, "Production", 56),
             Level(3, "Interaction", 39), Level(4, "Mediation", 51)]
  {
    DemoSums();
    var r := LevelsOf(Tasks, Competencies, Scores);
    assert r[0] == Level(1, "Reception", RoundedMeanTenths(52, 9));
    assert r[1] == Level(2, "Production", RoundedMeanTenths(50, 9));
    assert r[2] == Level(3, "Interaction", RoundedMeanTenths(35, 9));
    assert r[3] == Level(4, "Mediation", RoundedMeanTenths(46, 9));
  }

  /**
    A short session from an empty store, stated on the functions the store's
    operations are specified by: one competency and two tasks scored 8 and 4
    give the competency level 6.0; deleting the competency leaves no
    competencies and only empty score rows, so no point remains.
   */
  lemma WorkedExample()
    ensures var tasks := [Task(1, "A", ""), Task(2, "B", "")];
            var competencies := [Competency(1, "Reception")];
            var scores := WithScore(WithScore(map[], 1, 1, 8), 2, 1, 4);
            && LevelsOf(tasks, competencies, scores) == [Level(1, "Reception", 60)]
            && Filter(competencies, (c: Competency) => c.id != 1) == []
            && WithoutColumn(scores, 1) == map[1 := map[], 2 := map[]]
  {
    var tasks := [Task(1, "A", ""), Task(2, "B", "")];
    var scores := WithScore(WithScore(map[], 1, 1, 8), 2, 1, 4);
    assert scores == map[1 := map[1 := 8], 2 := map[1 := 4]];
    assert ScoreSum(tasks, scores, 1) == 12 && ScoreCount(tasks, scores, 1) == 2 by {
      assert tasks[..1] == [Task(1, "A", "")];
    }
    assert WithoutColumn(scores, 1) == map[1 := map[], 2 := map[]] by {
      assert scores.Keys == {1, 2};
    }
  }
}
