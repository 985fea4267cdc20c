/**
  The competency detail panel (visKompetenceDetalje) and the canvas click that
  opens it (onCanvasClick): for a known competency, its name, its level and the
  tasks that gave it points, highest score first; for an unknown one, nothing.
 */
module Detail {
  import opened SkillModel
  import opened Aggregation
  import opened Radar

  /** One line of the panel: a task that scored the competency, and its score. */
  datatype DetailItem = DetailItem(name: string, description: string, points: int)

  /** What the panel shows: the competency's name, its level in tenths and the scored tasks. */
  datatype DetailView = DetailView(title: string, levelTenths: int, items: seq<DetailItem>)

  function ItemFor(t: Task, scores: Scores, competencyId: nat): DetailItem {
    DetailItem(t.name, t.description, GetPoint(scores, t.id, competencyId))
  }

  /** The test visKompetenceDetalje filters the tasks by: a positive point for the competency. */
  function ScoredBy(scores: Scores, competencyId: nat): Task -> bool {
    (t: Task) => GetPoint(scores, t.id, competencyId) > 0
  }

  /** As many tasks pass the filter as the level's mean counts. */
  lemma {:induction false} ScoredTasksCount(tasks: seq<Task>, scores: Scores, competencyId: nat)
    ensures |Filter(tasks, ScoredBy(scores, competencyId))| == ScoreCount(tasks, scores, competencyId)
  {
    if tasks != [] {
      var init, last := tasks[..|tasks| - 1], tasks[|tasks| - 1];
      assert tasks == init + [last];
      FilterSnoc(init, last, ScoredBy(scores, competencyId));
      ScoredTasksCount(init, scores, competencyId);
    }
  }

  /** One panel line per task of `kept`, in order. */
  function ItemsOf(kept: seq<Task>, scores: Scores, competencyId: nat): (r: seq<DetailItem>)
    ensures |r| == |kept|
    ensures forall i :: 0 <= i < |kept| ==> r[i] == ItemFor(kept[i], scores, competencyId)
  {
    seq(|kept|, i requires 0 <= i < |kept| => ItemFor(kept[i], scores, competencyId))
  }

  /** Lines for a concatenation are the lines for each part, in turn. */
  lemma ItemsOfAppend(x: seq<Task>, y: seq<Task>, scores: Scores, competencyId: nat)
    ensures ItemsOf(x + y, scores, competencyId) == ItemsOf(x, scores, competencyId) + ItemsOf(y, scores, competencyId)
  {
    var r, rx, ry := ItemsOf(x + y, scores, competencyId), ItemsOf(x, scores, competencyId), ItemsOf(y, scores, competencyId);
    forall i | 0 <= i < |r| ensures r[i] == (rx + ry)[i] {
      if i >= |x| {
        assert (x + y)[i] == y[i - |x|];
      }
    }
  }

  /** The tasks with a positive score for the competency, as panel lines, in task order. */
  function ScoredItems(tasks: seq<Task>, scores: Scores, competencyId: nat): (r: seq<DetailItem>)
    ensures forall i :: 0 <= i < |r| ==> r[i].points > 0
    ensures forall t :: t in tasks && GetPoint(scores, t.id, competencyId) > 0 ==> ItemFor(t, scores, competencyId) in r
    ensures forall y :: y in r ==> exists t :: t in tasks && GetPoint(scores, t.id, competencyId) > 0
                                          && y == ItemFor(t, scores, competencyId)
  {
    var kept := Filter(tasks, ScoredBy(scores, competencyId));
    var r := ItemsOf(kept, scores, competencyId);
    assert forall i :: 0 <= i < |kept| ==> kept[i] in kept;
    assert forall t :: t in kept ==> ItemFor(t, scores, competencyId) in r by {
      forall t | t in kept ensures ItemFor(t, scores, competencyId) in r {
        var i :| 0 <= i < |kept| && kept[i] == t;
        assert r[i] == ItemFor(t, scores, competencyId);
      }
    }
    r
  }

  /** The panel has one line per task that scored the competency: as many as its level's mean counts. */
  lemma ScoredItemsCount(tasks: seq<Task>, scores: Scores, competencyId: nat)
    ensures |ScoredItems(tasks, scores, competencyId)| == ScoreCount(tasks, scores, competencyId)
  {
    ScoredTasksCount(tasks, scores, competencyId);
  }

  /**
    The lines for a concatenation of task lists are the lines for the first
    list followed by those for the second: one line per scored task, in task
    order, duplicates included.
   */
  lemma ScoredItemsAppend(a: seq<Task>, b: seq<Task>, scores: Scores, competencyId: nat)
    ensures ScoredItems(a + b, scores, competencyId)
         == ScoredItems(a, scores, competencyId) + ScoredItems(b, scores, competencyId)
  {
    FilterAppend(a, b, ScoredBy(scores, competencyId));
    ItemsOfAppend(Filter(a, ScoredBy(scores, competencyId)), Filter(b, ScoredBy(scores, competencyId)), scores, competencyId);
  }

  /** A single task gives one line when it scored the competency, and none otherwise. */
  lemma ScoredItemsSingle(t: Task, scores: Scores, competencyId: nat)
    ensures ScoredItems([t], scores, competencyId)
         == if GetPoint(scores, t.id, competencyId) > 0 then [ItemFor(t, scores, competencyId)] else []
  {
    FilterSnoc([], t, ScoredBy(scores, competencyId));
    assert [] + [t] == [t];
  }

  // ---------------------------------------------------------------------------
  // Sorting by score, highest first, keeping equal scores in task order

  predicate SortedDescending(s: seq<DetailItem>) {
    forall i, j :: 0 <= i < j < |s| ==> s[i].points >= s[j].points
  }

  /** The items with exactly `points` points, in their order. */
  function WithPoints(s: seq<DetailItem>, points: int): seq<DetailItem> {
    if s == [] then []
    else (if s[0].points == points then [s[0]] else []) + WithPoints(s[1..], points)
  }

  /** Selecting from a concatenation selects from each part. */
  lemma {:induction false} WithPointsAppend(a: seq<DetailItem>, b: seq<DetailItem>, points: int)
    ensures WithPoints(a + b, points) == WithPoints(a, points) + WithPoints(b, points)
  {
    if a == [] {
      assert a + b == b;
    } else {
      assert (a + b)[0] == a[0] && (a + b)[1..] == a[1..] + b;
      WithPointsAppend(a[1..], b, points);
    }
  }

  /** Nothing is selected from a list where no item has the score. */
  lemma {:induction false} WithPointsNone(s: seq<DetailItem>, points: int)
    requires forall i :: 0 <= i < |s| ==> s[i].points != points
    ensures WithPoints(s, points) == []
  {
    if s != [] {
      WithPointsNone(s[1..], points);
    }
  }

  /** Selecting from a list with a known head. */
  lemma WithPointsCons(h: DetailItem, t: seq<DetailItem>, points: int)
    ensures WithPoints([h] + t, points) == (if h.points == points then [h] else []) + WithPoints(t, points)
  {
    assert ([h] + t)[0] == h && ([h] + t)[1..] == t;
  }

  /** A sorted list's head scores at least as much as every later item, and its tail is sorted. */
  lemma SortedTail(s: seq<DetailItem>)
    requires s != [] && SortedDescending(s)
    ensures SortedDescending(s[1..])
    ensures forall i :: 0 <= i < |s[1..]| ==> s[0].points >= s[1..][i].points
  {
  }

  /** Putting an item in front of a sorted list that scores no more keeps it sorted. */
  lemma SortedCons(h: DetailItem, t: seq<DetailItem>)
    requires SortedDescending(t)
    requires forall y :: y in t ==> h.points >= y.points
    ensures SortedDescending([h] + t)
  {
    forall i, j | 0 <= i < j < |[h] + t| ensures ([h] + t)[i].points >= ([h] + t)[j].points {
      if i == 0 {
        assert ([h] + t)[j] == t[j - 1];
        assert t[j - 1] in t;
      }
    }
  }

  /**
    Inserting x into a list sorted highest first, after every item that scores
    at least as much as x.
   */
  function InsertByPoints(x: DetailItem, s: seq<DetailItem>): seq<DetailItem> {
    if s == [] then [x]
    else if s[0].points >= x.points then [s[0]] + InsertByPoints(x, s[1..])
    else [x] + s
  }

  /** Inserting adds x and keeps every item. */
  lemma {:induction false} InsertByPointsPermutes(x: DetailItem, s: seq<DetailItem>)
    ensures multiset(InsertByPoints(x, s)) == multiset(s) + multiset{x}
  {
    if s != [] && s[0].points >= x.points {
      InsertByPointsPermutes(x, s[1..]);
      assert s == [s[0]] + s[1..];
    }
  }

  /** Inserting into a sorted list gives a sorted list. */
  lemma {:induction false} InsertByPointsSorted(x: DetailItem, s: seq<DetailItem>)
    requires SortedDescending(s)
    ensures SortedDescending(InsertByPoints(x, s))
  {
    if s != [] {
      if s[0].points >= x.points {
        var rest := InsertByPoints(x, s[1..]);
        SortedTail(s);
        InsertByPointsSorted(x, s[1..]);
        forall y | y in rest ensures s[0].points >= y.points {
          InsertByPointsPermutes(x, s[1..]);
          assert y in multiset(rest);
          if y != x {
            assert y in multiset(s[1..]);
            var i :| 0 <= i < |s[1..]| && s[1..][i] == y;
          }
        }
        SortedCons(s[0], rest);
      } else {
        forall y | y in s ensures x.points >= y.points {
          var i :| 0 <= i < |s| && s[i] == y;
        }
        SortedCons(x, s);
      }
    }
  }

  /** Inserting x adds x to the items with x's score, at their end, and changes no other score's items. */
  lemma {:induction false} InsertByPointsStable(x: DetailItem, s: seq<DetailItem>, points: int)
    requires SortedDescending(s)
    ensures WithPoints(InsertByPoints(x, s), points)
         == WithPoints(s, points) + (if x.points == points then [x] else [])
  {
    if s == [] {
      assert InsertByPoints(x, s) == [x] + [];
      WithPointsCons(x, [], points);
    } else if s[0].points >= x.points {
      SortedTail(s);
      InsertByPointsStable(x, s[1..], points);
      InsertBehindHead(x, s, points);
    } else {
      InsertInFront(x, s, points);
    }
  }

  /** The step of InsertByPointsStable where x goes behind the head. */
  lemma InsertBehindHead(x: DetailItem, s: seq<DetailItem>, points: int)
    requires s != [] && s[0].points >= x.points
    requires WithPoints(InsertByPoints(x, s[1..]), points)
          == WithPoints(s[1..], points) + (if x.points == points then [x] else [])
    ensures WithPoints(InsertByPoints(x, s), points)
         == WithPoints(s, points) + (if x.points == points then [x] else [])
  {
    var tail := if x.points == points then [x] else [];
    var rest := InsertByPoints(x, s[1..]);
    var head := if s[0].points == points then [s[0]] else [];
    var mid := WithPoints(s[1..], points);
    assert WithPoints(InsertByPoints(x, s), points) == head + (mid + tail) by {
      assert InsertByPoints(x, s) == [s[0]] + rest;
      WithPointsCons(s[0], rest, points);
    }
    assert WithPoints(s, points) == head + mid by {
      assert s == [s[0]] + s[1..];
      WithPointsCons(s[0], s[1..], points);
    }
    assert head + (mid + tail) == (head + mid) + tail;
  }

  /** The step of InsertByPointsStable where x outscores the head of a sorted list. */
  lemma InsertInFront(x: DetailItem, s: seq<DetailItem>, points: int)
    requires s != [] && SortedDescending(s) && s[0].points < x.points
    ensures WithPoints(InsertByPoints(x, s), points)
         == WithPoints(s, points) + (if x.points == points then [x] else [])
  {
    var tail := if x.points == points then [x] else [];
    assert WithPoints(InsertByPoints(x, s), points) == tail + WithPoints(s, points) by {
      assert InsertByPoints(x, s) == [x] + s;
      WithPointsCons(x, s, points);
    }
    if x.points == points {
      assert WithPoints(s, points) == [] by {
        assert forall i :: 0 <= i < |s| ==> s[i].points <= s[0].points;
        WithPointsNone(s, points);
      }
    }
  }

  /**
    The list sorted by score, highest first: an insertion sort that inserts each
    item after the earlier ones of equal score, so it is stable like
    Array.prototype.sort.
   */
  function SortByPoints(s: seq<DetailItem>): seq<DetailItem> {
    if s == [] then []
    else InsertByPoints(s[|s| - 1], SortByPoints(s[..|s| - 1]))
  }

  /** The sorted list is sorted highest first and holds the same items. */
  lemma {:induction false} SortByPointsSortsAndPermutes(s: seq<DetailItem>)
    ensures SortedDescending(SortByPoints(s))
    ensures multiset(SortByPoints(s)) == multiset(s)
  {
    if s != [] {
      var init, last := s[..|s| - 1], s[|s| - 1];
      SortByPointsSortsAndPermutes(init);
      InsertByPointsSorted(last, SortByPoints(init));
      InsertByPointsPermutes(last, SortByPoints(init));
      assert s == init + [last];
    }
  }

  /** The sort is stable: the items of any one score keep their original order. */
  lemma {:induction false} SortByPointsStable(s: seq<DetailItem>, points: int)
    ensures WithPoints(SortByPoints(s), points) == WithPoints(s, points)
  {
    if s != [] {
      var init, last := s[..|s| - 1], s[|s| - 1];
      var tail := if last.points == points then [last] else [];
      assert WithPoints(SortByPoints(s), points) == WithPoints(init, points) + tail by {
        SortByPointsStable(init, points);
        SortByPointsSortsAndPermutes(init);
        InsertByPointsStable(last, SortByPoints(init), points);
      }
      assert WithPoints(s, points) == WithPoints(init, points) + tail by {
        assert s == init + [last];
        WithPointsAppend(init, [last], points);
        WithPointsCons(last, [], points);
        assert [last] + [] == [last];
      }
    }
  }

  /** A list already sorted highest first stays as it is. */
  lemma {:induction false} SortByPointsKeepsSorted(s: seq<DetailItem>)
    requires SortedDescending(s)
    ensures SortByPoints(s) == s
  {
    if s != [] {
      var init, last := s[..|s| - 1], s[|s| - 1];
      assert SortByPoints(init) == init by {
        assert SortedDescending(init);
        SortByPointsKeepsSorted(init);
      }
      assert InsertByPoints(last, init) == init + [last] by {
        assert forall i :: 0 <= i < |init| ==> init[i].points >= last.points;
        InsertAfterSmallerOrEqual(last, init);
      }
      assert s == init + [last];
    }
  }

  /** Inserting an item that scores no more than any item of a sorted list appends it. */
  lemma {:induction false} InsertAfterSmallerOrEqual(x: DetailItem, s: seq<DetailItem>)
    requires forall i :: 0 <= i < |s| ==> s[i].points >= x.points
    ensures InsertByPoints(x, s) == s + [x]
  {
    if s != [] {
      InsertAfterSmallerOrEqual(x, s[1..]);
      assert s == [s[0]] + s[1..];
    }
  }

  // ---------------------------------------------------------------------------
  // The panel

  function LevelKey(l: Level): nat { l.id }

  /**
    visKompetenceDetalje: nothing for an unknown id; otherwise the competency's
    name, its level as the aggregation reports it (0 when missing), and the
    tasks with a positive score, highest score first.
   */
  function ShowDetail(tasks: seq<Task>, competencies: seq<Competency>, scores: Scores, competencyId: nat): (r: Option<DetailView>)
    ensures r.None? <==> competencyId !in CompetencyIds(competencies)
    ensures r.Some? ==> SortedDescending(r.value.items)
                        && multiset(r.value.items) == multiset(ScoredItems(tasks, scores, competencyId))
  {
    SortByPointsSortsAndPermutes(ScoredItems(tasks, scores, competencyId));
    match FindCompetency(competencies, competencyId)
    case None => None
    case Some(k) =>
      var niv := Find(LevelsOf(tasks, competencies, scores), LevelKey, competencyId);
      Some(DetailView(k.name, if niv.Some? then niv.value.tenths else 0,
                      SortByPoints(ScoredItems(tasks, scores, competencyId))))
  }

  /**
    With unique competency ids, the panel of a competency shows its own name
    and the level the chart gives it.
   */
  lemma DetailShowsCompetencyLevel(tasks: seq<Task>, competencies: seq<Competency>, scores: Scores, i: nat)
    requires UniqueKeys(competencies, CompetencyKey) && i < |competencies|
    ensures var r := ShowDetail(tasks, competencies, scores, competencies[i].id);
            r.Some? && r.value.title == competencies[i].name
            && r.value.levelTenths == LevelFor(tasks, scores, competencies[i]).tenths
  {
    var levels := LevelsOf(tasks, competencies, scores);
    FindUnique(competencies, CompetencyKey, i);
    assert UniqueKeys(levels, LevelKey) by {
      LevelsMatchCompetencies(tasks, competencies, scores);
    }
    FindUnique(levels, LevelKey, i);
  }

  /** The panel lists exactly the tasks that gave the competency a positive score. */
  lemma DetailListsScoredTasks(tasks: seq<Task>, competencies: seq<Competency>, scores: Scores, competencyId: nat, t: Task)
    requires competencyId in CompetencyIds(competencies) && t in tasks
    ensures ItemFor(t, scores, competencyId) in ShowDetail(tasks, competencies, scores, competencyId).value.items
            <==> GetPoint(scores, t.id, competencyId) > 0
  {
    var items := ShowDetail(tasks, competencies, scores, competencyId).value.items;
    var scored := ScoredItems(tasks, scores, competencyId);
    assert forall y :: y in items <==> y in scored by {
      assert multiset(items) == multiset(scored);
      forall y ensures y in items <==> y in scored {
        assert y in items <==> y in multiset(items);
        assert y in scored <==> y in multiset(scored);
      }
    }
  }

  /**
    onCanvasClick as written: the panel of the competency at the index
    hitTestKompetence returns, whose sector runs clockwise from its own axis
    to the next one.
   */
  function OnCanvasClickAsWritten(tasks: seq<Task>, competencies: seq<Competency>, scores: Scores,
                                  width: real, height: real, x: real, y: real, theta: real): (r: Option<DetailView>)
    requires width >= 0.0 && height >= 0.0 && -Pi <= theta <= Pi
    ensures r.Some? <==> |competencies| > 0 && InAnnulus(width, height, x, y)
    ensures r.Some? ==> exists i :: 0 <= i < |competencies| && InSector(NormalizedAngle(theta), i, |competencies|)
                                  && r == ShowDetail(tasks, competencies, scores, competencies[i].id)
  {
    var levels := LevelsOf(tasks, competencies, scores);
    match ClickedCompetencyAsWritten(levels, width, height, x, y, theta)
    case None => None
    case Some(id) =>
      LevelsMatchCompetencies(tasks, competencies, scores);
      var i :| 0 <= i < |levels| && levels[i].id == id && InSector(NormalizedAngle(theta), i, |levels|);
      assert competencies[i] in competencies && competencies[i].id == id;
      ShowDetail(tasks, competencies, scores, id)
  }

  /** As written, a click in the ring opens the panel of the competency whose sector holds the click's angle. */
  lemma ClickOpensSectorCompetencyAsWritten(tasks: seq<Task>, competencies: seq<Competency>, scores: Scores,
                                            width: real, height: real, x: real, y: real, theta: real, i: nat)
    requires width >= 0.0 && height >= 0.0 && -Pi <= theta <= Pi
    requires i < |competencies| && InAnnulus(width, height, x, y)
    requires InSector(NormalizedAngle(theta), i, |competencies|)
    ensures OnCanvasClickAsWritten(tasks, competencies, scores, width, height, x, y, theta)
         == ShowDetail(tasks, competencies, scores, competencies[i].id)
  {
    HitTestSelectsContainingSector(|competencies|, width, height, x, y, theta, i);
    LevelsMatchCompetencies(tasks, competencies, scores);
  }

  /** onCanvasClick on the corrected hit test: the panel of the competency whose centred sector was hit, if any. */
  function OnCanvasClick(tasks: seq<Task>, competencies: seq<Competency>, scores: Scores,
                         width: real, height: real, x: real, y: real, theta: real): (r: Option<DetailView>)
    requires width >= 0.0 && height >= 0.0 && -Pi <= theta <= Pi
    ensures r.Some? <==> |competencies| > 0 && InAnnulus(width, height, x, y)
    ensures r.Some? ==> exists i :: 0 <= i < |competencies| && InCenteredSector(NormalizedAngle(theta), i, |competencies|)
                                  && r == ShowDetail(tasks, competencies, scores, competencies[i].id)
  {
    var levels := LevelsOf(tasks, competencies, scores);
    match ClickedCompetency(levels, width, height, x, y, theta)
    case None => None
    case Some(id) =>
      LevelsMatchCompetencies(tasks, competencies, scores);
      var i :| 0 <= i < |levels| && levels[i].id == id && InCenteredSector(NormalizedAngle(theta), i, |levels|);
      assert competencies[i] in competencies && competencies[i].id == id;
      ShowDetail(tasks, competencies, scores, id)
  }

  /** A click in the ring opens the panel of the competency whose centred sector holds the click's angle. */
  lemma ClickOpensSectorCompetency(tasks: seq<Task>, competencies: seq<Competency>, scores: Scores,
                                   width: real, height: real, x: real, y: real, theta: real, i: nat)
    requires width >= 0.0 && height >= 0.0 && -Pi <= theta <= Pi
    requires i < |competencies| && InAnnulus(width, height, x, y)
    requires InCenteredSector(NormalizedAngle(theta), i, |competencies|)
    ensures OnCanvasClick(tasks, competencies, scores, width, height, x, y, theta)
         == ShowDetail(tasks, competencies, scores, competencies[i].id)
  {
    CenteredHitTestSelectsNearestAxis(|competencies|, width, height, x, y, theta, i);
    LevelsMatchCompetencies(tasks, competencies, scores);
  }

  /**
    With three competencies, the click on the upper-left diagonal of a 400 x 400
    canvas opens the third competency's panel as written, and the first's with
    centred sectors.
   */
  lemma DiagonalClickOpensDifferentPanels(tasks: seq<Task>, competencies: seq<Competency>, scores: Scores)
    requires |competencies| == 3
    ensures OnCanvasClickAsWritten(tasks, competencies, scores, 400.0, 400.0, 100.0, 100.0, -3.0 * Pi / 4.0)
         == ShowDetail(tasks, competencies, scores, competencies[2].id)
    ensures OnCanvasClick(tasks, competencies, scores, 400.0, 400.0, 100.0, 100.0, -3.0 * Pi / 4.0)
         == ShowDetail(tasks, competencies, scores, competencies[0].id)
  {
    DiagonalClickSelectsFartherAxis();
    DiagonalClickCentered();
    ClickOpensSectorCompetencyAsWritten(tasks, competencies, scores, 400.0, 400.0, 100.0, 100.0, -3.0 * Pi / 4.0, 2);
    ClickOpensSectorCompetency(tasks, competencies, scores, 400.0, 400.0, 100.0, 100.0, -3.0 * Pi / 4.0, 0);
  }
}
