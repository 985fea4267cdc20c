/**
  Values of the skill tracker: tasks ("opgaver"), competencies ("kompetencer")
  and the sparse score relation ("point"), together with the pure lookups and
  input normalisers that the store's event handlers use (app.js).
 */
module SkillModel {

  datatype Option<T> = None | Some(value: T)

  /** A task: something a learner did that can be scored against competencies. */
  datatype Task = Task(id: nat, name: string, description: string)

  /** A competency: one axis of the radar chart. */
  datatype Competency = Competency(id: nat, name: string)

  /** Sparse scores, task id -> competency id -> score. A missing row or entry means "not scored". */
  type Scores = map<nat, map<nat, int>>

  const MinScore: int := 1
  const MaxScore: int := 10

  // ---------------------------------------------------------------------------
  // Scores

  /** getPoint: the stored score, or the sentinel 0 when that task has no row or the row no entry. */
  function GetPoint(scores: Scores, taskId: nat, competencyId: nat): (p: int)
    ensures taskId in scores && competencyId in scores[taskId] ==> p == scores[taskId][competencyId]
    ensures taskId !in scores || competencyId !in scores[taskId] ==> p == 0
  {
    if taskId !in scores then 0
    else if competencyId !in scores[taskId] then 0
    else scores[taskId][competencyId]
  }

  /** Every stored score lies in [MinScore, MaxScore]; in particular 0 is never stored. */
  predicate ScoresInRange(scores: Scores) {
    forall t, c :: t in scores && c in scores[t] ==> MinScore <= scores[t][c] <= MaxScore
  }

  /** No score row or entry refers to a task or competency that is not in the store. */
  predicate NoOrphans(scores: Scores, taskIds: set<nat>, competencyIds: set<nat>) {
    scores.Keys <= taskIds && forall t :: t in scores ==> scores[t].Keys <= competencyIds
  }

  /** With scores in range, a positive point is the same thing as a stored entry. */
  lemma PositivePointIffStored(scores: Scores, taskId: nat, competencyId: nat)
    requires ScoresInRange(scores)
    ensures GetPoint(scores, taskId, competencyId) > 0 <==> taskId in scores && competencyId in scores[taskId]
    ensures 0 <= GetPoint(scores, taskId, competencyId) <= MaxScore
  {
  }

  /** The clamp inside setPoint: Math.max(1, Math.min(10, v)). */
  function ClampScore(v: int): (r: int)
    ensures MinScore <= r <= MaxScore
    ensures MinScore <= v <= MaxScore ==> r == v
    ensures v < MinScore ==> r == MinScore
    ensures v > MaxScore ==> r == MaxScore
  {
    var upper := if v < MaxScore then v else MaxScore;
    if upper > MinScore then upper else MinScore
  }

  /**
    The score input's normaliser: `parsed` is parseInt's result, None for NaN.
    NaN becomes 0, anything else is clamped into [0, 10]; 0 means "remove".
   */
  function NormalizeScoreInput(parsed: Option<int>): (n: int)
    ensures 0 <= n <= MaxScore
    ensures n == 0 <==> parsed.None? || parsed.value <= 0
    ensures parsed.Some? && 0 < parsed.value <= MaxScore ==> n == parsed.value
    ensures parsed.Some? && parsed.value > MaxScore ==> n == MaxScore
  {
    match parsed
    case None => 0
    case Some(v) =>
      var upper := if v < MaxScore then v else MaxScore;
      if upper > 0 then upper else 0
  }

  /** The new score relation after setPoint: the row is created if missing, one entry is written. */
  function WithScore(scores: Scores, taskId: nat, competencyId: nat, value: int): Scores {
    var row := if taskId in scores then scores[taskId] else map[];
    scores[taskId := row[competencyId := ClampScore(value)]]
  }

  /** The new score relation after `delete point[t][c]` guarded by `if (point[t])`. */
  function WithoutScore(scores: Scores, taskId: nat, competencyId: nat): Scores {
    if taskId in scores then scores[taskId := scores[taskId] - {competencyId}] else scores
  }

  /** The new score relation after a competency's column is deleted from every row. */
  function WithoutColumn(scores: Scores, competencyId: nat): Scores {
    map t | t in scores :: scores[t] - {competencyId}
  }

  /** Setting a score changes exactly one point, to the clamped value. */
  lemma WithScorePoints(scores: Scores, taskId: nat, competencyId: nat, value: int, t: nat, c: nat)
    ensures GetPoint(WithScore(scores, taskId, competencyId, value), t, c)
         == if t == taskId && c == competencyId then ClampScore(value) else GetPoint(scores, t, c)
  {
  }

  /** Removing a score zeroes exactly one point; a missing row makes it a no-op. */
  lemma WithoutScorePoints(scores: Scores, taskId: nat, competencyId: nat, t: nat, c: nat)
    ensures GetPoint(WithoutScore(scores, taskId, competencyId), t, c)
         == if t == taskId && c == competencyId then 0 else GetPoint(scores, t, c)
    ensures taskId !in scores ==> WithoutScore(scores, taskId, competencyId) == scores
  {
  }

  /** Deleting a row zeroes that task's points and no others. */
  lemma WithoutRowPoints(scores: Scores, taskId: nat, t: nat, c: nat)
    ensures GetPoint(scores - {taskId}, t, c) == if t == taskId then 0 else GetPoint(scores, t, c)
  {
  }

  /** Deleting a column zeroes that competency's points and no others. */
  lemma WithoutColumnPoints(scores: Scores, competencyId: nat, t: nat, c: nat)
    ensures GetPoint(WithoutColumn(scores, competencyId), t, c)
         == if c == competencyId then 0 else GetPoint(scores, t, c)
  {
  }

  /** The score updates keep every stored score in range. */
  lemma UpdatesKeepScoresInRange(scores: Scores, taskId: nat, competencyId: nat, value: int)
    requires ScoresInRange(scores)
    ensures ScoresInRange(WithScore(scores, taskId, competencyId, value))
    ensures ScoresInRange(WithoutScore(scores, taskId, competencyId))
    ensures ScoresInRange(WithoutColumn(scores, competencyId))
    ensures ScoresInRange(scores - {taskId})
  {
  }

  /** The score updates keep scores attached to present entities (the deletes shrink the id sets). */
  lemma UpdatesKeepNoOrphans(scores: Scores, taskIds: set<nat>, competencyIds: set<nat>,
                             taskId: nat, competencyId: nat, value: int)
    requires NoOrphans(scores, taskIds, competencyIds)
    ensures taskId in taskIds && competencyId in competencyIds ==>
              NoOrphans(WithScore(scores, taskId, competencyId, value), taskIds, competencyIds)
    ensures NoOrphans(WithoutScore(scores, taskId, competencyId), taskIds, competencyIds)
    ensures NoOrphans(scores - {taskId}, taskIds - {taskId}, competencyIds)
    ensures NoOrphans(WithoutColumn(scores, competencyId), taskIds, competencyIds - {competencyId})
  {
  }

  // ---------------------------------------------------------------------------
  // Sequences of records

  /** Array.prototype.filter: the elements satisfying `keep`, in their original order. */
  function Filter<T(!new)>(s: seq<T>, keep: T -> bool): (r: seq<T>)
    ensures |r| <= |s|
    ensures forall x :: x in r <==> x in s && keep(x)
    ensures (forall i :: 0 <= i < |s| ==> keep(s[i])) ==> r == s
  {
    if s == [] then []
    else (if keep(s[0]) then [s[0]] else []) + Filter(s[1..], keep)
  }

  /** Filtering a concatenation filters each part in turn: the kept elements stay in input order. */
  lemma {:induction false} FilterAppend<T(!new)>(a: seq<T>, b: seq<T>, keep: T -> bool)
    ensures Filter(a + b, keep) == Filter(a, keep) + Filter(b, keep)
  {
    if a == [] {
      assert a + b == b;
    } else {
      assert (a + b)[0] == a[0] && (a + b)[1..] == a[1..] + b;
      FilterAppend(a[1..], b, keep);
    }
  }

  /**
    One more element at the end is kept, after the earlier ones, exactly when
    it satisfies `keep`; with FilterAppend this pins the result down completely.
   */
  lemma FilterSnoc<T(!new)>(s: seq<T>, x: T, keep: T -> bool)
    ensures Filter(s + [x], keep) == Filter(s, keep) + (if keep(x) then [x] else [])
  {
    FilterAppend(s, [x], keep);
    assert [x][1..] == [];
  }

  /** No two positions of `s` carry the same key. */
  predicate UniqueKeys<T>(s: seq<T>, key: T -> nat) {
    forall i, j :: 0 <= i < j < |s| ==> key(s[i]) != key(s[j])
  }

  /** Filtering keeps keys unique. */
  lemma {:induction false} FilterKeepsUniqueKeys<T(!new)>(s: seq<T>, keep: T -> bool, key: T -> nat)
    requires UniqueKeys(s, key)
    ensures UniqueKeys(Filter(s, keep), key)
  {
    if s != [] {
      var tail := Filter(s[1..], keep);
      FilterKeepsUniqueKeys(s[1..], keep, key);
      forall x | x in tail ensures key(x) != key(s[0]) {
        var j :| 0 <= j < |s[1..]| && s[1..][j] == x;
        assert s[j + 1] == x;
      }
    }
  }

  function TaskKey(t: Task): nat { t.id }
  function CompetencyKey(c: Competency): nat { c.id }

  function TaskIds(tasks: seq<Task>): set<nat> {
    set t | t in tasks :: t.id
  }

  function CompetencyIds(competencies: seq<Competency>): set<nat> {
    set c | c in competencies :: c.id
  }

  /** Array.prototype.find on a key: the first element whose key is `id`, None when there is none. */
  function Find<T(!new)>(s: seq<T>, key: T -> nat, id: nat): (r: Option<T>)
    ensures r.Some? ==> r.value in s && key(r.value) == id
    ensures r.None? <==> forall x :: x in s ==> key(x) != id
  {
    if s == [] then None
    else if key(s[0]) == id then Some(s[0])
    else Find(s[1..], key, id)
  }

  /** With unique keys, the lookup finds the one element that carries the key. */
  lemma {:induction false} FindUnique<T(!new)>(s: seq<T>, key: T -> nat, i: nat)
    requires UniqueKeys(s, key)
    requires i < |s|
    ensures Find(s, key, key(s[i])) == Some(s[i])
  {
    if i > 0 {
      assert key(s[0]) != key(s[i]);
      assert UniqueKeys(s[1..], key) by {
        forall a, b | 0 <= a < b < |s[1..]|
          ensures key(s[1..][a]) != key(s[1..][b])
        {
          assert s[1..][a] == s[a + 1] && s[1..][b] == s[b + 1];
        }
      }
      FindUnique(s[1..], key, i - 1);
    }
  }

  /** getOpgave: the first task with the id, None when there is none. */
  function FindTask(tasks: seq<Task>, id: nat): (r: Option<Task>)
    ensures r.Some? ==> r.value in tasks && r.value.id == id
    ensures r.None? <==> id !in TaskIds(tasks)
  {
    Find(tasks, TaskKey, id)
  }

  /** getKompetence: the first competency with the id, None when there is none. */
  function FindCompetency(competencies: seq<Competency>, id: nat): (r: Option<Competency>)
    ensures r.Some? ==> r.value in competencies && r.value.id == id
    ensures r.None? <==> id !in CompetencyIds(competencies)
  {
    Find(competencies, CompetencyKey, id)
  }

  // ---------------------------------------------------------------------------
  // Names

  /** The characters String.prototype.trim removes: WhiteSpace and LineTerminator of ECMAScript. */
  predicate IsJsWhitespace(c: char) {
    || c == '\t' || c == '\n' || c == '\U{000B}' || c == '\U{000C}' || c == '\r' || c == ' '
    || c == '\U{00A0}' || c == '\U{1680}' || ('\U{2000}' <= c <= '\U{200A}')
    || c == '\U{2028}' || c == '\U{2029}' || c == '\U{202F}' || c == '\U{205F}'
    || c == '\U{3000}' || c == '\U{FEFF}'
  }

  /** `s` without its leading whitespace. */
  function TrimStart(s: string): (r: string)
    ensures |r| <= |s| && r == s[|s| - |r|..]
    ensures r == [] || !IsJsWhitespace(r[0])
    ensures forall i :: 0 <= i < |s| - |r| ==> IsJsWhitespace(s[i])
  {
    if s != [] && IsJsWhitespace(s[0]) then TrimStart(s[1..]) else s
  }

  /** `s` without its trailing whitespace. */
  function TrimEnd(s: string): (r: string)
    ensures |r| <= |s| && r == s[..|r|]
    ensures r == [] || !IsJsWhitespace(r[|r| - 1])
    ensures forall i :: |r| <= i < |s| ==> IsJsWhitespace(s[i])
  {
    if s != [] && IsJsWhitespace(s[|s| - 1]) then TrimEnd(s[..|s| - 1]) else s
  }

  /** String.prototype.trim. */
  function Trim(s: string): (r: string) {
    TrimEnd(TrimStart(s))
  }

  /** A name is rejected (empty after trimming) exactly when it is all whitespace. */
  lemma TrimEmptyIffBlank(s: string)
    ensures Trim(s) == [] <==> forall i :: 0 <= i < |s| ==> IsJsWhitespace(s[i])
  {
    var u := TrimStart(s);
    if Trim(s) == [] {
      // TrimEnd left nothing, so every character of u is blank; u cannot start with one.
      assert u == [];
    }
  }

  /** A trimmed name is kept whole by trimming again, and carries no outer whitespace. */
  lemma TrimIdempotent(s: string)
    ensures Trim(Trim(s)) == Trim(s)
    ensures Trim(s) == [] || (!IsJsWhitespace(Trim(s)[0]) && !IsJsWhitespace(Trim(s)[|Trim(s)| - 1]))
  {
    var u := TrimStart(s);
    var r := TrimEnd(u);
    if r != [] {
      assert r[0] == u[0];
      assert TrimStart(r) == r;
    } else {
      assert TrimStart(r) == r;
    }
  }
}
