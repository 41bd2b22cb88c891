/** Per-day activity records and the 365-day heatmap built from them. A calendar day is an
    integer day number; "today" is a parameter. */
module UserActivity {

  import opened Wrappers

  /** One stored record per day: questions and answers posted, and their sum. */
  datatype Activity = Activity(date: int, questions: int, answers: int, total: int)

  /** The date of a heatmap cell; Blank is the empty date string of a placeholder cell. */
  datatype DateKey = Blank | Day(n: int)

  /** One heatmap cell: a date, that day's count and its intensity level. */
  datatype ActivityData = ActivityData(date: DateKey, count: int, level: int)

  datatype Kind = QuestionPosted | AnswerPosted

  /** Number of days the heatmap covers. */
  const WindowDays: int := 365

  /** `findIndex` on the date: the first record for `day`, or -1 when there is none. */
  function FindIndex(acts: seq<Activity>, day: int): (i: int)
    ensures -1 <= i < |acts|
    ensures i >= 0 ==> acts[i].date == day && forall j :: 0 <= j < i ==> acts[j].date != day
    ensures i == -1 <==> forall j :: 0 <= j < |acts| ==> acts[j].date != day
    decreases |acts|
  {
    if |acts| == 0 then -1
    else if acts[0].date == day then 0
    else
      var k := FindIndex(acts[1..], day);
      if k == -1 then -1 else k + 1
  }

  /** Every record's total is its questions plus its answers. */
  ghost predicate TotalsConsistent(acts: seq<Activity>)
  {
    forall i :: 0 <= i < |acts| ==> acts[i].total == acts[i].questions + acts[i].answers
  }

  /** No two records share a date. */
  ghost predicate DatesUnique(acts: seq<Activity>)
  {
    forall i, j :: 0 <= i < j < |acts| ==> acts[i].date != acts[j].date
  }

  /** `recordActivity(type)` on the stored list (None when nothing is stored yet), returning
      the list written back. */
  function RecordActivity(stored: Option<seq<Activity>>, today: int, kind: Kind): (r: seq<Activity>)
    ensures var acts := stored.GetOr([]);
      var i := FindIndex(acts, today);
      && (i >= 0 ==>
          && |r| == |acts|
          && (forall j :: 0 <= j < |acts| && j != i ==> r[j] == acts[j])
          && r[i].date == today
          && r[i].questions == acts[i].questions + (if kind == QuestionPosted then 1 else 0)
          && r[i].answers == acts[i].answers + (if kind == AnswerPosted then 1 else 0)
          && r[i].total == r[i].questions + r[i].answers)
      && (i == -1 ==>
          && |r| == |acts| + 1 && r[..|acts|] == acts
          && r[|acts|] == Activity(today, if kind == QuestionPosted then 1 else 0,
                                   if kind == AnswerPosted then 1 else 0, 1))
  {
    var acts := stored.GetOr([]);
    var i := FindIndex(acts, today);
    if i >= 0 then
      var a := acts[i];
      var bumped := if kind == QuestionPosted then a.(questions := a.questions + 1)
                    else a.(answers := a.answers + 1);
      acts[i := bumped.(total := bumped.questions + bumped.answers)]
    else
      acts + [Activity(today, if kind == QuestionPosted then 1 else 0, if kind == AnswerPosted then 1 else 0, 1)]
  }

  /** `recordActivityStandalone(type)`, the hook-free copy of the same read-modify-write. */
  function RecordActivityStandalone(stored: Option<seq<Activity>>, today: int, kind: Kind): (r: seq<Activity>)
    ensures r == RecordActivity(stored, today, kind)
  {
    var existing := stored.GetOr([]);
    var todayIndex := FindIndex(existing, today);
    if todayIndex >= 0 then
      var a := existing[todayIndex];
      var bumped := if kind == QuestionPosted then a.(questions := a.questions + 1)
                    else a.(answers := a.answers + 1);
      existing[todayIndex := bumped.(total := bumped.questions + bumped.answers)]
    else
      existing + [Activity(today, if kind == QuestionPosted then 1 else 0, if kind == AnswerPosted then 1 else 0, 1)]
  }

  /** Recording keeps every total equal to questions plus answers. */
  lemma RecordKeepsTotals(stored: Option<seq<Activity>>, today: int, kind: Kind)
    requires TotalsConsistent(stored.GetOr([]))
    ensures TotalsConsistent(RecordActivity(stored, today, kind))
  {
  }

  /** Recording keeps at most one record per date, and leaves the records of other dates alone. */
  lemma RecordKeepsDatesUnique(stored: Option<seq<Activity>>, today: int, kind: Kind)
    requires DatesUnique(stored.GetOr([]))
    ensures var r := RecordActivity(stored, today, kind);
      && DatesUnique(r)
      && (forall j :: 0 <= j < |stored.GetOr([])| && stored.GetOr([])[j].date != today ==> r[j] == stored.GetOr([])[j])
      && (exists j :: 0 <= j < |r| && r[j].date == today)
  {
    var acts := stored.GetOr([]);
    var r := RecordActivity(stored, today, kind);
    var i := FindIndex(acts, today);
    if i >= 0 {
      assert r[i].date == today;
    } else {
      assert r[|acts|].date == today;
    }
  }

  /** Three questions then two answers on an empty store leave one record: 3, 2, total 5. */
  lemma ThreeQuestionsTwoAnswers(today: int)
    ensures
      var s1 := RecordActivity(None, today, QuestionPosted);
      var s2 := RecordActivity(Some(s1), today, QuestionPosted);
      var s3 := RecordActivity(Some(s2), today, QuestionPosted);
      var s4 := RecordActivity(Some(s3), today, AnswerPosted);
      RecordActivity(Some(s4), today, AnswerPosted) == [Activity(today, 3, 2, 5)]
  {
  }

  /** The intensity level of a day's count: 0, 1-2, 3-4, 5-6 and 7 or more give 0 to 4. */
  function Level(count: int): (level: int)
    ensures 0 <= level <= 4
    ensures level == 0 <==> count <= 0
    ensures level == 4 <==> count >= 7
  {
    if count > 0 then
      if count <= 2 then 1
      else if count <= 4 then 2
      else if count <= 6 then 3
      else 4
    else 0
  }

  /** A larger count never has a lower level. */
  lemma LevelMonotone(a: int, b: int)
    requires a <= b
    ensures Level(a) <= Level(b)
  {
  }

  /** The bucket boundaries: 2 is level 1, 3 level 2, 6 level 3, 7 level 4. */
  lemma LevelBoundaries()
    ensures Level(0) == 0 && Level(1) == 1 && Level(2) == 1 && Level(3) == 2
    ensures Level(4) == 2 && Level(5) == 3 && Level(6) == 3 && Level(7) == 4
  {
  }

  /** The heatmap cell of `day`: the total of the first record for that day, or 0. */
  ghost predicate CellOf(acts: seq<Activity>, day: int, c: ActivityData)
  {
    var i := FindIndex(acts, day);
    && c.date == Day(day)
    && (i == -1 ==> c.count == 0 && c.level == 0)
    && (i >= 0 ==> c.count == acts[i].total)
    && c.level == Level(c.count)
  }

  /** The cells are dated on consecutive days, the i-th one i days after the first. */
  ghost predicate Consecutive(data: seq<ActivityData>)
  {
    |data| > 0 ==> data[0].date.Day? && forall i :: 0 <= i < |data| ==> data[i].date == Day(data[0].date.n + i)
  }

  /** `generateActivityData()`: 365 cells, oldest first, for the days `today - 364` to `today`. */
  method GenerateActivityData(acts: seq<Activity>, today: int) returns (data: seq<ActivityData>)
    ensures |data| == WindowDays
    ensures forall k :: 0 <= k < |data| ==> CellOf(acts, today - (WindowDays - 1) + k, data[k])
    ensures Consecutive(data)
    ensures data[0].date == Day(today - 364) && data[|data| - 1].date == Day(today)
  {
    data := [];
    var i := 364;
    while i >= 0
      invariant -1 <= i <= 364
      invariant |data| == 364 - i
      invariant forall k :: 0 <= k < |data| ==> CellOf(acts, today - 364 + k, data[k])
    {
      var day := today - i;
      var found := FindIndex(acts, day);
      var count := if found >= 0 then acts[found].total else 0;
      var level := 0;
      if count > 0 {
        if count <= 2 { level := 1; }
        else if count <= 4 { level := 2; }
        else if count <= 6 { level := 3; }
        else { level := 4; }
      }
      data := data + [ActivityData(Day(day), count, level)];
      i := i - 1;
    }
  }
}
