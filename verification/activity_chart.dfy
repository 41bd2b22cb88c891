/** The activity heatmap card: folds the heatmap cells into week columns of seven rows,
    padded with placeholder cells, and derives the headline contribution total and the
    current streak. The weekday of day number `n` is `(n + k) % 7`, 0 being Sunday, for a
    calendar offset `k`. */
module ActivityChart {

  import opened Seqs
  import opened UserActivity

  /** The padding cell: no date, count 0, level 0. */
  const Placeholder: ActivityData := ActivityData(Blank, 0, 0)

  /** `new Date(day.date).getDay()`. A placeholder's empty date gives NaN there; -1 stands for
      it, since NaN, like -1, is neither 6 nor above any loop counter. */
  function DayOfWeek(c: ActivityData, k: int): (d: int)
    ensures -1 <= d <= 6
    ensures d == -1 <==> c.date.Blank?
  {
    match c.date
    case Blank => -1
    case Day(n) => (n + k) % 7
  }

  /** `n` placeholder cells (none when `n` is not positive). */
  function Pad(n: int): (r: seq<ActivityData>)
    ensures |r| == if n > 0 then n else 0
    ensures forall i :: 0 <= i < |r| ==> r[i] == Placeholder
    decreases n
  {
    if n <= 0 then [] else [Placeholder] + Pad(n - 1)
  }

  /** The cell carries a date, so it is not padding. */
  predicate IsDated(c: ActivityData)
  {
    c.date.Day?
  }

  /** The sum of the cells' counts. */
  function SumCounts(s: seq<ActivityData>): int
    decreases |s|
  {
    if |s| == 0 then 0 else s[0].count + SumCounts(s[1..])
  }

  lemma {:induction false} SumCountsConcat(a: seq<ActivityData>, b: seq<ActivityData>)
    ensures SumCounts(a + b) == SumCounts(a) + SumCounts(b)
    decreases |a|
  {
    if |a| == 0 {
      assert a + b == b;
    } else {
      assert (a + b)[1..] == a[1..] + b;
      SumCountsConcat(a[1..], b);
    }
  }

  /** Padding holds no dated cell and adds nothing to the count. */
  lemma {:induction false} PadIsInert(n: int)
    ensures Filter(IsDated, Pad(n)) == []
    ensures SumCounts(Pad(n)) == 0
    decreases n
  {
    if n > 0 {
      PadIsInert(n - 1);
      assert Pad(n)[1..] == Pad(n - 1);
    }
  }

  /** Appending padding changes neither the dated cells nor the sum. */
  lemma AppendPad(cells: seq<ActivityData>, n: int)
    ensures Filter(IsDated, cells + Pad(n)) == Filter(IsDated, cells)
    ensures SumCounts(cells + Pad(n)) == SumCounts(cells)
  {
    PadIsInert(n);
    FilterConcat(IsDated, cells, Pad(n));
    SumCountsConcat(cells, Pad(n));
  }

  /** Appending one cell appends it to the dated cells when it is dated, and adds its count. */
  lemma AppendCell(cells: seq<ActivityData>, day: ActivityData)
    ensures Filter(IsDated, cells + [day]) == Filter(IsDated, cells) + Filter(IsDated, [day])
    ensures SumCounts(cells + [day]) == SumCounts(cells) + day.count
  {
    FilterConcat(IsDated, cells, [day]);
    SumCountsConcat(cells, [day]);
    assert SumCounts([day]) == day.count + SumCounts([]);
  }

  /** Appending a day surrounded by padding appends just that day to the dated cells and its
      count to the sum. */
  lemma AppendPaddedDay(cells: seq<ActivityData>, a: int, day: ActivityData, b: int)
    ensures Filter(IsDated, cells + Pad(a) + [day] + Pad(b)) == Filter(IsDated, cells) + Filter(IsDated, [day])
    ensures SumCounts(cells + Pad(a) + [day] + Pad(b)) == SumCounts(cells) + day.count
  {
    AppendPad(cells, a);
    AppendCell(cells + Pad(a), day);
    AppendPad(cells + Pad(a) + [day], b);
  }

  /** The weekday after a Saturday is Sunday; otherwise the next weekday number. */
  lemma NextWeekday(n: int, k: int)
    ensures (n + 1 + k) % 7 == if (n + k) % 7 == 6 then 0 else (n + k) % 7 + 1
  {
  }

  /** The number of placeholders in front of the first cell. */
  function Lead(c: ActivityData, k: int): (n: nat)
    ensures |Pad(DayOfWeek(c, k))| == n
  {
    if DayOfWeek(c, k) > 0 then DayOfWeek(c, k) else 0
  }

  /** `grown` padded with placeholders up to seven cells. */
  function FillWeek(grown: seq<ActivityData>): (w: seq<ActivityData>)
    ensures |w| == if |grown| < 7 then 7 else |grown|
    ensures w == grown + Pad(7 - |grown|)
  {
    if |grown| < 7 then grown + Pad(7 - |grown|) else grown
  }

  /** One call of the `forEach` callback on the day at `index` of `count` days: the first day
      is preceded by its weekday's worth of placeholders, and a Saturday or the last day closes
      the current column, padded to seven. `Placed` is this step as a relation between the
      states before and after; the grouping loop's invariant is carried across it by
      `StepKeepsLaid`. */
  method PlaceDay(weeks: seq<seq<ActivityData>>, currentWeek: seq<ActivityData>, day: ActivityData,
                  dayOfWeek: int, index: int, count: int)
    returns (weeks': seq<seq<ActivityData>>, currentWeek': seq<ActivityData>)
    ensures Placed(weeks, currentWeek, day, dayOfWeek, index, count, weeks', currentWeek')
    ensures var lead := if index == 0 then dayOfWeek else 0;
      exists back :: Flatten(weeks') + currentWeek' == Flatten(weeks) + currentWeek + Pad(lead) + [day] + Pad(back)
    ensures dayOfWeek == 6 || index == count - 1 ==>
      |weeks'| == |weeks| + 1 && weeks'[..|weeks|] == weeks && |weeks'[|weeks|]| >= 7 && currentWeek' == []
    ensures !(dayOfWeek == 6 || index == count - 1) ==>
      weeks' == weeks && |currentWeek'| > |currentWeek|
  {
    weeks' := weeks;
    currentWeek' := currentWeek;
    if index == 0 {
      currentWeek' := currentWeek' + Pad(dayOfWeek);
    }
    currentWeek' := currentWeek' + [day];
    assert currentWeek' == currentWeek + Pad(if index == 0 then dayOfWeek else 0) + [day];
    if dayOfWeek == 6 || index == count - 1 {
      ghost var grown := currentWeek';
      if |currentWeek'| < 7 {
        currentWeek' := currentWeek' + Pad(7 - |currentWeek'|);
      } else {
        assert Pad(7 - |currentWeek'|) == [];
      }
      assert currentWeek' == FillWeek(grown);
      weeks' := weeks' + [currentWeek'];
      currentWeek' := [];
    }
    var lead := if index == 0 then dayOfWeek else 0;
    var back := if dayOfWeek == 6 || index == count - 1 then 7 - |currentWeek + Pad(lead) + [day]| else 0;
    StepCells(weeks, currentWeek, day, dayOfWeek, index, count, weeks', currentWeek', lead, back);
    assert (weeks + [FillWeek(currentWeek + Pad(lead) + [day])])[..|weeks|] == weeks;
  }

  /** The state after placing `day`: appended to the current column, which a Saturday or the
      last day moves, filled to seven, onto the list of columns. */
  ghost predicate Placed(weeks: seq<seq<ActivityData>>, current: seq<ActivityData>, day: ActivityData,
                         dayOfWeek: int, index: int, count: int,
                         weeks': seq<seq<ActivityData>>, current': seq<ActivityData>)
  {
    var grown := current + Pad(if index == 0 then dayOfWeek else 0) + [day];
    if dayOfWeek == 6 || index == count - 1 then weeks' == weeks + [FillWeek(grown)] && current' == []
    else weeks' == weeks && current' == grown
  }

  /** The first column opens with one placeholder per weekday before the first day, then that day. */
  ghost predicate OpensWith(column: seq<ActivityData>, first: ActivityData, k: int)
  {
    |column| > Lead(first, k) && column[..Lead(first, k) + 1] == Pad(DayOfWeek(first, k)) + [first]
  }

  /** The loop invariant of the grouping: the first `n` days are laid out as the closed columns
      `weeks` followed by the open column `current`. */
  ghost predicate Laid(data: seq<ActivityData>, k: int, n: int,
                       weeks: seq<seq<ActivityData>>, current: seq<ActivityData>)
  {
    && 0 <= n <= |data|
    && (forall j :: 0 <= j < |weeks| ==> |weeks[j]| >= 7)
    && Filter(IsDated, Flatten(weeks) + current) == Filter(IsDated, data[..n])
    && SumCounts(Flatten(weeks) + current) == SumCounts(data[..n])
    && (forall c :: c in Flatten(weeks) + current ==> c == Placeholder || c in data)
    && (n == 0 ==> weeks == [] && current == [])
    && (n == |data| ==> current == [])
    && (0 < n ==> |weeks| > 0 || |current| > 0)
    && (0 < n ==> OpensWith(if |weeks| > 0 then weeks[0] else current, data[0], k))
    && (Consecutive(data) ==> forall j :: 0 <= j < |weeks| ==> |weeks[j]| == 7)
    && (Consecutive(data) && 0 < n < |data| ==> |current| == DayOfWeek(data[n], k))
    && (Consecutive(data) ==> (forall j :: 0 <= j < |weeks| ==> Aligned(weeks[j], k)) && Aligned(current, k))
    && (Consecutive(data) && 0 < n < |data| ==> Flatten(weeks) + current == Pad(Lead(data[0], k)) + data[..n])
    && (Consecutive(data) && 0 < n == |data| ==> TrailingPad(Flatten(weeks), Pad(Lead(data[0], k)) + data))
  }

  /** Every dated cell of the column sits in the row of its weekday: Sunday in row 0 through
      Saturday in row 6. */
  ghost predicate Aligned(column: seq<ActivityData>, k: int)
  {
    forall r :: 0 <= r < |column| && IsDated(column[r]) ==> DayOfWeek(column[r], k) == r
  }

  /** Placeholders appended to an aligned column keep it aligned. */
  lemma AlignedPad(column: seq<ActivityData>, m: int, k: int)
    requires Aligned(column, k)
    ensures Aligned(column + Pad(m), k)
  {
    var c := column + Pad(m);
    forall r | 0 <= r < |c| && IsDated(c[r])
      ensures DayOfWeek(c[r], k) == r
    {
      if r < |column| {
        assert c[r] == column[r];
      } else {
        assert false;
      }
    }
  }

  /** A day appended to an aligned column after `m` placeholders, landing in its weekday's row,
      keeps the column aligned. */
  lemma AlignedDay(column: seq<ActivityData>, m: int, day: ActivityData, k: int)
    requires Aligned(column, k)
    requires |column + Pad(m)| == DayOfWeek(day, k)
    ensures Aligned(column + Pad(m) + [day], k)
  {
    AlignedPad(column, m, k);
    var c := column + Pad(m);
    var g := c + [day];
    forall r | 0 <= r < |g| && IsDated(g[r])
      ensures DayOfWeek(g[r], k) == r
    {
      if r < |c| {
        assert g[r] == c[r];
      }
    }
  }

  /** How one step changes the cells laid out so far: the day is appended after `lead`
      placeholders, followed by `back` more when the column is closed. */
  lemma StepCells(weeks: seq<seq<ActivityData>>, current: seq<ActivityData>, day: ActivityData,
                  dayOfWeek: int, index: int, count: int,
                  weeks': seq<seq<ActivityData>>, current': seq<ActivityData>, lead: int, back: int)
    requires Placed(weeks, current, day, dayOfWeek, index, count, weeks', current')
    requires lead == if index == 0 then dayOfWeek else 0
    requires back == if dayOfWeek == 6 || index == count - 1 then 7 - |current + Pad(lead) + [day]| else 0
    ensures Flatten(weeks') + current' == Flatten(weeks) + current + Pad(lead) + [day] + Pad(back)
  {
    var grown := current + Pad(lead) + [day];
    if dayOfWeek == 6 || index == count - 1 {
      ClosedColumnCells(weeks, current, lead, day, back, weeks', current');
    } else {
      OpenColumnCells(weeks, current, lead, day, back, weeks', current');
    }
  }

  /** Closing the column, filled by `back` placeholders, adds exactly its cells and those. */
  lemma ClosedColumnCells(weeks: seq<seq<ActivityData>>, current: seq<ActivityData>, lead: int, day: ActivityData,
                          back: int, weeks': seq<seq<ActivityData>>, current': seq<ActivityData>)
    requires weeks' == weeks + [FillWeek(current + Pad(lead) + [day])] && current' == []
    requires back == 7 - |current + Pad(lead) + [day]|
    ensures Flatten(weeks') + current' == Flatten(weeks) + current + Pad(lead) + [day] + Pad(back)
  {
    var grown := current + Pad(lead) + [day];
    FlattenAppend(weeks, FillWeek(grown));
    assert FillWeek(grown) == grown + Pad(back);
    Regroup(Flatten(weeks), current, Pad(lead), [day], Pad(back));
  }

  /** Concatenation regrouped. */
  lemma Regroup<T>(f: seq<T>, c: seq<T>, p: seq<T>, d: seq<T>, q: seq<T>)
    ensures f + (c + p + d + q) == f + c + p + d + q
    ensures f + (c + p + d) == f + c + p + d
  {
  }

  /** Extending the open column adds exactly the new cells. */
  lemma OpenColumnCells(weeks: seq<seq<ActivityData>>, current: seq<ActivityData>, lead: int, day: ActivityData,
                        back: int, weeks': seq<seq<ActivityData>>, current': seq<ActivityData>)
    requires weeks' == weeks && current' == current + Pad(lead) + [day]
    requires back == 0
    ensures Flatten(weeks') + current' == Flatten(weeks) + current + Pad(lead) + [day] + Pad(back)
  {
    assert Pad(back) == [];
    Regroup(Flatten(weeks), current, Pad(lead), [day], []);
  }

  /** A step keeps the dated cells and the count total in line with the input. */
  lemma StepKeepsDated(data: seq<ActivityData>, n: int, cells: seq<ActivityData>, cells': seq<ActivityData>,
                       lead: int, back: int)
    requires 0 <= n < |data|
    requires Filter(IsDated, cells) == Filter(IsDated, data[..n])
    requires SumCounts(cells) == SumCounts(data[..n])
    requires cells' == cells + Pad(lead) + [data[n]] + Pad(back)
    ensures Filter(IsDated, cells') == Filter(IsDated, data[..n + 1])
    ensures SumCounts(cells') == SumCounts(data[..n + 1])
  {
    assert data[..n + 1] == data[..n] + [data[n]];
    PaddedDayKeepsDated(cells, data[..n], lead, data[n], back);
  }

  /** Cells matching `prefix` in dated cells and total still match it once `day` is appended
      to both, with padding around it on the cells' side. */
  lemma PaddedDayKeepsDated(cells: seq<ActivityData>, prefix: seq<ActivityData>,
                            lead: int, day: ActivityData, back: int)
    requires Filter(IsDated, cells) == Filter(IsDated, prefix)
    requires SumCounts(cells) == SumCounts(prefix)
    ensures Filter(IsDated, cells + Pad(lead) + [day] + Pad(back)) == Filter(IsDated, prefix + [day])
    ensures SumCounts(cells + Pad(lead) + [day] + Pad(back)) == SumCounts(prefix + [day])
  {
    AppendPaddedDay(cells, lead, day, back);
    AppendCell(prefix, day);
  }

  /** A step adds only placeholders and the day itself to the cells. */
  lemma StepKeepsOrigins(data: seq<ActivityData>, k: int, n: int,
                         weeks: seq<seq<ActivityData>>, current: seq<ActivityData>,
                         weeks': seq<seq<ActivityData>>, current': seq<ActivityData>)
    requires 0 <= n < |data|
    requires forall c :: c in Flatten(weeks) + current ==> c == Placeholder || c in data
    requires Placed(weeks, current, data[n], DayOfWeek(data[n], k), n, |data|, weeks', current')
    ensures forall c :: c in Flatten(weeks') + current' ==> c == Placeholder || c in data
  {
    var day, dayOfWeek := data[n], DayOfWeek(data[n], k);
    var cells := Flatten(weeks) + current;
    var lead := if n == 0 then dayOfWeek else 0;
    var grown := current + Pad(lead) + [day];
    var back := if dayOfWeek == 6 || n == |data| - 1 then 7 - |grown| else 0;
    StepCells(weeks, current, day, dayOfWeek, n, |data|, weeks', current', lead, back);
    forall c | c in cells + Pad(lead) + [day] + Pad(back)
      ensures c == Placeholder || c in data
    {
      if c !in cells && c != day {
        assert c in Pad(lead) || c in Pad(back);
      }
    }
  }

  /** A step keeps the column shapes: every column at least seven long, exactly seven for
      consecutive days, and the open column as long as the next day's weekday. */
  lemma StepKeepsColumns(data: seq<ActivityData>, k: int, n: int,
                         weeks: seq<seq<ActivityData>>, current: seq<ActivityData>,
                         weeks': seq<seq<ActivityData>>, current': seq<ActivityData>)
    requires 0 <= n < |data|
    requires forall j :: 0 <= j < |weeks| ==> |weeks[j]| >= 7
    requires Consecutive(data) ==> forall j :: 0 <= j < |weeks| ==> |weeks[j]| == 7
    requires n == 0 ==> current == []
    requires Consecutive(data) && 0 < n ==> |current| == DayOfWeek(data[n], k)
    requires Placed(weeks, current, data[n], DayOfWeek(data[n], k), n, |data|, weeks', current')
    ensures forall j :: 0 <= j < |weeks'| ==> |weeks'[j]| >= 7
    ensures n + 1 == |data| ==> current' == []
    ensures |weeks'| > 0 || |current'| > 0
    ensures Consecutive(data) ==> forall j :: 0 <= j < |weeks'| ==> |weeks'[j]| == 7
    ensures Consecutive(data) && n + 1 < |data| ==> |current'| == DayOfWeek(data[n + 1], k)
  {
    var day, dayOfWeek := data[n], DayOfWeek(data[n], k);
    var grown := current + Pad(if n == 0 then dayOfWeek else 0) + [day];
    if Consecutive(data) {
      assert |grown| == dayOfWeek + 1;
      if n + 1 < |data| {
        NextWeekday(day.date.n, k);
        assert data[n + 1].date.n == day.date.n + 1;
      }
    }
  }

  /** For consecutive days, a step keeps every column aligned with the weekdays. */
  lemma StepKeepsAligned(data: seq<ActivityData>, k: int, n: int,
                         weeks: seq<seq<ActivityData>>, current: seq<ActivityData>,
                         weeks': seq<seq<ActivityData>>, current': seq<ActivityData>)
    requires 0 <= n < |data| && Consecutive(data)
    requires forall j :: 0 <= j < |weeks| ==> Aligned(weeks[j], k)
    requires Aligned(current, k)
    requires n == 0 ==> current == []
    requires 0 < n ==> |current| == DayOfWeek(data[n], k)
    requires Placed(weeks, current, data[n], DayOfWeek(data[n], k), n, |data|, weeks', current')
    ensures forall j :: 0 <= j < |weeks'| ==> Aligned(weeks'[j], k)
    ensures Aligned(current', k)
  {
    var day, dayOfWeek := data[n], DayOfWeek(data[n], k);
    var lead := if n == 0 then dayOfWeek else 0;
    assert day.date.Day?;
    AlignedDay(current, lead, day, k);
    var grown := current + Pad(lead) + [day];
    if dayOfWeek == 6 || n == |data| - 1 {
      AlignedPad(grown, 7 - |grown|, k);
      assert weeks' == weeks + [FillWeek(grown)];
      forall j | 0 <= j < |weeks'|
        ensures Aligned(weeks'[j], k)
      {
        if j < |weeks| {
          assert weeks'[j] == weeks[j];
        }
      }
    }
  }

  /** The cells of a full grouping: the leading placeholders, the days, then fewer than seven
      placeholders closing the last column. */
  ghost predicate TrailingPad(cells: seq<ActivityData>, laid: seq<ActivityData>)
  {
    exists back :: 0 <= back < 7 && cells == laid + Pad(back)
  }

  /** For consecutive days, a step keeps the cells laid out so far equal to the leading
      placeholders followed by the days placed; the last day closes the final column with
      fewer than seven placeholders. */
  lemma StepKeepsCalendar(data: seq<ActivityData>, k: int, n: int,
                          weeks: seq<seq<ActivityData>>, current: seq<ActivityData>,
                          weeks': seq<seq<ActivityData>>, current': seq<ActivityData>)
    requires 0 <= n < |data| && Consecutive(data)
    requires n == 0 ==> weeks == [] && current == []
    requires 0 < n ==> |current| == DayOfWeek(data[n], k)
    requires 0 < n ==> Flatten(weeks) + current == Pad(Lead(data[0], k)) + data[..n]
    requires Placed(weeks, current, data[n], DayOfWeek(data[n], k), n, |data|, weeks', current')
    ensures n + 1 < |data| ==> Flatten(weeks') + current' == Pad(Lead(data[0], k)) + data[..n + 1]
    ensures n + 1 == |data| ==> TrailingPad(Flatten(weeks'), Pad(Lead(data[0], k)) + data)
  {
    var day, dayOfWeek := data[n], DayOfWeek(data[n], k);
    var lead := if n == 0 then dayOfWeek else 0;
    var grown := current + Pad(lead) + [day];
    assert day.date == Day(data[0].date.n + n);
    assert |grown| == dayOfWeek + 1;
    var back := if dayOfWeek == 6 || n == |data| - 1 then 7 - |grown| else 0;
    StepCells(weeks, current, day, dayOfWeek, n, |data|, weeks', current', lead, back);
    var before := Pad(Lead(data[0], k)) + data[..n];
    assert Flatten(weeks) + current + Pad(lead) == before by {
      if n == 0 {
        assert Flatten(weeks) + current == [];
        assert data[..n] == [];
      } else {
        assert Pad(lead) == [];
      }
    }
    assert data[..n + 1] == data[..n] + [day];
    assert before + [day] == Pad(Lead(data[0], k)) + data[..n + 1];
    if n + 1 < |data| {
      assert Pad(back) == [];
    } else {
      assert data[..n + 1] == data;
      assert Flatten(weeks') == Flatten(weeks') + current';
    }
  }

  /** The cell that row `r` of column `j` shows for consecutive days whose first day has
      `lead` placeholders in front of it: day `7 * j + r - lead` of the input, or padding
      before the first day and after the last. */
  function CalendarCell(data: seq<ActivityData>, lead: int, j: int, r: int): ActivityData
  {
    var i := 7 * j + r - lead;
    if 0 <= i < |data| then data[i] else Placeholder
  }

  /** Seven-cell columns flatten to seven cells per column, column `j` row `r` at `7 * j + r`. */
  lemma {:induction false} FlattenWeeks(weeks: seq<seq<ActivityData>>)
    requires forall j :: 0 <= j < |weeks| ==> |weeks[j]| == 7
    ensures |Flatten(weeks)| == 7 * |weeks|
    ensures forall j, r :: 0 <= j < |weeks| && 0 <= r < 7 ==> Flatten(weeks)[7 * j + r] == weeks[j][r]
    decreases |weeks|
  {
    if |weeks| > 0 {
      var rest := weeks[1..];
      FlattenWeeks(rest);
      forall j, r | 0 <= j < |weeks| && 0 <= r < 7
        ensures Flatten(weeks)[7 * j + r] == weeks[j][r]
      {
        if j > 0 {
          assert weeks[j] == rest[j - 1];
          assert Flatten(rest)[7 * (j - 1) + r] == rest[j - 1][r];
        }
      }
    }
  }

  /** Seven-cell columns laid out as the leading placeholders, the days and fewer than seven
      closing placeholders are the calendar: one column per week the days touch, and every row
      of every column holds the day of its week and weekday. */
  lemma CalendarLayout(data: seq<ActivityData>, lead: int, weeks: seq<seq<ActivityData>>)
    requires lead >= 0
    requires forall j :: 0 <= j < |weeks| ==> |weeks[j]| == 7
    requires TrailingPad(Flatten(weeks), Pad(lead) + data)
    ensures |weeks| == (lead + |data| + 6) / 7
    ensures forall j, r :: 0 <= j < |weeks| && 0 <= r < 7 ==> weeks[j][r] == CalendarCell(data, lead, j, r)
  {
    var back :| 0 <= back < 7 && Flatten(weeks) == Pad(lead) + data + Pad(back);
    FlattenWeeks(weeks);
    assert 7 * |weeks| == lead + |data| + back;
    forall j, r | 0 <= j < |weeks| && 0 <= r < 7
      ensures weeks[j][r] == CalendarCell(data, lead, j, r)
    {
      var i := 7 * j + r;
      assert weeks[j][r] == (Pad(lead) + data + Pad(back))[i];
      if i < lead {
        assert (Pad(lead) + data + Pad(back))[i] == Pad(lead)[i];
      } else if i < lead + |data| {
        assert (Pad(lead) + data + Pad(back))[i] == data[i - lead];
      } else {
        assert (Pad(lead) + data + Pad(back))[i] == Pad(back)[i - lead - |data|];
      }
    }
  }

  /** A step keeps the opening of the first column. */
  lemma StepKeepsOpening(data: seq<ActivityData>, k: int, n: int,
                         weeks: seq<seq<ActivityData>>, current: seq<ActivityData>,
                         weeks': seq<seq<ActivityData>>, current': seq<ActivityData>)
    requires Laid(data, k, n, weeks, current) && n < |data|
    requires Placed(weeks, current, data[n], DayOfWeek(data[n], k), n, |data|, weeks', current')
    ensures OpensWith(if |weeks'| > 0 then weeks'[0] else current', data[0], k)
  {
    var day, dayOfWeek := data[n], DayOfWeek(data[n], k);
    var grown := current + Pad(if n == 0 then dayOfWeek else 0) + [day];
    var lead := Lead(data[0], k);
    if n == 0 {
      assert grown == Pad(dayOfWeek) + [day];
      assert grown[..lead + 1] == grown;
    } else if |weeks| == 0 {
      assert grown[..lead + 1] == current[..lead + 1];
    }
    if |weeks| == 0 && weeks' != weeks {
      assert weeks'[0] == FillWeek(grown);
      assert FillWeek(grown)[..lead + 1] == grown[..lead + 1];
    }
  }

  /** Placing the next day keeps the invariant of the grouping. */
  lemma StepKeepsLaid(data: seq<ActivityData>, k: int, n: int,
                      weeks: seq<seq<ActivityData>>, current: seq<ActivityData>,
                      weeks': seq<seq<ActivityData>>, current': seq<ActivityData>)
    requires Laid(data, k, n, weeks, current) && n < |data|
    requires Placed(weeks, current, data[n], DayOfWeek(data[n], k), n, |data|, weeks', current')
    ensures Laid(data, k, n + 1, weeks', current')
  {
    var day, dayOfWeek := data[n], DayOfWeek(data[n], k);
    var lead := if n == 0 then dayOfWeek else 0;
    var back := if dayOfWeek == 6 || n == |data| - 1 then 7 - |current + Pad(lead) + [day]| else 0;
    StepCells(weeks, current, day, dayOfWeek, n, |data|, weeks', current', lead, back);
    StepKeepsDated(data, n, Flatten(weeks) + current, Flatten(weeks') + current', lead, back);
    StepKeepsOrigins(data, k, n, weeks, current, weeks', current');
    StepKeepsColumns(data, k, n, weeks, current, weeks', current');
    StepKeepsOpening(data, k, n, weeks, current, weeks', current');
    if Consecutive(data) {
      StepKeepsAligned(data, k, n, weeks, current, weeks', current');
      StepKeepsCalendar(data, k, n, weeks, current, weeks', current');
    }
  }

  /** The week grouping: columns of at least seven cells. Taking the dated cells back out of
      the columns gives the dated input in order, the counts add up to the same total, and the
      first column opens with one placeholder per weekday before the first day. For
      consecutive days the columns are the calendar: seven cells each, each day in the row of
      its weekday, one column per week the days touch, and row `r` of column `j` holding
      `CalendarCell(data, Lead(data[0], k), j, r)`. */
  method GroupWeeks(data: seq<ActivityData>, k: int) returns (weeks: seq<seq<ActivityData>>)
    ensures forall j :: 0 <= j < |weeks| ==> |weeks[j]| >= 7
    ensures |weeks| == 0 <==> |data| == 0
    ensures Filter(IsDated, Flatten(weeks)) == Filter(IsDated, data)
    ensures SumCounts(Flatten(weeks)) == SumCounts(data)
    ensures forall c :: c in Flatten(weeks) ==> c == Placeholder || c in data
    ensures |data| > 0 ==> OpensWith(weeks[0], data[0], k)
    ensures Consecutive(data) ==> forall j :: 0 <= j < |weeks| ==> |weeks[j]| == 7
    ensures Consecutive(data) ==> forall j, r :: 0 <= j < |weeks| && 0 <= r < |weeks[j]| && IsDated(weeks[j][r]) ==>
      DayOfWeek(weeks[j][r], k) == r
    ensures Consecutive(data) && |data| > 0 ==> |weeks| == (Lead(data[0], k) + |data| + 6) / 7
    ensures Consecutive(data) && |data| > 0 ==> forall j, r :: 0 <= j < |weeks| && 0 <= r < |weeks[j]| ==>
      weeks[j][r] == CalendarCell(data, Lead(data[0], k), j, r)
  {
    weeks := [];
    var currentWeek: seq<ActivityData> := [];
    var index := 0;
    while index < |data|
      invariant Laid(data, k, index, weeks, currentWeek)
    {
      var day := data[index];
      var dayOfWeek := DayOfWeek(day, k);
      var weeks', currentWeek' := PlaceDay(weeks, currentWeek, day, dayOfWeek, index, |data|);
      StepKeepsLaid(data, k, index, weeks, currentWeek, weeks', currentWeek');
      weeks, currentWeek := weeks', currentWeek';
      index := index + 1;
    }
    assert data[..index] == data;
    assert Flatten(weeks) + currentWeek == Flatten(weeks);
    if Consecutive(data) {
      forall j, r | 0 <= j < |weeks| && 0 <= r < |weeks[j]| && IsDated(weeks[j][r])
        ensures DayOfWeek(weeks[j][r], k) == r
      {
        assert Aligned(weeks[j], k);
      }
      if |data| > 0 {
        CalendarLayout(data, Lead(data[0], k), weeks);
      }
    }
  }

  /** `totalContributions`: the counts summed left to right. */
  method TotalContributions(data: seq<ActivityData>) returns (sum: int)
    ensures sum == SumCounts(data)
  {
    sum := 0;
    var i := 0;
    while i < |data|
      invariant 0 <= i <= |data|
      invariant sum + SumCounts(data[i..]) == SumCounts(data)
    {
      assert data[i..][1..] == data[i + 1..];
      sum := sum + data[i].count;
      i := i + 1;
    }
  }

  /** `currentStreak`: the length of the longest run of positive counts that ends at the last
      cell. */
  method CurrentStreak(data: seq<ActivityData>) returns (streak: nat)
    ensures streak <= |data|
    ensures forall i :: |data| - streak <= i < |data| ==> data[i].count > 0
    ensures streak < |data| ==> data[|data| - 1 - streak].count <= 0
  {
    streak := 0;
    var i := |data| - 1;
    while i >= 0
      invariant -1 <= i < |data|
      invariant streak == |data| - 1 - i
      invariant forall j :: i < j < |data| ==> data[j].count > 0
    {
      if data[i].count > 0 {
        streak := streak + 1;
      } else {
        break;
      }
      i := i - 1;
    }
  }

  /** `getIntensityColor(level)`: levels 1 to 4 get a green shade, everything else the muted
      background. */
  function IntensityColor(level: int): (cls: string)
    ensures cls == "bg-muted" <==> !(1 <= level <= 4)
  {
    match level
    case 0 => "bg-muted"
    case 1 => "bg-green-200 dark:bg-green-900"
    case 2 => "bg-green-300 dark:bg-green-700"
    case 3 => "bg-green-400 dark:bg-green-600"
    case 4 => "bg-green-500 dark:bg-green-500"
    case _ => "bg-muted"
  }

  /** A level outside 0..4 is drawn like level 0. */
  lemma OutOfRangeLevelIsMuted(level: int)
    requires !(0 <= level <= 4)
    ensures IntensityColor(level) == IntensityColor(0)
  {
  }

  /** The heatmap card for `today`: the 365 cells of the window, grouped into one seven-row
      column per calendar week the window touches, each cell in the row of its weekday, the
      headline total of their counts, and the streak of active days that ends today. */
  method BuildChart(acts: seq<Activity>, today: int, k: int)
    returns (data: seq<ActivityData>, weeks: seq<seq<ActivityData>>, total: int, streak: nat)
    ensures |data| == WindowDays && Consecutive(data)
    ensures forall i :: 0 <= i < |data| ==> CellOf(acts, today - (WindowDays - 1) + i, data[i])
    ensures Filter(IsDated, Flatten(weeks)) == data
    ensures forall j :: 0 <= j < |weeks| ==> |weeks[j]| == 7
    ensures forall j, r :: 0 <= j < |weeks| && 0 <= r < |weeks[j]| && IsDated(weeks[j][r]) ==>
      DayOfWeek(weeks[j][r], k) == r
    ensures |weeks| == (Lead(data[0], k) + WindowDays + 6) / 7
    ensures forall j, r :: 0 <= j < |weeks| && 0 <= r < |weeks[j]| ==>
      weeks[j][r] == CalendarCell(data, Lead(data[0], k), j, r)
    ensures total == SumCounts(data) && total == SumCounts(Flatten(weeks))
    ensures streak <= WindowDays
    ensures forall i :: WindowDays - streak <= i < WindowDays ==> data[i].count > 0
    ensures streak < WindowDays ==> data[WindowDays - 1 - streak].count <= 0
  {
    data := GenerateActivityData(acts, today);
    weeks := GroupWeeks(data, k);
    total := TotalContributions(data);
    streak := CurrentStreak(data);
    forall i | 0 <= i < |data|
      ensures IsDated(data[i])
    {
      assert data[i].date == Day(data[0].date.n + i);
    }
    FilterKeepsAll(IsDated, data);
  }
}
