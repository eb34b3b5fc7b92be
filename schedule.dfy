/**
 * The calendar, schedule and todo panel of src/renderer/js/schedule.js. The
 * date keys are `Dates.IsoDate` (`formatDateKey`), `Dates.ParseDateKey`
 * (`parseDateKey`) and `Dates.YearMonth` (`formatYearMonth`). Dates are the
 * calendar part of the module's `Date` objects; the IPC calls become
 * requests appended to a log, and their answers are inputs.
 */
module Schedule {
  import opened Wrappers
  import opened Text
  import opened Dates
  import Queries

  // ------------------------------------------------------------- the grid

  /**
   * One cell of `calDays`: a day of a neighbouring month (`other-month`), or
   * a day of the shown month with its `data-date` key and its classes.
   */
  datatype Cell =
    | OtherMonth(day: int)
    | Day(day: int, key: string, today: bool, selected: bool, sunday: bool, saturday: bool, hasSchedule: bool)

  /** `firstDay.getDay()`: the column of the first of the month. */
  function StartDay(y: int, m: int): (w: int)
    requires 0 <= m < 12
    ensures 0 <= w < 7
  {
    Weekday(Date(y, m, 1))
  }

  /** `new Date(year, month, 0).getDate()`: the last day of the month before. */
  function PrevLastDay(y: int, m: int): int
    requires 0 <= m < 12
  {
    var p := PrevMonth(y, m);
    DaysInMonth(p.0, p.1)
  }

  /** `remaining`, when it is under 7; no trailing cells otherwise. */
  function Trailing(total: int): (n: int)
    ensures 0 <= n < 7 && (total + n) % 7 == 0
  {
    if 7 - total % 7 < 7 then 7 - total % 7 else 0
  }

  /** The cell of day `k` of the shown month. */
  function DayCell(y: int, m: int, k: int, today: Date, selected: Date, dates: set<string>): Cell
    requires 0 <= m < 12 && 1 <= k <= DaysInMonth(y, m)
  {
    var d := Date(y, m, k);
    var key := IsoDate(d);
    Day(k, key, d == today, d == selected, Weekday(d) == 0, Weekday(d) == 6, key in dates)
  }

  /** The first loop of `renderCalendar`: `prevLastDay - i` for `i` from `startDay - 1` down to 0. */
  method LeadingCells(startDay: int, prevLastDay: int) returns (cells: seq<Cell>)
    requires startDay >= 0
    ensures |cells| == startDay
    ensures forall i :: 0 <= i < |cells| ==> cells[i] == OtherMonth(prevLastDay - startDay + 1 + i)
  {
    cells := [];
    var i := startDay - 1;
    while i >= 0
      invariant -1 <= i < startDay
      invariant |cells| == startDay - 1 - i
      invariant forall j :: 0 <= j < |cells| ==> cells[j] == OtherMonth(prevLastDay - startDay + 1 + j)
      decreases i + 1
    {
      cells := cells + [OtherMonth(prevLastDay - i)];
      i := i - 1;
    }
  }

  /**
   * The second loop: one cell per day `1..daysInMonth`, built from `new
   * Date(year, month, day)`, so of the full year `FullYear(y)`.
   */
  method MonthCells(y: int, m: int, today: Date, selected: Date, dates: set<string>) returns (cells: seq<Cell>)
    requires 0 <= m < 12
    ensures |cells| == DaysInMonth(FullYear(y), m)
    ensures forall i :: 0 <= i < |cells| ==> cells[i] == DayCell(FullYear(y), m, i + 1, today, selected, dates)
  {
    var fy := FullYear(y);
    LastDayOfMonth(fy, m);
    var daysInMonth := NewDate(y, m + 1, 0).day;
    cells := [];
    var day := 1;
    while day <= daysInMonth
      invariant 1 <= day <= daysInMonth + 1
      invariant |cells| == day - 1
      invariant forall i :: 0 <= i < |cells| ==> cells[i] == DayCell(fy, m, i + 1, today, selected, dates)
    {
      var date := NewDate(y, m, day);
      NewDateValid(Date(fy, m, day));
      var dateStr := IsoDate(date);
      var cell := Day(day, dateStr, date == today, date == selected, Weekday(date) == 0, Weekday(date) == 6, dateStr in dates);
      assert cell == DayCell(fy, m, day, today, selected, dates);
      cells := cells + [cell];
      day := day + 1;
    }
  }

  /** The third loop: days `1..remaining` of the next month, when `remaining` is under 7. */
  method TrailingCells(totalCells: int) returns (cells: seq<Cell>)
    ensures |cells| == Trailing(totalCells)
    ensures forall i :: 0 <= i < |cells| ==> cells[i] == OtherMonth(i + 1)
  {
    cells := [];
    var remaining := 7 - totalCells % 7;
    if remaining < 7 {
      var day := 1;
      while day <= remaining
        invariant 1 <= day <= remaining + 1
        invariant |cells| == day - 1
        invariant forall i :: 0 <= i < |cells| ==> cells[i] == OtherMonth(i + 1)
      {
        cells := cells + [OtherMonth(day)];
        day := day + 1;
      }
    }
  }

  /**
   * What the grid of month `m` of year `y` holds: the days of the month
   * before that fill the first week, every day of the month in order, then
   * the days of the next month that fill the last week.
   */
  ghost predicate CalendarGrid(cells: seq<Cell>, y: int, m: int, today: Date, selected: Date, dates: set<string>)
    requires 0 <= m < 12
  {
    var s := StartDay(y, m);
    var n := DaysInMonth(y, m);
    && |cells| == s + n + Trailing(s + n)
    && (forall i :: 0 <= i < s ==> cells[i] == OtherMonth(PrevLastDay(y, m) - s + 1 + i))
    && (forall i :: s <= i < s + n ==> cells[i] == DayCell(y, m, i - s + 1, today, selected, dates))
    && (forall i :: s + n <= i < |cells| ==> cells[i] == OtherMonth(i - s - n + 1))
  }

  /**
   * The cells of `renderCalendar`: the days of the month before that fill
   * the first week, every day of the month, then the days of the next month
   * that fill the last week. Every date is made by `new Date(year, …)`, so
   * the grid is that of the full year `FullYear(y)`.
   */
  method BuildGrid(y: int, m: int, today: Date, selected: Date, dates: set<string>) returns (cells: seq<Cell>)
    requires 0 <= m < 12
    ensures CalendarGrid(cells, FullYear(y), m, today, selected, dates)
  {
    var fy := FullYear(y);
    var startDay := Weekday(NewDate(y, m, 1));
    assert startDay == StartDay(fy, m) by { NewDateValid(Date(fy, m, 1)); }
    var daysInMonth := NewDate(y, m + 1, 0).day;
    assert daysInMonth == DaysInMonth(fy, m) by { LastDayOfMonth(fy, m); }
    var prevLastDay := NewDate(y, m, 0).day;
    assert prevLastDay == PrevLastDay(fy, m) by { LastDayOfPrevMonth(fy, m); }
    var leading := LeadingCells(startDay, prevLastDay);
    var days := MonthCells(y, m, today, selected, dates);
    var trailing := TrailingCells(startDay + daysInMonth);
    cells := leading + days + trailing;
    GridAssembled(fy, m, today, selected, dates, leading, days, trailing);
  }

  lemma GridAssembled(y: int, m: int, today: Date, selected: Date, dates: set<string>,
                      leading: seq<Cell>, days: seq<Cell>, trailing: seq<Cell>)
    requires 0 <= m < 12
    requires var s := StartDay(y, m);
      && |leading| == s && (forall i :: 0 <= i < s ==> leading[i] == OtherMonth(PrevLastDay(y, m) - s + 1 + i))
      && |days| == DaysInMonth(y, m)
      && (forall i :: 0 <= i < |days| ==> days[i] == DayCell(y, m, i + 1, today, selected, dates))
      && |trailing| == Trailing(s + |days|) && (forall i :: 0 <= i < |trailing| ==> trailing[i] == OtherMonth(i + 1))
    ensures CalendarGrid(leading + days + trailing, y, m, today, selected, dates)
  {
    ConcatIndex(leading, days, trailing);
  }

  /** Where each part sits in the concatenation of three. */
  lemma ConcatIndex<T>(a: seq<T>, b: seq<T>, c: seq<T>)
    ensures var s := a + b + c;
      && |s| == |a| + |b| + |c|
      && (forall i :: 0 <= i < |a| ==> s[i] == a[i])
      && (forall i :: |a| <= i < |a| + |b| ==> s[i] == b[i - |a|])
      && (forall i :: |a| + |b| <= i < |s| ==> s[i] == c[i - |a| - |b|])
  {
  }

  /**
   * The grid is whole weeks: the first day sits in its weekday's column and
   * every later day follows in the next column, so Sundays are in column 0
   * and Saturdays in column 6; the leading days end at the last day of the
   * month before.
   */
  lemma GridColumns(y: int, m: int, k: int)
    requires 0 <= m < 12 && 1 <= k <= DaysInMonth(y, m)
    ensures var s := StartDay(y, m);
      var n := DaysInMonth(y, m);
      && (s + n + Trailing(s + n)) % 7 == 0
      && (s + k - 1) % 7 == Weekday(Date(y, m, k))
      && (s > 0 ==> PrevLastDay(y, m) - s + 1 + (s - 1) == PrevLastDay(y, m))
  {
    WeekdayInMonth(y, m, k);
  }

  /**
   * A day's classes: `sunday` exactly in column 0, `saturday` exactly in
   * column 6, `has-schedule` exactly when its key is among the dates with
   * entries. Its `data-date` key reads back as that very date from year 100
   * on; a grid is never drawn for a year 0..99, which `new Date` moves to the
   * 1900s; before year 0 the key reads as a date from January 1900 on, the
   * year's digits counting months (see `Dates.DateKeyNegativeYear`).
   */
  lemma DayCellSpec(y: int, m: int, k: int, today: Date, selected: Date, dates: set<string>)
    requires 0 <= m < 12 && 1 <= k <= DaysInMonth(y, m)
    ensures var c := DayCell(y, m, k, today, selected, dates);
      var column := (StartDay(y, m) + k - 1) % 7;
      && c.Day? && c.day == k
      && (c.sunday <==> column == 0) && (c.saturday <==> column == 6)
      && (c.hasSchedule <==> c.key in dates)
      && (c.today <==> Date(y, m, k) == today) && (c.selected <==> Date(y, m, k) == selected)
      && (y >= 100 ==> ParseDateKey(c.key) == Some(Date(y, m, k)))
      && (y < 0 ==> ParseDateKey(c.key) == Some(Date(1900 + (-y - 1) / 12, (-y - 1) % 12, m + 1)))
  {
    GridColumns(y, m, k);
    if y >= 100 {
      DateKeyRoundTrip(Date(y, m, k));
    } else if y < 0 {
      DateKeyNegativeYear(Date(y, m, k));
    }
  }

  /** `calTitle`: `${year}년 ${month + 1}월`. */
  function CalendarTitle(d: Date): string
    requires ValidDate(d)
  {
    IntToString(d.year) + "년 " + NatToString(d.month + 1) + "월"
  }

  /** `selectedDateTitle`: today's entries, or the month and day of another date. */
  function ListTitle(selected: Date, today: Date): string
    requires ValidDate(selected)
  {
    if selected == today then "오늘의 일정"
    else NatToString(selected.month + 1) + "월 " + NatToString(selected.day) + "일 일정"
  }

  /** The "today" title appears exactly when the selected date is today. */
  lemma ListTitleToday(selected: Date, today: Date)
    requires ValidDate(selected)
    ensures ListTitle(selected, today) == "오늘의 일정" <==> selected == today
  {
    if selected != today {
      var t := ListTitle(selected, today);
      assert t[0] == NatToString(selected.month + 1)[0];
      assert IsDigit(t[0]);
    }
  }

  // ----------------------------------------------------------- the months

  /** The `calPrev`/`calNext` handlers as written: `setMonth(getMonth() + delta)` on the shown date. */
  function ShiftMonthAsWritten(d: Date, delta: int): (r: Date)
    ensures ValidDate(r)
  {
    SetMonth(d, d.month + delta)
  }

  /** From 31 January the next button shows March: `setMonth` keeps the day 31, which overflows February. */
  lemma ShiftMonthSkips()
    ensures ShiftMonthAsWritten(Date(2025, 0, 31), 1) == Date(2025, 2, 3)
  {
    assert MakeDate(2025, 1, 31) == NormalizeDay(2025, 1, 31);
    assert NormalizeDay(2025, 1, 31) == NormalizeDay(2025, 2, 3);
  }

  /** The intended step: the first of the month `delta` months away. */
  function ShiftMonth(d: Date, delta: int): (r: Date)
    ensures ValidDate(r) && r.day == 1
  {
    MakeDate(d.year, d.month + delta, 1)
  }

  /** One step back or forward always lands on the neighbouring month, across year ends too. */
  lemma ShiftMonthNeighbours(d: Date)
    requires ValidDate(d)
    ensures var p := PrevMonth(d.year, d.month);
      ShiftMonth(d, -1) == Date(p.0, p.1, 1)
    ensures var n := NextMonth(d.year, d.month);
      ShiftMonth(d, 1) == Date(n.0, n.1, 1)
  {
    var p := PrevMonth(d.year, d.month);
    var n := NextMonth(d.year, d.month);
    assert (d.month - 1) / 12 == (if d.month == 0 then -1 else 0);
    assert (d.month - 1) % 12 == p.1;
    assert (d.month + 1) / 12 == (if d.month == 11 then 1 else 0);
    assert (d.month + 1) % 12 == n.1;
  }

  // ------------------------------------------------------------ the panel

  /** What the panel asks of the main process. */
  datatype Request =
    | GetScheduleDates(yearMonth: string)
    | AddSchedule(date: string, text: string)
    | AddTodo(text: string)
    | ToggleTodo(id: int, done: bool)

  /** `dataset.done === '1'` on a checkbox rendered with `data-done="${item.done}"`, then `toggleTodo(id, !done)`. */
  function ToggleRequest(row: Queries.TodoRow): Request
  {
    var done := IntToString(row.done) == "1";
    ToggleTodo(row.id, !done)
  }

  /** A stored 1 asks for undone, anything else for done: the flag flips for the rows `toggleTodo` writes. */
  lemma ToggleRequestFlips(row: Queries.TodoRow)
    ensures ToggleRequest(row) == ToggleTodo(row.id, row.done != 1)
  {
    if row.done != 1 {
      if row.done < 0 {
        assert IntToString(row.done)[0] == '-';
      } else if row.done >= 10 {
        assert |IntToString(row.done)| > 1;
      } else {
        assert IntToString(row.done) == [DigitChar(row.done)];
      }
    }
  }

  /** The module state of schedule.js and the contents it renders. */
  class ScheduleView {
    var calendarDate: Date
    var selectedDate: Date
    var scheduleDates: set<string>
    var title: string
    var cells: seq<Cell>
    var scheduleInput: string
    var todoInput: string
    var requests: seq<Request>

    ghost predicate Valid()
      reads this
    {
      ValidDate(calendarDate) && ValidDate(selectedDate)
    }

    constructor (today: Date)
      requires ValidDate(today)
      ensures Valid() && calendarDate == today && selectedDate == today
      ensures scheduleDates == {} && cells == [] && requests == []
      ensures scheduleInput == "" && todoInput == ""
    {
      calendarDate := today;
      selectedDate := today;
      scheduleDates := {};
      title := "";
      cells := [];
      scheduleInput := "";
      todoInput := "";
      requests := [];
    }

    /**
     * `renderCalendar()`: the title, the month's dates with entries (`fetched`
     * is the answer to the request, `None` for a failure or a throw), and the grid.
     */
    method RenderCalendar(fetched: Option<seq<string>>, today: Date)
      requires Valid()
      modifies this
      ensures Valid()
      ensures calendarDate == old(calendarDate) && selectedDate == old(selectedDate)
      ensures scheduleInput == old(scheduleInput) && todoInput == old(todoInput)
      ensures requests == old(requests) + [GetScheduleDates(YearMonth(calendarDate))]
      ensures title == CalendarTitle(calendarDate)
      ensures scheduleDates == (if fetched.Some? then set k | k in fetched.value else {})
      ensures CalendarGrid(cells, FullYear(calendarDate.year), calendarDate.month, today, selectedDate, scheduleDates)
    {
      var shown, selected := calendarDate, selectedDate;
      var dates := if fetched.Some? then set k | k in fetched.value else {};
      var grid := BuildGrid(shown.year, shown.month, today, selected, dates);
      title := CalendarTitle(shown);
      requests := requests + [GetScheduleDates(YearMonth(shown))];
      scheduleDates := dates;
      cells := grid;
    }

    /**
     * The previous and next buttons (before the grid is drawn again), as
     * written: `setMonth(getMonth() + delta)`, which keeps the day and so
     * can pass over a short month (`ShiftMonthSkips`).
     */
    method Step(delta: int)
      requires Valid() && (delta == -1 || delta == 1)
      modifies this
      ensures Valid()
      ensures calendarDate == ShiftMonthAsWritten(old(calendarDate), delta)
      ensures selectedDate == old(selectedDate) && requests == old(requests)
    {
      calendarDate := SetMonth(calendarDate, calendarDate.month + delta);
    }

    /**
     * A click on day `k` of the drawn grid selects the date its `data-date`
     * key parses to: the cell's own date from year 100 on, a date from
     * January 1900 on before year 0.
     */
    method Click(k: int)
      requires Valid() && 1 <= k <= DaysInMonth(FullYear(calendarDate.year), calendarDate.month)
      modifies this
      ensures Valid()
      ensures var fy := FullYear(calendarDate.year);
        fy >= 100 ==> selectedDate == Date(fy, calendarDate.month, k)
      ensures var fy := FullYear(calendarDate.year);
        fy < 0 ==> selectedDate == Date(1900 + (-fy - 1) / 12, (-fy - 1) % 12, calendarDate.month + 1)
      ensures calendarDate == old(calendarDate) && requests == old(requests)
      ensures scheduleDates == old(scheduleDates) && title == old(title) && cells == old(cells)
      ensures scheduleInput == old(scheduleInput) && todoInput == old(todoInput)
    {
      var cell := Date(FullYear(calendarDate.year), calendarDate.month, k);
      var key := IsoDate(cell);
      if cell.year >= 100 {
        DateKeyRoundTrip(cell);
      } else {
        DateKeyNegativeYear(cell);
      }
      var parsed := ParseDateKey(key);
      selectedDate := parsed.value;
    }

    /** `addSchedule()`: nothing for blank input; otherwise the trimmed text is added under the selected date and the input cleared. */
    method AddScheduleEntry()
      requires Valid()
      modifies this
      ensures Valid() && calendarDate == old(calendarDate) && selectedDate == old(selectedDate)
      ensures Trim(old(scheduleInput)) == "" ==> requests == old(requests) && scheduleInput == old(scheduleInput)
      ensures Trim(old(scheduleInput)) != "" ==>
        requests == old(requests) + [AddSchedule(IsoDate(selectedDate), Trim(old(scheduleInput)))] && scheduleInput == ""
      ensures todoInput == old(todoInput)
    {
      var text := Trim(scheduleInput);
      if text == "" {
        return;
      }
      var dateStr := IsoDate(selectedDate);
      requests := requests + [AddSchedule(dateStr, text)];
      scheduleInput := "";
    }

    /** `addTodo()`: the same guard for the todo input. */
    method AddTodoEntry()
      requires Valid()
      modifies this
      ensures Valid() && calendarDate == old(calendarDate) && selectedDate == old(selectedDate)
      ensures Trim(old(todoInput)) == "" ==> requests == old(requests) && todoInput == old(todoInput)
      ensures Trim(old(todoInput)) != "" ==> requests == old(requests) + [AddTodo(Trim(old(todoInput)))] && todoInput == ""
      ensures scheduleInput == old(scheduleInput)
    {
      var text := Trim(todoInput);
      if text == "" {
        return;
      }
      requests := requests + [AddTodo(text)];
      todoInput := "";
    }

    /** A click on a todo's checkbox. */
    method Toggle(row: Queries.TodoRow)
      modifies this
      ensures requests == old(requests) + [ToggleTodo(row.id, row.done != 1)]
      ensures calendarDate == old(calendarDate) && selectedDate == old(selectedDate)
      ensures scheduleInput == old(scheduleInput) && todoInput == old(todoInput)
    {
      ToggleRequestFlips(row);
      requests := requests + [ToggleRequest(row)];
    }
  }
}
