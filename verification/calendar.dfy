/** The task calendar (`Calendario`): the month on view, its grid of days,
    the tasks due on a day, the dots and their colour, and the due-date
    label of the upcoming tasks.

    Dates are local calendar dates `(year, month, day)` with the month
    counted from 0. `new Date(y, m, d)` normalises an out-of-range month
    into the year; day numbers count days of the proleptic Gregorian
    calendar from 1 January of year 1, which was a Monday. */
module Calendar {
  import opened Domain
  import Seqs

  // ---------------------------------------------------------------------
  // The Gregorian calendar

  predicate IsLeap(y: int)
  {
    y % 4 == 0 && (y % 100 != 0 || y % 400 == 0)
  }

  predicate ValidMonth(m: int)
  {
    0 <= m < 12
  }

  /** The length of month `m` of year `y`: what `new Date(y, m + 1, 0)
      .getDate()` reads off the last day of the month. */
  function DaysInMonth(y: int, m: int): (n: int)
    requires ValidMonth(m)
    ensures 28 <= n <= 31
    ensures m == 1 ==> (n == 29 <==> IsLeap(y))
  {
    if m == 1 then (if IsLeap(y) then 29 else 28)
    else if m == 3 || m == 5 || m == 8 || m == 10 then 30
    else 31
  }

  function DaysInYear(y: int): int
  {
    if IsLeap(y) then 366 else 365
  }

  /** Days of year `y` before the first of month `m`, from the cumulative
      table of a common year. */
  function DaysBeforeMonth(y: int, m: int): int
    requires ValidMonth(m)
  {
    [0, 31, 59, 90, 120, 151, 181, 212, 243, 273, 304, 334][m]
      + (if IsLeap(y) && m >= 2 then 1 else 0)
  }

  /** Days before 1 January of year `y`; `/` rounds down here. */
  function DaysBeforeYear(y: int): int
  {
    365 * (y - 1) + (y - 1) / 4 - (y - 1) / 100 + (y - 1) / 400
  }

  /** The number of the day `(y, m, d)`; 1 January of year 1 is day 0. A
      day of 0 or past the month's end counts on from the month's first,
      as `new Date(y, m, d)` does. */
  function DayNumber(y: int, m: int, d: int): int
    requires ValidMonth(m)
  {
    DaysBeforeYear(y) + DaysBeforeMonth(y, m) + d - 1
  }

  /** The month lengths agree with the cumulative table, and the months of a
      year add up to the year. */
  lemma MonthLengthsAgree(y: int, m: int)
    requires ValidMonth(m)
    ensures m < 11 ==> DaysBeforeMonth(y, m + 1) == DaysBeforeMonth(y, m) + DaysInMonth(y, m)
    ensures m == 11 ==> DaysBeforeMonth(y, m) + DaysInMonth(y, m) == DaysInYear(y)
  {
  }

  /** Consecutive floors differ by one exactly at the multiples. */
  lemma FloorStep(y: int, k: int)
    requires k == 4 || k == 100 || k == 400
    ensures y / k - (y - 1) / k == if y % k == 0 then 1 else 0
  {
    if k == 4 {
      assert y / 4 - (y - 1) / 4 == if y % 4 == 0 then 1 else 0;
    } else if k == 100 {
      assert y / 100 - (y - 1) / 100 == if y % 100 == 0 then 1 else 0;
    } else {
      assert y / 400 - (y - 1) / 400 == if y % 400 == 0 then 1 else 0;
    }
  }

  /** Year `y` takes up `DaysInYear(y)` day numbers. */
  lemma YearLength(y: int)
    ensures DaysBeforeYear(y + 1) == DaysBeforeYear(y) + DaysInYear(y)
  {
    FloorStep(y, 4);
    FloorStep(y, 100);
    FloorStep(y, 400);
    if y % 100 == 0 {
      assert y % 4 == 0;
    }
    if y % 400 == 0 {
      assert y % 100 == 0;
    }
  }

  /** `new Date(y, m)`: a month outside 0..11 moves into the neighbouring
      years. */
  function Normalize(y: int, m: int): (ym: (int, int))
    ensures ValidMonth(ym.1)
    ensures 12 * ym.0 + ym.1 == 12 * y + m
  {
    (y + m / 12, m % 12)
  }

  /** `new Date(y, m + 1, 0)` is the last day of month `m`: the day before
      the first of the next month, across a year end too. */
  lemma LastDayOfMonth(y: int, m: int)
    requires ValidMonth(m)
    ensures var next := Normalize(y, m + 1);
            DayNumber(next.0, next.1, 0) == DayNumber(y, m, DaysInMonth(y, m))
  {
    MonthLengthsAgree(y, m);
    if m == 11 {
      assert Normalize(y, m + 1) == (y + 1, 0);
      YearLength(y);
    } else {
      assert Normalize(y, m + 1) == (y, m + 1);
    }
  }

  /** `getDay`: 0 for Sunday up to 6 for Saturday. Day 0 was a Monday. */
  function Weekday(n: int): (w: int)
    ensures 0 <= w < 7
    ensures (w - n - 1) % 7 == 0
  {
    (n + 1) % 7
  }

  /** `firstDayOfMonth`. */
  function FirstDayOfMonth(y: int, m: int): (w: int)
    requires ValidMonth(m)
    ensures 0 <= w < 7
  {
    Weekday(DayNumber(y, m, 1))
  }

  /** Two fixed points of the calendar: 1 January 1970 was a Thursday and
      1 January 2024 a Monday. */
  lemma WeekdayAnchors()
    ensures Weekday(DayNumber(1970, 0, 1)) == 4
    ensures Weekday(DayNumber(2024, 0, 1)) == 1
  {
  }

  // ---------------------------------------------------------------------
  // Month navigation

  /** `new Date(y, m)` of a normalised month: its first day. */
  function FirstOf(y: int, m: int): (c: CalDate)
    ensures ValidMonth(c.month) && c.day == 1
    ensures 12 * c.year + c.month == 12 * y + m
  {
    var ym := Normalize(y, m);
    CalDate(ym.0, ym.1, 1)
  }

  /** `prevMonth`: the first of the month before the one on view. */
  function PrevMonth(c: CalDate): (p: CalDate)
    ensures ValidMonth(p.month) && p.day == 1
    ensures 12 * p.year + p.month == 12 * c.year + c.month - 1
  {
    FirstOf(c.year, c.month - 1)
  }

  /** `nextMonth`: the first of the month after the one on view. */
  function NextMonth(c: CalDate): (n: CalDate)
    ensures ValidMonth(n.month) && n.day == 1
    ensures 12 * n.year + n.month == 12 * c.year + c.month + 1
  {
    FirstOf(c.year, c.month + 1)
  }

  /** The two buttons undo each other on the month on view, and wrap the
      year between December and January. */
  lemma MonthNavigation(c: CalDate)
    requires ValidMonth(c.month)
    ensures NextMonth(PrevMonth(c)) == CalDate(c.year, c.month, 1)
    ensures PrevMonth(NextMonth(c)) == CalDate(c.year, c.month, 1)
    ensures c.month == 0 ==> PrevMonth(c) == CalDate(c.year - 1, 11, 1)
    ensures c.month == 11 ==> NextMonth(c) == CalDate(c.year + 1, 0, 1)
    ensures 0 < c.month ==> PrevMonth(c) == CalDate(c.year, c.month - 1, 1)
    ensures c.month < 11 ==> NextMonth(c) == CalDate(c.year, c.month + 1, 1)
  {
  }

  /** The year `new Date(y, m)` starts from: a year from 0 to 99 is read as
      19xx. */
  function ConstructorYear(y: int): (z: int)
    ensures 0 <= y <= 99 ==> z == 1900 + y
    ensures !(0 <= y <= 99) ==> z == y
  {
    if 0 <= y <= 99 then 1900 + y else y
  }

  /** `prevMonth` as the code writes it, with the constructor's year rule. */
  function PrevMonthAsWritten(c: CalDate): (p: CalDate)
    ensures ValidMonth(p.month) && p.day == 1
    ensures 12 * p.year + p.month == 12 * ConstructorYear(c.year) + c.month - 1
  {
    FirstOf(ConstructorYear(c.year), c.month - 1)
  }

  /** `nextMonth` as the code writes it, with the constructor's year rule. */
  function NextMonthAsWritten(c: CalDate): (n: CalDate)
    ensures ValidMonth(n.month) && n.day == 1
    ensures 12 * n.year + n.month == 12 * ConstructorYear(c.year) + c.month + 1
  {
    FirstOf(ConstructorYear(c.year), c.month + 1)
  }

  /** Going back from January of year 100 reaches December of year 99, and
      going forward from there lands in January 2000, not back in year 100. */
  lemma TwoDigitYearJump()
    ensures PrevMonthAsWritten(CalDate(100, 0, 1)) == CalDate(99, 11, 1)
    ensures NextMonthAsWritten(PrevMonthAsWritten(CalDate(100, 0, 1))) == CalDate(2000, 0, 1)
  {
    assert FirstOf(100, -1) == CalDate(99, 11, 1);
    assert FirstOf(1999, 12) == CalDate(2000, 0, 1);
  }

  /** Away from the years 0 to 99 the code's buttons are the ones modelled. */
  lemma AsWrittenAgreesOutsideTwoDigitYears(c: CalDate)
    requires !(0 <= c.year <= 99)
    ensures PrevMonthAsWritten(c) == PrevMonth(c)
    ensures NextMonthAsWritten(c) == NextMonth(c)
  {
  }

  // ---------------------------------------------------------------------
  // The grid

  datatype Cell = Blank | Day(day: int)

  /** The grid of month `m`: `firstDayOfMonth` blanks, then the days 1 to
      `daysInMonth` in order. */
  function Grid(y: int, m: int): (g: seq<Cell>)
    requires ValidMonth(m)
    ensures |g| == FirstDayOfMonth(y, m) + DaysInMonth(y, m)
    ensures forall i :: 0 <= i < FirstDayOfMonth(y, m) ==> g[i] == Blank
    ensures forall d :: 1 <= d <= DaysInMonth(y, m) ==> g[FirstDayOfMonth(y, m) + d - 1] == Day(d)
  {
    seq(FirstDayOfMonth(y, m), _ => Blank)
      + seq(DaysInMonth(y, m), i requires 0 <= i => Day(i + 1))
  }

  /** Under the seven weekday headers starting on Sunday, every day of the
      month sits in the column of its own weekday. */
  lemma GridColumns(y: int, m: int, d: int)
    requires ValidMonth(m) && 1 <= d <= DaysInMonth(y, m)
    ensures Grid(y, m)[FirstDayOfMonth(y, m) + d - 1] == Day(d)
    ensures (FirstDayOfMonth(y, m) + d - 1) % 7 == Weekday(DayNumber(y, m, d))
  {
    var n1 := DayNumber(y, m, 1);
    var q := (n1 + 1) / 7;
    assert n1 + 1 == 7 * q + FirstDayOfMonth(y, m);
    assert DayNumber(y, m, d) + 1 == 7 * q + (FirstDayOfMonth(y, m) + d - 1);
    ModShift(FirstDayOfMonth(y, m) + d - 1, q);
  }

  lemma ModShift(a: int, q: int)
    ensures (7 * q + a) % 7 == a % 7
  {
    var r := a % 7;
    assert a == 7 * (a / 7) + r;
    assert 7 * q + a == 7 * (q + a / 7) + r;
  }

  // ---------------------------------------------------------------------
  // Tasks on the calendar

  /** `toDateString` equality: the task is due on that calendar date. */
  function DueOn(date: CalDate): Tarefa -> bool
  {
    (t: Tarefa) => t.dataLimite == date
  }

  /** `getTasksForDate(day)` for the month on view. */
  function TasksForDate(tasks: seq<Tarefa>, view: CalDate, day: int): (r: seq<Tarefa>)
    ensures |r| <= |tasks|
    ensures forall i :: 0 <= i < |r| ==> r[i].dataLimite == CalDate(view.year, view.month, day)
  {
    Seqs.Filter(tasks, DueOn(CalDate(view.year, view.month, day)))
  }

  /** The day's tasks are, in order, exactly the tasks due on it. */
  lemma TasksForDateExact(tasks: seq<Tarefa>, view: CalDate, day: int)
    ensures Seqs.IsSubsequence(TasksForDate(tasks, view, day), tasks)
    ensures forall i :: 0 <= i < |tasks| && tasks[i].dataLimite == CalDate(view.year, view.month, day) ==>
              tasks[i] in TasksForDate(tasks, view, day)
    ensures |TasksForDate(tasks, view, day)| == Seqs.CountWhere(tasks, DueOn(CalDate(view.year, view.month, day)))
  {
    Seqs.FilterIsSubsequence(tasks, DueOn(CalDate(view.year, view.month, day)));
    Seqs.FilterMembership(tasks, DueOn(CalDate(view.year, view.month, day)));
  }

  /** `selectedDateTasks`: nothing without a selected date. */
  function SelectedTasks(tasks: seq<Tarefa>, selected: Option<CalDate>): (r: seq<Tarefa>)
    ensures selected.None? ==> r == []
    ensures forall i :: 0 <= i < |r| ==> selected.Some? && r[i].dataLimite == selected.value
  {
    match selected
    case None => []
    case Some(date) => Seqs.Filter(tasks, DueOn(date))
  }

  /** Clicking a day of the month on view selects that day's tasks. */
  lemma SelectingADay(tasks: seq<Tarefa>, view: CalDate, day: int)
    ensures SelectedTasks(tasks, Some(CalDate(view.year, view.month, day))) == TasksForDate(tasks, view, day)
  {
  }

  /** `tasks.some(t => t.prioridade === 'alta')`. */
  function HasHighPriority(tasks: seq<Tarefa>): (b: bool)
    ensures b <==> exists i :: 0 <= i < |tasks| && tasks[i].prioridade == Alta
    decreases |tasks|
  {
    if |tasks| == 0 then false
    else
      var rest := HasHighPriority(tasks[1..]);
      assert forall i :: 1 <= i < |tasks| ==> tasks[i] == tasks[1..][i - 1];
      tasks[0].prioridade == Alta || rest
  }

  /** The dots under a day: one per task, at most three, none without tasks. */
  function Dots(tasks: seq<Tarefa>): (dots: seq<Tarefa>)
    ensures |dots| <= 3
    ensures |dots| == if |tasks| < 3 then |tasks| else 3
    ensures dots == tasks[..|dots|]
  {
    if |tasks| > 0 then tasks[..if |tasks| < 3 then |tasks| else 3] else []
  }

  datatype DotColour = OnSelected | HighPriority | Plain

  /** Selection wins over a high-priority task, which wins over the plain
      colour. */
  function DotColourOf(isSelected: bool, hasHighPriority: bool): (c: DotColour)
    ensures c == OnSelected <==> isSelected
    ensures c == HighPriority <==> !isSelected && hasHighPriority
    ensures c == Plain <==> !isSelected && !hasHighPriority
  {
    if isSelected then OnSelected else if hasHighPriority then HighPriority else Plain
  }

  /** What a day cell shows below its number. */
  datatype Marks = Marks(dots: nat, colour: DotColour)

  /** The cell of `day` in the month on view, with `selected` the selected
      date if any. */
  function DayMarks(tasks: seq<Tarefa>, view: CalDate, day: int, selected: Option<CalDate>): (mk: Marks)
    ensures mk.dots <= 3
    ensures mk.dots == 0 <==> forall i :: 0 <= i < |tasks| ==> tasks[i].dataLimite != CalDate(view.year, view.month, day)
    ensures var due := Seqs.CountWhere(tasks, DueOn(CalDate(view.year, view.month, day)));
      mk.dots == if due < 3 then due else 3
    ensures mk.colour == OnSelected <==> selected == Some(CalDate(view.year, view.month, day))
    ensures mk.colour == HighPriority <==>
              && selected != Some(CalDate(view.year, view.month, day))
              && exists i :: 0 <= i < |tasks| && tasks[i].dataLimite == CalDate(view.year, view.month, day)
                                               && tasks[i].prioridade == Alta
  {
    var date := CalDate(view.year, view.month, day);
    var ts := TasksForDate(tasks, view, day);
    TasksForDateExact(tasks, view, day);
    Seqs.FilterMembership(tasks, DueOn(date));
    DueHighPriority(tasks, date);
    Marks(|Dots(ts)|, DotColourOf(selected == Some(date), HasHighPriority(ts)))
  }

  /** Some task due on `date` is of high priority exactly when some task of
      that day's list is. */
  lemma DueHighPriority(tasks: seq<Tarefa>, date: CalDate)
    ensures HasHighPriority(Seqs.Filter(tasks, DueOn(date)))
        <==> exists i :: 0 <= i < |tasks| && tasks[i].dataLimite == date && tasks[i].prioridade == Alta
  {
    var ts := Seqs.Filter(tasks, DueOn(date));
    Seqs.FilterMembership(tasks, DueOn(date));
    if exists i :: 0 <= i < |tasks| && tasks[i].dataLimite == date && tasks[i].prioridade == Alta {
      var i :| 0 <= i < |tasks| && tasks[i].dataLimite == date && tasks[i].prioridade == Alta;
      assert DueOn(date)(tasks[i]);
      var j :| 0 <= j < |ts| && ts[j] == tasks[i];
    }
    if HasHighPriority(ts) {
      var j :| 0 <= j < |ts| && ts[j].prioridade == Alta;
      assert ts[j] in tasks;
      var i :| 0 <= i < |tasks| && tasks[i] == ts[j];
    }
  }

  // ---------------------------------------------------------------------
  // Upcoming tasks

  /** The decimal digits of a natural number, as a template string shows it. */
  function NatToString(n: nat): (s: string)
    ensures |s| > 0
    ensures forall i :: 0 <= i < |s| ==> '0' <= s[i] <= '9'
    ensures s[0] == '0' ==> n == 0
    ensures |s| > 1 ==> s[0] != '0'
    decreases n
  {
    if n < 10 then [('0' as int + n) as char]
    else
      var p := NatToString(n / 10);
      var s := p + [('0' as int + n % 10) as char];
      assert s[0] == p[0];
      s
  }

  /** Reads decimal digits back. */
  function ParseDigits(s: string): int
    decreases |s|
  {
    if |s| == 0 then 0
    else 10 * ParseDigits(s[..|s| - 1]) + (s[|s| - 1] as int - '0' as int)
  }

  lemma {:induction false} DigitsRoundTrip(n: nat)
    ensures ParseDigits(NatToString(n)) == n
    decreases n
  {
    var s := NatToString(n);
    if n >= 10 {
      DigitsRoundTrip(n / 10);
      assert s[..|s| - 1] == NatToString(n / 10);
    }
  }

  /** An integer as a template string shows it: a minus sign exactly for
      negative numbers, then the digits of the magnitude. */
  function IntToString(n: int): (s: string)
    ensures |s| > 0
    ensures s[0] == '-' || '0' <= s[0] <= '9'
    ensures s[0] == '-' <==> n < 0
    ensures forall i :: 0 < i < |s| ==> '0' <= s[i] <= '9'
    ensures n >= 0 ==> ParseDigits(s) == n
    ensures n < 0 ==> |s| > 1 && ParseDigits(s[1..]) == -n
    ensures |s| > 1 && s[0] != '-' ==> s[0] != '0'
    ensures n < 0 ==> s[1] != '0'
  {
    if n < 0 then
      var d := NatToString(-n);
      DigitsRoundTrip(-n);
      var s := "-" + d;
      assert s[1..] == d;
      s
    else
      DigitsRoundTrip(n);
      NatToString(n)
  }

  lemma NatToStringInjective(a: nat, b: nat)
    requires NatToString(a) == NatToString(b)
    ensures a == b
  {
    DigitsRoundTrip(a);
    DigitsRoundTrip(b);
  }

  lemma IntToStringInjective(a: int, b: int)
    requires IntToString(a) == IntToString(b)
    ensures a == b
  {
    var sa, sb := IntToString(a), IntToString(b);
    if a < 0 && b < 0 {
      assert sa[1..] == NatToString(-a);
      assert sb[1..] == NatToString(-b);
      NatToStringInjective(-a, -b);
    } else if a >= 0 && b >= 0 {
      NatToStringInjective(a, b);
    } else {
      assert false;
    }
  }

  /** The label of a task due in `daysUntil` days. */
  function DueLabel(daysUntil: int): (shown: string)
    ensures daysUntil == 0 <==> shown == "Hoje"
    ensures daysUntil == 1 <==> shown == "Amanhã"
    ensures daysUntil != 0 && daysUntil != 1 ==> shown == IntToString(daysUntil) + " dias"
  {
    if daysUntil == 0 then "Hoje"
    else if daysUntil == 1 then "Amanhã"
    else
      var s := IntToString(daysUntil) + " dias";
      assert s[0] == IntToString(daysUntil)[0];
      s
  }

  /** Different counts of days give different labels. */
  lemma DueLabelInjective(a: int, b: int)
    requires DueLabel(a) == DueLabel(b)
    ensures a == b
  {
    if a != 0 && a != 1 && b != 0 && b != 1 {
      var sa, sb := IntToString(a), IntToString(b);
      assert |sa| == |sb|;
      assert sa == (sa + " dias")[..|sa|] == (sb + " dias")[..|sb|] == sb;
      IntToStringInjective(a, b);
    }
  }

  /** The label is styled as urgent from tomorrow down, overdue included. */
  predicate Urgent(daysUntil: int)
  {
    daysUntil <= 1
  }

  lemma UrgentLabels(daysUntil: int)
    ensures DueLabel(daysUntil) in {"Hoje", "Amanhã"} ==> Urgent(daysUntil)
    ensures Urgent(daysUntil) && daysUntil >= 0 ==> DueLabel(daysUntil) in {"Hoje", "Amanhã"}
  {
  }

  /** The badge texts of priorities and task statuses. */
  function PrioridadeLabel(p: Prioridade): string
  {
    match p
    case Baixa => "Baixa"
    case Media => "Média"
    case Alta => "Alta"
  }

  function TarefaStatusLabel(s: TarefaStatus): string
  {
    match s
    case TarefaPendente => "Pendente"
    case EmAndamento => "Em Andamento"
    case Concluida => "Concluída"
  }

  lemma TaskLabelsDistinct()
    ensures forall a: Prioridade, b: Prioridade :: PrioridadeLabel(a) == PrioridadeLabel(b) ==> a == b
    ensures forall a: TarefaStatus, b: TarefaStatus :: TarefaStatusLabel(a) == TarefaStatusLabel(b) ==> a == b
  {
  }
}
