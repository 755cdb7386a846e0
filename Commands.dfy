/**
 * The message selection of `button_handler` in bot_commands.py: each of
 * the five inline-keyboard callbacks picks the text the bot edits into
 * its message. The two statistics buttons query with a start date only,
 * today or the first of the month, written as `%Y-%m-%d`; the current
 * date is a parameter instead of a clock read.
 */
module Commands {
  import opened Wrappers
  import opened LexOrder
  import opened Decimal
  import opened Statistics
  import opened Report

  /** A calendar date of the proleptic Gregorian calendar, as `datetime` holds it. */
  datatype Date = Date(year: nat, month: nat, day: nat)

  predicate IsLeap(year: nat)
  {
    year % 4 == 0 && (year % 100 != 0 || year % 400 == 0)
  }

  function DaysIn(year: nat, month: nat): (n: nat)
    requires 1 <= month <= 12
    ensures 28 <= n <= 31
  {
    if month == 2 then (if IsLeap(year) then 29 else 28)
    else if month == 4 || month == 6 || month == 9 || month == 11 then 30
    else 31
  }

  /** The dates `datetime` can represent: years 1 to 9999, real month lengths. */
  predicate ValidDate(d: Date)
  {
    1 <= d.year <= 9999 && 1 <= d.month <= 12 && 1 <= d.day <= DaysIn(d.year, d.month)
  }

  /** Calendar order. */
  predicate DateLe(a: Date, b: Date)
  {
    a.year < b.year || (a.year == b.year && (a.month < b.month || (a.month == b.month && a.day <= b.day)))
  }

  /** A dash and a two-digit field, `-%m` or `-%d`. */
  function DashField(n: nat): (s: string)
    requires n < 100
    ensures |s| == 3
  {
    "-" + Pad(n, 2)
  }

  /** `strftime('%Y-%m-%d')`: four-digit year, two-digit month and day. */
  function FormatDate(d: Date): (s: string)
    requires ValidDate(d)
    ensures |s| == 10
  {
    Pad(d.year, 4) + DashField(d.month) + DashField(d.day)
  }

  /** `replace(day=1)`: the first day of the same month, never after the date itself. */
  function FirstOfMonth(d: Date): (f: Date)
    requires ValidDate(d)
    ensures ValidDate(f) && f.year == d.year && f.month == d.month && f.day == 1
    ensures DateLe(f, d)
  {
    d.(day := 1)
  }

  lemma DashFieldOrder(n: nat, m: nat)
    requires n < 100 && m < 100
    ensures DashField(n) == DashField(m) <==> n == m
    ensures LexLe(DashField(n), DashField(m)) <==> n <= m
  {
    PadOrder(n, m, 2);
    LexLeEqualLengthPrefix("-", "-", Pad(n, 2), Pad(m, 2));
    if DashField(n) == DashField(m) {
      assert DashField(n)[1..] == Pad(n, 2) && DashField(m)[1..] == Pad(m, 2);
    }
  }

  /** Two strings that start with fields of equal length are equal only field by field. */
  lemma ConcatEq(x: string, y: string, s: string, t: string)
    requires |x| == |y|
    ensures x + s == y + t <==> x == y && s == t
  {
    if x + s == y + t {
      assert x == (x + s)[..|x|] && y == (y + t)[..|y|];
      assert s == (x + s)[|x|..] && t == (y + t)[|y|..];
    }
  }

  /**
   * Dates written as `%Y-%m-%d` compare as text exactly as they compare
   * on the calendar, and are written alike only when they are the same
   * date: this is what makes the text comparison of the SQL filter a
   * date comparison.
   */
  lemma {:induction false} FormatDateOrder(a: Date, b: Date)
    requires ValidDate(a) && ValidDate(b)
    ensures FormatDate(a) == FormatDate(b) <==> a == b
    ensures LexLe(FormatDate(a), FormatDate(b)) <==> DateLe(a, b)
  {
    var ya, yb := Pad(a.year, 4), Pad(b.year, 4);
    var ma, mb := DashField(a.month), DashField(b.month);
    var da, db := DashField(a.day), DashField(b.day);
    PadOrder(a.year, b.year, 4);
    DashFieldOrder(a.month, b.month);
    DashFieldOrder(a.day, b.day);
    ConcatEq(ya, yb, ma, mb);
    ConcatEq(ya + ma, yb + mb, da, db);
    LexLeEqualLengthPrefix(ya, yb, ma, mb);
    LexLeEqualLengthPrefix(ya + ma, yb + mb, da, db);
  }

  /** What a button leads to: a statistics report or a fixed text. */
  datatype Action = ShowStats(filter: Filter, title: string) | ShowText(text: string)

  const TodayTitle: string := "Статистика за сегодня"
  const MonthTitle: string := "Статистика за месяц"
  const MutedText: string := "🔕 Уведомления отключены."
  const UnmutedText: string := "🔔 Уведомления включены."
  const HelpText: string :=
    "📋 Список команд:\n"
    + "/start - Начать работу с ботом\n"
    + "/stats - Получить статистику\n"
    + "Используйте кнопки для быстрых действий."

  /** The five callback values the keyboard of `/start` sends. */
  const Buttons: set<string> := {"stats_today", "stats_month", "mute", "unmute", "help"}

  /** `get_statistics(start_date=...)`: only the start date is given. */
  function StartingFrom(d: Date): Filter
    requires ValidDate(d)
  {
    Filter(Some(FormatDate(d)), None, None, None)
  }

  /** The branch on `query.data`; None when no branch assigns `message`. */
  function ChooseAction(data: string, today: Date): Option<Action>
    requires ValidDate(today)
  {
    if data == "stats_today" then Some(ShowStats(StartingFrom(today), TodayTitle))
    else if data == "stats_month" then Some(ShowStats(StartingFrom(FirstOfMonth(today)), MonthTitle))
    else if data == "mute" then Some(ShowText(MutedText))
    else if data == "unmute" then Some(ShowText(UnmutedText))
    else if data == "help" then Some(ShowText(HelpText))
    else None
  }

  /**
   * The text `button_handler` edits into the message, given the stored
   * conversions; None when `message` is left unassigned and the handler
   * fails.
   */
  function ButtonHandler(data: string, today: Date, table: seq<Row>): Option<string>
    requires ValidDate(today)
  {
    var action := ChooseAction(data, today);
    if action.None? then None
    else match action.value
      case ShowStats(f, title) => Some(FormatStats(GetStatistics(table, f), title))
      case ShowText(text) => Some(text)
  }

  /** The handler produces a message exactly for the five buttons. */
  lemma ButtonHandlerDefined(data: string, today: Date, table: seq<Row>)
    requires ValidDate(today)
    ensures ButtonHandler(data, today, table).Some? <==> data in Buttons
  {
  }

  /**
   * The statistics buttons filter on a start date only, today's date or
   * the first of this month, and never on an end date, an offer or a
   * program; each titles its report with its own caption.
   */
  lemma StatsFilterOnlyStartDate(data: string, today: Date)
    requires ValidDate(today)
    requires ChooseAction(data, today).Some? && ChooseAction(data, today).value.ShowStats?
    ensures var f := ChooseAction(data, today).value.filter;
      && Given(f.startDate)
      && !Given(f.endDate) && !Given(f.offerId) && !Given(f.ppName)
      && (data == "stats_today" ==> f.startDate.value == FormatDate(today))
      && (data == "stats_month" ==> f.startDate.value == FormatDate(FirstOfMonth(today)))
      && (data == "stats_today" ==> ChooseAction(data, today).value.title == "Статистика за сегодня")
      && (data == "stats_month" ==> ChooseAction(data, today).value.title == "Статистика за месяц")
      && (data == "stats_today" || data == "stats_month")
  {
  }

  /**
   * A row whose `conversion_date` starts with a date written as
   * `%Y-%m-%d` (a time may follow) passes the filter from `d` exactly
   * when its date is `d` or later.
   */
  lemma StartingFromMatches(d: Date, e: Date, time: string, r: Row)
    requires ValidDate(d) && ValidDate(e)
    requires r.conversionDate == FormatDate(e) + time
    ensures Matches(StartingFrom(d), r) <==> DateLe(d, e)
  {
    MatchesIff(StartingFrom(d), r);
    LexLeEqualLengthPrefix(FormatDate(d), FormatDate(e), [], time);
    assert FormatDate(d) + [] == FormatDate(d);
    FormatDateOrder(d, e);
    if FormatDate(d) == FormatDate(e) {
      assert LexLe([], time);
      FormatDateOrder(d, e);
    }
  }

  /** Every row counted for today is counted for the month too. */
  lemma MonthIncludesToday(today: Date, r: Row)
    requires ValidDate(today)
    requires Matches(StartingFrom(today), r)
    ensures Matches(StartingFrom(FirstOfMonth(today)), r)
  {
    var first := FirstOfMonth(today);
    MatchesIff(StartingFrom(today), r);
    MatchesIff(StartingFrom(first), r);
    FormatDateOrder(first, today);
    LexLeTransitive(FormatDate(first), FormatDate(today), r.conversionDate);
  }

  /**
   * The mute, unmute and help buttons each show their own fixed text,
   * whatever the date and the stored conversions.
   */
  lemma TextButtonsFixed(data: string, d1: Date, d2: Date, t1: seq<Row>, t2: seq<Row>)
    requires ValidDate(d1) && ValidDate(d2)
    requires data in {"mute", "unmute", "help"}
    ensures ButtonHandler(data, d1, t1) == ButtonHandler(data, d2, t2)
    ensures ButtonHandler(data, d1, t1).Some?
    ensures data == "mute" ==> ButtonHandler(data, d1, t1) == Some("🔕 Уведомления отключены.")
    ensures data == "unmute" ==> ButtonHandler(data, d1, t1) == Some("🔔 Уведомления включены.")
    ensures data == "help" ==> ButtonHandler(data, d1, t1) == Some(
      "📋 Список команд:\n" + "/start - Начать работу с ботом\n" + "/stats - Получить статистику\n" + "Используйте кнопки для быстрых действий.")
  {
  }

  /**
   * A statistics button shows the statistics of its filter: when no
   * stored name or offer id holds a '<', reading the message back with
   * the button's title gives exactly the groups `get_statistics` returns.
   */
  lemma StatsMessageShowsStatistics(data: string, today: Date, table: seq<Row>)
    requires ValidDate(today)
    requires data in {"stats_today", "stats_month"}
    requires forall r | r in table :: '<' !in r.ppName && '<' !in r.offerId
    ensures var a := ChooseAction(data, today);
      && a.Some? && a.value.ShowStats?
      && ButtonHandler(data, today, table).Some?
      && ReadReport(ButtonHandler(data, today, table).value, a.value.title) == Some(GetStatistics(table, a.value.filter))
  {
    var a := ChooseAction(data, today).value;
    var g := GetStatistics(table, a.filter);
    StatisticsTagFree(table, a.filter);
    ReportRoundTrip(g, a.title);
  }

  /** The result's names and offer ids are those of stored rows, so a tag-free table gives a tag-free result. */
  lemma StatisticsTagFree(table: seq<Row>, f: Filter)
    requires forall r | r in table :: '<' !in r.ppName && '<' !in r.offerId
    ensures TagFree(GetStatistics(table, f))
  {
    var g := GetStatistics(table, f);
    forall i | 0 <= i < |g|
      ensures '<' !in g[i].ppName && '<' !in g[i].offerId
    {
      GroupHasRow(table, f, i);
      var r :| r in table && Matches(f, r) && KeyOf(r) == GroupKey(g[i]);
    }
  }
}
