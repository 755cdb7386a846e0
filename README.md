# postbeki — a Dafny model of the postback bot

postbeki receives conversion postbacks from an affiliate network and
reports them in Telegram. Two Python scripts make it up:

- `bot.py` runs the `/webhook` endpoint. It takes the postback's key/value
  pairs, from the query string of a GET or the JSON body of a POST. It
  builds a fixed nine-field record with `'N/A'` for every missing field
  and sends that record as one HTML notification.
- `bot_commands.py` runs the Telegram buttons. `get_statistics` builds a
  parameterised SQL query over the `conversions` table, with an optional
  start date, end date, offer and program. It groups the matching rows
  by program and offer, with `SUM(revenue)` and `COUNT(*)`.
  `format_stats_message` renders the groups as an HTML report.
  `button_handler` picks the message each of the five buttons shows.

The model has seven modules:

- `Postback` covers `bot.py`. `Normalize` builds the record and
  `Render`/`Message` build the notification text. `Webhook` is the
  handler; `delivered` stands for the outcome of the chat API call.
  `Favicon` is the icon route.
- `Statistics` covers `get_statistics`. The method `BuildQuery` builds
  the query text and parameter list step by step, as the source does. The
  query's meaning is modelled by `Select`, the WHERE clause over a
  sequence of rows, and `Aggregate`, the GROUP BY with its sum and count.
- `Report` covers `format_stats_message`. The method `FormatStatsMessage`
  keeps the source's loop and is proved equal to the function
  `FormatStats`. A reader, `ReadReport`, parses a report back, and the
  round-trip lemma shows that the report shows every row verbatim and in
  order.
- `Commands` covers the message selection of `button_handler`. The
  current date is a parameter. `%Y-%m-%d` formatting and `replace(day=1)`
  are modelled, and `FormatDateOrder` proves that comparing the formatted
  dates as text is the same as comparing them on the calendar.
- `LexOrder` is the text ordering SQLite uses for `conversion_date >= ?`.
- `Decimal` holds how Python writes integers, and zero-padded fields.
- `Sequences`, next to `Wrappers`, holds one fact about concatenation that several proofs use.

## Model

| member | source | states |
|---|---|---|
| Postback.Normalize | bot.py:53-63 | the record has exactly the nine fields; each is the input's value when the key is present and `'N/A'` otherwise |
| Postback.NormalizeIgnoresOtherKeys | bot.py:53-63 | inputs that agree on the nine fields give the same record, whatever other keys they carry |
| Postback.NormalizeIdempotent | bot.py:53-63 | normalising a record again changes nothing |
| Postback.Render | bot.py:28-38 | computes the notification from the nine `.get(key, 'N/A')` lookups; its contract is carried by RenderLayout and RenderNormalized |
| Postback.RenderNormalized | bot.py:28-38 | the notification for the normalised record is the notification for the raw input, since both read each field with the `'N/A'` default |
| Postback.RenderLayout | bot.py:28-38 | the notification is the bold header and a blank line, then eight lines joined by newlines: offer, approach, goal, status, "revenue currency" on one line, campaign, ad set and time, with no trailing newline |
| Postback.MessageLayout | bot.py:28-38 | the same layout for any nine field values |
| Postback.Webhook | bot.py:47-67 | a POST renders the JSON object, or sends nothing when the body is not one; any other method (GET, and the HEAD the router adds to it) renders the query arguments; the reply is `('OK', 200)` exactly when a message was sent and its delivery returned |
| Postback.Favicon | bot.py:70-72 | the icon route sends no notification and answers an empty body with status 204 |
| LexOrder.LexLeReflexive | bot_commands.py:27-32 | the text ordering of the date filters is reflexive |
| LexOrder.LexLeAntisymmetric | bot_commands.py:27-32 | the text ordering of the date filters is antisymmetric |
| LexOrder.LexLeTransitive | bot_commands.py:27-32 | the text ordering of the date filters is transitive |
| LexOrder.LexLeTotal | bot_commands.py:27-32 | any two dates are comparable |
| LexOrder.LexLePrefix | bot_commands.py:27-32 | a date is never after the same date followed by a time |
| LexOrder.LexLeEqualLengthPrefix | bot_commands.py:27-32 | texts that start with fields of equal length compare by the first field, and by the rest when the first fields agree |
| Decimal.NatToString | bot_commands.py:98 | the conversion count is written as a non-empty run of digits without a leading zero |
| Decimal.NatToStringRoundTrip | bot_commands.py:98 | reading the written count gives the count back |
| Decimal.IntToString | bot_commands.py:97 | computes how Python writes the revenue sum, a minus sign before the digits of a negative sum; its contract is carried by IntToStringRoundTrip and IntToStringInjective |
| Decimal.IntToStringRoundTrip | bot_commands.py:97 | reading the written revenue sum, sign included, gives the sum back |
| Decimal.IntToStringInjective | bot_commands.py:97 | different sums are written differently |
| Decimal.Pad | bot_commands.py:65 | a zero-padded field of `strftime` has exactly its width and only digits |
| Decimal.PadOrder | bot_commands.py:65 | padded fields of one width are equal only for equal numbers, and compare as text as the numbers compare |
| Statistics.BuildQuery | bot_commands.py:20-40 | the query is the base SELECT, one restriction per given argument in the order start date, end date, offer, program, then the GROUP BY; the parameters are the matching values; the `?` placeholders equal the parameters in number |
| Statistics.ParamsAreGivenArguments | bot_commands.py:27-38 | the parameters are exactly the truthy arguments, in argument order |
| Statistics.QueryPlaceholders | bot_commands.py:20-40 | the finished query holds one `?` per restriction |
| Statistics.SqlTextPlaceholders | bot_commands.py:27-38 | the appended restrictions hold one `?` each |
| Statistics.SqlPlaceholder | bot_commands.py:28-37 | each restriction's text holds exactly one `?` |
| Statistics.FixedTextHasNoPlaceholders | bot_commands.py:20-40 | the base SELECT and the GROUP BY hold no `?` |
| Statistics.UnfilteredQuery | bot_commands.py:20-40 | no restriction is added exactly when no argument is truthy; the query is then the base SELECT and the GROUP BY, with no parameters |
| Statistics.MatchesIff | bot_commands.py:27-38 | a row passes the WHERE clause exactly when its date is not before the start date and not after the end date, and its offer and program are the ones asked for, each test applying only when its argument is given |
| Statistics.Select | bot_commands.py:23-38 | computes the rows of the table that pass the WHERE clause; its contract is carried by SelectCounts, with MatchesIff for the clause itself |
| Statistics.SelectCounts | bot_commands.py:20-38 | each row passing the filter is counted as often as it is stored; no other row is counted |
| Statistics.Aggregate | bot_commands.py:21-40 | computes the GROUP BY of the selected rows, with SUM(revenue) and COUNT(*) per (program, offer); its contract is carried by AggregateCorrect |
| Statistics.AggregateCorrect | bot_commands.py:21-40 | grouping gives unique (program, offer) keys; each group's count is the number of its rows, at least one; its sum is their total revenue; every row's key has a group; the counts add up to the number of rows |
| Statistics.GetStatistics | bot_commands.py:16-45 | computes the result rows of `get_statistics` for a table and its four arguments; its contract is carried by StatisticsCorrect, GroupsComeFromRows and the two examples |
| Statistics.StatisticsCorrect | bot_commands.py:20-45 | the result of `get_statistics` is the grouping of exactly the rows that pass the filter, with the properties above |
| Statistics.GroupsComeFromRows | bot_commands.py:20-45 | every result group stands for a stored row that passes the filter |
| Statistics.GroupHasRow | bot_commands.py:20-45 | the same for one group, by its index |
| Statistics.ExampleUnfiltered | bot_commands.py:20-45 | for rows A/1/2024-01-01/10, A/1/2024-01-02/5 and B/2/2024-01-01/7, an unfiltered query gives exactly two groups, (A,1) with sum 15 and count 2 and (B,2) with sum 7 and count 1, in no stated order |
| Statistics.ExampleFromSecondDay | bot_commands.py:20-45 | the same rows from start date 2024-01-02 give only (A,1) with sum 5 and count 1 |
| Report.FormatStatsMessage | bot_commands.py:87-100 | the source's loop produces the heading and then one block per row, in row order; an empty result gives the heading and "Нет данных." |
| Report.FormatStats | bot_commands.py:87-100 | computes the message for a result and a title; its contract is carried by NoDataIff, EmptyMessage, BlocksAppend and ReportRoundTrip, and FormatStatsMessage is proved equal to it |
| Report.EmptyMessage | bot_commands.py:88-89 | the empty-result message is `📊 {title}:\n\nНет данных.` |
| Report.NoDataIff | bot_commands.py:88-91 | the message says "Нет данных." exactly when the result is empty |
| Report.BlocksSnoc | bot_commands.py:92-99 | each pass of the loop appends the block of one more row |
| Report.BlocksAppend | bot_commands.py:92-99 | the blocks of two results in a row are the blocks of the first, then those of the second |
| Report.BlocksStart | bot_commands.py:95 | a non-empty report body starts with the pin of its first line |
| Report.ReadBlockRoundTrip | bot_commands.py:94-98 | one row's block reads back as that row |
| Report.ReportRoundTrip | bot_commands.py:87-100 | when no program name or offer id holds a `<`, reading the message with its title gives back the rows, in order |
| Report.ReportDeterminesRows | bot_commands.py:87-100 | two such results with the same title and the same message are the same result |
| Commands.FormatDate | bot_commands.py:65 | a formatted date is ten characters long |
| Commands.FirstOfMonth | bot_commands.py:69 | the first of the month is a valid date in the same month, day 1, never after the date |
| Commands.FormatDateOrder | bot_commands.py:65-70 | formatted dates are equal exactly for equal dates, and compare as text exactly as they compare on the calendar |
| Commands.ChooseAction | bot_commands.py:64-82 | computes what a callback value leads to: a statistics query with its filter and title, a fixed text, or nothing; its contract is carried by StatsFilterOnlyStartDate and TextButtonsFixed |
| Commands.ButtonHandler | bot_commands.py:60-84 | computes the text edited into the message for a callback value, the date and the stored rows; its contract is carried by ButtonHandlerDefined, TextButtonsFixed and StatsMessageShowsStatistics |
| Commands.ButtonHandlerDefined | bot_commands.py:64-84 | the handler produces a message exactly for the five callback values |
| Commands.StatsFilterOnlyStartDate | bot_commands.py:64-71 | only the two statistics buttons query; they give a start date and no end date, offer or program; the start date is today for `stats_today` and the first of the month for `stats_month`; their titles are "Статистика за сегодня" and "Статистика за месяц" |
| Commands.StartingFromMatches | bot_commands.py:65-66 | a row whose date starts with a `%Y-%m-%d` date passes the start-date filter exactly when that date is on or after the start date |
| Commands.MonthIncludesToday | bot_commands.py:64-71 | every row counted for today is counted for the month |
| Commands.TextButtonsFixed | bot_commands.py:72-82 | `mute` shows "🔕 Уведомления отключены.", `unmute` shows "🔔 Уведомления включены." and `help` shows the four-line command list, whatever the date and the stored rows |
| Commands.StatisticsTagFree | bot_commands.py:20-45 | when no stored name or offer id holds a `<`, neither does any result group |
| Commands.StatsMessageShowsStatistics | bot_commands.py:64-71 | when no stored name or offer holds a `<`, a statistics button's message reads back as exactly the groups `get_statistics` returns for its filter |

## Left out

- Sending through the Telegram Bot API, Flask's routing and request parsing, `asyncio`, SQLite connections, logging and environment variables are I/O. The outcome of a send is the `delivered` parameter, and the table is a sequence of rows.
- Commands.FormatDate: `%Y` is written as a four-digit, zero-padded year for all years 1 to 9999. The C library's `strftime` does not pad years below 1000 on every platform, so for those years the ten-character length depends on the platform. A real clock never shows such a year.
- `datetime.now()` is a clock read, so the current date is a parameter of `ButtonHandler`. Dates are limited to the years 1 to 9999, which `datetime` can represent.
- `start`, the keyboard of five buttons and `query.answer()`, is not modelled. It is UI only; the five callback values appear as `Commands.Buttons`.
- The application set-up at the foot of both files is not modelled; it is configuration.
- Postback.Webhook: payload values are strings. A JSON body with numbers, nulls or nested values, where `str()` would render them in Python's syntax, is not modelled. Neither is a query key given twice, where Flask takes the first value.
- Postback.Webhook: the handler itself only ever returns `('OK', 200)`. Every other outcome is `reply == None` in the model, whatever status Flask then answers. A POST body that does not parse as JSON makes `request.json` raise, and Flask answers 400, or 415 when the content type is not JSON. A body that parses to a list, a number or null raises at `data.get`, and a failed send raises too; both end in a 500. The handler sends no client-error reply of its own, and it never answers `200` after a failed send. The status codes Flask chooses are not modelled.
- Statistics.GetStatistics: revenue is an unbounded integer. The floating-point `SUM` SQLite returns for `REAL` columns, and how Python prints such a float in the report (`15.0`), are not modelled. Neither is SQLite's 64-bit integer `SUM`, which raises "integer overflow" instead of returning a larger sum.
- Statistics.GetStatistics: NULL columns and SQLite's type affinity are not modelled. A row's date, offer and program are plain text.
- Statistics.StatisticsCorrect: SQLite does not promise an order for the groups. The model's Aggregate produces them in order of first appearance. StatisticsCorrect and the two examples state no order. Commands.StatsMessageShowsStatistics relates the message to the groups in the order GetStatistics returns them, so its order is the model's, not necessarily SQLite's.
- Report.ReportRoundTrip: requires that no program name or offer id holds a `<`. The source does not escape HTML, so such a value would run into the `</i>` that closes it.
