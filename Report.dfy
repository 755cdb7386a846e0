/**
 * `format_stats_message` of bot_commands.py: the HTML text the bot shows
 * for a statistics result, a heading with the title followed by one
 * four-line block per result row, or "no data" when the result is empty.
 */
module Report {
  import opened Wrappers
  import opened Statistics
  import opened Decimal
  import opened Sequences

  /** The text shown instead of blocks when the result is empty. */
  const NoData: string := "Нет данных."

  /** The first line of every statistics message, and the blank line after it. */
  function Heading(title: string): string
  {
    "📊 " + title + ":\n\n"
  }

  /** The captions of a block's four lines, in order. */
  const Labels: seq<string> := ["📌 Партнёрская программа: ", "📌 Оффер: ", "🤑 Общая выплата: ", "📊 Конверсий: "]

  /** One line of a block: the caption, then the value in HTML italics. */
  function Line(caption: string, value: string): string
  {
    caption + "<i>" + value + "</i>\n"
  }

  /** One line per caption, each showing the value at the same position. */
  function Lines(captions: seq<string>, values: seq<string>): string
    requires |captions| == |values|
  {
    if captions == [] then "" else Line(captions[0], values[0]) + Lines(captions[1..], values[1..])
  }

  /** The four values of a result row, as the f-string shows them. */
  function Values(g: Group): (vs: seq<string>)
    ensures |vs| == |Labels|
  {
    [g.ppName, g.offerId, IntToString(g.totalRevenue), NatToString(g.conversions)]
  }

  /** The four lines for one result row, and the blank line that ends them. */
  function Block(g: Group): string
  {
    Lines(Labels, Values(g)) + "\n"
  }

  /** The blocks of the rows, in row order. */
  function Blocks(stats: seq<Group>): string
  {
    if stats == [] then "" else Blocks(stats[..|stats| - 1]) + Block(stats[|stats| - 1])
  }

  /** The message for a result and a title. */
  function FormatStats(stats: seq<Group>, title: string): string
  {
    if stats == [] then Heading(title) + NoData else Heading(title) + Blocks(stats)
  }

  /** The source's loop: the heading, then each row's block appended in turn. */
  method FormatStatsMessage(stats: seq<Group>, title: string) returns (message: string)
    ensures message == FormatStats(stats, title)
  {
    if |stats| == 0 {
      return Heading(title) + NoData;
    }
    message := Heading(title);
    for i := 0 to |stats|
      invariant message == Heading(title) + Blocks(stats[..i])
    {
      var row := stats[i];
      message := message + Block(row);
      BlocksSnoc(stats, i);
      AppendAssoc(Heading(title), Blocks(stats[..i]), Block(row));
    }
    assert stats[..|stats|] == stats;
  }

  /** The blocks of the first i + 1 rows: those of the first i, then row i's. */
  lemma BlocksSnoc(stats: seq<Group>, i: nat)
    requires i < |stats|
    ensures Blocks(stats[..i + 1]) == Blocks(stats[..i]) + Block(stats[i])
  {
    assert stats[..i + 1][..i] == stats[..i];
  }

  /** The report of a concatenation is the concatenation of the reports: one block per row, in row order. */
  lemma {:induction false} BlocksAppend(a: seq<Group>, b: seq<Group>)
    ensures Blocks(a + b) == Blocks(a) + Blocks(b)
    decreases |b|
  {
    if b == [] {
      assert a + b == a;
    } else {
      var c, last := b[..|b| - 1], b[|b| - 1];
      var ab := a + b;
      assert ab[..|ab| - 1] == a + c && ab[|ab| - 1] == last;
      BlocksLast(ab);
      BlocksLast(b);
      BlocksAppend(a, c);
      AppendAssoc(Blocks(a), Blocks(c), Block(last));
    }
  }

  /** The definition of Blocks read from the last row. */
  lemma BlocksLast(stats: seq<Group>)
    requires stats != []
    ensures Blocks(stats) == Blocks(stats[..|stats| - 1]) + Block(stats[|stats| - 1])
  {
  }

  /** Every non-empty report starts with the pin of its first block. */
  lemma {:induction false} BlocksStart(stats: seq<Group>)
    requires stats != []
    ensures |Blocks(stats)| > 0 && Blocks(stats)[0] == '📌'
  {
    var front := stats[..|stats| - 1];
    if front != [] {
      BlocksStart(front);
    }
  }

  /** The message says "no data" exactly when the result is empty. */
  lemma NoDataIff(stats: seq<Group>, title: string)
    ensures FormatStats(stats, title) == Heading(title) + NoData <==> stats == []
  {
    if stats != [] {
      BlocksStart(stats);
      var h := Heading(title);
      assert (h + Blocks(stats))[|h|] == '📌';
      assert (h + NoData)[|h|] == 'Н';
    }
  }

  /** The empty-result message as the source writes it in one piece. */
  lemma EmptyMessage(title: string)
    ensures FormatStats([], title) == "📊 " + title + ":\n\nНет данных."
  {
  }

  /*
   * Reading a report back. Values are interpolated without HTML escaping,
   * so a report determines its rows only when no name or offer id holds a
   * '<'; under that condition the reader below recovers the rows exactly,
   * in order.
   */

  /** The text after `prefix`, when `s` starts with it. */
  function Strip(prefix: string, s: string): (r: Option<string>)
    ensures r.Some? ==> |r.value| == |s| - |prefix|
  {
    if prefix == [] then Some(s)
    else if s == [] || s[0] != prefix[0] then None
    else Strip(prefix[1..], s[1..])
  }

  lemma {:induction false} StripPrefix(prefix: string, t: string)
    ensures Strip(prefix, prefix + t) == Some(t)
  {
    if prefix == [] {
      assert prefix + t == t;
    } else {
      assert (prefix + t)[1..] == prefix[1..] + t;
      StripPrefix(prefix[1..], t);
    }
  }

  /** Splits at the first '<': the text before it, and the text from it on. */
  function SplitAtTag(s: string): (r: (string, string))
    ensures |r.1| <= |s|
  {
    if s == [] || s[0] == '<' then ([], s)
    else
      var (v, t) := SplitAtTag(s[1..]);
      ([s[0]] + v, t)
  }

  lemma {:induction false} SplitAtTagStops(v: string, t: string)
    requires '<' !in v && |t| > 0 && t[0] == '<'
    ensures SplitAtTag(v + t) == (v, t)
  {
    if v == [] {
      assert v + t == t;
    } else {
      assert (v + t)[1..] == v[1..] + t;
      assert v[0] in v;
      SplitAtTagStops(v[1..], t);
      assert [v[0]] + v[1..] == v;
    }
  }

  /** Reads one line with the given caption: its value and the text after it. */
  function ReadLine(caption: string, s: string): (r: Option<(string, string)>)
    ensures r.Some? ==> |r.value.1| < |s|
  {
    var t := Strip(caption + "<i>", s);
    if t.None? then None
    else
      var (v, after) := SplitAtTag(t.value);
      var rest := Strip("</i>\n", after);
      if rest.None? then None else Some((v, rest.value))
  }

  lemma ReadLineRoundTrip(caption: string, v: string, rest: string)
    requires '<' !in v
    ensures ReadLine(caption, Line(caption, v) + rest) == Some((v, rest))
  {
    var close := "</i>\n" + rest;
    assert Line(caption, v) + rest == (caption + "<i>") + (v + close);
    StripPrefix(caption + "<i>", v + close);
    SplitAtTagStops(v, close);
    StripPrefix("</i>\n", rest);
  }

  /** Reads one line per caption: the values shown and the text after the last line. */
  function ReadLines(captions: seq<string>, s: string): (r: Option<(seq<string>, string)>)
    ensures r.Some? ==> |r.value.0| == |captions| && |r.value.1| <= |s|
  {
    if captions == [] then Some(([], s))
    else
      var l := ReadLine(captions[0], s);
      if l.None? then None
      else
        var more := ReadLines(captions[1..], l.value.1);
        if more.None? then None else Some(([l.value.0] + more.value.0, more.value.1))
  }

  lemma {:induction false} LinesRoundTrip(captions: seq<string>, values: seq<string>, rest: string)
    requires |captions| == |values|
    requires forall i | 0 <= i < |values| :: '<' !in values[i]
    ensures ReadLines(captions, Lines(captions, values) + rest) == Some((values, rest))
  {
    if captions == [] {
      assert Lines(captions, values) + rest == rest;
    } else {
      var first := Line(captions[0], values[0]);
      var more := Lines(captions[1..], values[1..]);
      var s := Lines(captions, values) + rest;
      AppendAssoc(first, more, rest);
      assert s == first + (more + rest);
      ReadLineRoundTrip(captions[0], values[0], more + rest);
      assert forall i | 0 <= i < |values[1..]| :: values[1..][i] == values[i + 1];
      LinesRoundTrip(captions[1..], values[1..], rest);
      ReadLinesStep(captions, s, values[0], more + rest);
      assert [values[0]] + values[1..] == values;
    }
  }

  /** One step of the line reader: a line read off the front, then the remaining captions. */
  lemma ReadLinesStep(captions: seq<string>, s: string, v: string, rest: string)
    requires captions != [] && ReadLine(captions[0], s) == Some((v, rest))
    ensures ReadLines(captions, s) ==
      var more := ReadLines(captions[1..], rest);
      if more.None? then None else Some(([v] + more.value.0, more.value.1))
  {
  }

  /** Reads one block: the row it shows and the text after it. */
  function ReadBlock(s: string): (r: Option<(Group, string)>)
    ensures r.Some? ==> |r.value.1| < |s|
  {
    var lines := ReadLines(Labels, s);
    if lines.None? then None
    else
      var vs, rest := lines.value.0, lines.value.1;
      var revenue := ParseInt(vs[2]);
      if revenue.None? || vs[3] == [] || !AllDigits(vs[3]) || rest == [] || rest[0] != '\n' then None
      else Some((Group(vs[0], vs[1], revenue.value, ParseNat(vs[3])), rest[1..]))
  }

  /** Numbers as the report writes them never contain a '<'. */
  lemma NumbersHaveNoTag(n: int, c: nat)
    ensures '<' !in IntToString(n) && '<' !in NatToString(c)
  {
    var a, b := NatToString(if n < 0 then -n else n), NatToString(c);
    assert forall i | 0 <= i < |a| :: IsDigit(a[i]);
    assert forall i | 0 <= i < |b| :: IsDigit(b[i]);
  }

  lemma ReadBlockRoundTrip(g: Group, rest: string)
    requires '<' !in g.ppName && '<' !in g.offerId
    ensures ReadBlock(Block(g) + rest) == Some((g, rest))
  {
    var vs := Values(g);
    NumbersHaveNoTag(g.totalRevenue, g.conversions);
    AppendAssoc(Lines(Labels, vs), "\n", rest);
    LinesRoundTrip(Labels, vs, "\n" + rest);
    IntToStringRoundTrip(g.totalRevenue);
    NatToStringRoundTrip(g.conversions);
    assert ("\n" + rest)[1..] == rest;
  }

  /** Reads a run of blocks to the end of the text. */
  function ReadBlocks(s: string): Option<seq<Group>>
    decreases |s|
  {
    if s == [] then Some([])
    else
      var b := ReadBlock(s);
      if b.None? then None
      else
        var more := ReadBlocks(b.value.1);
        if more.None? then None else Some([b.value.0] + more.value)
  }

  /** No row's name or offer id holds a '<'. */
  predicate TagFree(stats: seq<Group>)
  {
    forall i | 0 <= i < |stats| :: '<' !in stats[i].ppName && '<' !in stats[i].offerId
  }

  /** The definition of Blocks read from the first row. */
  lemma BlocksFirst(stats: seq<Group>)
    requires stats != []
    ensures Blocks(stats) == Block(stats[0]) + Blocks(stats[1..])
  {
    var first, tail := [stats[0]], stats[1..];
    assert stats == first + tail;
    BlocksAppend(first, tail);
    BlocksSingle(stats[0]);
  }

  lemma BlocksSingle(g: Group)
    ensures Blocks([g]) == Block(g)
  {
    assert [g][..0] == [];
    assert Blocks([g]) == "" + Block(g);
  }

  /** One step of the reader: a block read off the front, then the rest. */
  lemma ReadBlocksStep(s: string, g: Group, rest: string)
    requires ReadBlock(s) == Some((g, rest))
    ensures ReadBlocks(s) == if ReadBlocks(rest).None? then None else Some([g] + ReadBlocks(rest).value)
  {
  }

  /** The first block of a report reads back as the first row, followed by the other rows' blocks. */
  lemma ReadFirstBlock(stats: seq<Group>)
    requires stats != [] && TagFree(stats)
    ensures ReadBlock(Blocks(stats)) == Some((stats[0], Blocks(stats[1..])))
  {
    BlocksFirst(stats);
    ReadBlockRoundTrip(stats[0], Blocks(stats[1..]));
  }

  lemma TagFreeTail(stats: seq<Group>)
    requires stats != [] && TagFree(stats)
    ensures TagFree(stats[1..])
  {
    forall i | 0 <= i < |stats| - 1
      ensures '<' !in stats[1..][i].ppName && '<' !in stats[1..][i].offerId
    {
      assert stats[1..][i] == stats[i + 1];
    }
  }

  lemma {:induction false} ReadBlocksRoundTrip(stats: seq<Group>)
    requires TagFree(stats)
    ensures ReadBlocks(Blocks(stats)) == Some(stats)
    decreases |stats|
  {
    if stats != [] {
      var g, tail := stats[0], stats[1..];
      ReadFirstBlock(stats);
      ReadBlocksStep(Blocks(stats), g, Blocks(tail));
      TagFreeTail(stats);
      ReadBlocksRoundTrip(tail);
      assert [g] + tail == stats;
    }
  }

  /** Reads a statistics message with a known title back into its rows. */
  function ReadReport(message: string, title: string): Option<seq<Group>>
  {
    var h := Heading(title);
    if |message| < |h| || message[..|h|] != h then None
    else
      var body := message[|h|..];
      if body == NoData then Some([])
      else if body == [] then None
      else ReadBlocks(body)
  }

  /**
   * The message shows every row verbatim and in order: when no name or
   * offer id holds a '<', reading the message back gives the rows.
   */
  lemma ReportRoundTrip(stats: seq<Group>, title: string)
    requires TagFree(stats)
    ensures ReadReport(FormatStats(stats, title), title) == Some(stats)
  {
    var h := Heading(title);
    if stats == [] {
      assert (h + NoData)[..|h|] == h && (h + NoData)[|h|..] == NoData;
    } else {
      var body := Blocks(stats);
      assert (h + body)[..|h|] == h && (h + body)[|h|..] == body;
      BlocksStart(stats);
      assert body[0] != NoData[0];
      ReadBlocksRoundTrip(stats);
    }
  }

  /** Two tag-free results with the same title and the same message are the same result. */
  lemma ReportDeterminesRows(a: seq<Group>, b: seq<Group>, title: string)
    requires TagFree(a) && TagFree(b)
    requires FormatStats(a, title) == FormatStats(b, title)
    ensures a == b
  {
    ReportRoundTrip(a, title);
    ReportRoundTrip(b, title);
  }
}
