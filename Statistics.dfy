/**
 * `get_statistics` in bot_commands.py: it builds a parameterised SQL
 * query, one `AND … ?` restriction per filter argument that was given,
 * and runs it against the `conversions` table, which groups the matching
 * rows by (pp_name, offer_id) with SUM(revenue) and COUNT(*).
 *
 * The query text and its parameters are built by BuildQuery, as the
 * source builds them; what the query computes is given by Select and
 * Aggregate over a sequence of rows.
 */
module Statistics {
  import opened Wrappers
  import opened LexOrder
  import opened Sequences

  /** The keyword arguments of `get_statistics`; an argument left out is None. */
  datatype Filter = Filter(startDate: Option<string>, endDate: Option<string>, offerId: Option<string>, ppName: Option<string>)

  /** Python truthiness of an optional string argument: None and '' both count as absent. */
  predicate Given(arg: Option<string>)
  {
    arg.Some? && arg.value != ""
  }

  /** One restriction of the WHERE clause together with the value bound to its `?`. */
  datatype Condition =
    | DateFrom(date: string)
    | DateTo(date: string)
    | OfferIs(offerId: string)
    | ProgramIs(ppName: string)

  /** `cs` followed by `c` when `given` holds, `cs` itself otherwise. */
  function AddIf(cs: seq<Condition>, given: bool, c: Condition): seq<Condition>
  {
    if given then cs + [c] else cs
  }

  /** The value of an argument that is given. */
  function ValueOf(arg: Option<string>): string
  {
    if arg.Some? then arg.value else ""
  }

  /** The restrictions a filter asks for, in the order the source tests the arguments. */
  function Conditions(f: Filter): seq<Condition>
  {
    AddIf(AddIf(AddIf(AddIf([],
      Given(f.startDate), DateFrom(ValueOf(f.startDate))),
      Given(f.endDate), DateTo(ValueOf(f.endDate))),
      Given(f.offerId), OfferIs(ValueOf(f.offerId))),
      Given(f.ppName), ProgramIs(ValueOf(f.ppName)))
  }

  /** The SQL text appended for a restriction. */
  function Sql(c: Condition): string
  {
    match c
    case DateFrom(_) => " AND conversion_date >= ?"
    case DateTo(_) => " AND conversion_date <= ?"
    case OfferIs(_) => " AND offer_id = ?"
    case ProgramIs(_) => " AND pp_name = ?"
  }

  /** The value bound to the restriction's placeholder. */
  function Param(c: Condition): string
  {
    match c
    case DateFrom(d) => d
    case DateTo(d) => d
    case OfferIs(o) => o
    case ProgramIs(p) => p
  }

  function SqlText(cs: seq<Condition>): string
  {
    if cs == [] then "" else SqlText(cs[..|cs| - 1]) + Sql(cs[|cs| - 1])
  }

  function Params(cs: seq<Condition>): (ps: seq<string>)
    ensures |ps| == |cs|
  {
    if cs == [] then [] else Params(cs[..|cs| - 1]) + [Param(cs[|cs| - 1])]
  }

  /** The triple-quoted base query, newlines and indentation included (written in four pieces). */
  const BaseQuery: string :=
    "\n        SELECT pp_name, " + "offer_id, SUM(revenue), COUNT(*)\n" + "        FROM conversions\n" + "        WHERE 1=1\n    "

  const GroupByClause: string := " GROUP BY pp_name, offer_id"

  /** The number of `?` placeholders in a piece of SQL text. */
  function Placeholders(s: string): nat
  {
    if s == [] then 0 else Placeholders(s[..|s| - 1]) + (if s[|s| - 1] == '?' then 1 else 0)
  }

  lemma {:induction false} PlaceholdersAppend(a: string, b: string)
    ensures Placeholders(a + b) == Placeholders(a) + Placeholders(b)
    decreases |b|
  {
    if b != [] {
      assert (a + b)[..|a + b| - 1] == a + b[..|b| - 1];
      PlaceholdersAppend(a, b[..|b| - 1]);
    } else {
      assert a + b == a;
    }
  }

  lemma {:induction false} NoPlaceholders(s: string)
    requires '?' !in s
    ensures Placeholders(s) == 0
    decreases |s|
  {
    if s != [] {
      assert s[|s| - 1] in s;
      NoPlaceholders(s[..|s| - 1]);
    }
  }

  /** Each restriction's text carries exactly one placeholder, at its end. */
  lemma SqlPlaceholder(c: Condition)
    ensures Placeholders(Sql(c)) == 1
  {
    var s := Sql(c);
    NoPlaceholders(s[..|s| - 1]);
  }

  lemma {:induction false} SqlTextPlaceholders(cs: seq<Condition>)
    ensures Placeholders(SqlText(cs)) == |cs|
  {
    if cs != [] {
      SqlTextPlaceholders(cs[..|cs| - 1]);
      PlaceholdersAppend(SqlText(cs[..|cs| - 1]), Sql(cs[|cs| - 1]));
      SqlPlaceholder(cs[|cs| - 1]);
    }
  }

  /** The fixed parts of the query contain no placeholder. */
  lemma FixedTextHasNoPlaceholders()
    ensures Placeholders(BaseQuery) == 0 && Placeholders(GroupByClause) == 0
  {
    var b1, b2, b3, b4 := "\n        SELECT pp_name, ", "offer_id, SUM(revenue), COUNT(*)\n", "        FROM conversions\n", "        WHERE 1=1\n    ";
    FixedPieceHasNoPlaceholders(b1);
    FixedPieceHasNoPlaceholders(b2);
    FixedPieceHasNoPlaceholders(b3);
    FixedPieceHasNoPlaceholders(b4);
    PlaceholdersAppend(b1, b2);
    PlaceholdersAppend(b1 + b2, b3);
    PlaceholdersAppend(b1 + b2 + b3, b4);
    FixedPieceHasNoPlaceholders(GroupByClause);
  }

  lemma FixedPieceHasNoPlaceholders(s: string)
    requires s in {"\n        SELECT pp_name, ", "offer_id, SUM(revenue), COUNT(*)\n", "        FROM conversions\n", "        WHERE 1=1\n    ", GroupByClause}
    ensures Placeholders(s) == 0
  {
    NoPlaceholders(s);
  }

  /** A full query has one placeholder per restriction. */
  lemma QueryPlaceholders(cs: seq<Condition>)
    ensures Placeholders(BaseQuery + SqlText(cs) + GroupByClause) == |cs|
  {
    FixedTextHasNoPlaceholders();
    SqlTextPlaceholders(cs);
    Surround(BaseQuery, SqlText(cs), GroupByClause);
  }

  lemma Surround(a: string, b: string, c: string)
    ensures Placeholders(a + b + c) == Placeholders(a) + Placeholders(b) + Placeholders(c)
  {
    PlaceholdersAppend(a + b, c);
    PlaceholdersAppend(a, b);
  }

  /** One `if` of the builder: the restriction is appended to both the text and the parameters, or to neither. */
  lemma Step(base: string, q0: string, p0: seq<string>, cs: seq<Condition>, given: bool, c: Condition, q1: string, p1: seq<string>)
    requires q0 == base + SqlText(cs) && p0 == Params(cs)
    requires q1 == (if given then q0 + Sql(c) else q0)
    requires p1 == (if given then p0 + [Param(c)] else p0)
    ensures q1 == base + SqlText(AddIf(cs, given, c)) && p1 == Params(AddIf(cs, given, c))
  {
    if given {
      var cs' := cs + [c];
      assert cs'[..|cs'| - 1] == cs && cs'[|cs'| - 1] == c;
      assert SqlText(cs') == SqlText(cs) + Sql(c);
      assert Params(cs') == Params(cs) + [Param(c)];
      AppendAssoc(base, SqlText(cs), Sql(c));
    }
  }

  /**
   * Builds the query text and its parameter list as `get_statistics`
   * does: the base SELECT, one restriction and one parameter for each
   * given argument in the order start_date, end_date, offer_id, pp_name,
   * then the GROUP BY. The placeholders always match the parameters.
   */
  method BuildQuery(f: Filter) returns (query: string, params: seq<string>)
    ensures query == BaseQuery + SqlText(Conditions(f)) + GroupByClause
    ensures params == Params(Conditions(f))
    ensures Placeholders(query) == |params|
  {
    ghost var cs: seq<Condition> := [];
    ghost var q: string, p: seq<string>;
    query := BaseQuery;
    params := [];
    q, p := query, params;
    if Given(f.startDate) {
      query := query + " AND conversion_date >= ?";
      params := params + [f.startDate.value];
    }
    Step(BaseQuery, q, p, cs, Given(f.startDate), DateFrom(ValueOf(f.startDate)), query, params);
    cs := AddIf(cs, Given(f.startDate), DateFrom(ValueOf(f.startDate)));
    q, p := query, params;
    if Given(f.endDate) {
      query := query + " AND conversion_date <= ?";
      params := params + [f.endDate.value];
    }
    Step(BaseQuery, q, p, cs, Given(f.endDate), DateTo(ValueOf(f.endDate)), query, params);
    cs := AddIf(cs, Given(f.endDate), DateTo(ValueOf(f.endDate)));
    q, p := query, params;
    if Given(f.offerId) {
      query := query + " AND offer_id = ?";
      params := params + [f.offerId.value];
    }
    Step(BaseQuery, q, p, cs, Given(f.offerId), OfferIs(ValueOf(f.offerId)), query, params);
    cs := AddIf(cs, Given(f.offerId), OfferIs(ValueOf(f.offerId)));
    q, p := query, params;
    if Given(f.ppName) {
      query := query + " AND pp_name = ?";
      params := params + [f.ppName.value];
    }
    Step(BaseQuery, q, p, cs, Given(f.ppName), ProgramIs(ValueOf(f.ppName)), query, params);
    cs := AddIf(cs, Given(f.ppName), ProgramIs(ValueOf(f.ppName)));
    query := query + GroupByClause;
    QueryPlaceholders(cs);
  }

  /** The values of the given arguments, in order: what `params` ends up holding. */
  function GivenValues(args: seq<Option<string>>): (vs: seq<string>)
    ensures |vs| <= |args|
  {
    if args == [] then []
    else
      var last := args[|args| - 1];
      GivenValues(args[..|args| - 1]) + (if Given(last) then [last.value] else [])
  }

  /**
   * The parameters are exactly the given arguments, one each, in the order
   * start_date, end_date, offer_id, pp_name; None and '' are both skipped.
   */
  lemma ParamsAreGivenArguments(f: Filter)
    ensures Params(Conditions(f)) == GivenValues([f.startDate, f.endDate, f.offerId, f.ppName])
  {
    var a1 := [] + [f.startDate];
    var a2 := a1 + [f.endDate];
    var a3 := a2 + [f.offerId];
    var a4 := a3 + [f.ppName];
    var c1 := AddIf([], Given(f.startDate), DateFrom(ValueOf(f.startDate)));
    var c2 := AddIf(c1, Given(f.endDate), DateTo(ValueOf(f.endDate)));
    var c3 := AddIf(c2, Given(f.offerId), OfferIs(ValueOf(f.offerId)));
    ParamsStep([], [], f.startDate, DateFrom(ValueOf(f.startDate)));
    ParamsStep(c1, a1, f.endDate, DateTo(ValueOf(f.endDate)));
    ParamsStep(c2, a2, f.offerId, OfferIs(ValueOf(f.offerId)));
    ParamsStep(c3, a3, f.ppName, ProgramIs(ValueOf(f.ppName)));
    assert a4 == [f.startDate, f.endDate, f.offerId, f.ppName];
  }

  /** One `if` of the builder adds a parameter exactly when its argument is given. */
  lemma ParamsStep(cs: seq<Condition>, args: seq<Option<string>>, a: Option<string>, c: Condition)
    requires Params(cs) == GivenValues(args) && Param(c) == ValueOf(a)
    ensures Params(AddIf(cs, Given(a), c)) == GivenValues(args + [a])
  {
    AddIfParams(cs, Given(a), c);
    GivenValuesSnoc(args, a);
  }

  lemma GivenValuesSnoc(args: seq<Option<string>>, a: Option<string>)
    ensures GivenValues(args + [a]) == GivenValues(args) + (if Given(a) then [a.value] else [])
  {
    assert (args + [a])[..|args|] == args;
  }

  lemma AddIfParams(cs: seq<Condition>, given: bool, c: Condition)
    ensures Params(AddIf(cs, given, c)) == Params(cs) + (if given then [Param(c)] else [])
  {
    if given {
      assert (cs + [c])[..|cs|] == cs;
    }
  }

  /**
   * With no argument given the query is the base text followed directly
   * by the GROUP BY and there are no parameters; with any argument given
   * there is at least one restriction.
   */
  lemma UnfilteredQuery(f: Filter)
    ensures Conditions(f) == [] <==> !Given(f.startDate) && !Given(f.endDate) && !Given(f.offerId) && !Given(f.ppName)
    ensures Conditions(f) == [] ==> BaseQuery + SqlText(Conditions(f)) + GroupByClause == BaseQuery + GroupByClause
    ensures Conditions(f) == [] ==> Params(Conditions(f)) == []
  {
  }

  /** A stored conversion, as far as the statistics query reads it. */
  datatype Row = Row(ppName: string, offerId: string, conversionDate: string, revenue: int)

  /** What a restriction asks of a row: dates compare as text, ids match exactly. */
  predicate Holds(c: Condition, r: Row)
  {
    match c
    case DateFrom(d) => LexLe(d, r.conversionDate)
    case DateTo(d) => LexLe(r.conversionDate, d)
    case OfferIs(o) => r.offerId == o
    case ProgramIs(p) => r.ppName == p
  }

  /** Every restriction of `cs` holds of the row. */
  predicate AllHold(cs: seq<Condition>, r: Row)
  {
    cs == [] || (AllHold(cs[..|cs| - 1], r) && Holds(cs[|cs| - 1], r))
  }

  /** A row passes the WHERE clause when every restriction holds (`1=1` holds always). */
  predicate Matches(f: Filter, r: Row)
  {
    AllHold(Conditions(f), r)
  }

  /**
   * A stored row contributes to the statistics exactly when its date is
   * not before start_date and not after end_date, and its offer and
   * program are the ones asked for, each test applying only when that
   * argument is given.
   */
  lemma MatchesIff(f: Filter, r: Row)
    ensures Matches(f, r) <==>
      && (Given(f.startDate) ==> LexLe(f.startDate.value, r.conversionDate))
      && (Given(f.endDate) ==> LexLe(r.conversionDate, f.endDate.value))
      && (Given(f.offerId) ==> r.offerId == f.offerId.value)
      && (Given(f.ppName) ==> r.ppName == f.ppName.value)
  {
    var c1 := AddIf([], Given(f.startDate), DateFrom(ValueOf(f.startDate)));
    var c2 := AddIf(c1, Given(f.endDate), DateTo(ValueOf(f.endDate)));
    var c3 := AddIf(c2, Given(f.offerId), OfferIs(ValueOf(f.offerId)));
    AddIfHolds([], Given(f.startDate), DateFrom(ValueOf(f.startDate)), r);
    AddIfHolds(c1, Given(f.endDate), DateTo(ValueOf(f.endDate)), r);
    AddIfHolds(c2, Given(f.offerId), OfferIs(ValueOf(f.offerId)), r);
    AddIfHolds(c3, Given(f.ppName), ProgramIs(ValueOf(f.ppName)), r);
  }

  lemma AddIfHolds(cs: seq<Condition>, given: bool, c: Condition, r: Row)
    ensures AllHold(AddIf(cs, given, c), r) <==> AllHold(cs, r) && (given ==> Holds(c, r))
  {
    if given {
      assert (cs + [c])[..|cs|] == cs;
    }
  }

  /** The rows of the table that pass the WHERE clause, in table order. */
  function Select(table: seq<Row>, f: Filter): seq<Row>
  {
    if table == [] then []
    else
      var last := table[|table| - 1];
      Select(table[..|table| - 1], f) + (if Matches(f, last) then [last] else [])
  }

  /** Each row is selected as often as it occurs in the table when it passes the filter, and never otherwise. */
  lemma {:induction false} SelectCounts(table: seq<Row>, f: Filter)
    ensures forall r :: multiset(Select(table, f))[r] == if Matches(f, r) then multiset(table)[r] else 0
  {
    if table != [] {
      var front, last := table[..|table| - 1], table[|table| - 1];
      var picked := if Matches(f, last) then [last] else [];
      assert table == front + [last];
      assert multiset(table) == multiset(front) + multiset([last]);
      assert multiset(Select(table, f)) == multiset(Select(front, f)) + multiset(picked);
      SelectCounts(front, f);
      forall r
        ensures multiset(Select(table, f))[r] == if Matches(f, r) then multiset(table)[r] else 0
      {
        if r == last {
          assert multiset(picked)[r] == if Matches(f, r) then 1 else 0;
        } else {
          assert multiset(picked)[r] == 0 && multiset([last])[r] == 0;
        }
      }
    }
  }

  /** One result row: `(pp_name, offer_id, SUM(revenue), COUNT(*))`. */
  datatype Group = Group(ppName: string, offerId: string, totalRevenue: int, conversions: nat)

  function KeyOf(r: Row): (string, string)
  {
    (r.ppName, r.offerId)
  }

  function GroupKey(g: Group): (string, string)
  {
    (g.ppName, g.offerId)
  }

  /** The position of the group with key `k`, or `|groups|` when there is none. */
  function Find(groups: seq<Group>, k: (string, string)): (i: nat)
    ensures i <= |groups|
    ensures i < |groups| ==> GroupKey(groups[i]) == k
    ensures forall j | 0 <= j < i :: GroupKey(groups[j]) != k
  {
    if groups == [] then 0
    else if GroupKey(groups[0]) == k then 0
    else 1 + Find(groups[1..], k)
  }

  /** Adds one row to the running groups: its group's sum and count grow, or a new group starts. */
  function AddRow(groups: seq<Group>, r: Row): seq<Group>
  {
    var i := Find(groups, KeyOf(r));
    if i == |groups| then groups + [Group(r.ppName, r.offerId, r.revenue, 1)]
    else groups[i := groups[i].(totalRevenue := groups[i].totalRevenue + r.revenue, conversions := groups[i].conversions + 1)]
  }

  /** `GROUP BY pp_name, offer_id` with `SUM(revenue), COUNT(*)`, groups in order of first appearance. */
  function Aggregate(rows: seq<Row>): seq<Group>
  {
    if rows == [] then [] else AddRow(Aggregate(rows[..|rows| - 1]), rows[|rows| - 1])
  }

  /** What `get_statistics` returns for a table and a filter. */
  function GetStatistics(table: seq<Row>, f: Filter): seq<Group>
  {
    Aggregate(Select(table, f))
  }

  /** The number of rows with key `k`. */
  function CountKey(rows: seq<Row>, k: (string, string)): nat
  {
    if rows == [] then 0
    else CountKey(rows[..|rows| - 1], k) + (if KeyOf(rows[|rows| - 1]) == k then 1 else 0)
  }

  /** The total revenue of the rows with key `k`. */
  function RevenueKey(rows: seq<Row>, k: (string, string)): int
  {
    if rows == [] then 0
    else RevenueKey(rows[..|rows| - 1], k) + (if KeyOf(rows[|rows| - 1]) == k then rows[|rows| - 1].revenue else 0)
  }

  /** The sum of the groups' counts. */
  function TotalCount(groups: seq<Group>): nat
  {
    if groups == [] then 0 else TotalCount(groups[..|groups| - 1]) + groups[|groups| - 1].conversions
  }

  predicate UniqueKeys(groups: seq<Group>)
  {
    forall i, j | 0 <= i < j < |groups| :: GroupKey(groups[i]) != GroupKey(groups[j])
  }

  lemma {:induction false} TotalCountUpdate(groups: seq<Group>, i: nat, g: Group)
    requires i < |groups|
    ensures TotalCount(groups[i := g]) == TotalCount(groups) - groups[i].conversions + g.conversions
    decreases |groups|
  {
    var n := |groups| - 1;
    var u := groups[i := g];
    assert u[..n] == if i < n then groups[..n][i := g] else groups[..n];
    if i < n {
      TotalCountUpdate(groups[..n], i, g);
    }
  }

  /** In groups with unique keys, the group found for a group's own key is that group. */
  lemma FindOwnKey(groups: seq<Group>, i: nat)
    requires UniqueKeys(groups) && i < |groups|
    ensures Find(groups, GroupKey(groups[i])) == i
  {
  }

  lemma FindAbsent(groups: seq<Group>, k: (string, string))
    requires forall j | 0 <= j < |groups| :: GroupKey(groups[j]) != k
    ensures Find(groups, k) == |groups|
  {
  }

  lemma FindAppended(groups: seq<Group>, g: Group, k: (string, string))
    requires Find(groups, k) == |groups| && GroupKey(g) == k
    ensures Find(groups + [g], k) == |groups|
  {
    FindAbsentPrefix(groups + [g], |groups|, k);
  }

  lemma FindAbsentPrefix(groups: seq<Group>, n: nat, k: (string, string))
    requires n < |groups| && GroupKey(groups[n]) == k
    requires forall j | 0 <= j < n :: GroupKey(groups[j]) != k
    ensures Find(groups, k) == n
  {
  }

  /** AddRow keeps every group's key and leaves the groups of other keys as they were. */
  lemma AddRowKeeps(groups: seq<Group>, r: Row, j: nat)
    requires j < |groups|
    ensures j < |AddRow(groups, r)| && GroupKey(AddRow(groups, r)[j]) == GroupKey(groups[j])
    ensures GroupKey(groups[j]) != KeyOf(r) ==> AddRow(groups, r)[j] == groups[j]
  {
  }

  /** Grouping never produces two groups with the same key. */
  lemma {:induction false} AggregateUnique(rows: seq<Row>)
    ensures UniqueKeys(Aggregate(rows))
  {
    if rows != [] {
      var g0, r := Aggregate(rows[..|rows| - 1]), rows[|rows| - 1];
      AggregateUnique(rows[..|rows| - 1]);
      var i := Find(g0, KeyOf(r));
      var g := AddRow(g0, r);
      forall a, b | 0 <= a < b < |g|
        ensures GroupKey(g[a]) != GroupKey(g[b])
      {
        if b < |g0| {
          AddRowKeeps(g0, r, a);
          AddRowKeeps(g0, r, b);
        } else {
          AddRowKeeps(g0, r, a);
        }
      }
    }
  }

  /** Every group counts at least one row. */
  lemma {:induction false} AggregatePositive(rows: seq<Row>)
    ensures forall i | 0 <= i < |Aggregate(rows)| :: Aggregate(rows)[i].conversions >= 1
  {
    if rows != [] {
      AggregatePositive(rows[..|rows| - 1]);
    }
  }

  /** The group of each key holds its count and sum; a key without a group has no rows. */
  ghost predicate TotalsAgree(groups: seq<Group>, rows: seq<Row>)
  {
    forall k :: TotalsAgreeAt(groups, rows, k)
  }

  ghost predicate TotalsAgreeAt(groups: seq<Group>, rows: seq<Row>, k: (string, string))
  {
    var i := Find(groups, k);
    if i < |groups| then groups[i].conversions == CountKey(rows, k) && groups[i].totalRevenue == RevenueKey(rows, k)
    else CountKey(rows, k) == 0 && RevenueKey(rows, k) == 0
  }

  lemma {:induction false} AggregateTotals(rows: seq<Row>)
    ensures TotalsAgree(Aggregate(rows), rows)
  {
    if rows != [] {
      var front := rows[..|rows| - 1];
      AggregateTotals(front);
      AggregateUnique(front);
      forall k
        ensures TotalsAgreeAt(Aggregate(rows), rows, k)
      {
        AddRowTotals(Aggregate(front), front, rows[|rows| - 1], k);
        assert rows == front + [rows[|rows| - 1]];
      }
    }
  }

  /** Adding one row to groups whose totals agree keeps them in agreement, key by key. */
  lemma AddRowTotals(g0: seq<Group>, front: seq<Row>, r: Row, k: (string, string))
    requires UniqueKeys(g0) && TotalsAgreeAt(g0, front, k)
    ensures TotalsAgreeAt(AddRow(g0, r), front + [r], k)
  {
    var g := AddRow(g0, r);
    var rows := front + [r];
    assert rows[..|rows| - 1] == front;
    var j0 := Find(g0, k);
    if k == KeyOf(r) {
      if j0 == |g0| {
        FindAppended(g0, g[|g0|], k);
      } else {
        FindOwnKey(g0, j0);
        AddRowKeeps(g0, r, j0);
        assert Find(g, k) == j0;
      }
    } else if j0 < |g0| {
      FindOwnKey(g0, j0);
      AddRowKeeps(g0, r, j0);
      assert Find(g, k) == j0;
    } else {
      forall j | 0 <= j < |g|
        ensures GroupKey(g[j]) != k
      {
        if j < |g0| {
          AddRowKeeps(g0, r, j);
        }
      }
      FindAbsent(g, k);
    }
  }

  /** The groups' counts add up to the number of rows. */
  lemma {:induction false} AggregateTotalCount(rows: seq<Row>)
    ensures TotalCount(Aggregate(rows)) == |rows|
  {
    if rows != [] {
      var g0, r := Aggregate(rows[..|rows| - 1]), rows[|rows| - 1];
      AggregateTotalCount(rows[..|rows| - 1]);
      var i := Find(g0, KeyOf(r));
      if i < |g0| {
        TotalCountUpdate(g0, i, AddRow(g0, r)[i]);
      } else {
        assert (g0 + [Group(r.ppName, r.offerId, r.revenue, 1)])[..|g0|] == g0;
      }
    }
  }

  /** A row in the sequence makes its key's count positive. */
  lemma {:induction false} CountKeyPositive(rows: seq<Row>, r: Row)
    requires r in rows
    ensures CountKey(rows, KeyOf(r)) > 0
  {
    var front := rows[..|rows| - 1];
    if rows[|rows| - 1] != r {
      assert rows == front + [rows[|rows| - 1]];
      assert r in front;
      CountKeyPositive(front, r);
    }
  }

  /**
   * The groups of a sequence of rows: keys unique, each group's count the
   * number of its rows (at least one) and its sum their total revenue,
   * every row's key present, and the counts adding up to the number of
   * rows.
   */
  lemma AggregateCorrect(rows: seq<Row>)
    ensures var g := Aggregate(rows);
      && UniqueKeys(g)
      && (forall i | 0 <= i < |g| ::
            && g[i].conversions >= 1
            && g[i].conversions == CountKey(rows, GroupKey(g[i]))
            && g[i].totalRevenue == RevenueKey(rows, GroupKey(g[i])))
      && (forall r | r in rows :: Find(g, KeyOf(r)) < |g|)
      && TotalCount(g) == |rows|
  {
    var g := Aggregate(rows);
    AggregateUnique(rows);
    AggregatePositive(rows);
    AggregateTotals(rows);
    AggregateTotalCount(rows);
    forall i | 0 <= i < |g|
      ensures g[i].conversions == CountKey(rows, GroupKey(g[i])) && g[i].totalRevenue == RevenueKey(rows, GroupKey(g[i]))
    {
      FindOwnKey(g, i);
      assert TotalsAgreeAt(g, rows, GroupKey(g[i]));
    }
    forall r | r in rows
      ensures Find(g, KeyOf(r)) < |g|
    {
      CountKeyPositive(rows, r);
      assert TotalsAgreeAt(g, rows, KeyOf(r));
    }
  }

  /**
   * What the statistics query returns: one group per (pp_name, offer_id)
   * among the rows that pass the filter, no key twice, each group's
   * COUNT(*) and SUM(revenue) those of its matching rows, every matching
   * row's key present, and the counts adding up to the number of
   * matching rows. The order of the groups is not promised.
   */
  lemma StatisticsCorrect(table: seq<Row>, f: Filter)
    ensures var g, m := GetStatistics(table, f), Select(table, f);
      && UniqueKeys(g)
      && (forall i | 0 <= i < |g| ::
            && g[i].conversions >= 1
            && g[i].conversions == CountKey(m, GroupKey(g[i]))
            && g[i].totalRevenue == RevenueKey(m, GroupKey(g[i])))
      && (forall r | r in table && Matches(f, r) :: Find(g, KeyOf(r)) < |g|)
      && TotalCount(g) == |m|
  {
    var m := Select(table, f);
    AggregateCorrect(m);
    SelectCounts(table, f);
    forall r | r in table && Matches(f, r)
      ensures r in m
    {
      assert multiset(table)[r] > 0;
    }
  }

  lemma {:induction false} CountKeyWitness(rows: seq<Row>, k: (string, string))
    requires CountKey(rows, k) > 0
    ensures exists r :: r in rows && KeyOf(r) == k
  {
    var front, last := rows[..|rows| - 1], rows[|rows| - 1];
    if KeyOf(last) != k {
      CountKeyWitness(front, k);
      var r :| r in front && KeyOf(r) == k;
      assert r in rows;
    }
  }

  /** Some stored row passes the filter and carries key `k`. */
  predicate HasRow(table: seq<Row>, f: Filter, k: (string, string))
  {
    exists r :: r in table && Matches(f, r) && KeyOf(r) == k
  }

  /** Every group of the result stands for at least one table row that passes the filter. */
  lemma GroupsComeFromRows(table: seq<Row>, f: Filter)
    ensures var g := GetStatistics(table, f);
      forall i | 0 <= i < |g| :: HasRow(table, f, GroupKey(g[i]))
  {
    var g := GetStatistics(table, f);
    forall i | 0 <= i < |g|
      ensures HasRow(table, f, GroupKey(g[i]))
    {
      GroupHasRow(table, f, i);
    }
  }

  /** Group `i` of the result stands for a stored row that passes the filter and carries its key. */
  lemma GroupHasRow(table: seq<Row>, f: Filter, i: int)
    requires 0 <= i < |GetStatistics(table, f)|
    ensures HasRow(table, f, GroupKey(GetStatistics(table, f)[i]))
  {
    var g, m := GetStatistics(table, f), Select(table, f);
    AggregateCorrect(m);
    SelectCounts(table, f);
    CountKeyWitness(m, GroupKey(g[i]));
    var r :| r in m && KeyOf(r) == GroupKey(g[i]);
    assert multiset(m)[r] > 0;
  }

  /** Three stored conversions: two for program A's offer 1 on consecutive days, one for B's offer 2. */
  const ExampleTable: seq<Row> := [
    Row("A", "1", "2024-01-01", 10),
    Row("A", "1", "2024-01-02", 5),
    Row("B", "2", "2024-01-01", 7)]

  lemma SelectSnoc(rows: seq<Row>, r: Row, f: Filter)
    ensures Select(rows + [r], f) == Select(rows, f) + (if Matches(f, r) then [r] else [])
  {
    assert (rows + [r])[..|rows|] == rows;
  }

  lemma AggregateSnoc(rows: seq<Row>, r: Row)
    ensures Aggregate(rows + [r]) == AddRow(Aggregate(rows), r)
  {
    assert (rows + [r])[..|rows|] == rows;
  }

  /**
   * Without a filter, A/1 sums 15 over two conversions and B/2 7 over one,
   * and there is no other group; the order of the two is not stated.
   */
  lemma ExampleUnfiltered()
    ensures var g := GetStatistics(ExampleTable, Filter(None, None, None, None));
      |g| == 2 && Group("A", "1", 15, 2) in g && Group("B", "2", 7, 1) in g
  {
    var f := Filter(None, None, None, None);
    var r1, r2, r3 := ExampleTable[0], ExampleTable[1], ExampleTable[2];
    var t1 := [r1];
    var t2 := t1 + [r2];
    assert ExampleTable == t2 + [r3];
    MatchesIff(f, r1);
    MatchesIff(f, r2);
    MatchesIff(f, r3);
    SelectSnoc([], r1, f);
    SelectSnoc(t1, r2, f);
    SelectSnoc(t2, r3, f);
    AggregateSnoc([], r1);
    AggregateSnoc(t1, r2);
    AggregateSnoc(t2, r3);
    assert Aggregate(t1) == [Group("A", "1", 10, 1)];
    assert Aggregate(t2) == [Group("A", "1", 15, 2)];
    assert GetStatistics(ExampleTable, f) == [Group("A", "1", 15, 2), Group("B", "2", 7, 1)];
  }

  /** From 2024-01-02 on, only A/1's second conversion is left. */
  lemma ExampleFromSecondDay()
    ensures GetStatistics(ExampleTable, Filter(Some("2024-01-02"), None, None, None)) == [Group("A", "1", 5, 1)]
  {
    var f := Filter(Some("2024-01-02"), None, None, None);
    var r1, r2, r3 := Row("A", "1", "2024-01-01", 10), Row("A", "1", "2024-01-02", 5), Row("B", "2", "2024-01-01", 7);
    var t1 := [r1];
    var t2 := t1 + [r2];
    assert ExampleTable == t2 + [r3];
    assert !LexLe("2024-01-02", "2024-01-01") by {
      assert "2024-01-02" == "2024-01-0" + "2" && "2024-01-01" == "2024-01-0" + "1";
      LexLeEqualLengthPrefix("2024-01-0", "2024-01-0", "2", "1");
    }
    LexLeReflexive("2024-01-02");
    assert !Matches(f, r1) && Matches(f, r2) && !Matches(f, r3) by {
      MatchesIff(f, r1);
      MatchesIff(f, r2);
      MatchesIff(f, r3);
    }
    SelectSnoc([], r1, f);
    SelectSnoc(t1, r2, f);
    SelectSnoc(t2, r3, f);
    assert Select(ExampleTable, f) == [] + [r2];
    AggregateSnoc([], r2);
  }
}
