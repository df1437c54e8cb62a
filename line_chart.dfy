/** `GET /api/line-chart-data`: the per-day total of one feature over the
    analytics rows that match the optional age, gender and date filters. Unlike
    the bar-data endpoint, this handler writes every value straight into the
    statement text between single quotes (the feature name lower-cased inside
    `SUM("...")`) and sends no parameter array; the model keeps it that way. */
module LineChart {
  import opened Common
  import Casing

  /** The query-string fields the endpoint reads. */
  datatype Request = Request(feature: Option<string>, age: Option<string>, gender: Option<string>,
                             startDate: Option<string>, endDate: Option<string>)

  /** A filter the handler appends, with the value it writes into the text. */
  datatype Clause =
    | AgeIs(age: string)
    | GenderIs(gender: string)
    | DayBetween(from: string, to: string)
    | DayFrom(from: string)
    | DayUntil(to: string)

  predicate IsDateClause(c: Clause) {
    c.DayBetween? || c.DayFrom? || c.DayUntil?
  }

  /** The text appended for a clause: the value between quotes, unescaped. */
  function ClauseText(c: Clause): string {
    match c
    case AgeIs(a) => " AND \"age\" = '" + a + "' "
    case GenderIs(g) => " AND \"gender\" = '" + g + "' "
    case DayBetween(s, e) => " AND \"day\" BETWEEN '" + s + "' AND '" + e + "' "
    case DayFrom(s) => " AND \"day\" >= '" + s + "' "
    case DayUntil(e) => " AND \"day\" <= '" + e + "' "
  }

  /** The clauses' texts in order. */
  function Render(cs: seq<Clause>): string
    decreases |cs|
  {
    if cs == [] then "" else Render(cs[..|cs| - 1]) + ClauseText(cs[|cs| - 1])
  }

  lemma RenderSnoc(cs: seq<Clause>, c: Clause)
    ensures Render(cs + [c]) == Render(cs) + ClauseText(c)
  {
    assert (cs + [c])[..|cs|] == cs;
  }

  /** The statement text before any filter: the lower-cased feature is the summed column. */
  function Head(feature: string): string {
    "\n      SELECT day AS date, SUM(\"" + Casing.LowerString(feature)
    + "\") AS timeSpent\n      FROM analytics\n      WHERE 1=1\n    "
  }

  function Tail(): string {
    "GROUP BY \"day\" ORDER BY \"day\" ASC;"
  }

  /** The date filter: a range when both ends are supplied, otherwise a
      one-sided bound for the end that is, otherwise none. */
  function DateFilter(r: Request): seq<Clause> {
    if Supplied(r.startDate) && Supplied(r.endDate) then [DayBetween(r.startDate.value, r.endDate.value)]
    else if Supplied(r.startDate) then [DayFrom(r.startDate.value)]
    else if Supplied(r.endDate) then [DayUntil(r.endDate.value)]
    else []
  }

  function AgeFilter(r: Request): seq<Clause> {
    if Supplied(r.age) then [AgeIs(r.age.value)] else []
  }

  /** The gender filter compares with the normalised value. */
  function GenderFilter(r: Request): seq<Clause> {
    if Supplied(r.gender) then [GenderIs(Casing.Capitalize(r.gender.value))] else []
  }

  /** The filters in the order the handler appends them. */
  function LineClauses(r: Request): seq<Clause> {
    AgeFilter(r) + GenderFilter(r) + DateFilter(r)
  }

  /** The statement the handler sends to the store once `feature` is known to be supplied. */
  function LineSql(r: Request): string
    requires Supplied(r.feature)
  {
    Head(r.feature.value) + Render(LineClauses(r)) + Tail()
  }

  /** The date clauses among `cs`, in order. */
  function DateClauses(cs: seq<Clause>): (ds: seq<Clause>)
    ensures |ds| <= |cs|
    ensures forall i :: 0 <= i < |ds| ==> IsDateClause(ds[i])
    decreases |cs|
  {
    if cs == [] then []
    else (if IsDateClause(cs[0]) then [cs[0]] else []) + DateClauses(cs[1..])
  }

  lemma {:induction false} DateClausesAppend(a: seq<Clause>, b: seq<Clause>)
    ensures DateClauses(a + b) == DateClauses(a) + DateClauses(b)
    decreases |a|
  {
    if a == [] {
      assert a + b == b;
    } else {
      assert (a + b)[0] == a[0];
      assert (a + b)[1..] == a[1..] + b;
      DateClausesAppend(a[1..], b);
    }
  }

  /** The four date cases: a single BETWEEN when both ends are supplied, a
      single `>=` for the start alone, a single `<=` for the end alone, and no
      date clause at all otherwise. */
  lemma DateClauseCases(r: Request)
    ensures Supplied(r.startDate) && Supplied(r.endDate) ==>
      DateClauses(LineClauses(r)) == [DayBetween(r.startDate.value, r.endDate.value)]
    ensures Supplied(r.startDate) && !Supplied(r.endDate) ==>
      DateClauses(LineClauses(r)) == [DayFrom(r.startDate.value)]
    ensures !Supplied(r.startDate) && Supplied(r.endDate) ==>
      DateClauses(LineClauses(r)) == [DayUntil(r.endDate.value)]
    ensures !Supplied(r.startDate) && !Supplied(r.endDate) ==> DateClauses(LineClauses(r)) == []
  {
    var ag := AgeFilter(r) + GenderFilter(r);
    DateClausesAppend(ag, DateFilter(r));
    assert DateClauses(ag) == [] by {
      if Supplied(r.age) {
        DateClausesAppend([AgeIs(r.age.value)], ag[1..]);
        assert ag == [AgeIs(r.age.value)] + ag[1..];
      }
    }
  }

  /** An age or gender clause is applied exactly when that field is supplied,
      and both come before the date clause. */
  lemma AgeGenderClauses(r: Request)
    ensures Supplied(r.age) <==> |LineClauses(r)| > 0 && LineClauses(r)[0].AgeIs?
    ensures Supplied(r.age) ==> LineClauses(r)[0] == AgeIs(r.age.value)
    ensures Supplied(r.gender) <==> exists i :: 0 <= i < |LineClauses(r)| && LineClauses(r)[i].GenderIs?
    ensures forall i :: 0 <= i < |LineClauses(r)| && LineClauses(r)[i].GenderIs? ==>
      Supplied(r.gender) && LineClauses(r)[i] == GenderIs(Casing.Capitalize(r.gender.value))
    ensures forall i :: 0 <= i < |LineClauses(r)| - 1 ==> !IsDateClause(LineClauses(r)[i])
  {
    var cs := LineClauses(r);
    if Supplied(r.gender) {
      var i := if Supplied(r.age) then 1 else 0;
      assert cs[i].GenderIs?;
    }
  }

  /** The age value is written verbatim into the text, between the quotes
      that follow its comparison. */
  lemma AgeInterpolated(r: Request)
    requires Supplied(r.feature) && Supplied(r.age)
    ensures LineSql(r) == (Head(r.feature.value) + " AND \"age\" = '") + r.age.value
                          + ("' " + Render(GenderFilter(r) + DateFilter(r)) + Tail())
  {
    var cs := LineClauses(r);
    var a := r.age.value;
    var later := GenderFilter(r) + DateFilter(r);
    assert cs == [AgeIs(a)] + later;
    RenderConsAge(a, later);
    var h, l, q, rest, t := Head(r.feature.value), " AND \"age\" = '", "' ", Render(later), Tail();
    assert Render(cs) == ((l + a) + q) + rest;
    assert LineSql(r) == (h + (((l + a) + q) + rest)) + t;
    Assoc(l + a, q, rest);
    Assoc(l, a, q + rest);
    Assoc(h, l, a + (q + rest));
    Assoc(h + l, a, q + rest);
    Assoc((h + l) + a, q + rest, t);
    Assoc(q, rest, t);
  }

  lemma {:induction false} RenderCons(c: Clause, cs: seq<Clause>)
    ensures Render([c] + cs) == ClauseText(c) + Render(cs)
    decreases |cs|
  {
    if cs == [] {
      assert [c] + cs == [] + [c];
      RenderSnoc([], c);
    } else {
      var init := cs[..|cs| - 1];
      var last := cs[|cs| - 1];
      assert cs == init + [last];
      assert [c] + cs == ([c] + init) + [last];
      RenderSnoc([c] + init, last);
      RenderCons(c, init);
      RenderSnoc(init, last);
      var t := ClauseText(c);
      var ri := Render(init);
      var tl := ClauseText(last);
      assert Render([c] + cs) == (t + ri) + tl;
      assert Render(cs) == ri + tl;
      Assoc(t, ri, tl);
    }
  }

  lemma RenderConsAge(a: string, cs: seq<Clause>)
    ensures Render([AgeIs(a)] + cs) == " AND \"age\" = '" + a + "' " + Render(cs)
  {
    RenderCons(AgeIs(a), cs);
  }

  /** A text spliced between the same two texts determines the result. */
  lemma SpliceInjective(p: string, a: string, b: string, s: string)
    requires p + a + s == p + b + s
    ensures a == b
  {
    assert |a| == |b|;
    assert a == (p + a + s)[|p|..|p| + |a|];
    assert b == (p + b + s)[|p|..|p| + |b|];
  }

  /** Different age values give different statements: the value is part of
      the code sent to the store, not a bound parameter. */
  lemma AgeChangesText(r: Request, age: string)
    requires Supplied(r.feature) && Supplied(r.age) && age != "" && age != r.age.value
    ensures LineSql(r) != LineSql(r.(age := Some(age)))
  {
    var r' := r.(age := Some(age));
    AgeInterpolated(r);
    AgeInterpolated(r');
    assert GenderFilter(r) == GenderFilter(r') && DateFilter(r) == DateFilter(r');
    if LineSql(r) == LineSql(r') {
      SpliceInjective(Head(r.feature.value) + " AND \"age\" = '", r.age.value, age,
                      "' " + Render(GenderFilter(r) + DateFilter(r)) + Tail());
    }
  }

  /** The literal texts the handler appends are those of the clauses. */
  lemma AgeLiteral(q: string, a: string)
    ensures q + " AND \"age\" = '" + a + "' " == q + ClauseText(AgeIs(a))
  {
  }

  lemma GenderLiteral(q: string, g: string)
    ensures q + " AND \"gender\" = '" + g + "' " == q + ClauseText(GenderIs(g))
  {
  }

  lemma BetweenLiteral(q: string, s: string, e: string)
    ensures q + " AND \"day\" BETWEEN '" + s + "' AND '" + e + "' " == q + ClauseText(DayBetween(s, e))
  {
  }

  lemma FromLiteral(q: string, s: string)
    ensures q + " AND \"day\" >= '" + s + "' " == q + ClauseText(DayFrom(s))
  {
  }

  lemma UntilLiteral(q: string, e: string)
    ensures q + " AND \"day\" <= '" + e + "' " == q + ClauseText(DayUntil(e))
  {
  }

  /** Appending a clause's literal text keeps the statement equal to the head
      followed by the clauses appended so far. */
  lemma AppendClause(h: string, query: string, done: seq<Clause>, c: Clause, appended: string)
    requires query == h + Render(done) && appended == query + ClauseText(c)
    ensures appended == h + Render(done + [c])
  {
    RenderSnoc(done, c);
    Assoc(h, Render(done), ClauseText(c));
  }

  /** The handler's statement building, one `+=` per supplied filter. */
  method BuildLineQuery(r: Request) returns (query: string)
    requires Supplied(r.feature)
    ensures query == LineSql(r)
  {
    var feature := r.feature.value;
    ghost var h := Head(feature);
    query := "\n      SELECT day AS date, SUM(\"" + Casing.LowerString(feature)
      + "\") AS timeSpent\n      FROM analytics\n      WHERE 1=1\n    ";
    assert query == h + Render([]);
    if Supplied(r.age) {
      ghost var q := query;
      query := query + " AND \"age\" = '" + r.age.value + "' ";
      assert query == h + Render([] + [AgeIs(r.age.value)]) by {
        AgeLiteral(q, r.age.value);
        AppendClause(h, q, [], AgeIs(r.age.value), query);
      }
    }
    assert query == h + Render(AgeFilter(r));
    if Supplied(r.gender) {
      var formattedGender := Casing.Capitalize(r.gender.value);
      ghost var q := query;
      query := query + " AND \"gender\" = '" + formattedGender + "' ";
      assert query == h + Render(AgeFilter(r) + [GenderIs(formattedGender)]) by {
        GenderLiteral(q, formattedGender);
        AppendClause(h, q, AgeFilter(r), GenderIs(formattedGender), query);
      }
    }
    assert query == h + Render(AgeFilter(r) + GenderFilter(r));
    query := AppendDateFilter(h, AgeFilter(r) + GenderFilter(r), query, r);
    query := query + "GROUP BY \"day\" ORDER BY \"day\" ASC;";
  }

  /** The date block of the handler: a range, a lower bound, an upper bound or nothing. */
  method AppendDateFilter(ghost h: string, ghost done: seq<Clause>, query: string, r: Request) returns (query': string)
    requires query == h + Render(done)
    ensures query' == h + Render(done + DateFilter(r))
  {
    query' := query;
    if Supplied(r.startDate) && Supplied(r.endDate) {
      query' := query' + " AND \"day\" BETWEEN '" + r.startDate.value + "' AND '" + r.endDate.value + "' ";
      BetweenLiteral(query, r.startDate.value, r.endDate.value);
    } else if Supplied(r.startDate) {
      query' := query' + " AND \"day\" >= '" + r.startDate.value + "' ";
      FromLiteral(query, r.startDate.value);
    } else if Supplied(r.endDate) {
      query' := query' + " AND \"day\" <= '" + r.endDate.value + "' ";
      UntilLiteral(query, r.endDate.value);
    } else {
      assert done + DateFilter(r) == done;
      return;
    }
    AppendClause(h, query, done, DateFilter(r)[0], query');
    assert done + [DateFilter(r)[0]] == done + DateFilter(r);
  }

  /** One row of the grouped result: the day and the total as the store sends it (text). */
  datatype Row = Row(date: string, timespent: string)

  /** One element of the response's `data`. */
  datatype Point = Point(date: string, timeSpent: int)

  datatype LineBody = ErrorJson(error: string) | MessageJson(message: string) | Series(feature: string, data: seq<Point>)

  /** `rows.map(...)`: one point per row, in the rows' order; `parseInt(_, 10)`
      is the conversion passed in. */
  function ToPoints(rows: seq<Row>, parseInt: string -> int): (ps: seq<Point>)
    ensures |ps| == |rows|
    ensures forall i :: 0 <= i < |rows| ==> ps[i] == Point(rows[i].date, parseInt(rows[i].timespent))
    decreases |rows|
  {
    if rows == [] then [] else [Point(rows[0].date, parseInt(rows[0].timespent))] + ToPoints(rows[1..], parseInt)
  }

  /** The rows' days in order. */
  function RowDates(rows: seq<Row>): seq<string> {
    seq(|rows|, i requires 0 <= i < |rows| => rows[i].date)
  }

  function PointDates(ps: seq<Point>): seq<string> {
    seq(|ps|, i requires 0 <= i < |ps| => ps[i].date)
  }

  /** The days of the response are the days of the rows, in the same order, so
      the store's `ORDER BY "day" ASC` and one row per day carry over. */
  lemma ToPointsKeepsDays(rows: seq<Row>, parseInt: string -> int)
    ensures PointDates(ToPoints(rows, parseInt)) == RowDates(rows)
  {
  }

  /** The response for what the store returned. */
  function LineResponse(feature: string, result: DbResult<seq<Row>>, parseInt: string -> int): (resp: Response<LineBody>)
    ensures resp.status == 500 <==> result.DbError?
    ensures resp.status == 404 <==> result.Rows? && result.rows == []
    ensures resp.status == 200 <==> result.Rows? && result.rows != []
    ensures resp.status == 200 ==> resp.body == Series(feature, ToPoints(result.rows, parseInt))
    ensures resp.status == 404 ==> resp.body == MessageJson("No data found for the given parameters")
    ensures resp.status == 500 ==> resp.body == ErrorJson("Internal Server Error")
  {
    match result
    case DbError => Response(500, ErrorJson("Internal Server Error"))
    case Rows(rows) =>
      if |rows| == 0 then Response(404, MessageJson("No data found for the given parameters"))
      else Response(200, Series(feature, ToPoints(rows, parseInt)))
  }

  /** The whole handler. `issued` is the statement sent to the store, if any;
      the method sets it next to its call of `store`, so its value is a record
      kept by the model, not something observed of the store. What makes the
      400 path free of any query is that its reply, as the contract states it,
      does not mention `store` at all. */
  method LineChartHandler(r: Request, store: string -> DbResult<seq<Row>>, parseInt: string -> int)
    returns (resp: Response<LineBody>, issued: Option<string>)
    ensures resp.status == 400 <==> !Supplied(r.feature)
    ensures !Supplied(r.feature) ==>
      issued == None && resp.body == ErrorJson("Missing required 'feature' query parameter")
    ensures Supplied(r.feature) ==>
      issued == Some(LineSql(r)) && resp == LineResponse(r.feature.value, store(LineSql(r)), parseInt)
  {
    if !Supplied(r.feature) {
      return Response(400, ErrorJson("Missing required 'feature' query parameter")), None;
    }
    var query := BuildLineQuery(r);
    issued := Some(query);
    var result := store(query);
    resp := LineResponse(r.feature.value, result, parseInt);
  }
}
