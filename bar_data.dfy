/** `GET /api/bar-data`: the six feature totals over the analytics rows that
    match the optional age, gender and date-range filters. The query text only
    ever carries positional parameters (`$1`, `$2`, ...); the filter values
    travel in a separate parameter array that the store binds to them. */
module BarData {
  import opened Common
  import opened Placeholders
  import Casing

  /** The query-string fields the endpoint reads. */
  datatype Filters = Filters(age: Option<string>, gender: Option<string>,
                             startDate: Option<string>, endDate: Option<string>)

  /** The clause texts, each followed by the parameter it compares with. */
  function AgeText(): string {
    " AND \"age\" = "
  }

  function GenderText(): string {
    " AND \"gender\" = "
  }

  /** The date range: the day between the first parameter and the second. */
  function FromText(): string {
    " AND \"day\" BETWEEN "
  }

  function ToText(): string {
    " AND "
  }

  lemma FilterTextsPlain()
    ensures PlainText(AgeText()) && PlainText(GenderText())
    ensures PlainText(FromText()) && PlainText(ToText())
  {
  }

  /** One line of the select list: the total of `column` named `feature_<name>`. */
  function SumLine(column: char, name: char, sep: string): string {
    "        SUM(\"" + [column] + "\") AS feature_" + [name] + sep + "\n"
  }

  /** The statement text before any filter is appended. */
  function BaseQuery(): string {
    "\n      SELECT\n"
    + SumLine('a', 'A', ",") + SumLine('b', 'B', ",") + SumLine('c', 'C', ",")
    + SumLine('d', 'D', ",") + SumLine('e', 'E', ",") + SumLine('f', 'F', "")
    + "      FROM \"analytics\"\n"
    + "      WHERE 1=1\n    "
  }

  lemma SumLineNoDollar(column: char, name: char, sep: string)
    requires column != '$' && name != '$' && NoDollar(sep)
    ensures NoDollar(SumLine(column, name, sep))
  {
  }

  lemma BaseQueryNoDollar()
    ensures NoDollar(BaseQuery())
  {
    var s := "\n      SELECT\n";
    SumLineNoDollar('a', 'A', ",");
    NoDollarAppend(s, SumLine('a', 'A', ","));
    s := s + SumLine('a', 'A', ",");
    SumLineNoDollar('b', 'B', ",");
    NoDollarAppend(s, SumLine('b', 'B', ","));
    s := s + SumLine('b', 'B', ",");
    SumLineNoDollar('c', 'C', ",");
    NoDollarAppend(s, SumLine('c', 'C', ","));
    s := s + SumLine('c', 'C', ",");
    SumLineNoDollar('d', 'D', ",");
    NoDollarAppend(s, SumLine('d', 'D', ","));
    s := s + SumLine('d', 'D', ",");
    SumLineNoDollar('e', 'E', ",");
    NoDollarAppend(s, SumLine('e', 'E', ","));
    s := s + SumLine('e', 'E', ",");
    SumLineNoDollar('f', 'F', "");
    NoDollarAppend(s, SumLine('f', 'F', ""));
    s := s + SumLine('f', 'F', "");
    NoDollarAppend(s, "      FROM \"analytics\"\n");
    s := s + "      FROM \"analytics\"\n";
    NoDollarAppend(s, "      WHERE 1=1\n    ");
    s := s + "      WHERE 1=1\n    ";
  }

  function Indicator(b: bool): nat {
    if b then 1 else 0
  }

  predicate HasDateRange(f: Filters) {
    Supplied(f.startDate) && Supplied(f.endDate)
  }

  /** The filters applied, in the order the handler appends them: age, gender
      (normalised), then the date range, which needs both of its ends. */
  function Conditions(f: Filters): (cs: seq<Segment>)
    ensures |cs| == Indicator(Supplied(f.age)) + Indicator(Supplied(f.gender)) + 2 * Indicator(HasDateRange(f))
  {
    (if Supplied(f.age) then [Segment(AgeText(), f.age.value)] else [])
    + (if Supplied(f.gender) then [Segment(GenderText(), Casing.Capitalize(f.gender.value))] else [])
    + (if HasDateRange(f) then [Segment(FromText(), f.startDate.value), Segment(ToText(), f.endDate.value)] else [])
  }

  lemma ConditionsPlain(f: Filters)
    ensures AllPlain(Conditions(f))
  {
    FilterTextsPlain();
  }

  /** The date range is applied exactly when both of its ends are supplied, and then last. */
  lemma DateRangeNeedsBothEnds(f: Filters)
    ensures (exists i :: 0 <= i < |Conditions(f)| && Conditions(f)[i].text == FromText()) <==> HasDateRange(f)
    ensures HasDateRange(f) ==>
      Conditions(f)[|Conditions(f)| - 2..] == [Segment(FromText(), f.startDate.value), Segment(ToText(), f.endDate.value)]
  {
    var cs := Conditions(f);
    if HasDateRange(f) {
      assert cs[|cs| - 2].text == FromText();
    } else {
      forall i | 0 <= i < |cs| ensures cs[i].text != FromText() {
        assert cs[i].text == AgeText() || cs[i].text == GenderText();
      }
    }
  }

  /** The statement text the handler sends to the store. */
  function BarSql(f: Filters): string {
    BaseQuery() + Numbered(Conditions(f))
  }

  /** The parameter array the handler sends with it: one value per supplied
      filter, in the order age, gender, start date, end date. */
  function BarParams(f: Filters): (ps: seq<string>)
    ensures |ps| == Indicator(Supplied(f.age)) + Indicator(Supplied(f.gender)) + 2 * Indicator(HasDateRange(f))
    ensures Supplied(f.age) ==> ps[0] == f.age.value
    ensures Supplied(f.gender) ==> ps[Indicator(Supplied(f.age))] == Casing.Capitalize(f.gender.value)
    ensures HasDateRange(f) ==> ps[|ps| - 2] == f.startDate.value && ps[|ps| - 1] == f.endDate.value
  {
    Values(Conditions(f))
  }

  /** The k-th placeholder of the statement is `$k`, and there are exactly as
      many placeholders as parameters. */
  lemma BarPlaceholdersMatchParams(f: Filters)
    ensures ParamNumbers(Scan(BarSql(f))) == Numbering(1, |BarParams(f)|)
  {
    BaseQueryNoDollar();
    ConditionsPlain(f);
    NumberedParams(BaseQuery(), Conditions(f));
  }

  /** Executing the statement with its parameter array applies every supplied
      filter to its own column with its own value. */
  lemma BarBindsFilters(f: Filters)
    ensures Bind(Scan(BarSql(f)), BarParams(f)) == Chars(BaseQuery()) + Bound(Conditions(f))
  {
    BaseQueryNoDollar();
    ConditionsPlain(f);
    NumberedBinding(BaseQuery(), Conditions(f), BarParams(f));
  }

  /** With no filter supplied the statement is the base text and the array is empty. */
  lemma BarNoFilters(f: Filters)
    requires !Supplied(f.age) && !Supplied(f.gender) && !HasDateRange(f)
    ensures BarSql(f) == BaseQuery() && BarParams(f) == []
  {
    assert Conditions(f) == [];
  }

  /** The filter values never enter the text: the statement depends only on
      which filters are supplied. */
  lemma BarSqlIgnoresValues(f: Filters, g: Filters)
    requires Supplied(f.age) == Supplied(g.age) && Supplied(f.gender) == Supplied(g.gender)
    requires HasDateRange(f) == HasDateRange(g)
    ensures BarSql(f) == BarSql(g)
  {
    NumberedIgnoresValues(Conditions(f), Conditions(g));
  }

  /** The literals the handler appends are the clause texts followed by `$`. */
  lemma ClauseLiterals()
    ensures " AND \"age\" = $" == AgeText() + "$"
    ensures " AND \"gender\" = $" == GenderText() + "$"
    ensures " AND \"day\" BETWEEN $" == FromText() + "$"
    ensures " AND $" == ToText() + "$"
  {
  }

  /** One filter appended the handler's way keeps the text and the array equal
      to the numbered form of the filters appended so far. */
  lemma AppendOne(base: string, query: string, params: seq<string>, done: seq<Segment>, s: Segment, literal: string)
    requires literal == s.text + "$"
    requires query == base + Numbered(done) && params == Values(done)
    ensures query + literal + NatToString(|params| + 1) == base + Numbered(done + [s])
    ensures params + [s.value] == Values(done + [s])
  {
    NumberedSnoc(done, s);
    ValuesSnoc(done, s);
    var d := NatToString(|params| + 1);
    Assoc(base, Numbered(done), s.text + ("$" + d));
    Assoc(s.text, "$", d);
    Assoc(query, s.text + "$", d);
    Assoc(query, s.text, "$" + d);
  }

  /** The date range appended in one statement: two texts, two parameters. */
  lemma AppendTwo(base: string, query: string, params: seq<string>, done: seq<Segment>,
                  s: Segment, t: Segment, lit1: string, lit2: string)
    requires lit1 == s.text + "$" && lit2 == t.text + "$"
    requires query == base + Numbered(done) && params == Values(done)
    ensures query + lit1 + NatToString(|params| + 1) + lit2 + NatToString(|params| + 2)
         == base + Numbered(done + [s, t])
    ensures params + [s.value, t.value] == Values(done + [s, t])
  {
    AppendOne(base, query, params, done, s, lit1);
    var query' := query + lit1 + NatToString(|params| + 1);
    var params' := params + [s.value];
    AppendOne(base, query', params', done + [s], t, lit2);
    assert |params'| + 1 == |params| + 2;
    assert done + [s] + [t] == done + [s, t];
  }

  /** The handler's query building, step by step as the source does it: each
      supplied filter appends its clause, numbered from the array's current
      length, then pushes its value. */
  method BuildBarQuery(f: Filters) returns (query: string, params: seq<string>)
    ensures query == BarSql(f) && params == BarParams(f)
  {
    ghost var done: seq<Segment> := [];
    ClauseLiterals();
    query := BaseQuery();
    params := [];
    if Supplied(f.age) {
      AppendOne(BaseQuery(), query, params, done, Segment(AgeText(), f.age.value), " AND \"age\" = $");
      query := query + " AND \"age\" = $" + NatToString(|params| + 1);
      params := params + [f.age.value];
      done := done + [Segment(AgeText(), f.age.value)];
    }
    if Supplied(f.gender) {
      var formattedGender := Casing.Capitalize(f.gender.value);
      AppendOne(BaseQuery(), query, params, done, Segment(GenderText(), formattedGender), " AND \"gender\" = $");
      query := query + " AND \"gender\" = $" + NatToString(|params| + 1);
      params := params + [formattedGender];
      done := done + [Segment(GenderText(), formattedGender)];
    }
    if Supplied(f.startDate) && Supplied(f.endDate) {
      ghost var s := Segment(FromText(), f.startDate.value);
      ghost var t := Segment(ToText(), f.endDate.value);
      AppendTwo(BaseQuery(), query, params, done, s, t, " AND \"day\" BETWEEN $", " AND $");
      query := query + " AND \"day\" BETWEEN $" + NatToString(|params| + 1) + " AND $"
        + NatToString(|params| + 2);
      params := params + [f.startDate.value, f.endDate.value];
      done := done + [s, t];
    }
    assert done == Conditions(f);
  }

  /** The single aggregate row; each total is null when no analytics row matched. */
  datatype AggregateRow = AggregateRow(featureA: Option<int>, featureB: Option<int>, featureC: Option<int>,
                                       featureD: Option<int>, featureE: Option<int>, featureF: Option<int>)

  /** The `barData` object sent back. */
  datatype Totals = Totals(A: int, B: int, C: int, D: int, E: int, F: int)

  /** `value ?? 0`. */
  function OrZero(v: Option<int>): (r: int)
    ensures v.Some? ==> r == v.value
    ensures v.None? ==> r == 0
  {
    match v
    case Some(x) => x
    case None => 0
  }

  /** A field of the response holds the row's total when there is one and 0 when it is null. */
  predicate Defaulted(v: Option<int>, x: int) {
    (v.Some? ==> x == v.value) && (v.None? ==> x == 0)
  }

  /** All six fields are filled, each from its own column. */
  function ShapeTotals(row: AggregateRow): (t: Totals)
    ensures Defaulted(row.featureA, t.A) && Defaulted(row.featureB, t.B) && Defaulted(row.featureC, t.C)
    ensures Defaulted(row.featureD, t.D) && Defaulted(row.featureE, t.E) && Defaulted(row.featureF, t.F)
  {
    Totals(OrZero(row.featureA), OrZero(row.featureB), OrZero(row.featureC),
           OrZero(row.featureD), OrZero(row.featureE), OrZero(row.featureF))
  }

  /** No matching row gives all zeros, not a missing field. */
  lemma ShapeAllNull()
    ensures ShapeTotals(AggregateRow(None, None, None, None, None, None)) == Totals(0, 0, 0, 0, 0, 0)
  {
  }

  /** Totals that are all present are passed through unchanged. */
  lemma ShapeAllPresent(a: int, b: int, c: int, d: int, e: int, f: int)
    ensures ShapeTotals(AggregateRow(Some(a), Some(b), Some(c), Some(d), Some(e), Some(f)))
         == Totals(a, b, c, d, e, f)
  {
  }

  datatype BarBody = TotalsJson(totals: Totals) | Message(text: string)

  /** The response for what the store returned: the first row shaped, or 500
      when the query threw or (`rows[0]` undefined) returned no row. */
  function BarResponse(result: DbResult<seq<AggregateRow>>): (r: Response<BarBody>)
    ensures r.status == 200 <==> result.Rows? && result.rows != []
    ensures r.status == 200 ==> r.body == TotalsJson(ShapeTotals(result.rows[0]))
    ensures r.status != 200 ==> r == Response(500, Message("Internal Server Error"))
  {
    match result
    case DbError => Response(500, Message("Internal Server Error"))
    case Rows(rows) =>
      if rows == [] then Response(500, Message("Internal Server Error"))
      else Response(200, TotalsJson(ShapeTotals(rows[0])))
  }

  /** The whole handler: build the statement, send it with its parameters to
      the store, shape the answer. */
  method BarDataHandler(f: Filters, store: (string, seq<string>) -> DbResult<seq<AggregateRow>>)
    returns (resp: Response<BarBody>, query: string, params: seq<string>)
    ensures query == BarSql(f) && params == BarParams(f)
    ensures resp == BarResponse(store(query, params))
  {
    query, params := BuildBarQuery(f);
    var result := store(query, params);
    resp := BarResponse(result);
  }
}
