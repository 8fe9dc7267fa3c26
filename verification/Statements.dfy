/** The two SQL dialects built from one template: placeholders with bound arguments, and
    quoted literals for the engine that binds none. */
module Statements {
  import opened Wrappers
  import opened Errors
  import Calendar
  import opened Sql
  import DateText
  import Domain

  datatype Statement = Statement(sql: string, args: seq<string>)

  // ----- Byte sets -----

  predicate LiteralSafe(s: string) {
    s != "" && forall i :: 0 <= i < |s| ==> Domain.OrgChar(s[i])
  }

  predicate IdentifierStart(c: char) {
    'A' <= c <= 'Z' || 'a' <= c <= 'z' || c == '_'
  }

  /** The pattern ^[A-Za-z_][A-Za-z0-9_]*$. */
  predicate ValidIdentifier(s: string) {
    && s != ""
    && IdentifierStart(s[0])
    && forall i :: 1 <= i < |s| ==> IdentifierStart(s[i]) || '0' <= s[i] <= '9'
  }

  /** What an identifier is, letter by letter. */
  lemma IdentifierLetters(s: string)
    ensures ValidIdentifier(s) <==>
            && s != ""
            && (forall c :: c in s ==> 'A' <= c <= 'Z' || 'a' <= c <= 'z' || c == '_' || '0' <= c <= '9')
            && !('0' <= s[0] <= '9')
  {
    if s != "" && (forall c :: c in s ==> 'A' <= c <= 'Z' || 'a' <= c <= 'z' || c == '_' || '0' <= c <= '9') {
      assert s[0] in s;
      forall i | 1 <= i < |s|
        ensures IdentifierStart(s[i]) || '0' <= s[i] <= '9'
      {
        assert s[i] in s;
      }
    }
  }

  method HiveLiteralSafe(s: string) returns (ok: bool)
    ensures ok <==> LiteralSafe(s)
  {
    if s == "" {
      return false;
    }
    for i := 0 to |s|
      invariant forall k :: 0 <= k < i ==> Domain.OrgChar(s[k])
    {
      var c := s[i];
      if 'A' <= c <= 'Z' {
      } else if 'a' <= c <= 'z' {
      } else if '0' <= c <= '9' {
      } else if c == '_' || c == '-' {
      } else {
        return false;
      }
    }
    ok := true;
  }

  method ValidateIdentifiers(ids: seq<string>) returns (err: Option<Error>)
    ensures err.None? <==> forall i :: 0 <= i < |ids| ==> ValidIdentifier(ids[i])
    ensures err.Some? ==> err.value == InvalidArgument
  {
    for i := 0 to |ids|
      invariant forall k :: 0 <= k < i ==> ValidIdentifier(ids[k])
    {
      if !ValidIdentifier(ids[i]) {
        return Some(InvalidArgument);
      }
    }
    err := None;
  }

  function Quote(s: string): string {
    "'" + s + "'"
  }

  function QuoteHiveLiteral(s: string): Result<string, Error> {
    if LiteralSafe(s) then Success(Quote(s)) else Failure(InvalidArgument)
  }

  // ----- Templates -----

  function Sum(column: string): string {
    "  COALESCE(SUM(" + (column + "), 0)")
  }

  const RETAIL_COLUMNS :=
    "SELECT\n" + (Sum("order_count") + (",\n" + (SALES_COLUMN + "\nFROM ")))

  const SALES_COLUMN := "  CAST(COALESCE(SUM(" + ("sales_amount" + "), 0) AS DECIMAL(38, 2))")

  function SixSums(a: string, b: string, c: string, d: string, e: string, f: string): string {
    "SELECT\n" + (Sum(a) + (",\n" + (Sum(b) + (",\n" + (Sum(c) + (",\n" + (Sum(d) + (",\n" +
      (Sum(e) + (",\n" + (Sum(f) + "\nFROM ")))))))))))
  }

  const RENOVATION_COLUMNS :=
    SixSums("lead_count", "invited_count", "measured_count", "signed_count", "started_count", "completed_count")

  const ORG_FILTER := "\nWHERE org_id = "
  const START_FILTER := " AND stat_date >= "
  const END_FILTER := " AND stat_date <= "

  function Select(columns: string): string {
    columns + ("%s" + (ORG_FILTER + ("%s" + (START_FILTER + ("%s" + (END_FILTER + ("%s" + "")))))))
  }

  /** `fmt.Sprintf` for a template whose only verb is %s. */
  function Sprintf(format: string, args: seq<string>): string {
    if format == "" then ""
    else if |format| >= 2 && format[..2] == "%s" && args != [] then
      args[0] + Sprintf(format[2..], args[1..])
    else
      [format[0]] + Sprintf(format[1..], args)
  }

  // ----- Builders -----

  /** A builder holds its two qualified tables; the dialect decides how values enter. */
  datatype Builder =
    | Bound(retailTable: string, renovationTable: string)
    | Hive(retailTable: string, renovationTable: string)

  function Qualify(prefix: string, table: string): string {
    prefix + "." + table
  }

  predicate ValidTriple(prefix: string, retail: string, renovation: string) {
    ValidIdentifier(prefix) && ValidIdentifier(retail) && ValidIdentifier(renovation)
  }

  function NewBoundBuilder(prefix: string, retail: string, renovation: string): Result<Builder, Error> {
    if ValidTriple(prefix, retail, renovation) then
      Success(Bound(Qualify(prefix, retail), Qualify(prefix, renovation)))
    else Failure(InvalidArgument)
  }

  function NewHiveBuilder(prefix: string, retail: string, renovation: string): Result<Builder, Error> {
    if ValidTriple(prefix, retail, renovation) then
      Success(Hive(Qualify(prefix, retail), Qualify(prefix, renovation)))
    else Failure(InvalidArgument)
  }

  /** The values a query filters by, in placeholder order. */
  function Values(q: Domain.Query): seq<string> {
    [q.org, Domain.StartString(q.range), Domain.EndString(q.range)]
  }

  /** The statement of one query, or None where the source panics on an unsafe literal. */
  function Render(b: Builder, columns: string, table: string, q: Domain.Query): Option<Statement> {
    var values := Values(q);
    match b
    case Bound(_, _) =>
      Some(Statement(Sprintf(Select(columns), [table, "?", "?", "?"]), values))
    case Hive(_, _) =>
      match (QuoteHiveLiteral(values[0]), QuoteHiveLiteral(values[1]), QuoteHiveLiteral(values[2]))
      case (Success(org), Success(start), Success(end)) =>
        Some(Statement(Sprintf(Select(columns), [table, org, start, end]), []))
      case _ => None
  }

  function Retail(b: Builder, q: Domain.Query): Option<Statement> {
    Render(b, RETAIL_COLUMNS, b.retailTable, q)
  }

  function Renovation(b: Builder, q: Domain.Query): Option<Statement> {
    Render(b, RENOVATION_COLUMNS, b.renovationTable, q)
  }

  // ----- Templates filled -----

  /** Each placeholder, in order, replaced by the corresponding text. */
  function Fill(sql: string, texts: seq<string>): string {
    if sql == "" then ""
    else if sql[0] == '?' && texts != [] then texts[0] + Fill(sql[1..], texts[1..])
    else [sql[0]] + Fill(sql[1..], texts)
  }

  /** Text with no template verb, placeholder or quote in it. */
  predicate Plain(s: string) {
    '%' !in s && '?' !in s && '\'' !in s
  }

  // ----- Walking over the template -----

  lemma {:induction false} SprintfText(s: string, rest: string, args: seq<string>)
    requires '%' !in s
    ensures Sprintf(s + rest, args) == s + Sprintf(rest, args)
    decreases |s|
  {
    if s == "" {
      assert s + rest == rest;
    } else {
      assert (s + rest)[1..] == s[1..] + rest;
      SprintfText(s[1..], rest, args);
      if |s + rest| >= 2 {
        assert (s + rest)[..2][0] == s[0];
      }
    }
  }

  lemma SprintfVerb(rest: string, args: seq<string>)
    requires args != []
    ensures Sprintf("%s" + rest, args) == args[0] + Sprintf(rest, args[1..])
  {
    assert ("%s" + rest)[..2] == "%s" && ("%s" + rest)[2..] == rest;
  }

  /** The template with its four verbs filled. */
  function Filled(columns: string, a: string, b: string, c: string, d: string): string {
    columns + (a + (ORG_FILTER + (b + (START_FILTER + (c + (END_FILTER + d))))))
  }

  lemma SprintfSelect(columns: string, a: string, b: string, c: string, d: string)
    requires '%' !in columns
    ensures Sprintf(Select(columns), [a, b, c, d]) == Filled(columns, a, b, c, d)
  {
    var end := "%s" + "";
    var afterStart := "%s" + (END_FILTER + end);
    var afterOrg := "%s" + (START_FILTER + afterStart);
    var afterTable := "%s" + (ORG_FILTER + afterOrg);
    hide Sprintf;
    SprintfText(columns, afterTable, [a, b, c, d]);
    SprintfVerb(ORG_FILTER + afterOrg, [a, b, c, d]);
    assert [a, b, c, d][1..] == [b, c, d] && [b, c, d][1..] == [c, d] && [c, d][1..] == [d];
    SprintfText(ORG_FILTER, afterOrg, [b, c, d]);
    SprintfVerb(START_FILTER + afterStart, [b, c, d]);
    SprintfText(START_FILTER, afterStart, [c, d]);
    SprintfVerb(END_FILTER + end, [c, d]);
    SprintfText(END_FILTER, end, [d]);
    SprintfVerb("", [d]);
    SprintfEnd(d);
  }

  lemma SprintfEnd(d: string)
    ensures d + Sprintf("", [d][1..]) == d
  {
  }

  lemma {:induction false} TokensText(s: string, rest: string, args: seq<string>)
    requires Plain(s)
    ensures Tokens(s + rest, args) == Chars(s) + Tokens(rest, args)
    decreases |s|
  {
    if s == "" {
      assert s + rest == rest;
    } else {
      assert (s + rest)[1..] == s[1..] + rest;
      TokensText(s[1..], rest, args);
    }
  }

  lemma TokensPlaceholder(rest: string, args: seq<string>)
    requires args != []
    ensures Tokens("?" + rest, args) == [Value(args[0])] + Tokens(rest, args[1..])
  {
    assert ("?" + rest)[1..] == rest;
  }

  lemma TokensLiteral(s: string, rest: string)
    requires '\'' !in s
    ensures Tokens(Quote(s) + rest, []) == [Value(s)] + Tokens(rest, [])
  {
    var sql := Quote(s) + rest;
    assert sql[1..] == s + ("'" + rest);
    var k := IndexOf(sql[1..], '\'');
    assert sql[1..][|s|] == '\'';
    assert k == |s|;
    assert sql[1..][..k] == s && sql[1..][k + 1..] == rest;
  }

  lemma {:induction false} FillText(s: string, rest: string, texts: seq<string>)
    requires '?' !in s
    ensures Fill(s + rest, texts) == s + Fill(rest, texts)
    decreases |s|
  {
    if s == "" {
      assert s + rest == rest;
    } else {
      assert (s + rest)[1..] == s[1..] + rest;
      FillText(s[1..], rest, texts);
    }
  }

  lemma FillPlaceholder(rest: string, texts: seq<string>)
    requires texts != []
    ensures Fill("?" + rest, texts) == texts[0] + Fill(rest, texts[1..])
  {
    assert ("?" + rest)[1..] == rest;
  }

  // ----- The two dialects agree -----

  /** The tokens both dialects produce. */
  function Meaning(columns: string, table: string, org: string, start: string, end: string): seq<Token> {
    Chars(columns) + (Chars(table) + (Chars(ORG_FILTER) + ([Value(org)] +
      (Chars(START_FILTER) + ([Value(start)] + (Chars(END_FILTER) + ([Value(end)] + [])))))))
  }

  lemma DropThree(o: string, s: string, e: string)
    ensures [o, s, e][1..] == [s, e] && [s, e][1..] == [e] && [e][1..] == []
  {
  }

  lemma BoundFilters(o: string, s: string, e: string)
    ensures Tokens("?" + (START_FILTER + ("?" + (END_FILTER + "?"))), [o, s, e])
         == [Value(o)] + (Chars(START_FILTER) + ([Value(s)] + (Chars(END_FILTER) + ([Value(e)] + []))))
  {
    DropThree(o, s, e);
    FiltersArePlain();
    assert "?" == "?" + "";
    assert Tokens("", []) == [];
    hide Tokens, Chars, Plain, START_FILTER, END_FILTER;
    var end := END_FILTER + "?";
    TokensPlaceholder(START_FILTER + ("?" + end), [o, s, e]);
    TokensText(START_FILTER, "?" + end, [s, e]);
    TokensPlaceholder(end, [s, e]);
    TokensText(END_FILTER, "?", [e]);
    TokensPlaceholder("", [e]);
  }

  lemma BoundMeaning(columns: string, table: string, o: string, s: string, e: string)
    requires Plain(columns) && Plain(table)
    ensures Tokens(Filled(columns, table, "?", "?", "?"), [o, s, e]) == Meaning(columns, table, o, s, e)
  {
    FiltersArePlain();
    BoundFilters(o, s, e);
    hide Tokens, Chars, Plain, ORG_FILTER, START_FILTER, END_FILTER;
    var org := "?" + (START_FILTER + ("?" + (END_FILTER + "?")));
    TokensText(columns, table + (ORG_FILTER + org), [o, s, e]);
    TokensText(table, ORG_FILTER + org, [o, s, e]);
    TokensText(ORG_FILTER, org, [o, s, e]);
  }

  lemma HiveMeaning(columns: string, table: string, o: string, s: string, e: string)
    requires Plain(columns) && Plain(table) && '\'' !in o && '\'' !in s && '\'' !in e
    ensures Tokens(Filled(columns, table, Quote(o), Quote(s), Quote(e)), [])
         == Meaning(columns, table, o, s, e)
  {
    FiltersArePlain();
    var end := END_FILTER + Quote(e);
    var start := START_FILTER + (Quote(s) + end);
    var org := ORG_FILTER + (Quote(o) + start);
    assert Quote(e) == Quote(e) + "";
    assert Tokens("", []) == [];
    hide Tokens, Chars, Quote, Plain, ORG_FILTER, START_FILTER, END_FILTER;
    TokensText(columns, table + org, []);
    TokensText(table, org, []);
    TokensText(ORG_FILTER, Quote(o) + start, []);
    TokensLiteral(o, start);
    TokensText(START_FILTER, Quote(s) + end, []);
    TokensLiteral(s, end);
    TokensText(END_FILTER, Quote(e), []);
    TokensLiteral(e, "");
  }

  lemma FilledPlaceholders(columns: string, table: string, texts: seq<string>)
    requires Plain(columns) && Plain(table) && |texts| == 3
    ensures Fill(Filled(columns, table, "?", "?", "?"), texts)
         == Filled(columns, table, texts[0], texts[1], texts[2])
  {
    var (o, s, e) := (texts[0], texts[1], texts[2]);
    DropThree(o, s, e);
    FiltersArePlain();
    var end := END_FILTER + "?";
    var start := START_FILTER + ("?" + end);
    var org := ORG_FILTER + ("?" + start);
    assert texts == [o, s, e];
    assert "?" == "?" + "";
    assert Fill("", []) == "" && e == e + "";
    hide Fill;
    FillText(columns, table + org, texts);
    FillText(table, org, texts);
    FillText(ORG_FILTER, "?" + start, texts);
    FillPlaceholder(start, [o, s, e]);
    FillText(START_FILTER, "?" + end, [s, e]);
    FillPlaceholder(end, [s, e]);
    FillText(END_FILTER, "?", [e]);
    FillPlaceholder("", [e]);
  }

  lemma PlainAppend(s: string, t: string)
    requires Plain(s) && Plain(t)
    ensures Plain(s + t)
  {
  }

  lemma SumIsPlain(column: string)
    requires Plain(column)
    ensures Plain(Sum(column)) && Plain(",\n") && Plain("\nFROM ") && Plain("SELECT\n")
  {
    var close := "), 0)";
    assert Plain(close);
    var open := "  COALESCE(SUM(";
    assert Plain(open);
  }

  lemma PlainStep(column: string, rest: string)
    requires Plain(column) && Plain(rest)
    ensures Plain(Sum(column) + rest) && Plain(",\n" + (Sum(column) + rest))
    ensures Plain("SELECT\n" + (Sum(column) + rest))
  {
    SumIsPlain(column);
    hide Sum, Plain;
    PlainAppend(Sum(column), rest);
    PlainAppend(",\n", Sum(column) + rest);
    PlainAppend("SELECT\n", Sum(column) + rest);
  }

  lemma FiltersArePlain()
    ensures Plain(ORG_FILTER) && Plain(START_FILTER) && Plain(END_FILTER)
  {
  }

  lemma RetailColumnsArePlain()
    ensures Plain(RETAIL_COLUMNS)
  {
    SumIsPlain("order_count");
    SalesColumnIsPlain();
    hide Plain, Sum, SALES_COLUMN;
    PlainAppend(SALES_COLUMN, "\nFROM ");
    PlainAppend(",\n", SALES_COLUMN + "\nFROM ");
    PlainAppend(Sum("order_count"), ",\n" + (SALES_COLUMN + "\nFROM "));
    PlainAppend("SELECT\n", Sum("order_count") + (",\n" + (SALES_COLUMN + "\nFROM ")));
  }

  lemma SalesColumnIsPlain()
    ensures Plain(SALES_COLUMN)
  {
    var open := "  CAST(COALESCE(SUM(";
    assert Plain(open);
    assert Plain("sales_amount");
    var close := "), 0) AS DECIMAL(38, 2))";
    assert Plain(close);
  }

  lemma SixSumsArePlain(a: string, b: string, c: string, d: string, e: string, f: string)
    requires Plain(a) && Plain(b) && Plain(c) && Plain(d) && Plain(e) && Plain(f)
    ensures Plain(SixSums(a, b, c, d, e, f))
  {
    SumIsPlain(f);
    hide Plain, Sum;
    var tf := "\nFROM ";
    PlainStep(f, tf);
    var te := ",\n" + (Sum(f) + tf);
    PlainStep(e, te);
    var td := ",\n" + (Sum(e) + te);
    PlainStep(d, td);
    var tc := ",\n" + (Sum(d) + td);
    PlainStep(c, tc);
    var tb := ",\n" + (Sum(c) + tc);
    PlainStep(b, tb);
    var ta := ",\n" + (Sum(b) + tb);
    PlainStep(a, ta);
  }

  lemma FirstStageColumnsArePlain()
    ensures Plain("lead_count") && Plain("invited_count") && Plain("measured_count")
  {
  }

  lemma LastStageColumnsArePlain()
    ensures Plain("signed_count") && Plain("started_count") && Plain("completed_count")
  {
  }

  lemma RenovationColumnsArePlain()
    ensures Plain(RENOVATION_COLUMNS)
  {
    FirstStageColumnsArePlain();
    LastStageColumnsArePlain();
    hide SixSums, Plain;
    SixSumsArePlain("lead_count", "invited_count", "measured_count",
                    "signed_count", "started_count", "completed_count");
  }

  lemma QualifiedIsPlain(prefix: string, table: string)
    requires ValidIdentifier(prefix) && ValidIdentifier(table)
    ensures Plain(Qualify(prefix, table))
  {
  }

  /** A printed day is always a safe literal. */
  lemma PrintedDaySafe(n: int)
    ensures LiteralSafe(Domain.PrintDay(n))
  {
    hide Calendar.FromDayNumber;
    var d := Calendar.FromDayNumber(n);
    var (y, m, t) := (DateText.PrintYear(d.year), DateText.Pad(d.month, 2), DateText.Pad(d.day, 2));
    hide DateText.Pad;
    assert forall i :: 0 <= i < |y| ==> Domain.OrgChar(y[i]);
    assert Domain.PrintDay(n) == y + "-" + m + "-" + t;
  }

  /** Rendering panics in the literal dialect exactly for an organisation outside the safe
      bytes, and never in the bound one. */
  lemma RenderPanicsExactly(b: Builder, q: Domain.Query)
    ensures Retail(b, q).None? <==> b.Hive? && !LiteralSafe(q.org)
    ensures Renovation(b, q).None? <==> b.Hive? && !LiteralSafe(q.org)
  {
    hide Domain.PrintDay, Sprintf, Select, LiteralSafe;
    PrintedDaySafe(q.range.start);
    PrintedDaySafe(q.range.end);
  }

  /** How often c occurs. */
  function Occurrences(s: string, c: char): nat {
    if s == "" then 0 else (if s[0] == c then 1 else 0) + Occurrences(s[1..], c)
  }

  lemma {:induction false} OccurrencesAppend(s: string, t: string, c: char)
    ensures Occurrences(s + t, c) == Occurrences(s, c) + Occurrences(t, c)
    decreases |s|
  {
    if s == "" {
      assert s + t == t;
    } else {
      assert (s + t)[1..] == s[1..] + t;
      OccurrencesAppend(s[1..], t, c);
    }
  }

  lemma {:induction false} NoOccurrences(s: string, c: char)
    requires c !in s
    ensures Occurrences(s, c) == 0
    decreases |s|
  {
    if s != "" {
      NoOccurrences(s[1..], c);
    }
  }

  lemma QuoteOccurrences(s: string, c: char)
    requires c == '?' || c == '\''
    requires '?' !in s && '\'' !in s
    ensures Occurrences(Quote(s), c) == if c == '?' then 0 else 2
    ensures Occurrences("?", c) == if c == '?' then 1 else 0
  {
    NoOccurrences(s, c);
    OccurrencesAppend("'" + s, "'", c);
    OccurrencesAppend("'", s, c);
    assert "?"[1..] == "" && "'"[1..] == "";
  }

  /** A filled template holds the placeholders and quotes of its arguments and no other. */
  lemma FilledOccurrences(columns: string, table: string, x: string, y: string, z: string, c: char)
    requires Plain(columns) && Plain(table) && (c == '?' || c == '\'')
    ensures Occurrences(Filled(columns, table, x, y, z), c)
         == Occurrences(x, c) + Occurrences(y, c) + Occurrences(z, c)
  {
    FiltersArePlain();
    NoOccurrences(columns, c);
    NoOccurrences(table, c);
    NoOccurrences(ORG_FILTER, c);
    NoOccurrences(START_FILTER, c);
    NoOccurrences(END_FILTER, c);
    hide Occurrences, Plain, ORG_FILTER, START_FILTER, END_FILTER;
    var end := END_FILTER + z;
    var start := START_FILTER + (y + end);
    var org := ORG_FILTER + (x + start);
    OccurrencesAppend(columns, table + org, c);
    OccurrencesAppend(table, org, c);
    OccurrencesAppend(ORG_FILTER, x + start, c);
    OccurrencesAppend(x, start, c);
    OccurrencesAppend(START_FILTER, y + end, c);
    OccurrencesAppend(y, end, c);
    OccurrencesAppend(END_FILTER, z, c);
  }

  /** Two renderings of one query say the same and nothing else.  The bound one carries the
      organisation, the first and the last day as its arguments; the literal one is the bound
      one with its placeholders replaced, in order, by the quoted arguments.  Both read as the
      template, of the given columns and table, with those three values.  The bound text has
      three placeholders and no quote, the literal text three quoted values and no
      placeholder. */
  ghost predicate Agree(bound: Option<Statement>, hive: Option<Statement>, columns: string, table: string,
                        q: Domain.Query)
  {
    var (org, start, end) := (q.org, Domain.PrintDay(q.range.start), Domain.PrintDay(q.range.end));
    && bound.Some? && hive.Some?
    && bound.value.args == [org, start, end]
    && hive.value.args == []
    && hive.value.sql == Fill(bound.value.sql, [Quote(org), Quote(start), Quote(end)])
    && Plain(columns) && Plain(table)
    && Tokens(bound.value.sql, bound.value.args) == Meaning(columns, table, org, start, end)
    && Tokens(hive.value.sql, []) == Meaning(columns, table, org, start, end)
    && Occurrences(bound.value.sql, '?') == 3 && Occurrences(bound.value.sql, '\'') == 0
    && Occurrences(hive.value.sql, '?') == 0 && Occurrences(hive.value.sql, '\'') == 6
  }

  /** The two dialects agree on every template without verb, placeholder or quote of its own. */
  lemma DialectsAgreeOn(columns: string, table: string, q: Domain.Query, bound: Builder, hive: Builder)
    requires Plain(columns) && Plain(table) && bound.Bound? && hive.Hive?
    requires LiteralSafe(q.org)
    ensures Agree(Render(bound, columns, table, q), Render(hive, columns, table, q), columns, table, q)
  {
    hide Domain.PrintDay, Sprintf, Select, Tokens, Fill, Filled, Meaning, Quote, Occurrences;
    PrintedDaySafe(q.range.start);
    PrintedDaySafe(q.range.end);
    var v := Values(q);
    SprintfSelect(columns, table, "?", "?", "?");
    SprintfSelect(columns, table, Quote(v[0]), Quote(v[1]), Quote(v[2]));
    FilledPlaceholders(columns, table, [Quote(v[0]), Quote(v[1]), Quote(v[2])]);
    BoundMeaning(columns, table, v[0], v[1], v[2]);
    HiveMeaning(columns, table, v[0], v[1], v[2]);
    ValuesOccurrences(columns, table, v[0], v[1], v[2], '?');
    ValuesOccurrences(columns, table, v[0], v[1], v[2], '\'');
  }

  lemma ValuesOccurrences(columns: string, table: string, o: string, s: string, e: string, c: char)
    requires Plain(columns) && Plain(table) && (c == '?' || c == '\'')
    requires LiteralSafe(o) && LiteralSafe(s) && LiteralSafe(e)
    ensures Occurrences(Filled(columns, table, "?", "?", "?"), c) == if c == '?' then 3 else 0
    ensures Occurrences(Filled(columns, table, Quote(o), Quote(s), Quote(e)), c) == if c == '?' then 0 else 6
  {
    hide Occurrences, Filled, Quote;
    QuoteOccurrences(o, c);
    QuoteOccurrences(s, c);
    QuoteOccurrences(e, c);
    FilledOccurrences(columns, table, "?", "?", "?", c);
    FilledOccurrences(columns, table, Quote(o), Quote(s), Quote(e), c);
  }

  /** For every accepted identifier triple and every query with a safe organisation, both
      statements of both dialects agree, each on its own columns and table. */
  lemma DialectsAgree(prefix: string, retail: string, renovation: string, q: Domain.Query)
    requires LiteralSafe(q.org)
    ensures NewBoundBuilder(prefix, retail, renovation).Success?
       <==> ValidTriple(prefix, retail, renovation)
    ensures NewHiveBuilder(prefix, retail, renovation).Success?
       <==> ValidTriple(prefix, retail, renovation)
    ensures ValidTriple(prefix, retail, renovation) ==>
              var bound := NewBoundBuilder(prefix, retail, renovation).value;
              var hive := NewHiveBuilder(prefix, retail, renovation).value;
              && Agree(Retail(bound, q), Retail(hive, q), RETAIL_COLUMNS, Qualify(prefix, retail), q)
              && Agree(Renovation(bound, q), Renovation(hive, q), RENOVATION_COLUMNS, Qualify(prefix, renovation), q)
  {
    hide Render, Agree, Plain, ValidIdentifier, LiteralSafe;
    hide RETAIL_COLUMNS, RENOVATION_COLUMNS;
    if ValidTriple(prefix, retail, renovation) {
      var bound := NewBoundBuilder(prefix, retail, renovation).value;
      var hive := NewHiveBuilder(prefix, retail, renovation).value;
      RetailColumnsArePlain();
      RenovationColumnsArePlain();
      QualifiedIsPlain(prefix, retail);
      QualifiedIsPlain(prefix, renovation);
      DialectsAgreeOn(RETAIL_COLUMNS, bound.retailTable, q, bound, hive);
      DialectsAgreeOn(RENOVATION_COLUMNS, bound.renovationTable, q, bound, hive);
    }
  }
}
