/** The service's two statements as an engine reads them: which columns are summed, from which
    table, under which conditions. */
module Reading {
  import opened Wrappers
  import opened Sql
  import Statements

  // ----- The pieces of the templates, in words -----

  function SumWords(column: string, rest: Words): Words {
    More(Name("COALESCE"), More(Mark('('), More(Name("SUM"), More(Mark('('), More(Name(column), SumClosed(rest))))))
  }

  function SumClosed(rest: Words): Words {
    More(Mark(')'), More(Mark(','), More(Name("0"), More(Mark(')'), rest))))
  }

  function CastWords(column: string, rest: Words): Words {
    More(Name("CAST"), More(Mark('('), SumWords(column, CastClosed(rest))))
  }

  function CastClosed(rest: Words): Words {
    More(Name("AS"), More(Name("DECIMAL"), More(Mark('('), More(Name("38"), More(Mark(','), More(Name("2"),
      More(Mark(')'), More(Mark(')'), rest))))))))
  }

  lemma SplitBlanks(text: string, rest: seq<Token>)
    ensures Split(Chars("  " + text) + rest, "") == Split(Chars(text) + rest, "")
  {
    hide Split, Chars;
    var once := " " + text;
    assert "  " + text == "" + [' '] + once && once == "" + [' '] + text;
    SplitFirst("  " + text, "", ' ', once, rest, "");
    SplitFirst(once, "", ' ', text, rest, "");
  }

  lemma SplitComma(text: string, rest: seq<Token>)
    ensures Split(Chars(", " + text) + rest, "") == More(Mark(','), Split(Chars(text) + rest, ""))
  {
    hide Split, Chars;
    var once := " " + text;
    assert ", " + text == "" + [','] + once && once == "" + [' '] + text;
    SplitFirst(", " + text, "", ',', once, rest, "");
    SplitFirst(once, "", ' ', text, rest, "");
  }

  lemma SumOpenSplit(rest: seq<Token>)
    ensures Split(Chars("  COALESCE(SUM(") + rest, "")
         == More(Name("COALESCE"), More(Mark('('), More(Name("SUM"), More(Mark('('), Split(rest, "")))))
  {
    hide Split, Chars;
    SplitFirst("  COALESCE(SUM(", "", ' ', " COALESCE(SUM(", rest, "");
    SplitFirst(" COALESCE(SUM(", "", ' ', "COALESCE(SUM(", rest, "");
    SplitFirst("COALESCE(SUM(", "COALESCE", '(', "SUM(", rest, "");
    SplitFirst("SUM(", "SUM", '(', "", rest, "");
    SplitNothing(rest, "");
  }

  lemma SumCloseSplit(rest: seq<Token>, word: string)
    ensures Split(Chars("), 0)") + rest, word) == Flush(word, SumClosed(Split(rest, "")))
  {
    hide Split, Chars;
    SplitFirst("), 0)", "", ')', ", 0)", rest, word);
    SplitFirst(", 0)", "", ',', " 0)", rest, "");
    SplitFirst(" 0)", "", ' ', "0)", rest, "");
    SplitFirst("0)", "0", ')', "", rest, "");
    SplitNothing(rest, "");
  }

  lemma CastOpenSplit(rest: seq<Token>)
    ensures Split(Chars("  CAST(COALESCE(SUM(") + rest, "")
         == More(Name("CAST"), More(Mark('('), More(Name("COALESCE"), More(Mark('('), More(Name("SUM"), More(Mark('('),
              Split(rest, "")))))))
  {
    hide Split, Chars;
    CastOpenName(rest);
    SplitBlanks("CAST(COALESCE(SUM(", rest);
    assert "  " + "CAST(COALESCE(SUM(" == "  CAST(COALESCE(SUM(";
  }

  lemma CastOpenName(rest: seq<Token>)
    ensures Split(Chars("CAST(COALESCE(SUM(") + rest, "")
         == More(Name("CAST"), More(Mark('('), More(Name("COALESCE"), More(Mark('('), More(Name("SUM"), More(Mark('('),
              Split(rest, "")))))))
  {
    hide Split, Chars;
    CastOpenRest(rest);
    SplitFirst("CAST(COALESCE(SUM(", "CAST", '(', "COALESCE(SUM(", rest, "");
  }

  lemma CastOpenRest(rest: seq<Token>)
    ensures Split(Chars("COALESCE(SUM(") + rest, "")
         == More(Name("COALESCE"), More(Mark('('), More(Name("SUM"), More(Mark('('), Split(rest, "")))))
  {
    hide Split, Chars;
    SplitFirst("COALESCE(SUM(", "COALESCE", '(', "SUM(", rest, "");
    SplitFirst("SUM(", "SUM", '(', "", rest, "");
    SplitNothing(rest, "");
  }

  lemma CastCloseSplit(rest: seq<Token>, word: string)
    ensures Split(Chars("), 0) AS DECIMAL(38, 2))") + rest, word)
         == Flush(word, SumClosed(CastClosed(Split(rest, ""))))
  {
    hide Split, Chars;
    CastCloseNext(rest);
    SplitFirst("), 0) AS DECIMAL(38, 2))", "", ')', ", 0) AS DECIMAL(38, 2))", rest, word);
  }

  lemma CastCloseNext(rest: seq<Token>)
    ensures Split(Chars(", 0) AS DECIMAL(38, 2))") + rest, "")
         == More(Mark(','), More(Name("0"), More(Mark(')'), CastClosed(Split(rest, "")))))
  {
    hide Split, Chars;
    CastCloseMiddle(rest);
    SplitComma("0) AS DECIMAL(38, 2))", rest);
    assert ", " + "0) AS DECIMAL(38, 2))" == ", 0) AS DECIMAL(38, 2))";
  }

  lemma CastCloseMiddle(rest: seq<Token>)
    ensures Split(Chars("0) AS DECIMAL(38, 2))") + rest, "")
         == More(Name("0"), More(Mark(')'), CastClosed(Split(rest, ""))))
  {
    hide Split, Chars;
    CastCloseType(rest);
    CastCloseBlank(rest);
    SplitFirst("0) AS DECIMAL(38, 2))", "0", ')', " AS DECIMAL(38, 2))", rest, "");
  }

  lemma CastCloseBlank(rest: seq<Token>)
    ensures Split(Chars(" AS DECIMAL(38, 2))") + rest, "") == Split(Chars("AS DECIMAL(38, 2))") + rest, "")
  {
    hide Split, Chars;
    SplitFirst(" AS DECIMAL(38, 2))", "", ' ', "AS DECIMAL(38, 2))", rest, "");
  }

  lemma CastCloseType(rest: seq<Token>)
    ensures Split(Chars("AS DECIMAL(38, 2))") + rest, "") == CastClosed(Split(rest, ""))
  {
    hide Split, Chars;
    CastCloseEnd(rest);
    SplitFirst("AS DECIMAL(38, 2))", "AS", ' ', "DECIMAL(38, 2))", rest, "");
    SplitFirst("DECIMAL(38, 2))", "DECIMAL", '(', "38, 2))", rest, "");
  }

  lemma CastCloseEnd(rest: seq<Token>)
    ensures Split(Chars("38, 2))") + rest, "")
         == More(Name("38"), More(Mark(','), More(Name("2"), More(Mark(')'), More(Mark(')'), Split(rest, ""))))))
  {
    hide Split, Chars;
    SplitFirst("38, 2))", "38", ',', " 2))", rest, "");
    SplitFirst(" 2))", "", ' ', "2))", rest, "");
    SplitFirst("2))", "2", ')', ")", rest, "");
    SplitFirst(")", "", ')', "", rest, "");
    SplitNothing(rest, "");
  }

  lemma SelectSplit(rest: seq<Token>)
    ensures Split(Chars("SELECT\n") + rest, "") == More(Name("SELECT"), Split(rest, ""))
  {
    hide Split, Chars;
    SplitFirst("SELECT\n", "SELECT", '\n', "", rest, "");
    SplitNothing(rest, "");
  }

  lemma CommaSplit(rest: seq<Token>)
    ensures Split(Chars(",\n") + rest, "") == More(Mark(','), Split(rest, ""))
  {
    hide Split, Chars;
    SplitFirst(",\n", "", ',', "\n", rest, "");
    SplitFirst("\n", "", '\n', "", rest, "");
    SplitNothing(rest, "");
  }

  lemma FromSplit(rest: seq<Token>)
    ensures Split(Chars("\nFROM ") + rest, "") == More(Name("FROM"), Split(rest, ""))
  {
    hide Split, Chars;
    SplitFirst("\nFROM ", "", '\n', "FROM ", rest, "");
    SplitFirst("FROM ", "FROM", ' ', "", rest, "");
    SplitNothing(rest, "");
  }

  lemma OrgFilterSplit(rest: seq<Token>, word: string)
    ensures Split(Chars(Statements.ORG_FILTER) + rest, word)
         == Flush(word, More(Name("WHERE"), More(Name("org_id"), More(Name("="), Split(rest, "")))))
  {
    hide Split, Chars;
    SplitFirst("\nWHERE org_id = ", "", '\n', "WHERE org_id = ", rest, word);
    SplitFirst("WHERE org_id = ", "WHERE", ' ', "org_id = ", rest, "");
    SplitFirst("org_id = ", "org_id", ' ', "= ", rest, "");
    SplitFirst("= ", "=", ' ', "", rest, "");
    SplitNothing(rest, "");
  }

  lemma StartFilterSplit(rest: seq<Token>)
    ensures Split(Chars(Statements.START_FILTER) + rest, "")
         == More(Name("AND"), More(Name("stat_date"), More(Name(">="), Split(rest, ""))))
  {
    hide Split, Chars;
    SplitFirst(" AND stat_date >= ", "", ' ', "AND stat_date >= ", rest, "");
    SplitFirst("AND stat_date >= ", "AND", ' ', "stat_date >= ", rest, "");
    SplitFirst("stat_date >= ", "stat_date", ' ', ">= ", rest, "");
    SplitFirst(">= ", ">=", ' ', "", rest, "");
    SplitNothing(rest, "");
  }

  lemma EndFilterSplit(rest: seq<Token>)
    ensures Split(Chars(Statements.END_FILTER) + rest, "")
         == More(Name("AND"), More(Name("stat_date"), More(Name("<="), Split(rest, ""))))
  {
    hide Split, Chars;
    SplitFirst(" AND stat_date <= ", "", ' ', "AND stat_date <= ", rest, "");
    SplitFirst("AND stat_date <= ", "AND", ' ', "stat_date <= ", rest, "");
    SplitFirst("stat_date <= ", "stat_date", ' ', "<= ", rest, "");
    SplitFirst("<= ", "<=", ' ', "", rest, "");
    SplitNothing(rest, "");
  }

  // ----- Whole columns and filters -----

  lemma CharsThree(a: string, b: string, c: string, rest: seq<Token>)
    ensures Chars(a + (b + c)) + rest == Chars(a) + (Chars(b) + (Chars(c) + rest))
  {
    CharsAppend(a, b + c);
    CharsAppend(b, c);
    hide Chars;
  }

  lemma CharsTwo(a: string, b: string, rest: seq<Token>)
    ensures Chars(a + b) + rest == Chars(a) + (Chars(b) + rest)
  {
    CharsAppend(a, b);
    hide Chars;
  }

  lemma SumSplit(column: string, rest: seq<Token>)
    requires Ordinary(column) && column != ""
    ensures Split(Chars(Statements.Sum(column)) + rest, "") == SumWords(column, Split(rest, ""))
  {
    hide Split, Chars;
    var (open, close) := ("  COALESCE(SUM(", "), 0)");
    CharsThree(open, column, close, rest);
    SumOpenSplit(Chars(column) + (Chars(close) + rest));
    SplitWord(column, Chars(close) + rest, "");
    assert "" + column == column;
    SumCloseSplit(rest, column);
  }

  lemma CastSplit(rest: seq<Token>)
    ensures Split(Chars(Statements.SALES_COLUMN) + rest, "") == CastWords("sales_amount", Split(rest, ""))
  {
    hide Split, Chars;
    var (open, column, close) := ("  CAST(COALESCE(SUM(", "sales_amount", "), 0) AS DECIMAL(38, 2))");
    assert Statements.SALES_COLUMN == open + (column + close);
    CharsThree(open, column, close, rest);
    CastOpenSplit(Chars(column) + (Chars(close) + rest));
    SplitWord(column, Chars(close) + rest, "");
    assert "" + column == column;
    CastCloseSplit(rest, column);
  }

  /** The three conditions of every statement. */
  function Filters(org: string, start: string, end: string): seq<Condition> {
    [Condition("org_id", "=", org), Condition("stat_date", ">=", start), Condition("stat_date", "<=", end)]
  }

  function FilterWords(org: string, start: string, end: string): Words {
    More(Name("WHERE"), More(Name("org_id"), More(Name("="), More(Literal(org),
      More(Name("AND"), More(Name("stat_date"), More(Name(">="), More(Literal(start),
      More(Name("AND"), More(Name("stat_date"), More(Name("<="), More(Literal(end), End))))))))))))
  }

  function FilterTokens(org: string, start: string, end: string): seq<Token> {
    Chars(Statements.ORG_FILTER) + ([Value(org)] +
      (Chars(Statements.START_FILTER) + ([Value(start)] + (Chars(Statements.END_FILTER) + ([Value(end)] + [])))))
  }

  lemma FiltersSplit(org: string, start: string, end: string, table: string)
    requires table != ""
    ensures Split(FilterTokens(org, start, end), table) == More(Name(table), FilterWords(org, start, end))
  {
    assert Split([], "") == End;
    hide Split, Chars, Statements.ORG_FILTER, Statements.START_FILTER, Statements.END_FILTER;
    var t3 := [Value(end)] + [];
    var t2 := [Value(start)] + (Chars(Statements.END_FILTER) + t3);
    var t1 := [Value(org)] + (Chars(Statements.START_FILTER) + t2);
    OrgFilterSplit(t1, table);
    SplitValue(org, Chars(Statements.START_FILTER) + t2, "");
    StartFilterSplit(t2);
    SplitValue(start, Chars(Statements.END_FILTER) + t3, "");
    EndFilterSplit(t3);
    SplitValue(end, [], "");
  }

  lemma TableSplit(table: string, org: string, start: string, end: string)
    requires Ordinary(table) && table != ""
    ensures Split(Chars("\nFROM ") + (Chars(table) + FilterTokens(org, start, end)), "")
         == More(Name("FROM"), More(Name(table), FilterWords(org, start, end)))
  {
    hide Split, Chars, FilterTokens;
    FromSplit(Chars(table) + FilterTokens(org, start, end));
    SplitWord(table, FilterTokens(org, start, end), "");
    assert "" + table == table;
    FiltersSplit(org, start, end, table);
  }

  // ----- Reading the words -----

  lemma ReadSumWords(column: string, rest: Words)
    ensures ReadSum(SumWords(column, rest)) == Some(Read(column, rest))
    ensures ReadItem(SumWords(column, rest)) == Some(Read(column, rest))
  {
  }

  lemma ReadCastWords(column: string, rest: Words)
    ensures ReadItem(CastWords(column, rest)) == Some(Read(column, rest))
  {
    ReadSumWords(column, CastClosed(rest));
    hide ReadSum, SumWords;
  }

  lemma ReadFilterWords(org: string, start: string, end: string)
    ensures ReadConditions(FilterWords(org, start, end).rest) == Some(Filters(org, start, end))
  {
    var third := More(Name("stat_date"), More(Name("<="), More(Literal(end), End)));
    var second := More(Name("stat_date"), More(Name(">="), More(Literal(start), More(Name("AND"), third))));
    var a := Condition("org_id", "=", org);
    var (b, c) := (Condition("stat_date", ">=", start), Condition("stat_date", "<=", end));
    assert ReadConditions(third) == Some([c]);
    assert ReadConditions(second) == Some([b] + [c]);
    var first := More(Name("org_id"), More(Name("="), More(Literal(org), More(Name("AND"), second))));
    assert ReadConditions(first) == Some([a] + ([b] + [c]));
    assert [a] + ([b] + [c]) == [a, b, c];
    assert FilterWords(org, start, end).rest == first;
  }

  function TailWords(table: string, org: string, start: string, end: string): Words {
    More(Name("FROM"), More(Name(table), FilterWords(org, start, end)))
  }

  lemma ReadLastItem(w: Words, column: string, table: string, org: string, start: string, end: string)
    requires ReadItem(w) == Some(Read(column, TailWords(table, org, start, end)))
    ensures ReadItems(w) == Some(Read([column], TailWords(table, org, start, end)))
  {
    hide ReadItem, FilterWords;
  }

  lemma ReadNextItem(w: Words, column: string, next: Words, columns: seq<string>, rest: Words)
    requires ReadItem(w) == Some(Read(column, More(Mark(','), next)))
    requires ReadItems(next) == Some(Read(columns, rest))
    ensures ReadItems(w) == Some(Read([column] + columns, rest))
  {
    hide ReadItem;
  }

  lemma ReadWhole(w: Words, columns: seq<string>, table: string, org: string, start: string, end: string)
    requires ReadItems(w) == Some(Read(columns, TailWords(table, org, start, end)))
    ensures ReadSelect(More(Name("SELECT"), w)) == Some(Select(columns, table, Filters(org, start, end)))
  {
    hide ReadItems, ReadConditions, Filters;
    ReadFilterWords(org, start, end);
  }

  // ----- The two statements -----

  /** The retail template asks for the sums of orders and of sales. */
  lemma RetailReads(table: string, org: string, start: string, end: string)
    requires Ordinary(table) && table != ""
    ensures ReadSelect(Split(Statements.Meaning(Statements.RETAIL_COLUMNS, table, org, start, end), ""))
         == Some(Select(["order_count", "sales_amount"], table, Filters(org, start, end)))
  {
    hide Split, Chars, FilterTokens, FilterWords, ReadItems, ReadItem, ReadSelect, Filters, SumWords, CastWords,
         Statements.Sum, Statements.SALES_COLUMN;
    var tail := Chars("\nFROM ") + (Chars(table) + FilterTokens(org, start, end));
    var words := TailWords(table, org, start, end);
    RetailTokens(table, org, start, end);
    SelectSplit(Chars(Statements.Sum("order_count")) + (Chars(",\n") + (Chars(Statements.SALES_COLUMN) + tail)));
    SumSplit("order_count", Chars(",\n") + (Chars(Statements.SALES_COLUMN) + tail));
    CommaSplit(Chars(Statements.SALES_COLUMN) + tail);
    CastSplit(tail);
    TableSplit(table, org, start, end);
    ReadCastWords("sales_amount", words);
    ReadLastItem(CastWords("sales_amount", words), "sales_amount", table, org, start, end);
    ReadSumWords("order_count", More(Mark(','), CastWords("sales_amount", words)));
    ReadNextItem(SumWords("order_count", More(Mark(','), CastWords("sales_amount", words))), "order_count",
                 CastWords("sales_amount", words), ["sales_amount"], words);
    assert ["order_count"] + ["sales_amount"] == ["order_count", "sales_amount"];
    ReadWhole(SumWords("order_count", More(Mark(','), CastWords("sales_amount", words))),
              ["order_count", "sales_amount"], table, org, start, end);
  }

  lemma RetailTokens(table: string, org: string, start: string, end: string)
    ensures Statements.Meaning(Statements.RETAIL_COLUMNS, table, org, start, end)
         == Chars("SELECT\n") + (Chars(Statements.Sum("order_count")) + (Chars(",\n") +
              (Chars(Statements.SALES_COLUMN) + (Chars("\nFROM ") + (Chars(table) + FilterTokens(org, start, end))))))
  {
    hide Chars, Statements.Sum, Statements.SALES_COLUMN, Statements.ORG_FILTER, Statements.START_FILTER,
         Statements.END_FILTER;
    var rest := Chars(table) + FilterTokens(org, start, end);
    var sales := Statements.SALES_COLUMN + "\nFROM ";
    CharsThree("SELECT\n", Statements.Sum("order_count"), ",\n" + sales, rest);
    CharsThree(",\n", Statements.SALES_COLUMN, "\nFROM ", rest);
  }

  /** What the last k of six summed columns look like in words. */
  function ItemWords(columns: seq<string>, tail: Words): Words
    requires columns != []
  {
    if |columns| == 1 then SumWords(columns[0], tail)
    else SumWords(columns[0], More(Mark(','), ItemWords(columns[1..], tail)))
  }

  function ItemText(columns: seq<string>): string
    requires columns != []
  {
    if |columns| == 1 then Statements.Sum(columns[0]) + "\nFROM "
    else Statements.Sum(columns[0]) + (",\n" + ItemText(columns[1..]))
  }

  lemma {:induction false} ItemsSplit(columns: seq<string>, table: string, org: string, start: string, end: string)
    requires columns != [] && Ordinary(table) && table != ""
    requires forall i :: 0 <= i < |columns| ==> Ordinary(columns[i]) && columns[i] != ""
    ensures Split(Chars(ItemText(columns)) + (Chars(table) + FilterTokens(org, start, end)), "")
         == ItemWords(columns, TailWords(table, org, start, end))
    decreases |columns|
  {
    hide Split, Chars, FilterTokens, FilterWords, SumWords, Statements.Sum;
    var rest := Chars(table) + FilterTokens(org, start, end);
    if |columns| == 1 {
      CharsTwo(Statements.Sum(columns[0]), "\nFROM ", rest);
      SumSplit(columns[0], Chars("\nFROM ") + rest);
      TableSplit(table, org, start, end);
    } else {
      var others := ItemText(columns[1..]);
      CharsThree(Statements.Sum(columns[0]), ",\n", others, rest);
      SumSplit(columns[0], Chars(",\n") + (Chars(others) + rest));
      CommaSplit(Chars(others) + rest);
      ItemsSplit(columns[1..], table, org, start, end);
    }
  }

  lemma {:induction false} ReadItemWords(columns: seq<string>, table: string, org: string, start: string, end: string)
    requires columns != []
    ensures ReadItems(ItemWords(columns, TailWords(table, org, start, end)))
         == Some(Read(columns, TailWords(table, org, start, end)))
    decreases |columns|
  {
    hide SumWords, ReadItem, ReadItems, FilterWords;
    var tail := TailWords(table, org, start, end);
    if |columns| == 1 {
      ReadSumWords(columns[0], tail);
      ReadLastItem(SumWords(columns[0], tail), columns[0], table, org, start, end);
      assert columns == [columns[0]];
    } else {
      var next := ItemWords(columns[1..], tail);
      ReadItemWords(columns[1..], table, org, start, end);
      ReadSumWords(columns[0], More(Mark(','), next));
      ReadNextItem(SumWords(columns[0], More(Mark(','), next)), columns[0], next, columns[1..], tail);
      assert columns == [columns[0]] + columns[1..];
    }
  }

  const STAGE_COLUMNS :=
    ["lead_count", "invited_count", "measured_count", "signed_count", "started_count", "completed_count"]

  lemma StageColumnsAreOrdinary()
    ensures STAGE_COLUMNS != []
    ensures forall i :: 0 <= i < |STAGE_COLUMNS| ==> Ordinary(STAGE_COLUMNS[i]) && STAGE_COLUMNS[i] != ""
  {
    assert Ordinary("lead_count") && Ordinary("invited_count") && Ordinary("measured_count");
    assert Ordinary("signed_count") && Ordinary("started_count") && Ordinary("completed_count");
  }

  lemma RenovationText()
    ensures Statements.RENOVATION_COLUMNS == "SELECT\n" + ItemText(STAGE_COLUMNS)
  {
    hide Statements.Sum;
    var s := STAGE_COLUMNS;
    assert s[1..] == [s[1], s[2], s[3], s[4], s[5]] && s[1..][1..] == [s[2], s[3], s[4], s[5]];
    assert s[1..][1..][1..] == [s[3], s[4], s[5]] && s[1..][1..][1..][1..] == [s[4], s[5]];
    assert s[1..][1..][1..][1..][1..] == [s[5]];
    var f := ItemText([s[5]]);
    var e := ItemText([s[4], s[5]]);
    var d := ItemText([s[3], s[4], s[5]]);
    var c := ItemText([s[2], s[3], s[4], s[5]]);
    var b := ItemText([s[1], s[2], s[3], s[4], s[5]]);
    assert [s[4], s[5]][1..] == [s[5]] && e == Statements.Sum(s[4]) + (",\n" + f);
    assert [s[3], s[4], s[5]][1..] == [s[4], s[5]] && d == Statements.Sum(s[3]) + (",\n" + e);
    assert [s[2], s[3], s[4], s[5]][1..] == [s[3], s[4], s[5]] && c == Statements.Sum(s[2]) + (",\n" + d);
    assert [s[1], s[2], s[3], s[4], s[5]][1..] == [s[2], s[3], s[4], s[5]] && b == Statements.Sum(s[1]) + (",\n" + c);
  }

  /** The renovation template asks for the sums of the six stages, in their order. */
  lemma RenovationReads(table: string, org: string, start: string, end: string)
    requires Ordinary(table) && table != ""
    ensures ReadSelect(Split(Statements.Meaning(Statements.RENOVATION_COLUMNS, table, org, start, end), ""))
         == Some(Select(STAGE_COLUMNS, table, Filters(org, start, end)))
  {
    hide Split, Chars, FilterTokens, FilterWords, ReadItems, ReadSelect, Filters, ItemWords, ItemText, TailWords;
    StageColumnsAreOrdinary();
    RenovationText();
    hide STAGE_COLUMNS, Statements.RENOVATION_COLUMNS;
    var rest := Chars(table) + FilterTokens(org, start, end);
    RenovationTokens(table, org, start, end);
    CharsTwo("SELECT\n", ItemText(STAGE_COLUMNS), rest);
    SelectSplit(Chars(ItemText(STAGE_COLUMNS)) + rest);
    ItemsSplit(STAGE_COLUMNS, table, org, start, end);
    ReadItemWords(STAGE_COLUMNS, table, org, start, end);
    ReadWhole(ItemWords(STAGE_COLUMNS, TailWords(table, org, start, end)), STAGE_COLUMNS, table, org, start, end);
  }

  lemma RenovationTokens(table: string, org: string, start: string, end: string)
    ensures Statements.Meaning(Statements.RENOVATION_COLUMNS, table, org, start, end)
         == Chars(Statements.RENOVATION_COLUMNS) + (Chars(table) + FilterTokens(org, start, end))
  {
    hide Chars, Statements.RENOVATION_COLUMNS, Statements.ORG_FILTER, Statements.START_FILTER, Statements.END_FILTER;
  }
}
