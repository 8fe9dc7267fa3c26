/** How an engine reads and answers a SELECT of sums: characters, words, clauses, rows.  Nothing
    here knows the service's templates. */
module Sql {
  import opened Wrappers
  import DateText

  // ----- Characters and values -----

  /** A statement as an engine reads it: characters, and values whether bound or quoted. */
  datatype Token = Text(c: char) | Value(text: string)

  function IndexOf(s: string, c: char): (k: nat)
    ensures k <= |s| && forall i :: 0 <= i < k ==> s[i] != c
    ensures k < |s| ==> s[k] == c
  {
    if s == "" || s[0] == c then 0 else 1 + IndexOf(s[1..], c)
  }

  /** Placeholders take the arguments in order; quoted literals run to the next quote. */
  function Tokens(sql: string, args: seq<string>): seq<Token>
    decreases |sql|
  {
    if sql == "" then []
    else if sql[0] == '?' && args != [] then [Value(args[0])] + Tokens(sql[1..], args[1..])
    else if sql[0] == '\'' && IndexOf(sql[1..], '\'') < |sql| - 1 then
      var k := IndexOf(sql[1..], '\'');
      [Value(sql[1..][..k])] + Tokens(sql[1..][k + 1..], args)
    else [Text(sql[0])] + Tokens(sql[1..], args)
  }

  function Chars(s: string): seq<Token> {
    if s == "" then [] else [Text(s[0])] + Chars(s[1..])
  }

  // ----- Words -----

  /** Names, numbers and operators; single marks; and values. */
  datatype Word = Name(text: string) | Mark(c: char) | Literal(text: string)

  datatype Words = End | More(word: Word, rest: Words)

  predicate Blank(c: char) {
    c == ' ' || c == '\n'
  }

  predicate IsMark(c: char) {
    c == '(' || c == ')' || c == ','
  }

  predicate Ordinary(s: string) {
    forall i :: 0 <= i < |s| ==> !Blank(s[i]) && !IsMark(s[i])
  }

  function Flush(word: string, rest: Words): Words {
    if word == "" then rest else More(Name(word), rest)
  }

  /** The words of the tokens, where `word` is what has been read of the present one. */
  function Split(tokens: seq<Token>, word: string): Words {
    if tokens == [] then Flush(word, End)
    else
      match tokens[0]
      case Value(v) => Flush(word, More(Literal(v), Split(tokens[1..], "")))
      case Text(c) =>
        if Blank(c) then Flush(word, Split(tokens[1..], ""))
        else if IsMark(c) then Flush(word, More(Mark(c), Split(tokens[1..], "")))
        else Split(tokens[1..], word + [c])
  }

  // ----- Clauses -----

  datatype Condition = Condition(column: string, operator: string, value: string)

  /** Sums of columns of one table over the rows that meet all conditions. */
  datatype Select = Select(columns: seq<string>, table: string, conditions: seq<Condition>)

  datatype Read<T> = Read(value: T, rest: Words)

  function Size(w: Words): nat {
    if w.End? then 0 else 1 + Size(w.rest)
  }

  function Expect(w: Words, word: Word): (r: Option<Words>)
    ensures r.Some? ==> Size(r.value) < Size(w)
  {
    if w.More? && w.word == word then Some(w.rest) else None
  }

  function ExpectName(w: Words): (r: Option<Read<string>>)
    ensures r.Some? ==> Size(r.value.rest) < Size(w)
  {
    if w.More? && w.word.Name? then Some(Read(w.word.text, w.rest)) else None
  }

  /** COALESCE(SUM(column), 0): the column's sum, 0 when there is no row. */
  function ReadSum(w: Words): (r: Option<Read<string>>)
    ensures r.Some? ==> Size(r.value.rest) < Size(w)
  {
    var w :- Expect(w, Name("COALESCE"));
    var w :- Expect(w, Mark('('));
    var w :- Expect(w, Name("SUM"));
    var w :- Expect(w, Mark('('));
    var column :- ExpectName(w);
    var w :- Expect(column.rest, Mark(')'));
    var w :- Expect(w, Mark(','));
    var w :- Expect(w, Name("0"));
    var w :- Expect(w, Mark(')'));
    Some(Read(column.value, w))
  }

  /** A sum, or one cast to two fractional digits, which the stored amounts have anyway. */
  function ReadItem(w: Words): (r: Option<Read<string>>)
    ensures r.Some? ==> Size(r.value.rest) < Size(w)
  {
    if w.More? && w.word == Name("CAST") then
      var w :- Expect(w.rest, Mark('('));
      var sum :- ReadSum(w);
      var w :- Expect(sum.rest, Name("AS"));
      var w :- Expect(w, Name("DECIMAL"));
      var w :- Expect(w, Mark('('));
      var w :- Expect(w, Name("38"));
      var w :- Expect(w, Mark(','));
      var w :- Expect(w, Name("2"));
      var w :- Expect(w, Mark(')'));
      var w :- Expect(w, Mark(')'));
      Some(Read(sum.value, w))
    else
      ReadSum(w)
  }

  function ReadItems(w: Words): (r: Option<Read<seq<string>>>)
    ensures r.Some? ==> Size(r.value.rest) < Size(w)
    decreases Size(w)
  {
    var item :- ReadItem(w);
    if item.rest.More? && item.rest.word == Mark(',') then
      var items :- ReadItems(item.rest.rest);
      Some(Read([item.value] + items.value, items.rest))
    else
      Some(Read([item.value], item.rest))
  }

  function ReadConditions(w: Words): Option<seq<Condition>>
    decreases Size(w)
  {
    var column :- ExpectName(w);
    var operator :- ExpectName(column.rest);
    if operator.rest.More? && operator.rest.word.Literal? then
      var condition := Condition(column.value, operator.value, operator.rest.word.text);
      if operator.rest.rest.End? then Some([condition])
      else
        var w :- Expect(operator.rest.rest, Name("AND"));
        var conditions :- ReadConditions(w);
        Some([condition] + conditions)
    else
      None
  }

  function ReadSelect(w: Words): Option<Select> {
    var w :- Expect(w, Name("SELECT"));
    var items :- ReadItems(w);
    var w :- Expect(items.rest, Name("FROM"));
    var table :- ExpectName(w);
    var w :- Expect(table.rest, Name("WHERE"));
    var conditions :- ReadConditions(w);
    Some(Select(items.value, table.value, conditions))
  }

  // ----- Rows -----

  /** A row's values by the names of its columns. */
  datatype Record = Record(texts: map<string, string>, numbers: map<string, int>)

  /** Comparison operators, on texts; no other is known. */
  function Compare(x: string, operator: string, y: string): Option<bool> {
    if operator == "=" then Some(x == y)
    else if operator == "<" then Some(DateText.TextLess(x, y))
    else if operator == "<=" then Some(!DateText.TextLess(y, x))
    else if operator == ">" then Some(DateText.TextLess(y, x))
    else if operator == ">=" then Some(!DateText.TextLess(x, y))
    else None
  }

  /** Whether a row meets all conditions, if it has their columns. */
  function Meets(r: Record, conditions: seq<Condition>): Option<bool> {
    if conditions == [] then Some(true)
    else
      var c := conditions[0];
      if c.column !in r.texts then None
      else
        var first :- Compare(r.texts[c.column], c.operator, c.value);
        var others :- Meets(r, conditions[1..]);
        Some(first && others)
  }

  /** The sum of a column over the rows that meet the conditions. */
  function SumColumn(rows: seq<Record>, conditions: seq<Condition>, column: string): Option<int> {
    if rows == [] then Some(0)
    else
      var row := rows[|rows| - 1];
      var before :- SumColumn(rows[..|rows| - 1], conditions, column);
      var meets :- Meets(row, conditions);
      if column !in row.numbers then None
      else Some(before + if meets then row.numbers[column] else 0)
  }

  function SumColumns(rows: seq<Record>, conditions: seq<Condition>, columns: seq<string>): Option<seq<int>> {
    if columns == [] then Some([])
    else
      var first :- SumColumn(rows, conditions, columns[0]);
      var others :- SumColumns(rows, conditions, columns[1..]);
      Some([first] + others)
  }

  /** The one row an engine with these tables gives for a statement; None when it cannot read
      the text, or lacks the table or a column. */
  function Asked(sql: string, args: seq<string>, tables: map<string, seq<Record>>): Option<seq<int>> {
    var select :- ReadSelect(Split(Tokens(sql, args), ""));
    if select.table !in tables then None
    else SumColumns(tables[select.table], select.conditions, select.columns)
  }

  // ----- Splitting, piece by piece -----

  lemma {:induction false} CharsAppend(s: string, t: string)
    ensures Chars(s + t) == Chars(s) + Chars(t)
    decreases |s|
  {
    if s == "" {
      assert s + t == t;
    } else {
      assert (s + t)[1..] == s[1..] + t;
      CharsAppend(s[1..], t);
    }
  }

  lemma {:induction false} SplitWord(s: string, rest: seq<Token>, word: string)
    requires Ordinary(s)
    ensures Split(Chars(s) + rest, word) == Split(rest, word + s)
    decreases |s|
  {
    if s == "" {
      assert Chars(s) + rest == rest && word + s == word;
    } else {
      assert (Chars(s) + rest)[1..] == Chars(s[1..]) + rest;
      SplitWord(s[1..], rest, word + [s[0]]);
      assert word + [s[0]] + s[1..] == word + s;
    }
  }

  lemma SplitBlank(c: char, rest: seq<Token>, word: string)
    requires Blank(c)
    ensures Split([Text(c)] + rest, word) == Flush(word, Split(rest, ""))
  {
    assert ([Text(c)] + rest)[1..] == rest;
  }

  lemma SplitMark(c: char, rest: seq<Token>, word: string)
    requires IsMark(c)
    ensures Split([Text(c)] + rest, word) == Flush(word, More(Mark(c), Split(rest, "")))
  {
    assert ([Text(c)] + rest)[1..] == rest;
  }

  lemma SplitValue(text: string, rest: seq<Token>, word: string)
    ensures Split([Value(text)] + rest, word) == Flush(word, More(Literal(text), Split(rest, "")))
  {
    assert ([Value(text)] + rest)[1..] == rest;
  }

  lemma CharsOne(c: char)
    ensures Chars([c]) == [Text(c)]
  {
    assert [c][1..] == "";
  }

  /** Reading a text up to and including its first blank or mark. */
  lemma SplitFirst(text: string, first: string, c: char, others: string, rest: seq<Token>, word: string)
    requires text == first + [c] + others && Ordinary(first) && (Blank(c) || IsMark(c))
    ensures Split(Chars(text) + rest, word) == Flush(word + first, AfterFirst(c, Split(Chars(others) + rest, "")))
    ensures word == "" ==> word + first == first
    ensures first == "" ==> word + first == word
  {
    var tail := Chars(others) + rest;
    CharsAppend(first + [c], others);
    CharsAppend(first, [c]);
    CharsOne(c);
    hide Split, Chars;
    assert Chars(text) + rest == Chars(first) + ([Text(c)] + tail);
    SplitWord(first, [Text(c)] + tail, word);
    if Blank(c) {
      SplitBlank(c, tail, word + first);
    } else {
      SplitMark(c, tail, word + first);
    }
  }

  /** A blank ends a word; a mark is one itself. */
  function AfterFirst(c: char, rest: Words): Words {
    if IsMark(c) then More(Mark(c), rest) else rest
  }

  /** After the last blank or mark of a text what follows is read afresh. */
  lemma SplitNothing(rest: seq<Token>, word: string)
    ensures Split(Chars("") + rest, word) == Split(rest, word)
  {
    assert Chars("") + rest == rest;
  }
}
