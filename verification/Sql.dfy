/** A reader for the SQL statements the store may send, whatever wrote them. */
module Sql {
  import opened SqlText
  import opened Strings
  import opened Wrappers

  // Tokens

  datatype Token = Word(word: string) | Value(value: SqlValue) | Symbol(symbol: char)

  predicate IsLetter(c: char) {
    'A' <= c <= 'Z' || 'a' <= c <= 'z' || c == '_'
  }

  predicate IsWordChar(c: char) {
    IsLetter(c) || IsDigit(c)
  }

  predicate IsSymbol(c: char) {
    c == '(' || c == ')' || c == ',' || c == ';' || c == '=' || c == '<' || c == '>' || c == '*'
  }

  function WordRun(s: string): (n: nat)
    ensures n <= |s|
  {
    if s == "" || !IsWordChar(s[0]) then 0 else 1 + WordRun(s[1..])
  }

  /** The tokens of a text; nothing if it has a part that is none. */
  function Lex(s: string): Option<seq<Token>>
    decreases |s|
  {
    if s == "" then Some([])
    else if s[0] == ' ' then Lex(s[1..])
    else if IsSymbol(s[0]) then Before(Symbol(s[0]), Lex(s[1..]))
    else if IsLetter(s[0]) then
      var n := WordRun(s);
      Before(Word(s[..n]), Lex(s[n..]))
    else
      match ReadValue(s)
      case None => None
      case Some((value, rest)) =>
        ReadValueShortens(s);
        Before(Value(value), Lex(rest))
  }

  function Before(token: Token, rest: Option<seq<Token>>): Option<seq<Token>> {
    if rest.Some? then Some([token] + rest.value) else None
  }

  // Statements

  /** A column that is NOT NULL. */
  datatype Column = Column(name: string, kind: string)

  datatype Syntax =
    | Begin
    | Commit
    | Rollback
    | CreateTable(table: string, columns: seq<Column>)
    | CreateUniqueIndex(index: string, table: string, column: string)
    | InsertInto(table: string, names: seq<string>, values: seq<SqlValue>)
    | DeleteFrom(table: string, column: string, value: SqlValue)
    | SelectFrom(names: seq<string>, table: string, order: string)

  /** Words between commas, and what follows. */
  function Names(ts: seq<Token>): (seq<string>, seq<Token>) {
    if ts == [] || !ts[0].Word? then ([], ts)
    else if |ts| >= 2 && ts[1] == Symbol(',') then
      var (names, rest) := Names(ts[2..]);
      ([ts[0].word] + names, rest)
    else ([ts[0].word], ts[1..])
  }

  /** Literals between commas, and what follows. */
  function Values(ts: seq<Token>): (seq<SqlValue>, seq<Token>) {
    if ts == [] || !ts[0].Value? then ([], ts)
    else if |ts| >= 2 && ts[1] == Symbol(',') then
      var (values, rest) := Values(ts[2..]);
      ([ts[0].value] + values, rest)
    else ([ts[0].value], ts[1..])
  }

  /** Column definitions between commas, and what follows. */
  function Columns(ts: seq<Token>): (seq<Column>, seq<Token>) {
    if !(|ts| >= 4 && ts[0].Word? && ts[1].Word? && ts[2..4] == [Word("NOT"), Word("NULL")]) then ([], ts)
    else
      var column := Column(ts[0].word, ts[1].word);
      if |ts| >= 5 && ts[4] == Symbol(',') then
        var (columns, rest) := Columns(ts[5..]);
        ([column] + columns, rest)
      else ([column], ts[4..])
  }

  function ParseControl(ts: seq<Token>): Option<Syntax> {
    if ts == [Word("BEGIN"), Symbol(';')] then Some(Begin)
    else if ts == [Word("COMMIT"), Symbol(';')] then Some(Commit)
    else if ts == [Word("ROLLBACK"), Symbol(';')] then Some(Rollback)
    else None
  }

  function ParseDelete(ts: seq<Token>): Option<Syntax> {
    if |ts| == 8 && ts[1] == Word("FROM") && ts[2].Word? && ts[3] == Word("WHERE") && ts[4].Word? &&
       ts[5] == Symbol('=') && ts[6].Value? && ts[7] == Symbol(';')
    then Some(DeleteFrom(ts[2].word, ts[4].word, ts[6].value))
    else None
  }

  function ParseInsert(ts: seq<Token>): Option<Syntax> {
    if !(|ts| >= 4 && ts[1] == Word("INTO") && ts[2].Word? && ts[3] == Symbol('(')) then None
    else
      var (names, after) := Names(ts[4..]);
      if !(|after| >= 3 && after[..3] == [Symbol(')'), Word("VALUES"), Symbol('(')]) then None
      else
        var (values, end) := Values(after[3..]);
        if end == [Symbol(')'), Symbol(';')] then Some(InsertInto(ts[2].word, names, values)) else None
  }

  function ParseSelect(ts: seq<Token>): Option<Syntax>
    requires ts != []
  {
    var (names, after) := Names(ts[1..]);
    if |after| == 6 && after[0] == Word("FROM") && after[1].Word? && after[2] == Word("ORDER") &&
       after[3] == Word("BY") && after[4].Word? && after[5] == Symbol(';')
    then Some(SelectFrom(names, after[1].word, after[4].word))
    else None
  }

  function ParseCreateTable(ts: seq<Token>): Option<Syntax> {
    if !(|ts| >= 7 && ts[2..5] == [Word("IF"), Word("NOT"), Word("EXISTS")] && ts[5].Word? && ts[6] == Symbol('(')) then None
    else
      var (columns, end) := Columns(ts[7..]);
      if end == [Symbol(')'), Symbol(';')] then Some(CreateTable(ts[5].word, columns)) else None
  }

  function ParseCreateIndex(ts: seq<Token>): Option<Syntax> {
    if |ts| == 13 && ts[2] == Word("INDEX") && ts[3..6] == [Word("IF"), Word("NOT"), Word("EXISTS")] &&
       ts[6].Word? && ts[7] == Word("ON") && ts[8].Word? && ts[9] == Symbol('(') && ts[10].Word? &&
       ts[11..] == [Symbol(')'), Symbol(';')]
    then Some(CreateUniqueIndex(ts[6].word, ts[8].word, ts[10].word))
    else None
  }

  function Parse(ts: seq<Token>): Option<Syntax> {
    if |ts| < 2 then None
    else if ts[0] == Word("DELETE") then ParseDelete(ts)
    else if ts[0] == Word("INSERT") then ParseInsert(ts)
    else if ts[0] == Word("SELECT") then ParseSelect(ts)
    else if ts[0] == Word("CREATE") && ts[1] == Word("TABLE") then ParseCreateTable(ts)
    else if ts[0] == Word("CREATE") && ts[1] == Word("UNIQUE") then ParseCreateIndex(ts)
    else ParseControl(ts)
  }

  function Read(sql: string): Option<Syntax> {
    match Lex(sql)
    case None => None
    case Some(ts) => Parse(ts)
  }

  // Reading what was written, piece by piece

  predicate IsWord(w: string) {
    w != "" && IsLetter(w[0]) && forall i :: 0 <= i < |w| ==> IsWordChar(w[i])
  }

  /** Neither a word nor a literal goes on here. */
  predicate Ends(s: string) {
    s == "" || (!IsWordChar(s[0]) && s[0] != '\'')
  }

  predicate Reads(s: string, ts: seq<Token>) {
    Lex(s) == Some(ts)
  }

  lemma {:induction false} WordRunOf(w: string, rest: string)
    requires Ends(rest) && forall i :: 0 <= i < |w| ==> IsWordChar(w[i])
    ensures WordRun(w + rest) == |w|
  {
    if w == "" {
      assert w + rest == rest;
    } else {
      assert (w + rest)[1..] == w[1..] + rest;
      WordRunOf(w[1..], rest);
    }
  }

  lemma ReadsWord(w: string, rest: string, ts: seq<Token>)
    requires IsWord(w) && Ends(rest) && Reads(rest, ts)
    ensures Reads(w + rest, [Word(w)] + ts)
  {
    WordRunOf(w, rest);
    hide WordRun, Lex, ReadValue;
    assert (w + rest)[0] == w[0] && (w + rest)[..|w|] == w && (w + rest)[|w|..] == rest;
    LexesWord(w + rest);
  }

  lemma LexesWord(s: string)
    requires s != "" && IsLetter(s[0])
    ensures Lex(s) == Before(Word(s[..WordRun(s)]), Lex(s[WordRun(s)..]))
  {
  }

  lemma ReadsSpace(rest: string, ts: seq<Token>)
    requires Reads(rest, ts)
    ensures Reads(" " + rest, ts)
  {
    assert (" " + rest)[1..] == rest;
  }

  lemma ReadsSymbol(c: char, rest: string, ts: seq<Token>)
    requires IsSymbol(c) && Reads(rest, ts)
    ensures Reads([c] + rest, [Symbol(c)] + ts)
  {
    assert ([c] + rest)[1..] == rest;
  }

  lemma LiteralStarts(v: SqlValue, rest: string)
    requires !v.Other?
    ensures var s := Literal(v) + rest;
            s != "" && !IsLetter(s[0]) && !IsSymbol(s[0]) && s[0] != ' '
  {
    match v
    case Int64(n) => if n >= 0 { NatTextIsDigits(n); }
    case Text(_) =>
  }

  lemma ReadsLiteral(v: SqlValue, rest: string, ts: seq<Token>)
    requires !v.Other? && Ends(rest) && Reads(rest, ts)
    ensures Reads(Literal(v) + rest, [Value(v)] + ts)
  {
    LiteralStarts(v, rest);
    ReadValueOfLiteral(v, rest);
    hide Literal, ReadValue;
  }

  function WordTokens(ws: seq<string>): seq<Token> {
    seq(|ws|, i requires 0 <= i < |ws| => Word(ws[i]))
  }

  function ValueTokens(vs: seq<SqlValue>): seq<Token> {
    seq(|vs|, i requires 0 <= i < |vs| => Value(vs[i]))
  }

  /** The tokens with a comma between each two. */
  function Listed(ts: seq<Token>): seq<Token> {
    if |ts| <= 1 then ts else [ts[0], Symbol(',')] + Listed(ts[1..])
  }

  /** Words with a space between each two. */
  lemma {:induction false} ReadsWords(ws: seq<string>, rest: string, ts: seq<Token>)
    requires ws != [] && (forall w :: w in ws ==> IsWord(w)) && Ends(rest) && Reads(rest, ts)
    ensures Reads(Join(ws, " ") + rest, WordTokens(ws) + ts)
  {
    hide Lex;
    if |ws| == 1 {
      ReadsWord(ws[0], rest, ts);
      assert WordTokens(ws) == [Word(ws[0])];
    } else {
      var tail := Join(ws[1..], " ") + rest;
      ReadsWords(ws[1..], rest, ts);
      ReadsSpace(tail, WordTokens(ws[1..]) + ts);
      ReadsWord(ws[0], " " + tail, WordTokens(ws[1..]) + ts);
      assert Join(ws, " ") + rest == ws[0] + (" " + tail);
      assert WordTokens(ws) + ts == [Word(ws[0])] + (WordTokens(ws[1..]) + ts);
    }
  }

  /** The comma and the space before the next item. */
  lemma ReadsComma(rest: string, ts: seq<Token>)
    requires Reads(rest, ts)
    ensures Reads(", " + rest, [Symbol(',')] + ts) && Ends(", " + rest)
  {
    hide Lex;
    ReadsSpace(rest, ts);
    ReadsSymbol(',', " " + rest, ts);
    assert ", " + rest == [','] + (" " + rest);
  }

  lemma {:induction false} ReadsNames(ws: seq<string>, rest: string, ts: seq<Token>)
    requires ws != [] && (forall w :: w in ws ==> IsWord(w)) && Ends(rest) && Reads(rest, ts)
    ensures Reads(Join(ws, ", ") + rest, Listed(WordTokens(ws)) + ts)
  {
    hide Lex;
    if |ws| == 1 {
      ReadsWord(ws[0], rest, ts);
      assert WordTokens(ws) == [Word(ws[0])];
    } else {
      var tail, listed := Join(ws[1..], ", ") + rest, Listed(WordTokens(ws[1..])) + ts;
      ReadsNames(ws[1..], rest, ts);
      ReadsComma(tail, listed);
      ReadsWord(ws[0], ", " + tail, [Symbol(',')] + listed);
      assert Join(ws, ", ") + rest == ws[0] + (", " + tail);
      assert WordTokens(ws)[1..] == WordTokens(ws[1..]);
      assert Listed(WordTokens(ws)) + ts == [Word(ws[0])] + ([Symbol(',')] + listed);
    }
  }

  lemma ReadsOneMoreLiteral(v: SqlValue, tail: string, listed: seq<Token>)
    requires !v.Other? && Reads(tail, listed)
    ensures Reads(Literal(v) + (", " + tail), [Value(v), Symbol(',')] + listed)
  {
    hide Lex, Literal;
    ReadsComma(tail, listed);
    ReadsLiteral(v, ", " + tail, [Symbol(',')] + listed);
    assert [Value(v), Symbol(',')] + listed == [Value(v)] + ([Symbol(',')] + listed);
  }

  lemma Regroup(a: string, b: string, c: string, d: string)
    ensures a + b + c + d == a + (b + (c + d))
  {
  }

  lemma MoreLiterals(vs: seq<SqlValue>, rest: string)
    requires |vs| >= 2 && forall v :: v in vs ==> !v.Other?
    ensures Join(Literals(vs), ", ") + rest == Literal(vs[0]) + (", " + (Join(Literals(vs[1..]), ", ") + rest))
  {
    hide Literal;
    var more := Literals(vs[1..]);
    assert Literals(vs)[1..] == more && more != [];
    assert Join(Literals(vs), ", ") == Literals(vs)[0] + ", " + Join(more, ", ");
    hide Join, Literals;
    Regroup(Literal(vs[0]), ", ", Join(more, ", "), rest);
  }

  lemma MoreValueTokens(vs: seq<SqlValue>)
    requires |vs| >= 2
    ensures Listed(ValueTokens(vs)) == [Value(vs[0]), Symbol(',')] + Listed(ValueTokens(vs[1..]))
  {
    assert ValueTokens(vs)[1..] == ValueTokens(vs[1..]);
  }

  lemma {:induction false} ReadsLiterals(vs: seq<SqlValue>, rest: string, ts: seq<Token>)
    requires vs != [] && (forall v :: v in vs ==> !v.Other?) && Ends(rest) && Reads(rest, ts)
    ensures Reads(Join(Literals(vs), ", ") + rest, Listed(ValueTokens(vs)) + ts)
  {
    hide Literal, Ends, Reads;
    if |vs| == 1 {
      ReadsLiteral(vs[0], rest, ts);
      assert Literals(vs) == [Literal(vs[0])] && ValueTokens(vs) == [Value(vs[0])];
    } else {
      var tail, listed := Join(Literals(vs[1..]), ", ") + rest, Listed(ValueTokens(vs[1..])) + ts;
      ReadsLiterals(vs[1..], rest, ts);
      ReadsOneMoreLiteral(vs[0], tail, listed);
      MoreLiterals(vs, rest);
      MoreValueTokens(vs);
      assert Listed(ValueTokens(vs)) + ts == [Value(vs[0]), Symbol(',')] + listed;
    }
  }

  lemma {:induction false} NamesOfListed(ws: seq<string>, ts: seq<Token>)
    requires ws != [] && (ts == [] || ts[0] != Symbol(','))
    ensures Names(Listed(WordTokens(ws)) + ts) == (ws, ts)
  {
    var all := Listed(WordTokens(ws)) + ts;
    if |ws| == 1 {
      assert WordTokens(ws) == [Word(ws[0])] && all == [Word(ws[0])] + ts;
      assert all[1..] == ts && ws == [ws[0]];
    } else {
      NamesOfListed(ws[1..], ts);
      assert WordTokens(ws)[1..] == WordTokens(ws[1..]);
      assert all[2..] == Listed(WordTokens(ws[1..])) + ts;
      assert [ws[0]] + ws[1..] == ws;
    }
  }

  lemma {:induction false} ValuesOfListed(vs: seq<SqlValue>, ts: seq<Token>)
    requires vs != [] && (ts == [] || ts[0] != Symbol(','))
    ensures Values(Listed(ValueTokens(vs)) + ts) == (vs, ts)
  {
    var all := Listed(ValueTokens(vs)) + ts;
    if |vs| == 1 {
      assert ValueTokens(vs) == [Value(vs[0])] && all == [Value(vs[0])] + ts;
      assert all[1..] == ts && vs == [vs[0]];
    } else {
      ValuesOfListed(vs[1..], ts);
      assert ValueTokens(vs)[1..] == ValueTokens(vs[1..]);
      assert all[2..] == Listed(ValueTokens(vs[1..])) + ts;
      assert [vs[0]] + vs[1..] == vs;
    }
  }

  // Whole statements

  lemma NothingLeft()
    ensures Reads("", []) && Ends("")
  {
  }

  lemma ReadsControl()
    ensures Read("BEGIN;") == Some(Begin) && Read("COMMIT;") == Some(Commit) && Read("ROLLBACK;") == Some(Rollback)
  {
    hide Lex;
    NothingLeft();
    ReadsSymbol(';', "", []);
    assert Reads(";", [Symbol(';')]) && Ends(";") by { assert [';'] + "" == ";" && [Symbol(';')] + [] == [Symbol(';')]; }
    ReadsWord("BEGIN", ";", [Symbol(';')]);
    ReadsWord("COMMIT", ";", [Symbol(';')]);
    ReadsWord("ROLLBACK", ";", [Symbol(';')]);
    assert "BEGIN" + ";" == "BEGIN;" && "COMMIT" + ";" == "COMMIT;" && "ROLLBACK" + ";" == "ROLLBACK;";
  }

  /** A deletion of the rows whose column equals a value. */
  lemma ReadsDelete(table: string, column: string, value: SqlValue)
    requires IsWord(table) && IsWord(column) && !value.Other?
    ensures Read(Join(["DELETE", "FROM", table, "WHERE", column], " ") + (" = " + (Literal(value) + ";"))) ==
            Some(DeleteFrom(table, column, value))
  {
    hide Lex, Literal;
    NothingLeft();
    ReadsSymbol(';', "", []);
    var end := [Symbol(';')] + [];
    assert [';'] + "" == ";";
    ReadsLiteral(value, ";", end);
    var compared := [Value(value)] + end;
    ReadsSpace(Literal(value) + ";", compared);
    ReadsSymbol('=', " " + (Literal(value) + ";"), compared);
    assert ['='] + (" " + (Literal(value) + ";")) == "= " + (Literal(value) + ";");
    ReadsSpace("= " + (Literal(value) + ";"), [Symbol('=')] + compared);
    assert " " + ("= " + (Literal(value) + ";")) == " = " + (Literal(value) + ";");
    var ws := ["DELETE", "FROM", table, "WHERE", column];
    ReadsWords(ws, " = " + (Literal(value) + ";"), [Symbol('=')] + compared);
    var ts := WordTokens(ws) + ([Symbol('=')] + compared);
    assert ts == [Word("DELETE"), Word("FROM"), Word(table), Word("WHERE"), Word(column), Symbol('='), Value(value), Symbol(';')];
  }

  /** An insertion of values under the names of their columns. */
  lemma ReadsInsert(table: string, names: seq<string>, values: seq<SqlValue>)
    requires IsWord(table) && names != [] && (forall w :: w in names ==> IsWord(w))
    requires values != [] && (forall v :: v in values ==> !v.Other?)
    ensures Read(Join(["INSERT", "INTO", table], " ") +
                 (" (" + (Join(names, ", ") + (") VALUES (" + (Join(Literals(values), ", ") + ");"))))) ==
            Some(InsertInto(table, names, values))
  {
    hide Lex, Literal, Names, Values, Listed, WordTokens, ValueTokens, Join, Literals;
    var end := [Symbol(')'), Symbol(';')];
    ReadsEnd();
    ReadsLiterals(values, ");", end);
    var given := Join(Literals(values), ", ") + ");";
    ReadsValuesWord(given, Listed(ValueTokens(values)) + end);
    var middle := [Symbol(')'), Word("VALUES"), Symbol('(')] + (Listed(ValueTokens(values)) + end);
    ReadsNames(names, ") VALUES (" + given, middle);
    var named := Join(names, ", ") + (") VALUES (" + given);
    ReadsOpening(named, Listed(WordTokens(names)) + middle);
    var open := [Symbol('(')] + (Listed(WordTokens(names)) + middle);
    ReadsWords(["INSERT", "INTO", table], " (" + named, open);
    var ts := WordTokens(["INSERT", "INTO", table]) + open;
    InsertIsParsed(table, names, values, ts);
  }

  lemma ReadsEnd()
    ensures Reads(");", [Symbol(')'), Symbol(';')]) && Ends(");")
  {
    hide Lex;
    NothingLeft();
    ReadsSymbol(';', "", []);
    assert [';'] + "" == ";" && [Symbol(';')] + [] == [Symbol(';')];
    ReadsSymbol(')', ";", [Symbol(';')]);
    assert [')'] + ";" == ");" && [Symbol(')')] + [Symbol(';')] == [Symbol(')'), Symbol(';')];
  }

  lemma ReadsOpening(rest: string, ts: seq<Token>)
    requires Reads(rest, ts)
    ensures Reads(" (" + rest, [Symbol('(')] + ts) && Ends(" (" + rest)
  {
    hide Lex;
    ReadsSymbol('(', rest, ts);
    ReadsSpace(['('] + rest, [Symbol('(')] + ts);
    assert " " + (['('] + rest) == " (" + rest;
  }

  lemma ReadsValuesWord(rest: string, ts: seq<Token>)
    requires Reads(rest, ts)
    ensures Reads(") VALUES (" + rest, [Symbol(')'), Word("VALUES"), Symbol('(')] + ts) && Ends(") VALUES (" + rest)
  {
    hide Lex;
    ReadsOpening(rest, ts);
    ReadsWord("VALUES", " (" + rest, [Symbol('(')] + ts);
    ReadsSpace("VALUES" + (" (" + rest), [Word("VALUES")] + ([Symbol('(')] + ts));
    ReadsSymbol(')', " " + ("VALUES" + (" (" + rest)), [Word("VALUES")] + ([Symbol('(')] + ts));
    assert ") VALUES (" + rest == [')'] + (" " + ("VALUES" + (" (" + rest)));
    assert [Symbol(')'), Word("VALUES"), Symbol('(')] + ts == [Symbol(')')] + ([Word("VALUES")] + ([Symbol('(')] + ts));
  }

  lemma InsertIsParsed(table: string, names: seq<string>, values: seq<SqlValue>, ts: seq<Token>)
    requires names != [] && values != []
    requires ts == WordTokens(["INSERT", "INTO", table]) + ([Symbol('(')] + (Listed(WordTokens(names)) +
                   ([Symbol(')'), Word("VALUES"), Symbol('(')] + (Listed(ValueTokens(values)) + [Symbol(')'), Symbol(';')]))))
    ensures Parse(ts) == Some(InsertInto(table, names, values))
  {
    hide Names, Values, Listed, ValueTokens;
    var end := [Symbol(')'), Symbol(';')];
    var middle := [Symbol(')'), Word("VALUES"), Symbol('(')] + (Listed(ValueTokens(values)) + end);
    assert WordTokens(["INSERT", "INTO", table]) == [Word("INSERT"), Word("INTO"), Word(table)];
    assert ts[4..] == Listed(WordTokens(names)) + middle;
    NamesOfListed(names, middle);
    assert middle[..3] == [Symbol(')'), Word("VALUES"), Symbol('(')] && middle[3..] == Listed(ValueTokens(values)) + end;
    ValuesOfListed(values, end);
  }

  /** A scan of some columns in the order of one. */
  lemma ReadsSelect(names: seq<string>, table: string, order: string)
    requires names != [] && (forall w :: w in names ==> IsWord(w)) && IsWord(table) && IsWord(order)
    ensures Read("SELECT" + (" " + (Join(names, ", ") + (" " + (Join(["FROM", table, "ORDER", "BY", order], " ") + ";"))))) ==
            Some(SelectFrom(names, table, order))
  {
    hide Lex, Names, Listed, WordTokens, Join;
    NothingLeft();
    ReadsSymbol(';', "", []);
    assert [';'] + "" == ";";
    var source := ["FROM", table, "ORDER", "BY", order];
    var end := WordTokens(source) + ([Symbol(';')] + []);
    ReadsWords(source, ";", [Symbol(';')] + []);
    ReadsSpace(Join(source, " ") + ";", end);
    ReadsNames(names, " " + (Join(source, " ") + ";"), end);
    var named := Join(names, ", ") + (" " + (Join(source, " ") + ";"));
    ReadsSpace(named, Listed(WordTokens(names)) + end);
    ReadsWord("SELECT", " " + named, Listed(WordTokens(names)) + end);
    SelectIsParsed(names, table, order, [Word("SELECT")] + (Listed(WordTokens(names)) + end));
  }

  lemma SelectIsParsed(names: seq<string>, table: string, order: string, ts: seq<Token>)
    requires names != []
    requires ts == [Word("SELECT")] + (Listed(WordTokens(names)) +
                   (WordTokens(["FROM", table, "ORDER", "BY", order]) + ([Symbol(';')] + [])))
    ensures Parse(ts) == Some(SelectFrom(names, table, order))
  {
    hide Names, Listed;
    var end := WordTokens(["FROM", table, "ORDER", "BY", order]) + ([Symbol(';')] + []);
    assert end == [Word("FROM"), Word(table), Word("ORDER"), Word("BY"), Word(order), Symbol(';')];
    assert ts[1..] == Listed(WordTokens(names)) + end;
    NamesOfListed(names, end);
  }

  lemma ReadsCreateIndex(index: string, table: string, column: string)
    requires IsWord(index) && IsWord(table) && IsWord(column)
    ensures Read(Join(["CREATE", "UNIQUE", "INDEX", "IF", "NOT", "EXISTS", index, "ON", table], " ") +
                 (" (" + (column + ");"))) ==
            Some(CreateUniqueIndex(index, table, column))
  {
    hide Lex, Join;
    ReadsEnd();
    var end := [Symbol(')'), Symbol(';')];
    ReadsWord(column, ");", end);
    ReadsOpening(column + ");", [Word(column)] + end);
    var ws := ["CREATE", "UNIQUE", "INDEX", "IF", "NOT", "EXISTS", index, "ON", table];
    ReadsWords(ws, " (" + (column + ");"), [Symbol('(')] + ([Word(column)] + end));
    var ts := WordTokens(ws) + ([Symbol('(')] + ([Word(column)] + end));
    assert ts[11..] == end && ts[3..6] == [Word("IF"), Word("NOT"), Word("EXISTS")];
  }

  // Column definitions

  function Definition(column: Column): string {
    Join([column.name, column.kind, "NOT", "NULL"], " ")
  }

  function Definitions(columns: seq<Column>): string {
    if columns == [] then ""
    else if |columns| == 1 then Definition(columns[0])
    else Definition(columns[0]) + (", " + Definitions(columns[1..]))
  }

  function Defined(column: Column): seq<Token> {
    [Word(column.name), Word(column.kind), Word("NOT"), Word("NULL")]
  }

  function DefinitionTokens(columns: seq<Column>): seq<Token> {
    if columns == [] then []
    else if |columns| == 1 then Defined(columns[0])
    else Defined(columns[0]) + ([Symbol(',')] + DefinitionTokens(columns[1..]))
  }

  lemma ReadsDefinition(column: Column, rest: string, ts: seq<Token>)
    requires IsWord(column.name) && IsWord(column.kind) && Ends(rest) && Reads(rest, ts)
    ensures Reads(Definition(column) + rest, Defined(column) + ts)
  {
    hide Lex, Join;
    var ws := [column.name, column.kind, "NOT", "NULL"];
    ReadsWords(ws, rest, ts);
    assert WordTokens(ws) == Defined(column);
  }

  lemma ReadsOneMoreDefinition(column: Column, tail: string, ts: seq<Token>)
    requires IsWord(column.name) && IsWord(column.kind) && Reads(tail, ts)
    ensures Reads((Definition(column) + (", " + tail)), (Defined(column) + ([Symbol(',')] + ts)))
  {
    hide Lex, Definition, Defined;
    ReadsComma(tail, ts);
    ReadsDefinition(column, ", " + tail, [Symbol(',')] + ts);
  }

  lemma {:induction false} ReadsDefinitions(columns: seq<Column>, rest: string, ts: seq<Token>)
    requires columns != [] && (forall c :: c in columns ==> IsWord(c.name) && IsWord(c.kind))
    requires Ends(rest) && Reads(rest, ts)
    ensures Reads(Definitions(columns) + rest, DefinitionTokens(columns) + ts)
  {
    hide Reads, Ends, IsWord, Definition, Defined;
    if |columns| == 1 {
      ReadsDefinition(columns[0], rest, ts);
    } else {
      var tail, tokens := Definitions(columns[1..]) + rest, DefinitionTokens(columns[1..]) + ts;
      ReadsDefinitions(columns[1..], rest, ts);
      ReadsOneMoreDefinition(columns[0], tail, tokens);
      assert Definitions(columns) + rest == Definition(columns[0]) + (", " + tail);
      assert DefinitionTokens(columns) + ts == Defined(columns[0]) + ([Symbol(',')] + tokens);
    }
  }

  /** One definition is read, and a comma leads to the next. */
  lemma ColumnsOfOneMore(column: Column, ts: seq<Token>)
    ensures Columns(Defined(column) + ([Symbol(',')] + ts)) == ([column] + Columns(ts).0, Columns(ts).1)
    ensures ts == [] || ts[0] != Symbol(',') ==> Columns(Defined(column) + ts) == ([column], ts)
  {
    var more, last := Defined(column) + ([Symbol(',')] + ts), Defined(column) + ts;
    assert more[2..4] == [Word("NOT"), Word("NULL")] && more[5..] == ts;
    assert last[2..4] == [Word("NOT"), Word("NULL")] && last[4..] == ts;
    assert column == Column(column.name, column.kind);
  }

  lemma {:induction false} ColumnsOfDefinitions(columns: seq<Column>, ts: seq<Token>)
    requires columns != [] && (ts == [] || ts[0] != Symbol(','))
    ensures Columns(DefinitionTokens(columns) + ts) == (columns, ts)
  {
    hide Columns, Defined;
    if |columns| == 1 {
      ColumnsOfOneMore(columns[0], ts);
      assert columns == [columns[0]];
    } else {
      var tokens := DefinitionTokens(columns[1..]) + ts;
      ColumnsOfDefinitions(columns[1..], ts);
      ColumnsOfOneMore(columns[0], tokens);
      assert DefinitionTokens(columns) + ts == Defined(columns[0]) + ([Symbol(',')] + tokens);
      assert [columns[0]] + columns[1..] == columns;
    }
  }

  lemma ReadsCreateTable(table: string, columns: seq<Column>)
    requires IsWord(table) && columns != [] && (forall c :: c in columns ==> IsWord(c.name) && IsWord(c.kind))
    ensures Read(Join(["CREATE", "TABLE", "IF", "NOT", "EXISTS", table], " ") + (" (" + (Definitions(columns) + ");"))) ==
            Some(CreateTable(table, columns))
  {
    hide Lex, Join, Columns, DefinitionTokens, Definitions;
    ReadsEnd();
    var end := [Symbol(')'), Symbol(';')];
    ReadsDefinitions(columns, ");", end);
    var defined := DefinitionTokens(columns) + end;
    ReadsOpening(Definitions(columns) + ");", defined);
    var ws := ["CREATE", "TABLE", "IF", "NOT", "EXISTS", table];
    ReadsWords(ws, " (" + (Definitions(columns) + ");"), [Symbol('(')] + defined);
    var ts := WordTokens(ws) + ([Symbol('(')] + defined);
    assert ts[7..] == defined && ts[2..5] == [Word("IF"), Word("NOT"), Word("EXISTS")];
    ColumnsOfDefinitions(columns, end);
  }
}
