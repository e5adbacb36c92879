/**
 * The SQL text the helpers send: the create statement of `create_table`, the
 * parameterised insert template of `insert_dataframe_to_rds`, the full-table
 * select of `fetch_table_data` and `fetch_table_to_dataframe`, and the drop
 * statement of `drop_table`. Each builder has a reader beside it, and the
 * round-trip lemmas show that the reader recovers exactly what went in.
 */
module Statements {

  import opened Wrappers
  import opened Text
  import opened Dtypes
  import opened Identifiers
  import opened Sanitise

  /** One column of the create statement: its name and its PostgreSQL type. */
  datatype ColumnDecl = ColumnDecl(name: string, ty: PgType)

  /**
   * `zip(dataframe.columns, dataframe.dtypes)` with every dtype mapped: one
   * declaration per column, in column order, stopping at the shorter list.
   */
  function Schema(columns: seq<string>, dtypes: seq<DType>): (r: seq<ColumnDecl>)
    ensures |r| == if |columns| <= |dtypes| then |columns| else |dtypes|
    ensures forall i :: 0 <= i < |r| ==> r[i] == ColumnDecl(columns[i], MapDtype(dtypes[i]))
    decreases |columns|
  {
    if columns == [] || dtypes == [] then []
    else [ColumnDecl(columns[0], MapDtype(dtypes[0]))] + Schema(columns[1..], dtypes[1..])
  }

  /** `f"{col} {map_dtype_to_postgresql(dtype)}"`: the name as it is, unquoted. */
  function Render(d: ColumnDecl): string
  {
    d.name + " " + Keyword(d.ty)
  }

  function RenderAll(decls: seq<ColumnDecl>): (r: seq<string>)
    ensures |r| == |decls|
    ensures forall i :: 0 <= i < |decls| ==> r[i] == Render(decls[i])
  {
    seq(|decls|, i requires 0 <= i < |decls| => Render(decls[i]))
  }

  /** The column definitions joined by `", "`; empty exactly when `zip` pairs nothing. */
  function ColumnList(columns: seq<string>, dtypes: seq<DType>): (r: string)
    ensures r == "" <==> columns == [] || dtypes == []
  {
    var rendered := RenderAll(Schema(columns, dtypes));
    JoinNonEmpty(", ", rendered);
    Join(", ", rendered)
  }

  const CreatePrefix := "CREATE TABLE IF NOT EXISTS "

  /**
   * The statement `create_table` executes: the table name as it is, then the
   * column list in parentheses, then a semicolon.
   */
  function CreateTableStatement(table: string, columns: seq<string>, dtypes: seq<DType>): (r: string)
    ensures StripAffixes(r, CreatePrefix + table + " (", ");") == Some(ColumnList(columns, dtypes))
  {
    var head := CreatePrefix + table + " (";
    StripAffixesOf(head, ColumnList(columns, dtypes), ");");
    assert head + (ColumnList(columns, dtypes) + ");") == head + ColumnList(columns, dtypes) + ");";
    CreatePrefix + table + " (" + (ColumnList(columns, dtypes) + ");")
  }

  /** Reads column definitions `name TYPE` separated by `", "`, as far as the list goes. */
  function ParseColumnDecls(s: string): (r: Option<(seq<ColumnDecl>, string)>)
    ensures r.Some? ==> |r.value.1| < |s|
    decreases |s|
  {
    var (name, afterName) := SpanWord(s);
    if |afterName| >= 1 && afterName[0] == ' ' then
      var (kw, rest) := SpanWord(afterName[1..]);
      match ParseKeyword(kw)
      case None => None
      case Some(ty) =>
        if StartsWithPair(rest, ',', ' ') then
          match ParseColumnDecls(rest[2..])
          case None => None
          case Some((decls, rest')) => Some(([ColumnDecl(name, ty)] + decls, rest'))
        else Some(([ColumnDecl(name, ty)], rest))
    else None
  }

  /** Reads a create statement whose table and column names are plain words. */
  function ParseCreate(s: string): (r: Option<(string, seq<ColumnDecl>)>)
  {
    if |s| >= |CreatePrefix| && s[..|CreatePrefix|] == CreatePrefix then
      var (table, afterTable) := SpanWord(s[|CreatePrefix|..]);
      if StartsWithPair(afterTable, ' ', '(') then
        var body := afterTable[2..];
        if body == ");" then Some((table, []))
        else
          match ParseColumnDecls(body)
          case None => None
          case Some((decls, rest)) => if rest == ");" then Some((table, decls)) else None
      else None
    else None
  }

  /** The first step of `ParseColumnDecls`: a rendered declaration splits into its name and keyword. */
  lemma SpanRendered(d: ColumnDecl, after: string)
    requires AllWordChars(d.name)
    requires after == [] || !IsWordChar(after[0])
    ensures SpanWord(Render(d) + after) == (d.name, " " + (Keyword(d.ty) + after))
    ensures SpanWord(Keyword(d.ty) + after) == (Keyword(d.ty), after)
  {
    assert Render(d) + after == d.name + (" " + (Keyword(d.ty) + after));
    SpanWordOf(d.name, " " + (Keyword(d.ty) + after));
    SpanWordOf(Keyword(d.ty), after);
  }

  /** One step of `ParseColumnDecls` over a rendered declaration. */
  lemma ParseColumnDeclsStep(d: ColumnDecl, after: string)
    requires AllWordChars(d.name)
    requires after == [] || !IsWordChar(after[0])
    ensures ParseColumnDecls(Render(d) + after) ==
      if StartsWithPair(after, ',', ' ') then
        match ParseColumnDecls(after[2..])
        case None => None
        case Some((decls, rest)) => Some(([d] + decls, rest))
      else Some(([d], after))
  {
    SpanRendered(d, after);
    ParseKeywordOf(d.ty);
    assert (" " + (Keyword(d.ty) + after))[1..] == Keyword(d.ty) + after;
  }

  /** A declaration in front of a list that reads back extends the list by one. */
  lemma ParseColumnDeclsCons(d: ColumnDecl, decls: seq<ColumnDecl>, tail: string, rest: string)
    requires AllWordChars(d.name)
    requires ParseColumnDecls(tail + rest) == Some((decls, rest))
    ensures ParseColumnDecls(Render(d) + (", " + tail) + rest) == Some(([d] + decls, rest))
  {
    var after := ", " + (tail + rest);
    assert Render(d) + (", " + tail) + rest == Render(d) + after;
    assert StartsWithPair(after, ',', ' ') && after[2..] == tail + rest;
    ParseColumnDeclsStep(d, after);
  }

  /** A joined list of declarations with plain-word names reads back as the declarations. */
  lemma {:induction false} ParseColumnDeclsOf(decls: seq<ColumnDecl>, rest: string)
    requires |decls| >= 1
    requires forall i :: 0 <= i < |decls| ==> AllWordChars(decls[i].name)
    requires rest == [] || (!IsWordChar(rest[0]) && rest[0] != ',')
    ensures ParseColumnDecls(Join(", ", RenderAll(decls)) + rest) == Some((decls, rest))
    decreases |decls|
  {
    var d := decls[0];
    if |decls| == 1 {
      assert Join(", ", RenderAll(decls)) == Render(d);
      ParseColumnDeclsStep(d, rest);
      assert [d] == decls;
    } else {
      var parts := RenderAll(decls);
      var tail := Join(", ", RenderAll(decls[1..]));
      JoinCons(", ", parts);
      assert parts[1..] == RenderAll(decls[1..]);
      ParseColumnDeclsOf(decls[1..], rest);
      ParseColumnDeclsCons(d, decls[1..], tail, rest);
      assert [d] + decls[1..] == decls;
    }
  }

  /** How `ParseCreate` reads a statement with a plain-word table name. */
  lemma ParseCreateShape(table: string, body: string)
    requires AllWordChars(table)
    ensures ParseCreate(CreatePrefix + table + " (" + body) ==
      if body == ");" then Some((table, []))
      else
        match ParseColumnDecls(body)
        case None => None
        case Some((decls, rest)) => if rest == ");" then Some((table, decls)) else None
  {
    var s := CreatePrefix + table + " (" + body;
    assert s[..|CreatePrefix|] == CreatePrefix && s[|CreatePrefix|..] == table + (" (" + body);
    SpanWordOf(table, " (" + body);
    assert StartsWithPair(" (" + body, ' ', '(') && (" (" + body)[2..] == body;
  }

  /** Declarations with plain-word names, rendered into a create statement, read back. */
  lemma ParseCreateOfDecls(table: string, decls: seq<ColumnDecl>)
    requires AllWordChars(table)
    requires forall i :: 0 <= i < |decls| ==> AllWordChars(decls[i].name)
    ensures ParseCreate(CreatePrefix + table + " (" + (Join(", ", RenderAll(decls)) + ");")) == Some((table, decls))
  {
    var list := Join(", ", RenderAll(decls));
    ParseCreateShape(table, list + ");");
    if decls == [] {
      assert list + ");" == ");";
    } else {
      assert |list| >= 1 by {
        var rendered := RenderAll(decls);
        assert |rendered[0]| >= 1;
        if |decls| >= 2 { assert list == rendered[0] + ", " + Join(", ", rendered[1..]); }
      }
      assert list + ");" != ");";
      ParseColumnDeclsOf(decls, ");");
    }
  }

  /** The declarations of `Schema` carry the column names. */
  lemma SchemaWordNames(columns: seq<string>, dtypes: seq<DType>)
    requires forall i :: 0 <= i < |columns| ==> AllWordChars(columns[i])
    ensures var decls := Schema(columns, dtypes); forall i :: 0 <= i < |decls| ==> AllWordChars(decls[i].name)
  {
  }

  /**
   * The create statement, for a table and columns named by plain words,
   * reads back as that table and one declaration per column, in column
   * order, each with the keyword its dtype maps to.
   */
  lemma CreateRoundTrip(table: string, columns: seq<string>, dtypes: seq<DType>)
    requires AllWordChars(table)
    requires forall i :: 0 <= i < |columns| ==> AllWordChars(columns[i])
    ensures ParseCreate(CreateTableStatement(table, columns, dtypes)) == Some((table, Schema(columns, dtypes)))
  {
    var decls := Schema(columns, dtypes);
    SchemaWordNames(columns, dtypes);
    ParseCreateOfDecls(table, decls);
  }

  /** Sanitised names are plain words, so a create statement over them reads back. */
  lemma CreateRoundTripCleaned(table: string, columns: seq<string>, dtypes: seq<DType>)
    requires AllWordChars(table)
    ensures ParseCreate(CreateTableStatement(table, CleanNames(columns), dtypes))
         == Some((table, Schema(CleanNames(columns), dtypes)))
  {
    var cleaned := CleanNames(columns);
    forall i | 0 <= i < |cleaned| ensures AllWordChars(cleaned[i]) {
      assert AllLowerAlnum(cleaned[i]);
    }
    CreateRoundTrip(table, cleaned, dtypes);
  }

  /**
   * Read character-wise, the column list has one entry per column, in order:
   * the first is `name TYPE`, every later one ` name TYPE` with the name
   * verbatim, whenever no name contains a comma.
   */
  lemma CreateEntries(columns: seq<string>, dtypes: seq<DType>)
    requires |columns| >= 1 && |dtypes| >= 1
    requires forall i :: 0 <= i < |columns| ==> ',' !in columns[i]
    ensures var decls := Schema(columns, dtypes);
      SplitOn(ColumnList(columns, dtypes), ',') == [Render(decls[0])] + PrefixEach(" ", RenderAll(decls)[1..])
  {
    var decls := Schema(columns, dtypes);
    var rendered := RenderAll(decls);
    forall i | 0 <= i < |rendered| ensures ',' !in rendered[i] {
      assert rendered[i] == columns[i] + " " + Keyword(decls[i].ty);
      assert ',' !in Keyword(decls[i].ty);
    }
    assert ", " == [','] + " ";
    SplitJoin(',', " ", rendered);
  }

  const InsertPrefix := "INSERT INTO "

  const ValuesInfix := ") VALUES ("

  /** `sql.Placeholder() * n`: `n` positional parameters. */
  function Placeholders(n: nat): (r: seq<string>)
    ensures |r| == n
    ensures forall i :: 0 <= i < n ==> r[i] == "%s"
  {
    seq(n, i => "%s")
  }

  /**
   * The template `insert_dataframe_to_rds` passes to `execute_batch`: the
   * quoted table, the quoted columns and one placeholder per column. The
   * template has no trailing semicolon.
   */
  function InsertTemplate(table: string, columns: seq<string>): (r: string)
    ensures StripAffixes(r, InsertPrefix + QuoteIdent(table) + " (", ")").Some?
    ensures r[|r| - 1] == ')'
  {
    InsertPrefix + QuoteIdent(table) + " ("
      + (Join(", ", QuoteAll(columns)) + (ValuesInfix + (Join(", ", Placeholders(|columns|)) + ")")))
  }

  /** The field list of an insert: empty, or quoted identifiers separated by `", "`. */
  function ParseFieldList(s: string): (r: Option<(seq<string>, string)>)
  {
    if |s| >= 1 && s[0] == ')' then Some(([], s)) else ParseIdentList(s)
  }

  /** Counts `%s` placeholders separated by `", "` up to the closing parenthesis at the end. */
  function ParsePlaceholderList(s: string): (r: Option<nat>)
    ensures r.Some? ==> r.value >= 1
    decreases |s|
  {
    if StartsWithPair(s, '%', 's') then
      var rest := s[2..];
      if rest == ")" then Some(1)
      else if StartsWithPair(rest, ',', ' ') then
        match ParsePlaceholderList(rest[2..])
        case None => None
        case Some(n) => Some(n + 1)
      else None
    else None
  }

  function ParsePlaceholders(s: string): (r: Option<nat>)
  {
    if s == ")" then Some(0) else ParsePlaceholderList(s)
  }

  /** Reads an insert template: the table, the columns and the number of placeholders. */
  function ParseInsert(s: string): (r: Option<(string, seq<string>, nat)>)
  {
    if |s| >= |InsertPrefix| && s[..|InsertPrefix|] == InsertPrefix then
      match ParseIdent(s[|InsertPrefix|..])
      case None => None
      case Some((table, afterTable)) =>
        if StartsWithPair(afterTable, ' ', '(') then
          match ParseFieldList(afterTable[2..])
          case None => None
          case Some((columns, afterFields)) =>
            if |afterFields| >= |ValuesInfix| && afterFields[..|ValuesInfix|] == ValuesInfix then
              match ParsePlaceholders(afterFields[|ValuesInfix|..])
              case None => None
              case Some(n) => Some((table, columns, n))
            else None
        else None
    else None
  }

  /** `n` joined placeholders and the closing parenthesis count as `n`. */
  lemma {:induction false} ParsePlaceholderListOf(n: nat)
    requires n >= 1
    ensures ParsePlaceholderList(Join(", ", Placeholders(n)) + ")") == Some(n)
    decreases n
  {
    var s := Join(", ", Placeholders(n)) + ")";
    if n == 1 {
      assert s == "%s" + ")";
    } else {
      var tail := Join(", ", Placeholders(n - 1));
      assert s == "%s" + (", " + (tail + ")")) by {
        assert Placeholders(n)[1..] == Placeholders(n - 1);
      }
      assert StartsWithPair(s, '%', 's');
      var rest := s[2..];
      assert rest == ", " + (tail + ")");
      assert rest[2..] == tail + ")";
      ParsePlaceholderListOf(n - 1);
    }
  }

  /** The first character of a joined list of quoted identifiers is a quote. */
  lemma JoinQuotedStart(columns: seq<string>)
    requires |columns| >= 1
    ensures var fields := Join(", ", QuoteAll(columns)); |fields| >= 1 && fields[0] == '"'
  {
    var quoted := QuoteAll(columns);
    if |columns| >= 2 {
      assert Join(", ", quoted) == quoted[0] + ", " + Join(", ", quoted[1..]);
    }
  }

  /** How `ParseInsert` reads a template once the quoted table name is behind it. */
  lemma ParseInsertShape(table: string, body: string)
    ensures ParseInsert(InsertPrefix + QuoteIdent(table) + " (" + body) ==
      match ParseFieldList(body)
      case None => None
      case Some((columns, afterFields)) =>
        if |afterFields| >= |ValuesInfix| && afterFields[..|ValuesInfix|] == ValuesInfix then
          match ParsePlaceholders(afterFields[|ValuesInfix|..])
          case None => None
          case Some(n) => Some((table, columns, n))
        else None
  {
    var afterTable := " (" + body;
    var s := InsertPrefix + QuoteIdent(table) + " (" + body;
    assert s == InsertPrefix + (QuoteIdent(table) + afterTable);
    assert s[..|InsertPrefix|] == InsertPrefix && s[|InsertPrefix|..] == QuoteIdent(table) + afterTable;
    ParseIdentQuote(table, afterTable);
    assert StartsWithPair(afterTable, ' ', '(') && afterTable[2..] == body;
  }

  /** The quoted, joined columns read back as the columns, up to the closing parenthesis. */
  lemma ParseFieldListOf(columns: seq<string>, afterFields: string)
    requires |afterFields| >= 1 && afterFields[0] == ')'
    ensures ParseFieldList(Join(", ", QuoteAll(columns)) + afterFields) == Some((columns, afterFields))
  {
    if columns == [] {
      assert Join(", ", QuoteAll(columns)) + afterFields == afterFields;
    } else {
      JoinQuotedStart(columns);
      ParseIdentListOf(columns, afterFields);
    }
  }

  /** The values clause of a template with `n` columns reads back as `n` placeholders. */
  lemma ParseValuesOf(n: nat)
    ensures var s := ValuesInfix + (Join(", ", Placeholders(n)) + ")");
      |s| >= |ValuesInfix| && s[..|ValuesInfix|] == ValuesInfix && ParsePlaceholders(s[|ValuesInfix|..]) == Some(n)
  {
    var params := Join(", ", Placeholders(n));
    var s := ValuesInfix + (params + ")");
    assert s[..|ValuesInfix|] == ValuesInfix && s[|ValuesInfix|..] == params + ")";
    if n == 0 {
      assert params + ")" == ")";
    } else {
      ParsePlaceholderListOf(n);
      assert |params| >= 1 by {
        if n >= 2 { assert params == "%s" + ", " + Join(", ", Placeholders(n)[1..]); }
      }
    }
  }

  /**
   * For every table name and every list of column names, whatever
   * characters they hold, the insert template reads back as that table,
   * those columns in order, and as many placeholders as there are columns.
   */
  lemma InsertRoundTrip(table: string, columns: seq<string>)
    ensures ParseInsert(InsertTemplate(table, columns)) == Some((table, columns, |columns|))
  {
    var afterFields := ValuesInfix + (Join(", ", Placeholders(|columns|)) + ")");
    ParseInsertShape(table, Join(", ", QuoteAll(columns)) + afterFields);
    ParseFieldListOf(columns, afterFields);
    ParseValuesOf(|columns|);
  }

  /**
   * Declared names that are the column names, in order: folded, each is the
   * quoted name exactly when that has no capital, and a name with a capital
   * matches no folded declaration.
   */
  lemma FoldedAgree(table: string, columns: seq<string>, decls: seq<ColumnDecl>)
    requires |decls| <= |columns|
    requires forall i :: 0 <= i < |decls| ==> decls[i].name == columns[i]
    ensures FoldUnquoted(table) == table <==> NoUpper(table)
    ensures forall i :: 0 <= i < |decls| ==> (FoldUnquoted(decls[i].name) == columns[i] <==> NoUpper(columns[i]))
    ensures forall i, k :: 0 <= i < |columns| && 0 <= k < |decls| && !NoUpper(columns[i]) ==>
      FoldUnquoted(decls[k].name) != columns[i]
    ensures DistinctFolded(decls) <==>
      forall i, k :: 0 <= i < k < |decls| ==> FoldUnquoted(columns[i]) != FoldUnquoted(columns[k])
  {
    forall i, k | 0 <= i < |columns| && 0 <= k < |decls| && !NoUpper(columns[i])
      ensures FoldUnquoted(decls[k].name) != columns[i]
    {
      assert NoUpper(FoldUnquoted(decls[k].name));
    }
  }

  /** The table the insert addresses is the created one, once PostgreSQL has folded the unquoted name. */
  predicate SameTable(created: Option<(string, seq<ColumnDecl>)>, inserted: Option<(string, seq<string>, nat)>)
  {
    created.Some? && inserted.Some? && FoldUnquoted(created.value.0) == inserted.value.0
  }

  /** Column `i` of the insert is declaration `k` of the create statement, once folded. */
  predicate Addresses(created: Option<(string, seq<ColumnDecl>)>, inserted: Option<(string, seq<string>, nat)>, i: int, k: int)
  {
    && created.Some? && inserted.Some?
    && 0 <= i < |inserted.value.1| && 0 <= k < |created.value.1|
    && FoldUnquoted(created.value.1[k].name) == inserted.value.1[i]
  }

  /** No two declarations fold to the same name: PostgreSQL refuses a table that declares a column twice. */
  predicate DistinctFolded(decls: seq<ColumnDecl>)
  {
    forall i, k :: 0 <= i < k < |decls| ==> FoldUnquoted(decls[i].name) != FoldUnquoted(decls[k].name)
  }

  /** The create statement reads back and PostgreSQL would create its columns, none of them twice. */
  predicate DistinctDeclared(created: Option<(string, seq<ColumnDecl>)>)
  {
    created.Some? && DistinctFolded(created.value.1)
  }

  /**
   * `create_table` writes the names unquoted, so PostgreSQL folds them to
   * lower case; the insert template quotes them, so they are kept as
   * written. For names PostgreSQL accepts unquoted, both statements read
   * back, and the table and column `i` the insert addresses are the ones the
   * create statement declared exactly when the name has no capital letter.
   * A name with a capital is addressed by no declared column at all. The
   * columns are created only when no two names fold to the same one.
   */
  lemma CreateInsertAgree(table: string, columns: seq<string>, dtypes: seq<DType>)
    requires PlainIdentifier(table)
    requires forall i :: 0 <= i < |columns| ==> PlainIdentifier(columns[i])
    ensures var created := ParseCreate(CreateTableStatement(table, columns, dtypes));
      var inserted := ParseInsert(InsertTemplate(table, columns));
      && created.Some? && inserted.Some?
      && (SameTable(created, inserted) <==> NoUpper(table))
      && (forall i :: 0 <= i < |Schema(columns, dtypes)| ==> (Addresses(created, inserted, i, i) <==> NoUpper(columns[i])))
      && (forall i, k :: 0 <= i < |columns| && 0 <= k < |Schema(columns, dtypes)| && !NoUpper(columns[i]) ==>
            !Addresses(created, inserted, i, k))
      && (DistinctDeclared(created) <==>
            forall i, k :: 0 <= i < k < |Schema(columns, dtypes)| ==> FoldUnquoted(columns[i]) != FoldUnquoted(columns[k]))
  {
    forall i | 0 <= i < |columns| ensures AllWordChars(columns[i]) {
      assert PlainIdentifier(columns[i]);
    }
    CreateRoundTrip(table, columns, dtypes);
    InsertRoundTrip(table, columns);
    FoldedAgree(table, columns, Schema(columns, dtypes));
  }

  /**
   * After sanitising, every declared column is the column the insert
   * addresses, provided each sanitised name is one PostgreSQL accepts
   * unquoted. The columns are created only when no two labels sanitise to
   * the same name, which the sanitiser does not check. The table name is
   * not sanitised: it agrees only without capitals.
   */
  lemma CreateInsertAgreeCleaned(table: string, columns: seq<string>, dtypes: seq<DType>)
    requires PlainIdentifier(table)
    requires forall i :: 0 <= i < |columns| ==> PlainIdentifier(CleanName(columns[i]))
    ensures var cleaned := CleanNames(columns);
      var created := ParseCreate(CreateTableStatement(table, cleaned, dtypes));
      var inserted := ParseInsert(InsertTemplate(table, cleaned));
      && created.Some? && inserted.Some?
      && (SameTable(created, inserted) <==> NoUpper(table))
      && (forall i :: 0 <= i < |Schema(cleaned, dtypes)| ==> Addresses(created, inserted, i, i))
      && (DistinctDeclared(created) <==>
            forall i, k :: 0 <= i < k < |Schema(cleaned, dtypes)| ==> CleanName(columns[i]) != CleanName(columns[k]))
  {
    var cleaned := CleanNames(columns);
    forall i | 0 <= i < |cleaned| ensures NoUpper(cleaned[i]) && FoldUnquoted(cleaned[i]) == cleaned[i] {
      assert AllLowerAlnum(cleaned[i]);
    }
    CreateInsertAgree(table, cleaned, dtypes);
    forall i, k | 0 <= i < k < |Schema(cleaned, dtypes)|
      ensures FoldUnquoted(cleaned[i]) != FoldUnquoted(cleaned[k]) <==> CleanName(columns[i]) != CleanName(columns[k])
    {
    }
  }

  /**
   * A sanitised name is one PostgreSQL accepts unquoted exactly when it is
   * not empty and does not start with a digit; the sanitiser checks neither.
   */
  lemma CleanNamePlain(s: string)
    ensures var c := CleanName(s); PlainIdentifier(c) <==> |c| >= 1 && !IsDigit(c[0])
  {
    var c := CleanName(s);
    assert AllLowerAlnum(c);
    assert AllWordChars(c) by {
      forall i | 0 <= i < |c| ensures IsWordChar(c[i]) { assert IsLowerAlnum(c[i]); }
    }
  }

  /** Two names the sanitiser leaves unusable unquoted: one it empties, one that starts with a digit. */
  lemma CleanNameNotPlain()
    ensures CleanName("!!") == "" && !PlainIdentifier(CleanName("!!"))
    ensures CleanName("1st") == "1st" && !PlainIdentifier(CleanName("1st"))
  {
    assert KeepAlnum("!!") == "";
    assert KeepAlnum("1st") == "1st";
  }

  /**
   * A frame with one unsanitised capitalised column: the create statement
   * declares it, PostgreSQL folds that declaration to lower case, and the
   * insert addresses the name as written, which is not the declared column.
   */
  lemma CreateInsertDisagree(table: string, name: string, ty: DType)
    requires PlainIdentifier(table) && PlainIdentifier(name) && !NoUpper(name)
    ensures var created := ParseCreate(CreateTableStatement(table, [name], [ty]));
      var inserted := ParseInsert(InsertTemplate(table, [name]));
      && created == Some((table, [ColumnDecl(name, MapDtype(ty))]))
      && inserted == Some((table, [name], 1))
      && !Addresses(created, inserted, 0, 0)
  {
    var columns := [name];
    CreateRoundTrip(table, columns, [ty]);
    InsertRoundTrip(table, columns);
    CreateInsertAgree(table, columns, [ty]);
    assert Schema(columns, [ty]) == [ColumnDecl(name, MapDtype(ty))];
  }

  /** `Score` is such a name: PostgreSQL accepts it unquoted and folds it to `score`. */
  lemma ScoreFolds()
    ensures PlainIdentifier("Score") && !NoUpper("Score")
    ensures FoldUnquoted("Score") == "score"
  {
    assert IsUpper("Score"[0]);
  }

  const SelectPrefix := "SELECT * FROM "

  const DropPrefix := "DROP TABLE IF EXISTS "

  /** The full-table scan of `fetch_table_data` and `fetch_table_to_dataframe`; the name is interpolated as it is. */
  function SelectAllStatement(table: string): (r: string)
    ensures StripAffixes(r, SelectPrefix, ";") == Some(table)
  {
    StripAffixesOf(SelectPrefix, table, ";");
    SelectPrefix + table + ";"
  }

  /** The statement of `drop_table`; the name is interpolated as it is. */
  function DropTableStatement(table: string): (r: string)
    ensures StripAffixes(r, DropPrefix, ";") == Some(table)
  {
    StripAffixesOf(DropPrefix, table, ";");
    DropPrefix + table + ";"
  }
}
