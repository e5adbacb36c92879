# rdshelp in Dafny

`rdshelp` is a small set of helpers that move a pandas data frame into and out
of a PostgreSQL database on Amazon RDS. Apart from the database calls, its
logic is:

- the column-name sanitiser `clean_column_names`;
- the dtype-to-PostgreSQL type mapper `map_dtype_to_postgresql`;
- the SQL text the other helpers build:
  - the `CREATE TABLE IF NOT EXISTS` statement of `create_table`;
  - the parameterised `INSERT` template of `insert_dataframe_to_rds`;
  - the `SELECT *` of `fetch_table_data` and `fetch_table_to_dataframe`;
  - the `DROP TABLE IF EXISTS` of `drop_table`;
- the conversion of the frame's values into one tuple per row;
- the commit-or-rollback of the batch insert.

This project models these parts and proves what they promise.

Modules, one per component:

- `Text`: the ASCII character classes, ASCII lowercasing, `str.join`, and the
  small scanners (`SplitOn`, `SpanWord`, `StripAffixes`) used to read
  statements back.
- `Sanitise`: `clean_column_names` on one name (`CleanName`) and on the
  column list (`CleanNames`). `SanitiseExamples` holds the worked examples.
- `Frames`: the data frame as a class. `DataFrame.CleanColumnNames` replaces
  its `columns` field in place and returns the frame itself, as the Python
  code does. `DataFrame.CreateStatement` and `DataFrame.InsertPlan` build
  what `create_table` and `insert_dataframe_to_rds` send for a frame.
- `Dtypes`: the closed dtype datatype, the five PostgreSQL types, and the
  first-match mapper.
- `Identifiers`: `sql.Identifier` as PostgreSQL quotes a name. The name goes
  between double quotes and each embedded double quote is doubled (section
  4.1.1, "Identifiers and Key Words", of the PostgreSQL documentation). A
  reader for quoted identifiers sits beside it.
- `Statements`: the four SQL texts. Each builder has a reader beside it; the
  round-trip lemmas show the reader recovers the table, the columns, the types
  and the number of placeholders.
- `Batch`: the row tuples, and the rows the target table holds after a commit
  or a rollback.

The data frame is represented abstractly. It has a list of column labels, one
dtype per column, and its values stored column by column: `data[j]` holds
column `j`, and every column has `rowCount` values. With values stored this
way, `[tuple(row) for row in df.to_numpy()]` is a transposition
(`RowTuples`). It is proved lossless by turning the tuples back into columns.

Two details of the model follow the code as written:

- The insert template is `INSERT INTO "t" ("c1", "c2") VALUES (%s, %s)`. It has
  no trailing semicolon (rdshelp.py:114).
- `create_table` pairs columns with dtypes through `zip`, which stops at the
  shorter list. `Schema` does the same. A well-formed frame has lists of equal
  length.

`.lower()` is modelled as ASCII lowercasing. This is exact here: the
substitution before it leaves only ASCII letters and digits.

`create_table` writes the table and column names unquoted, and PostgreSQL
folds an unquoted name to lower case. `insert_dataframe_to_rds` quotes them
through `sql.Identifier`, and a quoted name is kept as written (section 4.1.1
of the PostgreSQL documentation). `Identifiers.FoldUnquoted` models that
folding, and `Identifiers.PlainIdentifier` the ASCII form of a name PostgreSQL
accepts unquoted. `Statements.CreateInsertAgree` relates the two statements
through them: the insert addresses the created table and columns exactly when
the names have no capital letter. PostgreSQL creates the columns only when no
two names fold to the same one. Sanitising removes the capitals, but it can
create such duplicates: `["ID", "id"]` becomes `["id", "id"]`. It can also
leave a name PostgreSQL will not accept unquoted: `!!` becomes the empty name
and `1st` keeps its leading digit (`Statements.CleanNameNotPlain`).

The readers beside the builders exist to show that each statement determines
what went into it. They accept more than PostgreSQL does: `ParseCreate`
reads `CREATE TABLE IF NOT EXISTS t ( TEXT);` as one column with the empty
name.

## Model

| member | source | states |
|---|---|---|
| `Sanitise.KeepAlnum` | rdshelp.py:27 | the substitution keeps only characters of `[a-zA-Z0-9]` and never lengthens a name |
| `Sanitise.CleanName` | rdshelp.py:27 | a sanitised name holds only `a`-`z` and `0`-`9` and is never longer than the input |
| `Sanitise.CleanNames` | rdshelp.py:27 | the column list keeps its length and order, and each name is sanitised on its own |
| `Sanitise.KeepAlnumIsSubsequence` | rdshelp.py:27 | the substitution only deletes: its result is a subsequence of the input |
| `Sanitise.KeepAlnumCounts` | rdshelp.py:27 | every ASCII letter or digit occurs in the result as often as in the input; no other character occurs |
| `Sanitise.KeepAlnumAppend` | rdshelp.py:27 | the substitution works character by character: it distributes over concatenation |
| `Sanitise.KeepAlnumFixed` | rdshelp.py:27 | a name passes the substitution unchanged if and only if it is all ASCII letters and digits |
| `Sanitise.CleanNameIsLoweredSubsequence` | rdshelp.py:27 | the output is the lowercased subsequence of the input's ASCII letters and digits, in their original order |
| `Sanitise.CleanNameFixed` | rdshelp.py:27 | a name is unchanged by sanitising if and only if it is already lowercase ASCII letters and digits |
| `Sanitise.CleanNameIdempotent` | rdshelp.py:27 | sanitising a sanitised name changes nothing |
| `Sanitise.CleanNamesIdempotent` | rdshelp.py:27 | sanitising the whole column list twice equals sanitising it once |
| `SanitiseExamples.CleanNameSpacesAndPunctuation` | rdshelp.py:27 | `"Player Score!"` becomes `playerscore` |
| `SanitiseExamples.CleanNameUnderscores` | rdshelp.py:27 | `"__ID__"` becomes `id`: the underscore is not kept |
| `SanitiseExamples.CleanNamesCollide` | rdshelp.py:27 | `["ID", "id"]` becomes `["id", "id"]`: sanitising can create duplicate columns, and nothing detects it |
| `Frames.DataFrame.CleanColumnNames` | rdshelp.py:25-28 | replaces the frame's labels in place by their sanitised forms, leaves dtypes and values alone, returns the same frame |
| `Frames.CleanTwice` | rdshelp.py:25-28 | a frame cleaned twice has the labels of a frame cleaned once |
| `Frames.DataFrame.CreateStatement` | rdshelp.py:89-93 | the statement for a valid frame; `zip` drops no column, and with plain-word names the statement reads back as one declaration per label |
| `Frames.DataFrame.InsertPlan` | rdshelp.py:107-121 | the template reads back as the table and the labels, and every row tuple holds one value per placeholder, in label order |
| `Dtypes.MapDtype` | rdshelp.py:31-41 | total; the result is `TEXT` exactly for the dtypes that are not integer, float, bool or datetime |
| `Dtypes.Keyword` | rdshelp.py:31-41 | every result is one of `INTEGER`, `FLOAT`, `BOOLEAN`, `TIMESTAMP`, `TEXT` |
| `Dtypes.ParseKeywordOf` | rdshelp.py:31-41 | each type's keyword reads back as that type, so the five keywords are distinct |
| `Dtypes.MapDtypePreimage` | rdshelp.py:31-41 | integer, float, bool and datetime each get their own keyword; exactly the other dtypes get `TEXT` |
| `Dtypes.MapDtypeOnto` | rdshelp.py:31-41 | each of the five keywords is produced for some dtype |
| `Text.LowerAscii` | rdshelp.py:27 | `.lower()` on ASCII text: same length, each character lowered on its own |
| `Text.LowerAsciiFixed` | rdshelp.py:27 | lowercasing leaves a string unchanged exactly when it has no capital, and its result never has one |
| `Text.Join` | rdshelp.py:91 | `str.join`: empty for no parts, the part itself for one part (the same join builds the insert's field and value lists, rdshelp.py:116-117) |
| `Statements.Schema` | rdshelp.py:91 | one declaration per column, in column order, pairing name `i` with the mapped dtype `i`; stops at the shorter list, as `zip` does |
| `Statements.RenderAll` | rdshelp.py:91 | the list comprehension: one `name TYPE` definition per declaration, in order |
| `Statements.SpanRendered` | rdshelp.py:91 | a rendered column definition `name TYPE` splits back into the name and the keyword |
| `Statements.ColumnList` | rdshelp.py:91 | the joined column definitions are empty exactly when `zip` pairs no column with a dtype |
| `Statements.CreateTableStatement` | rdshelp.py:93 | `CREATE TABLE IF NOT EXISTS <table> (<column list>);` with the table name verbatim: stripping that prefix and the closing `);` leaves exactly the column list |
| `Statements.CreateRoundTrip` | rdshelp.py:91-93 | for plain-word table and column names, the create statement reads back as the table and exactly `Schema(columns, dtypes)` |
| `Statements.CreateRoundTripCleaned` | rdshelp.py:91-93 | the create statement over sanitised names always reads back, for a plain-word table name |
| `Statements.CreateEntries` | rdshelp.py:91-93 | split at commas, the column list has one entry per column in order: `name TYPE` with the name verbatim and unquoted |
| `Identifiers.Escape` | rdshelp.py:115-116 | the body of a quoted identifier is never shorter than the name and is the name itself when it holds no double quote |
| `Identifiers.QuoteIdent` | rdshelp.py:115-116 | a quoted identifier starts and ends with a double quote |
| `Identifiers.UnquoteQuote` | rdshelp.py:115-116 | every name, whatever quotes it holds, reads back from its quoted form |
| `Identifiers.QuoteIdentInjective` | rdshelp.py:115-116 | distinct names give distinct quoted identifiers |
| `Identifiers.QuoteAll` | rdshelp.py:116 | `map(sql.Identifier, columns)`: one quoted identifier per column, in column order |
| `Identifiers.ParseIdentListOf` | rdshelp.py:116 | the joined quoted column list reads back as the column names, in order |
| `Statements.Placeholders` | rdshelp.py:117 | `n` placeholders, each `%s` |
| `Statements.InsertTemplate` | rdshelp.py:114-118 | the template starts with `INSERT INTO` and the quoted table and ends with `)`: there is no trailing semicolon |
| `Statements.InsertRoundTrip` | rdshelp.py:114-118 | for every table and every column list, the template reads back as that table, those columns in order, and as many placeholders as columns |
| `Identifiers.FoldUnquoted` | rdshelp.py:93 | the name PostgreSQL gives an unquoted identifier: it has no capital, it equals the name exactly when the name has none, and it keeps a plain identifier plain |
| `Statements.CreateInsertAgree` | rdshelp.py:89-118 | for names PostgreSQL accepts unquoted, both statements read back. The insert's table is the declared one exactly when its name has no capital, and so is its column `i` against declared column `i`. A column with a capital matches no declared column. PostgreSQL creates the declared columns (`DistinctDeclared`) exactly when no two names fold to the same one |
| `Statements.CreateInsertAgreeCleaned` | rdshelp.py:89-118 | when every sanitised name is one PostgreSQL accepts unquoted, every declared column is the column the insert addresses. The columns are created exactly when no two labels sanitise to the same name, which `["ID", "id"]` violates. The unsanitised table name agrees exactly when it has no capital |
| `Statements.CleanNamePlain` | rdshelp.py:27 | a sanitised name is acceptable unquoted exactly when it is not empty and does not start with a digit |
| `Statements.CleanNameNotPlain` | rdshelp.py:27 | `!!` sanitises to the empty name and `1st` to `1st`; neither is acceptable unquoted |
| `Statements.CreateInsertDisagree` | rdshelp.py:89-118 | with one capitalised column the create statement declares it and the insert names it as written, and the insert's column is not the folded declared column |
| `Statements.ScoreFolds` | rdshelp.py:93 | `Score` is acceptable unquoted, has a capital, and folds to `score` |
| `Statements.SelectAllStatement` | rdshelp.py:49 | `SELECT * FROM <table>;` with the name verbatim; the statement reads back as the table (the same text is built at rdshelp.py:141) |
| `Statements.DropTableStatement` | rdshelp.py:173 | `DROP TABLE IF EXISTS <table>;` with the name verbatim; the statement reads back as the table |
| `Batch.RowTuples` | rdshelp.py:121 | one tuple per row, in row order; each tuple has one entry per column; entry `j` of tuple `i` is row `i`'s value in column `j` |
| `Batch.ColumnsOfRowTuples` | rdshelp.py:121 | the tuples turned back into columns are the frame's values: nothing lost or reordered |
| `Batch.AfterInsert` | rdshelp.py:123-132 | the rows after the `try` block: the earlier rows and the batch without an error (commit), the earlier rows alone after any error raised inside the block (rollback) |
| `Batch.AfterInsertAtomic` | rdshelp.py:123-132 | the earlier rows stay; either the whole batch follows them in order (no error inside the `try`, commit) or nothing does (an error, rollback) |

## Left out

- `connect_to_rds`: opening an authenticated network connection through psycopg2.
- `check_table_exists` and `query_database_to_dataframe`: the catalog query and `pd.read_sql`. Both are database calls with nothing to compute.
- `fetch_table_data` and `fetch_table_to_dataframe`, apart from their query text: `execute`, `fetchall`, the cursor description and building a frame from the result all belong to the database client and pandas.
- The behaviour of the statements inside the database is not modelled: idempotent create and drop, the existence check, and reading back what was written. The model has no database to run them against.
- Commit and rollback: `AfterInsert` gives only what the table holds on each path. The all-or-nothing guarantee itself comes from the database; `execute_batch` pages the rows, but all pages run in one transaction.
- `create_table` and `drop_table` commit after one statement and let any error propagate. There is no error path in the code to model.
- Errors outside the `try` of `insert_dataframe_to_rds` propagate to the caller: those of `conn.cursor()`, of building the template and of `df.to_numpy()` (rdshelp.py:110-121), and those of `conn.rollback()` itself (rdshelp.py:131). `AfterInsert` covers only the path where the `try` block raises and the rollback succeeds.
- `execute_batch` merges the rows into the template with Python `%` formatting. A column or table name holding `%` can therefore make that formatting fail inside the `try`, and the batch is then rolled back. `InsertRoundTrip` is about the template text and does not model this.
- PostgreSQL's reserved key words are not modelled. A sanitised name such as `order` is a `PlainIdentifier` but makes the create statement fail. Unquoted names may also hold `$` and non-ASCII letters, which `PlainIdentifier` does not accept.
- PostgreSQL truncates identifiers longer than 63 bytes. Neither statement models that.
- pandas dtype introspection (`pd.api.types.is_*_dtype`): replaced by the closed `DType` datatype. Its constructors are disjoint, so the first-match order of the chain cannot be observed.
- `df.to_numpy()` value conversion, numpy scalars and floating point: values have an abstract type `V` and are passed through unchanged.
- Column labels that are not strings: `re.sub` would raise on them.
- The `print` diagnostics, the unused imports `time` and `numpy`, and the commented-out `set_difference`.
- setup.py: packaging metadata only.
- `Statements.CreateRoundTrip`: reads the statement back only when table and column names are plain words (letters, digits, underscore). An arbitrary name is interpolated unquoted, so the text can be ambiguous. `Statements.CreateEntries` covers any names without commas.
- `Statements.CreateInsertAgree`: stated only for names PostgreSQL accepts unquoted (`PlainIdentifier`). Outside that, the model does not relate the two statements. There the create statement fails, or declares something other than the labels. Examples: the table `public.scores` is created in schema `public`, while the insert addresses the single identifier `"public.scores"`. The label `"Score"` declares the column `Score`, while the insert addresses `"""Score"""`. The label `a TEXT, b` declares two columns. Names with `$` or non-ASCII letters are not covered either.
