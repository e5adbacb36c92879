/**
 * The type mapper `map_dtype_to_postgresql`. A column's data type is a closed
 * datatype standing for the pandas dtype families the mapper tests for; the
 * result is one of the five PostgreSQL type keywords the mapper can return.
 */
module Dtypes {

  import opened Wrappers
  import opened Text

  /** The dtype families the mapper distinguishes; `Other` is every other dtype (object, string, category, ...). */
  datatype DType = Int | Float | Bool | Datetime | Other(name: string)

  /** The five PostgreSQL column types the mapper produces. */
  datatype PgType = INTEGER | FLOAT | BOOLEAN | TIMESTAMP | TEXT

  /** The keyword as it appears in the generated statement. */
  function Keyword(t: PgType): (k: string)
    ensures k in {"INTEGER", "FLOAT", "BOOLEAN", "TIMESTAMP", "TEXT"}
    ensures |k| > 0 && AllWordChars(k)
  {
    match t
    case INTEGER => "INTEGER"
    case FLOAT => "FLOAT"
    case BOOLEAN => "BOOLEAN"
    case TIMESTAMP => "TIMESTAMP"
    case TEXT => "TEXT"
  }

  /** Reads a keyword back; the inverse of `Keyword`. */
  function ParseKeyword(k: string): (r: Option<PgType>)
    ensures r.Some? ==> Keyword(r.value) == k
  {
    if k == "INTEGER" then Some(INTEGER)
    else if k == "FLOAT" then Some(FLOAT)
    else if k == "BOOLEAN" then Some(BOOLEAN)
    else if k == "TIMESTAMP" then Some(TIMESTAMP)
    else if k == "TEXT" then Some(TEXT)
    else None
  }

  /** Every keyword reads back as its type, so distinct types have distinct keywords. */
  lemma ParseKeywordOf(t: PgType)
    ensures ParseKeyword(Keyword(t)) == Some(t)
  {
  }

  /**
   * The first-match chain: integer, then float, then bool, then datetime,
   * and `TEXT` for everything else. Total: every dtype gets exactly one type.
   */
  function MapDtype(d: DType): (r: PgType)
    ensures r == TEXT <==> d.Other?
  {
    if d.Int? then INTEGER
    else if d.Float? then FLOAT
    else if d.Bool? then BOOLEAN
    else if d.Datetime? then TIMESTAMP
    else TEXT
  }

  /** The dtype family each keyword stands for; `Other("object")` for `TEXT`. */
  function Representative(t: PgType): (d: DType)
  {
    match t
    case INTEGER => Int
    case FLOAT => Float
    case BOOLEAN => Bool
    case TIMESTAMP => Datetime
    case TEXT => Other("object")
  }

  /**
   * Which dtypes map to which keyword: each of the four recognised families
   * has its own keyword, and exactly the unrecognised dtypes get `TEXT`.
   */
  lemma MapDtypePreimage(d: DType, t: PgType)
    ensures MapDtype(d) == t <==> (if t == TEXT then d.Other? else d == Representative(t))
  {
  }

  /** Every one of the five keywords is produced for some dtype. */
  lemma MapDtypeOnto(t: PgType)
    ensures MapDtype(Representative(t)) == t
  {
  }
}
