/**
 * `sql.Identifier` as PostgreSQL quotes it: the name between double quotes,
 * each embedded double quote doubled. Reading a quoted identifier back is
 * the partner that shows the quoting loses nothing.
 */
module Identifiers {

  import opened Wrappers
  import opened Text

  /** The body of a quoted identifier: every `"` written twice. */
  function Escape(name: string): (r: string)
    ensures |r| >= |name|
    ensures '"' !in name ==> r == name
    decreases |name|
  {
    if name == [] then []
    else (if name[0] == '"' then "\"\"" else [name[0]]) + Escape(name[1..])
  }

  /** The rendering of `sql.Identifier(name)`. */
  function QuoteIdent(name: string): (r: string)
    ensures |r| >= 2 && r[0] == '"' && r[|r| - 1] == '"'
  {
    "\"" + Escape(name) + "\""
  }

  /**
   * The ASCII part of PostgreSQL's rule for an identifier written without
   * quotes: a letter or an underscore, then letters, digits and underscores
   * (section 4.1.1 of the PostgreSQL documentation).
   */
  predicate PlainIdentifier(name: string)
  {
    |name| >= 1 && (IsUpper(name[0]) || IsLower(name[0]) || name[0] == '_') && AllWordChars(name)
  }

  /**
   * The name PostgreSQL gives an unquoted identifier: folded to lower case.
   * A quoted identifier keeps its name exactly as written.
   */
  function FoldUnquoted(name: string): (r: string)
    ensures NoUpper(r)
    ensures r == name <==> NoUpper(name)
    ensures PlainIdentifier(name) ==> PlainIdentifier(r)
  {
    LowerAsciiFixed(name);
    LowerAscii(name)
  }

  /**
   * Reads the body of a quoted identifier up to its closing quote: a doubled
   * quote stands for one quote, a single quote ends the identifier. Gives the
   * name and what follows the closing quote.
   */
  function ReadQuoted(s: string): (r: Option<(string, string)>)
    ensures r.Some? ==> |r.value.1| < |s|
    decreases |s|
  {
    if s == [] then None
    else if s[0] == '"' then
      if |s| >= 2 && s[1] == '"' then
        match ReadQuoted(s[2..])
        case None => None
        case Some((body, rest)) => Some(("\"" + body, rest))
      else Some(("", s[1..]))
    else
      match ReadQuoted(s[1..])
      case None => None
      case Some((body, rest)) => Some(([s[0]] + body, rest))
  }

  /** Reads one quoted identifier at the start of `s`. */
  function ParseIdent(s: string): (r: Option<(string, string)>)
    ensures r.Some? ==> |r.value.1| < |s|
  {
    if |s| >= 1 && s[0] == '"' then ReadQuoted(s[1..]) else None
  }

  /** The name a complete quoted identifier stands for. */
  function UnquoteIdent(s: string): (r: Option<string>)
  {
    match ParseIdent(s)
    case Some((name, rest)) => if rest == [] then Some(name) else None
    case None => None
  }

  /** An escaped name followed by a closing quote reads back as the name. */
  lemma {:induction false} ReadQuotedEscape(name: string, rest: string)
    requires rest == [] || rest[0] != '"'
    ensures ReadQuoted(Escape(name) + ("\"" + rest)) == Some((name, rest))
    decreases |name|
  {
    var closing := "\"" + rest;
    if name == [] {
      assert Escape(name) + closing == closing;
      assert closing[1..] == rest;
    } else {
      ReadQuotedEscape(name[1..], rest);
      var tail := Escape(name[1..]) + closing;
      var head := if name[0] == '"' then "\"\"" else [name[0]];
      assert Escape(name) == head + Escape(name[1..]);
      var s := Escape(name) + closing;
      assert s == head + tail;
      if name[0] == '"' {
        assert s[0] == '"' && s[1] == '"' && s[2..] == tail;
        assert ReadQuoted(s) == Some(("\"" + name[1..], rest));
        assert "\"" + name[1..] == name;
      } else {
        assert s[0] == name[0] && s[1..] == tail;
        assert ReadQuoted(s) == Some(([name[0]] + name[1..], rest));
        assert [name[0]] + name[1..] == name;
      }
    }
  }

  /** A quoted identifier followed by anything but a quote reads back as its name. */
  lemma ParseIdentQuote(name: string, rest: string)
    requires rest == [] || rest[0] != '"'
    ensures ParseIdent(QuoteIdent(name) + rest) == Some((name, rest))
  {
    var s := QuoteIdent(name) + rest;
    assert s[1..] == Escape(name) + ("\"" + rest);
    ReadQuotedEscape(name, rest);
  }

  /** Quoting loses nothing: every name, whatever quotes it holds, comes back. */
  lemma UnquoteQuote(name: string)
    ensures UnquoteIdent(QuoteIdent(name)) == Some(name)
  {
    ParseIdentQuote(name, []);
    assert QuoteIdent(name) + [] == QuoteIdent(name);
  }

  /** Distinct names give distinct quoted identifiers. */
  lemma QuoteIdentInjective(a: string, b: string)
    requires QuoteIdent(a) == QuoteIdent(b)
    ensures a == b
  {
    UnquoteQuote(a);
    UnquoteQuote(b);
  }

  /** Quoted identifiers separated by `", "`, read as far as the list goes. */
  function ParseIdentList(s: string): (r: Option<(seq<string>, string)>)
    ensures r.Some? ==> |r.value.0| >= 1 && |r.value.1| < |s|
    decreases |s|
  {
    match ParseIdent(s)
    case None => None
    case Some((name, rest)) =>
      if StartsWithPair(rest, ',', ' ') then
        match ParseIdentList(rest[2..])
        case None => None
        case Some((names, rest')) => Some(([name] + names, rest'))
      else Some(([name], rest))
  }

  /** The quoted form of every name, in order. */
  function QuoteAll(names: seq<string>): (r: seq<string>)
    ensures |r| == |names|
    ensures forall i :: 0 <= i < |names| ==> r[i] == QuoteIdent(names[i])
  {
    seq(|names|, i requires 0 <= i < |names| => QuoteIdent(names[i]))
  }

  /** A joined list of quoted names reads back as the names, in order. */
  lemma {:induction false} ParseIdentListOf(names: seq<string>, rest: string)
    requires |names| >= 1
    requires rest == [] || (rest[0] != '"' && rest[0] != ',')
    ensures ParseIdentList(Join(", ", QuoteAll(names)) + rest) == Some((names, rest))
    decreases |names|
  {
    var quoted := QuoteAll(names);
    if |names| == 1 {
      assert Join(", ", quoted) == QuoteIdent(names[0]);
      ParseIdentQuote(names[0], rest);
      assert [names[0]] == names;
    } else {
      var tail := Join(", ", QuoteAll(names[1..]));
      var after := ", " + (tail + rest);
      var s := Join(", ", quoted) + rest;
      assert s == QuoteIdent(names[0]) + after by {
        assert QuoteAll(names[1..]) == quoted[1..];
      }
      assert ParseIdent(s) == Some((names[0], after)) by {
        ParseIdentQuote(names[0], after);
      }
      assert StartsWithPair(after, ',', ' ');
      assert ParseIdentList(after[2..]) == Some((names[1..], rest)) by {
        assert after[2..] == tail + rest;
        ParseIdentListOf(names[1..], rest);
      }
      assert [names[0]] + names[1..] == names;
    }
  }
}
