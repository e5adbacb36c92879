/**
 * Characters and strings: the ASCII character classes the sanitiser and the
 * statement builders rely on, `str.join`, and the small splitting and
 * scanning functions the round-trip lemmas use to read statements back.
 */
module Text {

  import opened Wrappers

  predicate IsUpper(c: char) { 'A' <= c <= 'Z' }

  predicate IsLower(c: char) { 'a' <= c <= 'z' }

  predicate IsDigit(c: char) { '0' <= c <= '9' }

  /** The character class `[a-zA-Z0-9]`. */
  predicate IsAlnum(c: char) { IsUpper(c) || IsLower(c) || IsDigit(c) }

  /** The alphabet of a sanitised column name: `[a-z0-9]`. */
  predicate IsLowerAlnum(c: char) { IsLower(c) || IsDigit(c) }

  /** Characters of an unquoted SQL word: letters, digits and underscore. */
  predicate IsWordChar(c: char) { IsAlnum(c) || c == '_' }

  predicate AllWordChars(s: string) { forall i :: 0 <= i < |s| ==> IsWordChar(s[i]) }

  predicate AllLowerAlnum(s: string) { forall i :: 0 <= i < |s| ==> IsLowerAlnum(s[i]) }

  /** No character of `s` is an ASCII capital. */
  predicate NoUpper(s: string) { forall i :: 0 <= i < |s| ==> !IsUpper(s[i]) }

  /** `s` begins with the character `a` followed by the character `b`. */
  predicate StartsWithPair(s: string, a: char, b: char) { |s| >= 2 && s[0] == a && s[1] == b }

  /** ASCII lowercasing: `A`-`Z` become `a`-`z`, every other character is kept. */
  function ToLower(c: char): (r: char)
    ensures IsUpper(c) ==> IsLower(r) && r as int - c as int == 'a' as int - 'A' as int
    ensures !IsUpper(c) ==> r == c
    ensures IsAlnum(c) ==> IsLowerAlnum(r)
  {
    if IsUpper(c) then (c as int - 'A' as int + 'a' as int) as char else c
  }

  /** ASCII lowercasing of a whole string, character by character. */
  function LowerAscii(s: string): (r: string)
    ensures |r| == |s|
    ensures forall i :: 0 <= i < |s| ==> r[i] == ToLower(s[i])
  {
    seq(|s|, i requires 0 <= i < |s| => ToLower(s[i]))
  }

  /** Lowercasing leaves a string as it is exactly when it has no ASCII capital; its result never has one. */
  lemma LowerAsciiFixed(s: string)
    ensures LowerAscii(s) == s <==> NoUpper(s)
    ensures NoUpper(LowerAscii(s))
  {
    if LowerAscii(s) == s {
      forall i | 0 <= i < |s| ensures !IsUpper(s[i]) {
        assert ToLower(s[i]) == s[i];
      }
    }
  }

  /** `sep.join(parts)`: the parts in order with `sep` between neighbours. */
  function Join(sep: string, parts: seq<string>): (r: string)
    ensures |parts| == 0 ==> r == ""
    ensures |parts| == 1 ==> r == parts[0]
  {
    if |parts| == 0 then ""
    else if |parts| == 1 then parts[0]
    else parts[0] + sep + Join(sep, parts[1..])
  }

  /** Unfolds `Join` once, with the concatenation nested to the right. */
  lemma JoinCons(sep: string, parts: seq<string>)
    requires |parts| >= 2
    ensures Join(sep, parts) == parts[0] + (sep + Join(sep, parts[1..]))
  {
  }

  /** A join is non-empty when its first part is. */
  lemma JoinNonEmpty(sep: string, parts: seq<string>)
    ensures |parts| >= 1 && |parts[0]| >= 1 ==> |Join(sep, parts)| >= 1
  {
    if |parts| >= 2 { JoinCons(sep, parts); }
  }

  /** The fields of `s` between occurrences of `d`; always at least one field. */
  function SplitOn(s: string, d: char): (r: seq<string>)
    ensures |r| >= 1
    decreases |s|
  {
    if s == [] then [""]
    else
      var rest := SplitOn(s[1..], d);
      if s[0] == d then [""] + rest else [[s[0]] + rest[0]] + rest[1..]
  }

  /** Every part prefixed by `pad`. */
  function PrefixEach(pad: string, parts: seq<string>): (r: seq<string>)
    ensures |r| == |parts|
    ensures forall i :: 0 <= i < |parts| ==> r[i] == pad + parts[i]
  {
    seq(|parts|, i requires 0 <= i < |parts| => pad + parts[i])
  }

  /** A string without the delimiter is a single field. */
  lemma {:induction false} SplitOnWithout(s: string, d: char)
    requires d !in s
    ensures SplitOn(s, d) == [s]
  {
    if s != [] {
      assert d !in s[1..] by {
        forall k | 0 <= k < |s[1..]| ensures s[1..][k] != d { assert s[1..][k] == s[k + 1]; }
      }
      SplitOnWithout(s[1..], d);
      assert [s[0]] + s[1..] == s;
    }
  }

  /** A delimiter between two strings separates their fields. */
  lemma {:induction false} SplitOnDelimited(a: string, b: string, d: char)
    ensures SplitOn(a + [d] + b, d) == SplitOn(a, d) + SplitOn(b, d)
    decreases |a|
  {
    if a == [] {
      assert a + [d] + b == [d] + b;
      assert ([d] + b)[1..] == b;
    } else {
      assert (a + [d] + b)[1..] == a[1..] + [d] + b;
      SplitOnDelimited(a[1..], b, d);
    }
  }

  /** A delimiter-free prefix lands in the first field. */
  lemma {:induction false} SplitOnPadded(pad: string, s: string, d: char)
    requires d !in pad
    ensures SplitOn(pad + s, d) == [pad + SplitOn(s, d)[0]] + SplitOn(s, d)[1..]
    decreases |pad|
  {
    if pad == [] {
      var fields := SplitOn(s, d);
      assert pad + s == s && pad + fields[0] == fields[0];
      assert fields == [fields[0]] + fields[1..];
    } else {
      assert (pad + s)[1..] == pad[1..] + s;
      assert d !in pad[1..] by {
        forall k | 0 <= k < |pad[1..]| ensures pad[1..][k] != d { assert pad[1..][k] == pad[k + 1]; }
      }
      SplitOnPadded(pad[1..], s, d);
      assert [pad[0]] + (pad[1..] + SplitOn(s, d)[0]) == pad + SplitOn(s, d)[0];
    }
  }

  /**
   * Splitting a join on the first character of its separator gives back the
   * parts, each after the first carrying the rest of the separator, provided
   * that character occurs in no part.
   */
  lemma {:induction false} SplitJoin(d: char, pad: string, parts: seq<string>)
    requires |parts| >= 1
    requires d !in pad
    requires forall i :: 0 <= i < |parts| ==> d !in parts[i]
    ensures SplitOn(Join([d] + pad, parts), d) == [parts[0]] + PrefixEach(pad, parts[1..])
    decreases |parts|
  {
    SplitOnWithout(parts[0], d);
    if |parts| >= 2 {
      var sep := [d] + pad;
      var tail := Join(sep, parts[1..]);
      assert Join(sep, parts) == parts[0] + [d] + (pad + tail);
      SplitOnDelimited(parts[0], pad + tail, d);
      SplitOnPadded(pad, tail, d);
      SplitJoin(d, pad, parts[1..]);
      assert parts[1..][1..] == parts[2..];
      assert SplitOn(pad + tail, d) == PrefixEach(pad, parts[1..]);
    }
  }

  /** `s` with a known prefix and suffix removed, when it has them. */
  function StripAffixes(s: string, prefix: string, suffix: string): (r: Option<string>)
    ensures r.Some? ==> s == prefix + r.value + suffix
  {
    if |prefix| + |suffix| <= |s| && s[..|prefix|] == prefix && s[|s| - |suffix|..] == suffix
    then Some(s[|prefix|..|s| - |suffix|])
    else None
  }

  /** What `StripAffixes` removes, it gives back; with its ensures, an if-and-only-if. */
  lemma StripAffixesOf(prefix: string, mid: string, suffix: string)
    ensures StripAffixes(prefix + mid + suffix, prefix, suffix) == Some(mid)
  {
    var s := prefix + mid + suffix;
    assert s[..|prefix|] == prefix;
    assert s[|s| - |suffix|..] == suffix;
    assert s[|prefix|..|s| - |suffix|] == mid;
  }

  /** Splits `s` into its longest prefix of word characters and the remainder. */
  function SpanWord(s: string): (r: (string, string))
    ensures r.0 + r.1 == s
    ensures AllWordChars(r.0)
    ensures r.1 == [] || !IsWordChar(r.1[0])
    decreases |s|
  {
    if s != [] && IsWordChar(s[0]) then
      var (w, rest) := SpanWord(s[1..]);
      ([s[0]] + w, rest)
    else ([], s)
  }

  /** A word followed by a non-word character is exactly what `SpanWord` takes. */
  lemma {:induction false} SpanWordOf(w: string, rest: string)
    requires AllWordChars(w)
    requires rest == [] || !IsWordChar(rest[0])
    ensures SpanWord(w + rest) == (w, rest)
    decreases |w|
  {
    if w == [] {
      assert w + rest == rest;
    } else {
      assert (w + rest)[1..] == w[1..] + rest;
      assert AllWordChars(w[1..]) by {
        forall k | 0 <= k < |w[1..]| ensures IsWordChar(w[1..][k]) { assert w[1..][k] == w[k + 1]; }
      }
      SpanWordOf(w[1..], rest);
      assert (w + rest)[0] == w[0] && [w[0]] + w[1..] == w;
    }
  }
}
