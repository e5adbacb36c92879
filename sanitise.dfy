/**
 * The column-name sanitiser `clean_column_names`: each name loses every
 * character outside `[a-zA-Z0-9]` (the regular-expression substitution) and
 * what remains is lowercased; the list of names keeps its length and order.
 */
module Sanitise {

  import opened Text

  /** `re.sub(r'[^a-zA-Z0-9]', '', s)`: the ASCII letters and digits of `s`, in order. */
  function KeepAlnum(s: string): (r: string)
    ensures |r| <= |s|
    ensures forall i :: 0 <= i < |r| ==> IsAlnum(r[i])
    decreases |s|
  {
    if s == [] then []
    else (if IsAlnum(s[0]) then [s[0]] else []) + KeepAlnum(s[1..])
  }

  /** One sanitised name: the substitution first, then `.lower()`. */
  function CleanName(s: string): (r: string)
    ensures |r| <= |s|
    ensures AllLowerAlnum(r)
  {
    LowerAscii(KeepAlnum(s))
  }

  /** The new column list: every name sanitised on its own, same length and order. */
  function CleanNames(names: seq<string>): (r: seq<string>)
    ensures |r| == |names|
    ensures forall i :: 0 <= i < |names| ==> r[i] == CleanName(names[i])
  {
    seq(|names|, i requires 0 <= i < |names| => CleanName(names[i]))
  }

  /** `t` can be obtained from `s` by deleting characters. */
  predicate IsSubsequence(t: string, s: string)
    decreases |s|
  {
    t == [] || (s != [] && ((t[0] == s[0] && IsSubsequence(t[1..], s[1..])) || IsSubsequence(t, s[1..])))
  }

  /** The substitution only deletes: its result is a subsequence of the input. */
  lemma {:induction false} KeepAlnumIsSubsequence(s: string)
    ensures IsSubsequence(KeepAlnum(s), s)
    decreases |s|
  {
    if s != [] {
      KeepAlnumIsSubsequence(s[1..]);
      var r := KeepAlnum(s);
      if IsAlnum(s[0]) {
        assert r == [s[0]] + KeepAlnum(s[1..]);
        assert r[0] == s[0] && r[1..] == KeepAlnum(s[1..]);
      } else {
        assert r == KeepAlnum(s[1..]);
      }
    }
  }

  /** The substitution deletes exactly the non-alphanumeric occurrences: every alphanumeric
      character occurs in the result as often as in the input, any other not at all. */
  lemma {:induction false} KeepAlnumCounts(s: string, c: char)
    ensures multiset(KeepAlnum(s))[c] == if IsAlnum(c) then multiset(s)[c] else 0
    decreases |s|
  {
    if s != [] {
      KeepAlnumCounts(s[1..], c);
      assert s == [s[0]] + s[1..];
      assert multiset(s) == multiset([s[0]]) + multiset(s[1..]);
      var head := if IsAlnum(s[0]) then [s[0]] else [];
      assert multiset(KeepAlnum(s)) == multiset(head) + multiset(KeepAlnum(s[1..]));
    }
  }

  /** The substitution works character by character: it distributes over concatenation. */
  lemma {:induction false} KeepAlnumAppend(s: string, t: string)
    ensures KeepAlnum(s + t) == KeepAlnum(s) + KeepAlnum(t)
    decreases |s|
  {
    if s == [] {
      assert s + t == t;
    } else {
      assert (s + t)[0] == s[0] && (s + t)[1..] == s[1..] + t;
      KeepAlnumAppend(s[1..], t);
    }
  }

  /** A name of letters and digits only passes the substitution unchanged, and only such a name does. */
  lemma {:induction false} KeepAlnumFixed(s: string)
    ensures KeepAlnum(s) == s <==> forall i :: 0 <= i < |s| ==> IsAlnum(s[i])
    decreases |s|
  {
    if s != [] {
      KeepAlnumFixed(s[1..]);
      if forall i :: 0 <= i < |s| ==> IsAlnum(s[i]) {
        assert forall i :: 0 <= i < |s[1..]| ==> IsAlnum(s[1..][i]) by {
          forall i | 0 <= i < |s[1..]| ensures IsAlnum(s[1..][i]) { assert s[1..][i] == s[i + 1]; }
        }
        assert KeepAlnum(s) == [s[0]] + s[1..] == s;
      }
    }
  }

  /**
   * Each sanitised name is the lowercased sequence of the input's ASCII
   * letters and digits, taken in their original order.
   */
  lemma CleanNameIsLoweredSubsequence(s: string)
    ensures IsSubsequence(KeepAlnum(s), s)
    ensures |CleanName(s)| == |KeepAlnum(s)|
    ensures forall i :: 0 <= i < |CleanName(s)| ==> CleanName(s)[i] == ToLower(KeepAlnum(s)[i])
  {
    KeepAlnumIsSubsequence(s);
  }

  /** A name comes out unchanged exactly when it is already lowercase ASCII letters and digits. */
  lemma CleanNameFixed(s: string)
    ensures CleanName(s) == s <==> AllLowerAlnum(s)
  {
    if AllLowerAlnum(s) {
      KeepAlnumFixed(s);
      assert KeepAlnum(s) == s;
      assert LowerAscii(s) == s;
    }
  }

  /** Sanitising twice is sanitising once. */
  lemma CleanNameIdempotent(s: string)
    ensures CleanName(CleanName(s)) == CleanName(s)
  {
    CleanNameFixed(CleanName(s));
  }

  /** Sanitising a whole column list twice is sanitising it once. */
  lemma CleanNamesIdempotent(names: seq<string>)
    ensures CleanNames(CleanNames(names)) == CleanNames(names)
  {
    forall i | 0 <= i < |names| ensures CleanName(CleanName(names[i])) == CleanName(names[i]) {
      CleanNameIdempotent(names[i]);
    }
  }
}

/** Worked examples of the sanitiser. */
module SanitiseExamples {

  import opened Text
  import opened Sanitise

  lemma KeepAlnumPlayer()
    ensures KeepAlnum("Player") == "Player"
  {
  }

  lemma KeepAlnumScore()
    ensures KeepAlnum(" Score!") == "Score"
  {
  }

  lemma KeepAlnumPlayerScore()
    ensures KeepAlnum("Player" + " Score!") == "PlayerScore"
  {
    KeepAlnumPlayer();
    KeepAlnumScore();
    KeepAlnumAppend("Player", " Score!");
  }

  /** Spaces and punctuation go, capitals are lowered. */
  lemma CleanNameSpacesAndPunctuation()
    ensures CleanName("Player Score!") == "playerscore"
  {
    KeepAlnumPlayerScore();
    assert "Player" + " Score!" == "Player Score!";
    assert LowerAscii("PlayerScore") == "playerscore";
  }

  /** Underscores are not in the kept class either. */
  lemma CleanNameUnderscores()
    ensures CleanName("__ID__") == "id"
  {
    assert KeepAlnum("__ID__") == "ID";
    assert LowerAscii("ID") == "id";
  }

  /** Sanitising is not injective: two distinct columns can collide, and nothing detects it. */
  lemma CleanNamesCollide()
    ensures CleanNames(["ID", "id"]) == ["id", "id"]
  {
    assert KeepAlnum("ID") == "ID" && LowerAscii("ID") == "id";
    assert KeepAlnum("id") == "id" && LowerAscii("id") == "id";
  }
}
