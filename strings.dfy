/** Python's `str.split(sep)` with an explicit one-character separator, and its inverse `sep.join`. */
module Strings {
  import opened Seqs

  /**
   * The tokens of `s` between occurrences of `sep`. As in Python, an explicit
   * separator never collapses: adjacent separators give empty tokens, and the
   * empty string gives one empty token.
   */
  function Split(s: string, sep: char): (tokens: seq<string>)
    ensures |tokens| >= 1
    ensures forall i :: 0 <= i < |tokens| ==> sep !in tokens[i]
    decreases |s|
  {
    if s == [] then [""]
    else
      var rest := Split(s[1..], sep);
      if s[0] == sep then [""] + rest
      else [[s[0]] + rest[0]] + rest[1..]
  }

  /** The tokens glued back together with `sep` between each pair. */
  function Join(parts: seq<string>, sep: char): string
    requires |parts| >= 1
    decreases |parts|
  {
    if |parts| == 1 then parts[0]
    else parts[0] + [sep] + Join(parts[1..], sep)
  }

  /** Splitting loses nothing: joining the tokens rebuilds the string. */
  lemma {:induction false} JoinAfterSplit(s: string, sep: char)
    ensures Join(Split(s, sep), sep) == s
    decreases |s|
  {
    if s != [] {
      var rest := Split(s[1..], sep);
      JoinAfterSplit(s[1..], sep);
      if s[0] == sep {
        assert ([""] + rest)[1..] == rest;
        assert s == [sep] + s[1..];
      } else {
        var tokens := [[s[0]] + rest[0]] + rest[1..];
        if |rest| == 1 {
          assert s == [s[0]] + s[1..];
        } else {
          assert tokens[1..] == rest[1..];
          assert Join(rest, sep) == rest[0] + [sep] + Join(rest[1..], sep);
          assert s == [s[0]] + s[1..];
        }
      }
    }
  }

  /** A string without the separator is a single token. */
  lemma {:induction false} SplitWithoutSeparator(t: string, sep: char)
    requires sep !in t
    ensures Split(t, sep) == [t]
    decreases |t|
  {
    if t != [] {
      SplitWithoutSeparator(t[1..], sep);
      assert [t[0]] + t[1..] == t;
    }
  }

  /** A leading token followed by the separator is split off as the first token. */
  lemma {:induction false} SplitLeadingToken(t: string, sep: char, u: string)
    requires sep !in t
    ensures Split(t + [sep] + u, sep) == [t] + Split(u, sep)
    decreases |t|
  {
    var s := t + [sep] + u;
    if t == [] {
      assert s == [sep] + u;
      assert s[1..] == u;
    } else {
      assert s[0] == t[0];
      assert s[1..] == t[1..] + [sep] + u;
      SplitLeadingToken(t[1..], sep, u);
      assert [t[0]] + t[1..] == t;
    }
  }

  /** Joining tokens that do not contain the separator, then splitting, gives the tokens back. */
  lemma {:induction false} SplitAfterJoin(parts: seq<string>, sep: char)
    requires |parts| >= 1
    requires forall i :: 0 <= i < |parts| ==> sep !in parts[i]
    ensures Split(Join(parts, sep), sep) == parts
    decreases |parts|
  {
    if |parts| == 1 {
      SplitWithoutSeparator(parts[0], sep);
    } else {
      SplitAfterJoin(parts[1..], sep);
      SplitLeadingToken(parts[0], sep, Join(parts[1..], sep));
      assert [parts[0]] + parts[1..] == parts;
    }
  }

  /** The last token is whatever follows the last separator. */
  lemma {:induction false} LastTokenAfterLastSeparator(p: string, sep: char, t: string)
    requires sep !in t
    ensures |Split(p + [sep] + t, sep)| >= 2
    ensures Last(Split(p + [sep] + t, sep)) == t
    decreases |p|
  {
    var s := p + [sep] + t;
    if p == [] {
      assert s == [sep] + t;
      assert s[1..] == t;
      SplitWithoutSeparator(t, sep);
    } else {
      assert s[1..] == p[1..] + [sep] + t;
      LastTokenAfterLastSeparator(p[1..], sep, t);
    }
  }

  /** The joined string ends with the last part, preceded by the separator when there are several parts. */
  lemma {:induction false} JoinLast(parts: seq<string>, sep: char)
    requires |parts| >= 1
    ensures |parts| == 1 ==> Join(parts, sep) == Last(parts)
    ensures |parts| >= 2 ==> Join(parts, sep) == Join(parts[..|parts| - 1], sep) + [sep] + Last(parts)
    decreases |parts|
  {
    if |parts| >= 2 {
      var init := parts[..|parts| - 1];
      assert init[0] == parts[0];
      if |parts| > 2 {
        JoinLast(parts[1..], sep);
        assert parts[1..][..|parts| - 2] == init[1..];
      }
    }
  }

  /**
   * The last token is a suffix of the string, and it is either the whole
   * string or preceded by the separator.
   */
  lemma LastTokenIsSuffix(s: string, sep: char)
    ensures |Last(Split(s, sep))| <= |s|
    ensures s[|s| - |Last(Split(s, sep))|..] == Last(Split(s, sep))
    ensures |Last(Split(s, sep))| < |s| ==> s[|s| - |Last(Split(s, sep))| - 1] == sep
  {
    var parts := Split(s, sep);
    JoinAfterSplit(s, sep);
    JoinLast(parts, sep);
  }
}
