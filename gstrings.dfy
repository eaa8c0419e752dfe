/**
 * The GLib string routines the option parsers rely on, over `seq<char>`:
 * g_strsplit / g_strsplit_set with a one-character delimiter, g_strjoinv,
 * g_strstrip and g_ascii_strcasecmp. Only ASCII case folding is modelled,
 * as GLib's ASCII variants do.
 */
module GStrings {

  /** g_ascii_isspace: space, tab, newline, vertical tab, form feed, carriage return. */
  predicate IsSpace(c: char) {
    c == ' ' || ('\t' <= c <= '\r')
  }

  /** g_ascii_tolower on one character. */
  function ToLower(c: char): (l: char)
    ensures 'A' <= c <= 'Z' ==> 'a' <= l <= 'z' && l as int - 'a' as int == c as int - 'A' as int
    ensures !('A' <= c <= 'Z') ==> l == c
  {
    if 'A' <= c <= 'Z' then (c as int - 'A' as int + 'a' as int) as char else c
  }

  /** Two characters fold to the same one exactly when they are equal or the two cases of one letter. */
  lemma {:induction false} SameFoldSameLetter(c: char, d: char)
    ensures ToLower(c) == ToLower(d) <==>
      c == d ||
      ('A' <= c <= 'Z' && d as int == c as int - 'A' as int + 'a' as int) ||
      ('A' <= d <= 'Z' && c as int == d as int - 'A' as int + 'a' as int)
  {
  }

  /** g_ascii_strcasecmp (a, b) == 0. */
  predicate EqualsIgnoreCase(a: string, b: string) {
    |a| == |b| && forall i :: 0 <= i < |a| ==> ToLower(a[i]) == ToLower(b[i])
  }

  lemma {:induction false} EqualsIgnoreCaseIsEquivalence(a: string, b: string, c: string)
    ensures EqualsIgnoreCase(a, a)
    ensures EqualsIgnoreCase(a, b) ==> EqualsIgnoreCase(b, a)
    ensures EqualsIgnoreCase(a, b) && EqualsIgnoreCase(b, c) ==> EqualsIgnoreCase(a, c)
  {
  }

  /**
   * Splits `s` at every occurrence of `d`. The pieces between two adjacent
   * delimiters, and before a leading or after a trailing one, are empty.
   */
  function Split(s: string, d: char): (parts: seq<string>)
    ensures |parts| >= 1
    ensures forall k :: 0 <= k < |parts| ==> d !in parts[k]
    decreases |s|
  {
    if s == [] then [""]
    else
      var rest := Split(s[1..], d);
      if s[0] == d then [""] + rest
      else [[s[0]] + rest[0]] + rest[1..]
  }

  /** g_strsplit (s, d, -1): an empty string gives an empty vector. */
  function GSplit(s: string, d: char): (parts: seq<string>)
    ensures s == "" <==> parts == []
    ensures forall k :: 0 <= k < |parts| ==> d !in parts[k]
  {
    if s == "" then [] else Split(s, d)
  }

  /** g_strjoinv (d, parts). */
  function Join(d: char, parts: seq<string>): (s: string)
    decreases |parts|
  {
    if |parts| == 0 then ""
    else if |parts| == 1 then parts[0]
    else parts[0] + [d] + Join(d, parts[1..])
  }

  lemma {:induction false} JoinConsHead(d: char, c: char, x: string, t: seq<string>)
    ensures Join(d, [[c] + x] + t) == [c] + Join(d, [x] + t)
  {
    if |t| > 0 {
      assert ([[c] + x] + t)[1..] == t;
      assert ([x] + t)[1..] == t;
    }
  }

  /** Joining the pieces of a split with the same delimiter gives back the input. */
  lemma {:induction false} JoinSplit(s: string, d: char)
    ensures Join(d, Split(s, d)) == s
    decreases |s|
  {
    if s != [] {
      var rest := Split(s[1..], d);
      JoinSplit(s[1..], d);
      if s[0] == d {
        assert ([""] + rest)[1..] == rest;
        assert Join(d, [""] + rest) == "" + [d] + Join(d, rest);
      } else {
        assert rest == [rest[0]] + rest[1..];
        JoinConsHead(d, s[0], rest[0], rest[1..]);
      }
    }
  }

  /** A string without the delimiter splits into itself alone. */
  lemma {:induction false} SplitWithoutDelimiter(s: string, d: char)
    requires d !in s
    ensures Split(s, d) == [s]
    decreases |s|
  {
    if s != [] {
      assert d !in s[1..];
      SplitWithoutDelimiter(s[1..], d);
      assert [s[0]] + s[1..] == s;
    }
  }

  /** Splitting `a + [d] + b`, where `a` has no delimiter, peels `a` off the front. */
  lemma {:induction false} SplitAtFirst(a: string, d: char, b: string)
    requires d !in a
    ensures Split(a + [d] + b, d) == [a] + Split(b, d)
    decreases |a|
  {
    if a == [] {
      assert a + [d] + b == [d] + b;
      assert ([d] + b)[1..] == b;
    } else {
      assert (a + [d] + b)[1..] == a[1..] + [d] + b;
      assert d !in a[1..];
      SplitAtFirst(a[1..], d, b);
      assert [a[0]] + a[1..] == a;
    }
  }

  /** Number of leading whitespace characters of `s`. */
  function LeadingSpaces(s: string): (n: nat)
    ensures n <= |s|
    ensures forall i :: 0 <= i < n ==> IsSpace(s[i])
    ensures n < |s| ==> !IsSpace(s[n])
    decreases |s|
  {
    if s != [] && IsSpace(s[0]) then 1 + LeadingSpaces(s[1..]) else 0
  }

  /** Number of trailing whitespace characters of `s`. */
  function TrailingSpaces(s: string): (n: nat)
    ensures n <= |s|
    ensures forall i :: |s| - n <= i < |s| ==> IsSpace(s[i])
    ensures n < |s| ==> !IsSpace(s[|s| - 1 - n])
    decreases |s|
  {
    if s != [] && IsSpace(s[|s| - 1]) then 1 + TrailingSpaces(s[..|s| - 1]) else 0
  }

  /** g_strstrip: removes leading and trailing whitespace. */
  function Strip(s: string): (r: string)
  {
    var t := s[LeadingSpaces(s)..];
    t[..|t| - TrailingSpaces(t)]
  }

  /** Strip removes only whitespace, and only from the two ends. */
  lemma {:induction false} StripRemovesOnlyOuterSpaces(s: string)
    ensures var l := LeadingSpaces(s);
      l + |Strip(s)| <= |s| && s[l..l + |Strip(s)|] == Strip(s)
      && (forall i :: 0 <= i < l ==> IsSpace(s[i]))
      && (forall i :: l + |Strip(s)| <= i < |s| ==> IsSpace(s[i]))
  {
    var l := LeadingSpaces(s);
    var t := s[l..];
    var n := TrailingSpaces(t);
    var r := t[..|t| - n];
    assert r == s[l..l + |r|];
    forall i | l + |r| <= i < |s|
      ensures IsSpace(s[i])
    {
      assert s[i] == t[i - l];
    }
  }

  /** What Strip keeps neither starts nor ends with whitespace. */
  lemma {:induction false} StripTrimsBothEnds(s: string)
    ensures Strip(s) != [] ==> !IsSpace(Strip(s)[0]) && !IsSpace(Strip(s)[|Strip(s)| - 1])
  {
    var t := s[LeadingSpaces(s)..];
    var r := t[..|t| - TrailingSpaces(t)];
    if r != [] {
      assert r[0] == t[0];
      assert r[|r| - 1] == t[|t| - 1 - TrailingSpaces(t)];
    }
  }

  /** Stripping twice is stripping once. */
  lemma {:induction false} StripIdempotent(s: string)
    ensures Strip(Strip(s)) == Strip(s)
  {
    var r := Strip(s);
    StripTrimsBothEnds(s);
    if r != [] {
      assert LeadingSpaces(r) == 0;
      assert r[0..] == r;
      assert TrailingSpaces(r) == 0;
      assert r[..|r|] == r;
    }
  }

  /** A string without whitespace is left as it is. */
  lemma {:induction false} StripWithoutSpaces(s: string)
    requires forall i :: 0 <= i < |s| ==> !IsSpace(s[i])
    ensures Strip(s) == s
  {
    assert LeadingSpaces(s) == 0;
    assert s[0..] == s;
    if s != [] {
      assert !IsSpace(s[|s| - 1]);
    }
    assert TrailingSpaces(s) == 0;
    assert s[..|s|] == s;
  }
}
