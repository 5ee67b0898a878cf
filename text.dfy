/** String helpers: prefixes, substrings and Python's `str.replace(pattern, '')`. */
module Text {

  predicate HasPrefix(prefix: string, s: string)
  {
    |prefix| <= |s| && s[..|prefix|] == prefix
  }

  /** `pattern` occurs in `s` starting at index `i`. */
  predicate OccursAt(pattern: string, s: string, i: int)
  {
    0 <= i && i + |pattern| <= |s| && s[i..i + |pattern|] == pattern
  }

  predicate Contains(s: string, pattern: string)
  {
    exists i | 0 <= i <= |s| :: OccursAt(pattern, s, i)
  }

  /** `s.replace(pattern, '')`: scans left to right and drops every
      non-overlapping occurrence of `pattern`, not only a leading one. */
  function RemoveAll(s: string, pattern: string): (r: string)
    requires pattern != []
    ensures |r| <= |s|
    decreases |s|
  {
    if |s| < |pattern| then s
    else if s[..|pattern|] == pattern then RemoveAll(s[|pattern|..], pattern)
    else [s[0]] + RemoveAll(s[1..], pattern)
  }

  /** A string in which the pattern never occurs is left as it is. */
  lemma {:induction false} RemoveAllAbsent(s: string, pattern: string)
    requires pattern != []
    requires !Contains(s, pattern)
    ensures RemoveAll(s, pattern) == s
    decreases |s|
  {
    if |s| >= |pattern| {
      assert !OccursAt(pattern, s, 0);
      assert s[..|pattern|] != pattern;
      if Contains(s[1..], pattern) {
        var t := s[1..];
        var i :| 0 <= i <= |t| && OccursAt(pattern, t, i);
        assert i + |pattern| <= |t|;
        assert s[i + 1..i + 1 + |pattern|] == t[i..i + |pattern|];
        assert OccursAt(pattern, s, i + 1);
        assert false;
      }
      RemoveAllAbsent(s[1..], pattern);
      assert [s[0]] + s[1..] == s;
    }
  }

  /** A string in which the pattern occurs comes back strictly shorter: the scan
      reaches the leftmost occurrence and drops it. */
  lemma {:induction false} RemoveAllShrinks(s: string, pattern: string)
    requires pattern != []
    requires Contains(s, pattern)
    ensures |RemoveAll(s, pattern)| < |s|
    decreases |s|
  {
    var i :| 0 <= i <= |s| && OccursAt(pattern, s, i);
    if s[..|pattern|] != pattern {
      assert i != 0;
      var t := s[1..];
      assert t[i - 1..i - 1 + |pattern|] == s[i..i + |pattern|];
      assert OccursAt(pattern, t, i - 1);
      RemoveAllShrinks(t, pattern);
    }
  }

  /** A leading occurrence is dropped and the scan goes on after it. */
  lemma RemoveAllLeading(pattern: string, s: string)
    requires pattern != []
    ensures RemoveAll(pattern + s, pattern) == RemoveAll(s, pattern)
  {
    assert (pattern + s)[..|pattern|] == pattern;
    assert (pattern + s)[|pattern|..] == s;
  }
}
