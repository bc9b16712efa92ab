/** String helpers shared by the model: JavaScript's `startsWith`, and
    `split(sep)` / `join(sep)` with a one-character separator. */
module Text {

  /** `s.startsWith(p)`. */
  predicate StartsWith(s: string, p: string) {
    |p| <= |s| && s[..|p|] == p
  }

  lemma PrefixOfConcat(p: string, s: string)
    ensures StartsWith(p + s, p)
  {
    assert (p + s)[..|p|] == p;
  }

  lemma {:induction false} StartsWithTransitive(s: string, q: string, p: string)
    requires StartsWith(s, q) && StartsWith(q, p)
    ensures StartsWith(s, p)
  {
    assert s[..|p|] == s[..|q|][..|p|];
  }

  predicate Contains(s: string, c: char) {
    exists k :: 0 <= k < |s| && s[k] == c
  }

  /** `s.split(sep)`: the pieces between occurrences of `sep`. There is
      always at least one piece, and no piece holds the separator. */
  function Split(s: string, sep: char): (parts: seq<string>)
    ensures |parts| >= 1
    ensures forall i :: 0 <= i < |parts| ==> !Contains(parts[i], sep)
    ensures |parts| == 1 <==> !Contains(s, sep)
  {
    if s == [] then [[]]
    else
      var rest := Split(s[1..], sep);
      assert Contains(s, sep) <==> s[0] == sep || Contains(s[1..], sep) by {
        if Contains(s[1..], sep) {
          var k :| 0 <= k < |s[1..]| && s[1..][k] == sep;
          assert s[k + 1] == sep;
        }
        if Contains(s, sep) && s[0] != sep {
          var k :| 0 <= k < |s| && s[k] == sep;
          assert s[1..][k - 1] == sep;
        }
      }
      if s[0] == sep then [[]] + rest
      else
        [[s[0]] + rest[0]] + rest[1..]
  }

  /** `parts.join(sep)`. */
  function Join(parts: seq<string>, sep: char): (s: string)
    ensures parts == [] ==> s == []
  {
    if parts == [] then []
    else if |parts| == 1 then parts[0]
    else parts[0] + [sep] + Join(parts[1..], sep)
  }

  /** Splitting on a separator and joining with it gives back the string. */
  lemma {:induction false} JoinSplit(s: string, sep: char)
    ensures Join(Split(s, sep), sep) == s
  {
    if s != [] {
      JoinSplit(s[1..], sep);
      var rest := Split(s[1..], sep);
      if s[0] == sep {
        assert Split(s, sep) == [[]] + rest;
        assert Join(Split(s, sep), sep) == [] + [sep] + Join(rest, sep);
        assert s == [s[0]] + s[1..];
      } else {
        assert Split(s, sep) == [[s[0]] + rest[0]] + rest[1..];
        if |rest| == 1 {
          assert Join(Split(s, sep), sep) == [s[0]] + rest[0];
          assert s == [s[0]] + s[1..];
        } else {
          assert Join(rest, sep) == rest[0] + [sep] + Join(rest[1..], sep);
          assert Join(Split(s, sep), sep) == ([s[0]] + rest[0]) + [sep] + Join(rest[1..], sep);
          assert s == [s[0]] + s[1..];
        }
      }
    }
  }

  /** A string without the separator splits into itself alone. */
  lemma SplitWithoutSeparator(s: string, sep: char)
    requires !Contains(s, sep)
    ensures Split(s, sep) == [s]
  {
    JoinSplit(s, sep);
  }

  /** A separator-free head followed by the separator splits off as the
      first piece. */
  lemma {:induction false} SplitAfterHead(a: string, b: string, sep: char)
    requires !Contains(a, sep)
    ensures Split(a + [sep] + b, sep) == [a] + Split(b, sep)
  {
    if a == [] {
      assert a + [sep] + b == [sep] + b;
      assert ([sep] + b)[1..] == b;
    } else {
      SplitAfterHead(a[1..], b, sep);
      assert (a + [sep] + b)[1..] == a[1..] + [sep] + b;
      assert a == [a[0]] + a[1..];
    }
  }

  /** The first piece ends at the first separator, and joining the other
      pieces gives everything after it. */
  lemma {:induction false} SplitHeadAndRest(s: string, sep: char)
    requires Contains(s, sep)
    ensures |Split(s, sep)[0]| < |s| && s[|Split(s, sep)[0]|] == sep
    ensures s == Split(s, sep)[0] + [sep] + Join(Split(s, sep)[1..], sep)
  {
    var parts := Split(s, sep);
    JoinSplit(s, sep);
    assert |parts| >= 2;
    assert Join(parts, sep) == parts[0] + [sep] + Join(parts[1..], sep);
  }
}
