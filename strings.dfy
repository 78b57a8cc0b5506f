/**
 * The Python `str` operations that volt's routing and static-file code rely on:
 * `split` on one separator character, the substring test `in`, `replace`, and
 * the removal of leading characters. (`s.startswith(p)` is Dafny's prefix test `p <= s`.)
 */
module Strings {

  /** `s.split(sep)`: the pieces between occurrences of `sep`; never empty. */
  function Split(s: string, sep: char): (parts: seq<string>)
    ensures |parts| >= 1
    ensures forall i :: 0 <= i < |parts| ==> sep !in parts[i]
  {
    if s == [] then [""]
    else
      var rest := Split(s[1..], sep);
      if s[0] == sep then [""] + rest
      else [[s[0]] + rest[0]] + rest[1..]
  }

  /** `sep.join(parts)`. */
  function Join(parts: seq<string>, sep: char): string
    requires |parts| >= 1
  {
    if |parts| == 1 then parts[0] else parts[0] + [sep] + Join(parts[1..], sep)
  }

  /** Joining the pieces of a split gives back the string. */
  lemma {:induction false} JoinSplit(s: string, sep: char)
    ensures Join(Split(s, sep), sep) == s
  {
    if s != [] {
      var rest := Split(s[1..], sep);
      JoinSplit(s[1..], sep);
      if s[0] == sep {
        assert Split(s, sep)[1..] == rest;
      } else {
        var parts := Split(s, sep);
        if |rest| == 1 {
          assert parts == [[s[0]] + rest[0]];
        } else {
          assert parts[1..] == rest[1..];
          assert Join(rest, sep) == rest[0] + [sep] + Join(rest[1..], sep);
        }
      }
    }
  }

  /** Splitting a piece that holds no separator gives that piece alone. */
  lemma {:induction false} SplitNoSeparator(x: string, sep: char)
    requires sep !in x
    ensures Split(x, sep) == [x]
  {
    if x != [] {
      SplitNoSeparator(x[1..], sep);
      assert x[0] != sep;
      assert [x[0]] + x[1..] == x;
    }
  }

  /** A leading piece without separator splits off first. */
  lemma {:induction false} SplitPrefix(x: string, sep: char, y: string)
    requires sep !in x
    ensures Split(x + [sep] + y, sep) == [x] + Split(y, sep)
  {
    if x == [] {
      assert x + [sep] + y == [sep] + y;
      assert ([sep] + y)[1..] == y;
    } else {
      assert (x + [sep] + y)[1..] == x[1..] + [sep] + y;
      SplitPrefix(x[1..], sep, y);
      assert [x[0]] + x[1..] == x;
    }
  }

  /** Splitting a join of separator-free pieces gives back the pieces. */
  lemma {:induction false} SplitJoin(parts: seq<string>, sep: char)
    requires |parts| >= 1
    requires forall i :: 0 <= i < |parts| ==> sep !in parts[i]
    ensures Split(Join(parts, sep), sep) == parts
  {
    if |parts| == 1 {
      SplitNoSeparator(parts[0], sep);
    } else {
      SplitJoin(parts[1..], sep);
      SplitPrefix(parts[0], sep, Join(parts[1..], sep));
    }
  }

  /** `sub in s` for strings: `sub` occurs at some position of `s`. */
  predicate Contains(s: string, sub: string)
    decreases |s|
  {
    sub <= s || (s != [] && Contains(s[1..], sub))
  }

  /** `sub` occurs in `s` starting at index `i`. */
  predicate OccursAt(s: string, sub: string, i: int)
  {
    0 <= i && i + |sub| <= |s| && s[i..i + |sub|] == sub
  }

  /** A found occurrence has a position. */
  lemma {:induction false} ContainsHasPosition(s: string, sub: string)
    requires Contains(s, sub)
    ensures exists i :: OccursAt(s, sub, i)
    decreases |s|
  {
    if sub <= s {
      assert OccursAt(s, sub, 0);
    } else {
      ContainsHasPosition(s[1..], sub);
      var i :| OccursAt(s[1..], sub, i);
      assert s[1..][i..i + |sub|] == s[i + 1..i + 1 + |sub|];
      assert OccursAt(s, sub, i + 1);
    }
  }

  /** An occurrence at any position is found. */
  lemma {:induction false} PositionIsContained(s: string, sub: string, i: int)
    requires OccursAt(s, sub, i)
    ensures Contains(s, sub)
    decreases i
  {
    if i == 0 {
      assert sub <= s;
    } else {
      assert s[1..][i - 1..i - 1 + |sub|] == s[i..i + |sub|];
      PositionIsContained(s[1..], sub, i - 1);
    }
  }

  /** What occurs in a suffix of `s` occurs in `s`. */
  lemma ContainsInSuffix(s: string, k: nat, sub: string)
    requires k <= |s|
    ensures Contains(s[k..], sub) ==> Contains(s, sub)
  {
    if Contains(s[k..], sub) {
      ContainsHasPosition(s[k..], sub);
      var i :| OccursAt(s[k..], sub, i);
      assert s[k..][i..i + |sub|] == s[k + i..k + i + |sub|];
      PositionIsContained(s, sub, k + i);
    }
  }

  /**
   * `s.replace(pat, repl)` for a non-empty pattern: scanning from the left, every
   * occurrence of `pat` that does not overlap an earlier replaced one is replaced.
   */
  function Replace(s: string, pat: string, repl: string): (r: string)
    requires |pat| > 0
    decreases |s|
  {
    if s == [] then []
    else if pat <= s then repl + Replace(s[|pat|..], pat, repl)
    else [s[0]] + Replace(s[1..], pat, repl)
  }

  /** A string without the pattern is left as it is. */
  lemma {:induction false} ReplaceAbsent(s: string, pat: string, repl: string)
    requires |pat| > 0
    requires !Contains(s, pat)
    ensures Replace(s, pat, repl) == s
  {
    if s != [] {
      ReplaceAbsent(s[1..], pat, repl);
    }
  }

  /** Replacing the pattern by itself changes nothing. */
  lemma {:induction false} ReplaceSelf(s: string, pat: string)
    requires |pat| > 0
    ensures Replace(s, pat, pat) == s
    decreases |s|
  {
    if s != [] {
      if pat <= s {
        ReplaceSelf(s[|pat|..], pat);
        assert pat + s[|pat|..] == s;
      } else {
        ReplaceSelf(s[1..], pat);
      }
    }
  }

  /** A `..` in a concatenation lies in one part, or is the dot ending one and the dot starting the other. */
  lemma DoubleDotConcat(a: string, b: string)
    ensures Contains(a + b, "..") ==>
      || Contains(a, "..") || Contains(b, "..")
      || (a != [] && b != [] && a[|a| - 1] == '.' && b[0] == '.')
  {
    if Contains(a + b, "..") {
      ContainsHasPosition(a + b, "..");
      var i :| OccursAt(a + b, "..", i);
      if i + 2 <= |a| {
        assert a[i..i + 2] == (a + b)[i..i + 2];
        PositionIsContained(a, "..", i);
      } else if i >= |a| {
        assert b[i - |a|..i - |a| + 2] == (a + b)[i..i + 2];
        PositionIsContained(b, "..", i - |a|);
      } else {
        assert (a + b)[i..i + 2][0] == a[|a| - 1] && (a + b)[i..i + 2][1] == b[0];
      }
    }
  }

  /** A string starting with two dots contains `..`. */
  lemma LeadingDoubleDot(s: string)
    ensures |s| >= 2 && s[0] == '.' && s[1] == '.' ==> Contains(s, "..")
  {
    if |s| >= 2 && s[0] == '.' && s[1] == '.' {
      assert s[..2] == "..";
    }
  }

  /**
   * Replacing by a text that neither starts nor ends with a dot and holds no `..`
   * creates no `..` where there was none.
   */
  lemma {:induction false} ReplaceNoDoubleDot(s: string, pat: string, repl: string)
    requires |pat| > 0
    requires repl != [] && repl[0] != '.' && repl[|repl| - 1] != '.' && !Contains(repl, "..")
    requires !Contains(s, "..")
    ensures !Contains(Replace(s, pat, repl), "..")
    decreases |s|
  {
    if s == [] {
    } else if pat <= s {
      var rest := Replace(s[|pat|..], pat, repl);
      ContainsInSuffix(s, |pat|, "..");
      ReplaceNoDoubleDot(s[|pat|..], pat, repl);
      DoubleDotConcat(repl, rest);
    } else {
      var rest := Replace(s[1..], pat, repl);
      ReplaceNoDoubleDot(s[1..], pat, repl);
      DoubleDotConcat([s[0]], rest);
      assert !Contains([s[0]], "..") by {
        assert !Contains([s[0]][1..], "..");
      }
      LeadingDoubleDot(s);
      assert rest != [] ==> rest[0] == (if pat <= s[1..] then repl[0] else s[1]);
    }
  }

  /** `s.lstrip(c)`: `s` without its leading run of `c`. */
  function LeftStrip(s: string, c: char): (r: string)
    ensures |r| <= |s| && r == s[|s| - |r|..]
    ensures r == [] || r[0] != c
    ensures forall i :: 0 <= i < |s| - |r| ==> s[i] == c
  {
    if s != [] && s[0] == c then LeftStrip(s[1..], c) else s
  }
}
