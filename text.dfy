/**
 * The handful of Python string operations the query layer relies on, stated
 * over `string` (a `seq<char>`): `str.split` on one separator character,
 * `str.join`, `str.upper`, `str.strip`, and the counts of the `%s`
 * placeholders the database driver binds parameters to and of the `{}`
 * fields `str.format` fills in.
 */
module Text {

  /** `s.split(sep)` for a one-character separator: never empty, one more part than separators. */
  function Split(s: string, sep: char): (parts: seq<string>)
    ensures |parts| >= 1
  {
    if |s| == 0 then [""] else PushChar(s[0], sep, Split(s[1..], sep))
  }

  /** What one more leading character does to the parts of a split: a separator opens a new first part. */
  function PushChar(c: char, sep: char, parts: seq<string>): (r: seq<string>)
    requires |parts| >= 1
    ensures |r| >= 1
  {
    if c == sep then [""] + parts else [[c] + parts[0]] + parts[1..]
  }

  /** No part of a split holds the separator; there is more than one part exactly when the separator occurs. */
  lemma {:induction false} SplitParts(s: string, sep: char)
    ensures forall i :: 0 <= i < |Split(s, sep)| ==> sep !in Split(s, sep)[i]
    ensures sep !in s ==> Split(s, sep) == [s]
    ensures sep in s <==> |Split(s, sep)| >= 2
  {
    if |s| > 0 {
      SplitParts(s[1..], sep);
      assert s == [s[0]] + s[1..];
      assert sep in s <==> s[0] == sep || sep in s[1..];
      var rest := Split(s[1..], sep);
      if s[0] != sep {
        assert forall i :: 1 <= i < |rest| ==> PushChar(s[0], sep, rest)[i] == rest[i];
      }
    }
  }

  /** `sep.join(parts)`. */
  function Join(parts: seq<string>, sep: string): string
  {
    if |parts| == 0 then ""
    else if |parts| == 1 then parts[0]
    else parts[0] + sep + Join(parts[1..], sep)
  }

  /** `s.split(sep)[-1]`: the text after the last separator (the whole string when there is none). */
  function LastSegment(s: string, sep: char): (last: string)
    ensures sep !in last
    ensures sep !in s ==> last == s
  {
    SplitParts(s, sep);
    var parts := Split(s, sep);
    parts[|parts| - 1]
  }

  /** Joining the parts of a split with the separator gives the string back. */
  lemma {:induction false} JoinSplit(s: string, sep: char)
    ensures Join(Split(s, sep), [sep]) == s
  {
    if |s| > 0 {
      var rest := Split(s[1..], sep);
      JoinSplit(s[1..], sep);
      if s[0] == sep {
        assert Join([""] + rest, [sep]) == "" + [sep] + Join(rest, [sep]);
      } else if |rest| == 1 {
        assert Join(rest, [sep]) == rest[0];
      } else {
        assert Join(rest, [sep]) == rest[0] + [sep] + Join(rest[1..], [sep]);
        var head := [[s[0]] + rest[0]];
        assert (head + rest[1..])[1..] == rest[1..];
      }
    }
  }

  lemma SplitCons(c: char, t: string, sep: char)
    ensures Split([c] + t, sep) == PushChar(c, sep, Split(t, sep))
  {
    assert ([c] + t)[1..] == t;
  }

  lemma PushCharAppend(c: char, sep: char, left: seq<string>, right: seq<string>)
    requires |left| >= 1
    ensures PushChar(c, sep, left + right) == PushChar(c, sep, left) + right
  {
    if c != sep {
      assert (left + right)[1..] == left[1..] + right;
    }
  }

  /** Splitting `a + sep + b` splits `a` and `b` independently. */
  lemma {:induction false} SplitAround(a: string, sep: char, b: string)
    ensures Split(a + [sep] + b, sep) == Split(a, sep) + Split(b, sep)
  {
    if |a| == 0 {
      assert a + [sep] + b == [sep] + b;
      SplitCons(sep, b, sep);
    } else {
      var tail := a[1..];
      SplitAround(tail, sep, b);
      assert a + [sep] + b == [a[0]] + (tail + [sep] + b);
      assert a == [a[0]] + tail;
      SplitCons(a[0], tail + [sep] + b, sep);
      SplitCons(a[0], tail, sep);
      PushCharAppend(a[0], sep, Split(tail, sep), Split(b, sep));
    }
  }

  /** A qualified name `prefix.name` has `name` as its last segment, whatever the prefix. */
  lemma LastSegmentOfQualified(prefix: string, sep: char, name: string)
    requires sep !in name
    ensures LastSegment(prefix + [sep] + name, sep) == name
  {
    SplitAround(prefix, sep, name);
    SplitParts(name, sep);
  }

  /** The first two segments of `prefix.name`, for a prefix and a name free of the separator. */
  lemma QualifiedSegments(prefix: string, sep: char, name: string)
    requires sep !in prefix && sep !in name
    ensures Split(prefix + [sep] + name, sep) == [prefix, name]
  {
    SplitAround(prefix, sep, name);
    SplitParts(prefix, sep);
    SplitParts(name, sep);
  }

  /** `c.upper()` restricted to ASCII letters. */
  function UpperChar(c: char): char
  {
    if 'a' <= c <= 'z' then (c as int - 32) as char else c
  }

  /** `s.upper()`: every ASCII lower-case letter replaced by its capital. */
  function Upper(s: string): (u: string)
    ensures |u| == |s|
    ensures forall i :: 0 <= i < |s| ==> u[i] == UpperChar(s[i])
  {
    seq(|s|, i requires 0 <= i < |s| => UpperChar(s[i]))
  }

  predicate NoLowerCase(s: string)
  {
    forall i :: 0 <= i < |s| ==> !('a' <= s[i] <= 'z')
  }

  /** Upper-casing leaves a string without lower-case letters unchanged, and produces such strings. */
  lemma UpperFixes(s: string)
    ensures NoLowerCase(Upper(s))
    ensures NoLowerCase(s) ==> Upper(s) == s
  {
  }

  /** The characters `str.isspace` accepts. */
  predicate IsSpace(c: char)
  {
    c == ' ' || ('\t' <= c <= '\r') || ('\U{1C}' <= c <= '\U{1F}')
    || c == '\U{85}' || c == '\U{A0}' || c == '\U{1680}'
    || ('\U{2000}' <= c <= '\U{200A}') || c == '\U{2028}' || c == '\U{2029}'
    || c == '\U{202F}' || c == '\U{205F}' || c == '\U{3000}'
  }

  function StripLeading(s: string): (r: string)
    ensures r == [] || !IsSpace(r[0])
    ensures |r| <= |s| && r == s[|s| - |r|..]
  {
    if |s| > 0 && IsSpace(s[0]) then StripLeading(s[1..]) else s
  }

  function StripTrailing(s: string): (r: string)
    ensures r == [] || !IsSpace(r[|r| - 1])
    ensures |r| <= |s| && r == s[..|r|]
  {
    if |s| > 0 && IsSpace(s[|s| - 1]) then StripTrailing(s[..|s| - 1]) else s
  }

  /** `s.strip()`: a slice of `s` that neither starts nor ends with whitespace. */
  function Strip(s: string): (r: string)
    ensures r == [] || (!IsSpace(r[0]) && !IsSpace(r[|r| - 1]))
  {
    var lead := StripLeading(s);
    var r := StripTrailing(lead);
    assert r != [] ==> r[0] == lead[0];
    r
  }

  predicate Trimmed(s: string)
  {
    s == [] || (!IsSpace(s[0]) && !IsSpace(s[|s| - 1]))
  }

  /** Stripping a string with no surrounding whitespace changes nothing; so stripping twice is stripping once. */
  lemma StripFixes(s: string)
    ensures Trimmed(s) ==> Strip(s) == s
    ensures Strip(Strip(s)) == Strip(s)
  {
    var r := Strip(s);
    assert Trimmed(r);
    assert StripLeading(r) == r;
    assert StripTrailing(r) == r;
    if Trimmed(s) {
      assert StripLeading(s) == s;
      assert StripTrailing(s) == s;
    }
  }

  /** The occurrences of the two-character pattern `[x, y]` in `s`, counted left to right (`s.count(x + y)`). */
  function Pairs(s: string, x: char, y: char): nat
  {
    if |s| < 2 then 0
    else if s[0] == x && s[1] == y then 1 + Pairs(s[2..], x, y)
    else Pairs(s[1..], x, y)
  }

  /** The `%s` placeholders the database driver binds parameters to. */
  function Placeholders(s: string): nat
  {
    Pairs(s, '%', 's')
  }

  /** The `{}` replacement fields of a `str.format` template. */
  function Fields(s: string): nat
  {
    Pairs(s, '{', '}')
  }

  /** Prepending one character adds an occurrence exactly when it completes the pattern. */
  lemma PairsCons(c: char, s: string, x: char, y: char)
    requires x != y
    ensures Pairs([c] + s, x, y) == (if c == x && |s| > 0 && s[0] == y then 1 else 0) + Pairs(s, x, y)
  {
    var t := [c] + s;
    assert t[1..] == s;
    if c == x && |s| > 0 && s[0] == y {
      assert t[2..] == s[1..];
    }
  }

  /** Occurrences in a concatenation add up when no occurrence straddles the seam. */
  lemma {:induction false} PairsConcat(a: string, b: string, x: char, y: char)
    requires x != y
    requires a == [] || b == [] || a[|a| - 1] != x || b[0] != y
    ensures Pairs(a + b, x, y) == Pairs(a, x, y) + Pairs(b, x, y)
  {
    if |a| == 0 {
      assert a + b == b;
    } else {
      var tail := a[1..];
      assert tail == [] || tail[|tail| - 1] == a[|a| - 1];
      PairsConcat(tail, b, x, y);
      assert a + b == [a[0]] + (tail + b);
      assert a == [a[0]] + tail;
      PairsCons(a[0], tail + b, x, y);
      PairsCons(a[0], tail, x, y);
      if a[0] == x && |tail| == 0 {
        assert Pairs(a, x, y) == 0;
        assert Pairs(a + b, x, y) == Pairs(tail + b, x, y);
      } else if a[0] == x {
        assert |tail| > 0 && (tail + b)[0] == tail[0];
        assert Pairs(a + b, x, y) == (if tail[0] == y then 1 else 0) + Pairs(tail + b, x, y);
        assert Pairs(a, x, y) == (if tail[0] == y then 1 else 0) + Pairs(tail, x, y);
      } else {
        assert Pairs(a + b, x, y) == Pairs(tail + b, x, y);
        assert Pairs(a, x, y) == Pairs(tail, x, y);
      }
    }
  }

  /** Text without the pattern's first character holds no occurrence of it. */
  lemma {:induction false} NoFirstNoPairs(s: string, x: char, y: char)
    requires x !in s
    ensures Pairs(s, x, y) == 0
  {
    if |s| >= 2 {
      assert x !in s[1..];
      NoFirstNoPairs(s[1..], x, y);
    }
  }

  /** One `%s` between text free of `%` is the only placeholder. */
  lemma OnePlaceholder(prefix: string, suffix: string)
    requires '%' !in prefix && '%' !in suffix
    ensures Placeholders(prefix + "%s" + suffix) == 1
  {
    var tail := "%s" + suffix;
    assert prefix + "%s" + suffix == prefix + tail;
    assert tail[0] == '%' && tail[1] == 's' && tail[2..] == suffix;
    NoFirstNoPairs(suffix, '%', 's');
    assert Pairs(tail, '%', 's') == 1;
    NoFirstNoPairs(prefix, '%', 's');
    PairsConcat(prefix, tail, '%', 's');
  }

  /** Joining parts free of `c` with a separator free of `c` gives text free of `c`. */
  lemma {:induction false} JoinAvoids(parts: seq<string>, sep: string, c: char)
    requires forall i :: 0 <= i < |parts| ==> c !in parts[i]
    requires c !in sep
    ensures c !in Join(parts, sep)
  {
    if |parts| > 1 {
      JoinAvoids(parts[1..], sep, c);
    }
  }

  /** `[s] * n`: `n` copies of `s`. */
  function Repeat(s: string, n: nat): (r: seq<string>)
    ensures |r| == n && forall i :: 0 <= i < n ==> r[i] == s
  {
    if n == 0 then [] else Repeat(s, n - 1) + [s]
  }

  lemma RepeatCons(s: string, n: nat)
    requires n > 0
    ensures Repeat(s, n) == [s] + Repeat(s, n - 1)
  {
  }
}
