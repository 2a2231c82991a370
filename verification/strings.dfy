/** The JavaScript string operations the analyzer relies on, on `seq<char>`:
    `split` on one character, `join`, `trim`, `toLowerCase` (ASCII letters
    only), `startsWith` and `includes`. */
module Strings {

  /** `s.split(sep)`: the pieces between occurrences of `sep`. There is
      always at least one piece; the empty string gives `[""]`. */
  function Split(s: string, sep: char): (parts: seq<string>)
    ensures |parts| >= 1
    ensures forall p :: p in parts ==> sep !in p
    decreases |s|
  {
    if |s| == 0 then [""]
    else
      var rest := Split(s[1..], sep);
      if s[0] == sep then [""] + rest
      else [[s[0]] + rest[0]] + rest[1..]
  }

  /** `parts.join(sep)`. */
  function Join(parts: seq<string>, sep: string): string
    decreases |parts|
  {
    if |parts| == 0 then ""
    else if |parts| == 1 then parts[0]
    else parts[0] + sep + Join(parts[1..], sep)
  }

  /** Every occurrence of `from` replaced by `to`. */
  function Replace(s: string, from: char, to: char): (r: string)
    ensures |r| == |s|
    ensures forall i :: 0 <= i < |s| ==> r[i] == (if s[i] == from then to else s[i])
  {
    seq(|s|, i requires 0 <= i < |s| => if s[i] == from then to else s[i])
  }

  lemma JoinConsChar(c: char, parts: seq<string>, sep: string)
    requires |parts| >= 1
    ensures Join([[c] + parts[0]] + parts[1..], sep) == [c] + Join(parts, sep)
  {
    var q := [[c] + parts[0]] + parts[1..];
    assert q[1..] == parts[1..];
    if |parts| > 1 {
      assert q[0] + sep + Join(q[1..], sep) == [c] + (parts[0] + sep + Join(parts[1..], sep));
    }
  }

  /** Splitting on `sep` and joining with `d` replaces each `sep` by `d`. */
  lemma {:induction false} JoinSplit(s: string, sep: char, d: char)
    ensures Join(Split(s, sep), [d]) == Replace(s, sep, d)
    decreases |s|
  {
    if |s| > 0 {
      var rest := Split(s[1..], sep);
      JoinSplit(s[1..], sep, d);
      assert Replace(s, sep, d) == [if s[0] == sep then d else s[0]] + Replace(s[1..], sep, d);
      if s[0] == sep {
        assert ([""] + rest)[1..] == rest;
      } else {
        JoinConsChar(s[0], rest, [d]);
      }
    }
  }

  /** Round trip: joining the pieces with the separator gives back `s`. */
  lemma JoinSplitRoundTrip(s: string, sep: char)
    ensures Join(Split(s, sep), [sep]) == s
  {
    JoinSplit(s, sep, sep);
    assert Replace(s, sep, sep) == s;
  }

  /** A string without the separator splits into itself. */
  lemma {:induction false} SplitWithoutSep(a: string, sep: char)
    requires sep !in a
    ensures Split(a, sep) == [a]
    decreases |a|
  {
    if |a| > 0 {
      assert sep !in a[1..] by {
        forall i | 0 <= i < |a[1..]| ensures a[1..][i] != sep {
          assert a[1..][i] == a[i + 1];
        }
      }
      SplitWithoutSep(a[1..], sep);
      assert [a[0]] + a[1..] == a;
    }
  }

  /** The first piece ends at the first separator. */
  lemma {:induction false} SplitAfterSep(a: string, b: string, sep: char)
    requires sep !in a
    ensures Split(a + [sep] + b, sep) == [a] + Split(b, sep)
    decreases |a|
  {
    var s := a + [sep] + b;
    if |a| == 0 {
      assert s[1..] == b;
    } else {
      assert s[1..] == a[1..] + [sep] + b;
      assert sep !in a[1..] by {
        forall i | 0 <= i < |a[1..]| ensures a[1..][i] != sep {
          assert a[1..][i] == a[i + 1];
        }
      }
      SplitAfterSep(a[1..], b, sep);
      assert [a[0]] + a[1..] == a;
    }
  }

  /** Round trip the other way: pieces without the separator are recovered
      by splitting their join. */
  lemma {:induction false} SplitJoinRoundTrip(parts: seq<string>, sep: char)
    requires |parts| >= 1
    requires forall p :: p in parts ==> sep !in p
    ensures Split(Join(parts, [sep]), sep) == parts
    decreases |parts|
  {
    assert parts[0] in parts;
    if |parts| == 1 {
      SplitWithoutSep(parts[0], sep);
    } else {
      assert forall p :: p in parts[1..] ==> p in parts;
      SplitJoinRoundTrip(parts[1..], sep);
      SplitAfterSep(parts[0], Join(parts[1..], [sep]), sep);
      assert [parts[0]] + parts[1..] == parts;
    }
  }

  /** Joining all pieces is joining all but the last, then the separator
      and the last. */
  lemma {:induction false} JoinSnoc(parts: seq<string>, sep: string)
    requires |parts| >= 2
    ensures Join(parts, sep) == Join(parts[..|parts| - 1], sep) + sep + parts[|parts| - 1]
    decreases |parts|
  {
    var n := |parts|;
    if n == 2 {
      assert parts[1..] == [parts[1]];
      assert parts[..1] == [parts[0]];
    } else {
      JoinSnoc(parts[1..], sep);
      assert parts[1..][..n - 2] == parts[..n - 1][1..];
      assert parts[1..][n - 2] == parts[n - 1];
    }
  }

  /** A string splits into one piece exactly when it holds no separator. */
  lemma SplitSingle(s: string, sep: char)
    ensures |Split(s, sep)| == 1 <==> sep !in s
  {
    if sep !in s {
      SplitWithoutSep(s, sep);
    }
    if |Split(s, sep)| == 1 {
      JoinSplitRoundTrip(s, sep);
      assert Split(s, sep)[0] in Split(s, sep);
    }
  }

  /** Joining a prefix of the pieces gives a prefix of the whole join. */
  lemma {:induction false} JoinPrefix(parts: seq<string>, k: nat, sep: string)
    requires k <= |parts|
    ensures Join(parts[..k], sep) <= Join(parts, sep)
    decreases k
  {
    if k >= 2 {
      assert parts[..k][1..] == parts[1..][..k - 1];
      JoinPrefix(parts[1..], k - 1, sep);
    } else if k == 1 {
      assert parts[..k] == [parts[0]];
    }
  }

  /** ECMAScript WhiteSpace and LineTerminator code points: what `trim`
      removes. */
  predicate IsWhitespace(c: char) {
    || c == '\t' || c == '\n' || c == '\U{0B}' || c == '\U{0C}' || c == '\r'
    || c == ' ' || c == '\U{A0}' || c == '\U{1680}'
    || ('\U{2000}' <= c <= '\U{200A}')
    || c == '\U{2028}' || c == '\U{2029}' || c == '\U{202F}' || c == '\U{205F}'
    || c == '\U{3000}' || c == '\U{FEFF}'
  }

  /** Neither end is whitespace. */
  predicate IsTrimmed(s: string) {
    |s| == 0 || (!IsWhitespace(s[0]) && !IsWhitespace(s[|s| - 1]))
  }

  /** Index of the first non-whitespace character at or after `lo`, or
      `|s|` when there is none: where `trimStart` cuts. */
  function TrimStartIndex(s: string, lo: nat): (a: nat)
    requires lo <= |s|
    ensures lo <= a <= |s|
    ensures forall i :: lo <= i < a ==> IsWhitespace(s[i])
    ensures a == |s| || !IsWhitespace(s[a])
    decreases |s| - lo
  {
    if lo < |s| && IsWhitespace(s[lo]) then TrimStartIndex(s, lo + 1) else lo
  }

  /** One past the last non-whitespace character at or after `lo` and before
      `hi`, or `lo` when there is none: where `trimEnd` cuts. */
  function TrimEndIndex(s: string, lo: nat, hi: nat): (b: nat)
    requires lo <= hi <= |s|
    ensures lo <= b <= hi
    ensures forall i :: b <= i < hi ==> IsWhitespace(s[i])
    ensures b == lo || !IsWhitespace(s[b - 1])
    decreases hi - lo
  {
    if lo < hi && IsWhitespace(s[hi - 1]) then TrimEndIndex(s, lo, hi - 1) else hi
  }

  /** `r` is the slice of `s` starting at `k`, and everything of `s` outside
      that slice is whitespace. */
  predicate IsCoreAt(s: string, r: string, k: int) {
    && 0 <= k <= |s| - |r| && r == s[k..k + |r|]
    && (forall i :: 0 <= i < k ==> IsWhitespace(s[i]))
    && (forall i :: k + |r| <= i < |s| ==> IsWhitespace(s[i]))
  }

  /** `s.trim()`: drops whitespace at both ends. */
  function Trim(s: string): string {
    var a := TrimStartIndex(s, 0);
    s[a..TrimEndIndex(s, a, |s|)]
  }

  /** The trimmed string is the trimmed core of `s`: a slice of `s` with
      whitespace at neither end, and only whitespace outside it. */
  lemma TrimSpec(s: string)
    ensures IsTrimmed(Trim(s))
    ensures exists k :: IsCoreAt(s, Trim(s), k)
  {
    var a := TrimStartIndex(s, 0);
    assert IsCoreAt(s, Trim(s), a);
  }

  /** Trimming a trimmed string changes nothing. */
  lemma TrimTrimmed(s: string)
    requires IsTrimmed(s)
    ensures Trim(s) == s
  {
    assert TrimStartIndex(s, 0) == 0;
  }

  /** `trim()` yields the empty string exactly for all-whitespace input. */
  lemma TrimEmpty(s: string)
    ensures Trim(s) == "" <==> forall i :: 0 <= i < |s| ==> IsWhitespace(s[i])
  {
    TrimSpec(s);
    var k :| IsCoreAt(s, Trim(s), k);
    if Trim(s) != "" {
      assert Trim(s)[0] == s[k];
    }
  }

  /** `toLowerCase` on one character, for ASCII letters. */
  function LowerChar(c: char): char {
    if 'A' <= c <= 'Z' then (c as int + 32) as char else c
  }

  /** No ASCII upper-case letter. */
  predicate IsLowerCase(s: string) {
    forall i :: 0 <= i < |s| ==> !('A' <= s[i] <= 'Z')
  }

  /** `s.toLowerCase()`, restricted to the ASCII letters. */
  function ToLower(s: string): (r: string)
    ensures |r| == |s| && IsLowerCase(r)
    ensures forall i :: 0 <= i < |s| ==> r[i] == LowerChar(s[i])
    ensures forall i :: 0 <= i < |s| ==> (IsWhitespace(r[i]) <==> IsWhitespace(s[i]))
  {
    seq(|s|, i requires 0 <= i < |s| => LowerChar(s[i]))
  }

  /** Lower-casing changes nothing in a lower-case string; in particular it
      is idempotent. */
  lemma ToLowerOfLowerCase(s: string)
    requires IsLowerCase(s)
    ensures ToLower(s) == s
  {
  }

  /** Lower-casing keeps a trimmed string trimmed. */
  lemma ToLowerKeepsTrimmed(s: string)
    requires IsTrimmed(s)
    ensures IsTrimmed(ToLower(s))
  {
  }

  /** `s.startsWith(prefix)`. */
  predicate StartsWith(s: string, prefix: string) {
    |prefix| <= |s| && s[..|prefix|] == prefix
  }

  /** `sub` occurs in `s` at index `i`. */
  predicate OccursAt(s: string, sub: string, i: int) {
    0 <= i <= |s| - |sub| && s[i..i + |sub|] == sub
  }

  /** `s.includes(sub)`. */
  predicate Contains(s: string, sub: string) {
    exists i | 0 <= i <= |s| - |sub| :: OccursAt(s, sub, i)
  }

  /** Case-insensitive search for a lower-case ASCII word, as a regular
      expression with the `i` flag and no `u` flag matches it: only ASCII
      letters fold. */
  predicate ContainsIgnoreCase(s: string, word: string) {
    Contains(ToLower(s), word)
  }

  /** An occurrence of a word without the separator lies on one side of
      it. */
  lemma OccursAroundSep(a: string, sep: char, b: string, w: string, i: int)
    requires sep !in w && OccursAt(a + [sep] + b, w, i)
    ensures OccursAt(a, w, i) || OccursAt(b, w, i - |a| - 1)
  {
    var s := a + [sep] + b;
    var n := |w|;
    if i + n <= |a| {
      assert s[i..i + n] == a[i..i + n];
    } else {
      assert s[|a|] == sep;
      assert s[i..i + n] == b[i - |a| - 1..i - |a| - 1 + n];
    }
  }

  /** A word without the separator occurs around it exactly when it occurs
      on one side. */
  lemma ContainsAroundSep(a: string, sep: char, b: string, w: string)
    requires sep !in w
    ensures Contains(a + [sep] + b, w) <==> Contains(a, w) || Contains(b, w)
  {
    var s := a + [sep] + b;
    var n := |w|;
    if Contains(s, w) {
      var i :| 0 <= i <= |s| - n && OccursAt(s, w, i);
      OccursAroundSep(a, sep, b, w, i);
    }
    if Contains(a, w) {
      var i :| 0 <= i <= |a| - n && OccursAt(a, w, i);
      assert s[i..i + n] == a[i..i + n];
      assert OccursAt(s, w, i);
    }
    if Contains(b, w) {
      var i :| 0 <= i <= |b| - n && OccursAt(b, w, i);
      var k := i + |a| + 1;
      assert s[k..k + n] == (a + [sep] + b)[k..k + n];
      assert (a + [sep] + b)[k..k + n] == b[i..i + n];
      assert OccursAt(s, w, k);
    }
  }

  /** Lower-casing works character by character across a separator. */
  lemma ToLowerAroundSep(a: string, sep: char, b: string)
    ensures ToLower(a + [sep] + b) == ToLower(a) + [LowerChar(sep)] + ToLower(b)
  {
  }

  /** Turning line breaks into spaces neither creates nor destroys an
      occurrence of a word that holds neither character. */
  lemma ContainsAcrossNewlineReplace(s: string, w: string)
    requires '\n' !in w && ' ' !in w
    ensures Contains(ToLower(Replace(s, '\n', ' ')), w) <==> Contains(ToLower(s), w)
  {
    var a := ToLower(Replace(s, '\n', ' '));
    var b := ToLower(s);
    forall i | 0 <= i <= |b| - |w|
      ensures OccursAt(a, w, i) <==> OccursAt(b, w, i)
    {
      if a[i..i + |w|] == w {
        forall k | 0 <= k < |w| ensures b[i + k] == w[k] {
          assert a[i..i + |w|][k] == a[i + k];
          assert w[k] in w;
        }
        assert b[i..i + |w|] == w;
      }
      if b[i..i + |w|] == w {
        forall k | 0 <= k < |w| ensures a[i + k] == w[k] {
          assert b[i..i + |w|][k] == b[i + k];
          assert w[k] in w;
        }
        assert a[i..i + |w|] == w;
      }
    }
    if Contains(a, w) {
      var i :| 0 <= i <= |a| - |w| && OccursAt(a, w, i);
      assert OccursAt(b, w, i);
    }
    if Contains(b, w) {
      var i :| 0 <= i <= |b| - |w| && OccursAt(b, w, i);
      assert OccursAt(a, w, i);
    }
  }
}
