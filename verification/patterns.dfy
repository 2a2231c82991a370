/** The four regular expressions of the analyzer, written out as predicates.
    Each is case-insensitive without the `u` flag; their words are ASCII,
    and in that mode no character outside ASCII folds onto an ASCII letter,
    so searching the ASCII-lower-cased text for the lower-case words is
    exact. */
module Patterns {
  import opened Strings

  /** Some word of `words` occurs in `s`, ignoring ASCII case. */
  predicate ContainsAnyIgnoreCase(s: string, words: seq<string>) {
    exists w | w in words :: ContainsIgnoreCase(s, w)
  }

  const ConsoleKeywords: seq<string> := ["error", "warning", "failed", "exception"]

  /** `/error|warning|failed|exception/i`. */
  predicate ConsoleKeyword(text: string) {
    ContainsAnyIgnoreCase(text, ConsoleKeywords)
  }

  /** A keyword occurs around a line break exactly when it occurs on one
      side: no keyword spans lines. */
  lemma ConsoleKeywordAroundNewline(a: string, b: string)
    ensures ConsoleKeyword(a + "\n" + b) <==> ConsoleKeyword(a) || ConsoleKeyword(b)
  {
    assert a + "\n" + b == a + ['\n'] + b;
    ToLowerAroundSep(a, '\n', b);
    forall w | w in ConsoleKeywords
      ensures ContainsIgnoreCase(a + "\n" + b, w) <==> ContainsIgnoreCase(a, w) || ContainsIgnoreCase(b, w)
    {
      ContainsAroundSep(ToLower(a), '\n', ToLower(b), w);
    }
  }

  /** The console output, its chunks joined by line breaks, matches the
      keyword pattern exactly when one of its chunks does. */
  lemma {:induction false} ConsoleKeywordJoin(chunks: seq<string>)
    ensures ConsoleKeyword(Join(chunks, "\n")) <==> exists k :: 0 <= k < |chunks| && ConsoleKeyword(chunks[k])
    decreases |chunks|
  {
    if |chunks| == 0 {
      assert forall w | w in ConsoleKeywords :: |w| > 0;
    } else if |chunks| > 1 {
      var rest := chunks[1..];
      ConsoleKeywordJoin(rest);
      ConsoleKeywordAroundNewline(chunks[0], Join(rest, "\n"));
      if exists k :: 0 <= k < |chunks| && ConsoleKeyword(chunks[k]) {
        var k :| 0 <= k < |chunks| && ConsoleKeyword(chunks[k]);
        if k > 0 {
          assert rest[k - 1] == chunks[k];
        }
      }
      if exists k :: 0 <= k < |rest| && ConsoleKeyword(rest[k]) {
        var k :| 0 <= k < |rest| && ConsoleKeyword(rest[k]);
        assert chunks[k + 1] == rest[k];
      }
    }
  }

  const SelectorPhrases: seq<string> :=
    ["selector", "locator", "element not found", "element is not found",
     "detached from document", "no element found for selector"]

  /** `/selector|locator|element (is )?not found|detached from document|no element found for selector/i`. */
  predicate SelectorProblem(msg: string) {
    ContainsAnyIgnoreCase(msg, SelectorPhrases)
  }

  const NavigationPhrases: seq<string> := ["navigation", "frame navigated", "net::err_"]

  /** `/navigation|frame navigated|net::ERR_/i`. */
  predicate NavigationProblem(msg: string) {
    ContainsAnyIgnoreCase(msg, NavigationPhrases)
  }

  const ElementStatePhrases: seq<string> :=
    ["to be visible", "to be enabled", "to be editable", "to be checked",
     "to have visible", "to have enabled", "to have editable", "to have checked",
     "to exist"]

  /** The characters a regular-expression `.` does not match. */
  predicate IsLineTerminator(c: char) {
    c == '\n' || c == '\r' || c == '\U{2028}' || c == '\U{2029}'
  }

  /** In the lower-cased message `m`, "expect" starts at `i`, one of the
      element-state phrases starts at `j`, and no line break lies between. */
  predicate ExpectThenPhrase(m: string, i: int, j: int) {
    && 0 <= i && i + 6 <= j <= |m|
    && m[i..i + 6] == "expect"
    && (forall k | i + 6 <= k < j :: !IsLineTerminator(m[k]))
    && (exists w | w in ElementStatePhrases :: StartsWith(m[j..], w))
  }

  /** `/expect.*(to (be|have) (visible|enabled|editable|checked)|to exist)/i`. */
  predicate ElementStateProblem(msg: string) {
    var m := ToLower(msg);
    exists i, j | 0 <= i <= j <= |m| :: ExpectThenPhrase(m, i, j)
  }
}
