/**
  Word counting as `App::get_word_count` does it: the pieces produced by
  `str::split_whitespace`, with empty pieces filtered out, counted.
 */
module Words {
  import opened Chars

  /** Length of the leading run of non-whitespace characters of `s`. */
  function WordLength(s: string): (n: nat)
    ensures n <= |s|
    ensures NoWhitespace(s[..n])
    ensures n == |s| || IsWhitespace(s[n])
    decreases |s|
  {
    if |s| == 0 || IsWhitespace(s[0]) then 0 else 1 + WordLength(s[1..])
  }

  /** `str::split_whitespace`: the maximal non-whitespace runs of `s`, left to right. */
  function SplitWhitespace(s: string): (words: seq<string>)
    ensures forall i :: 0 <= i < |words| ==> |words[i]| > 0 && NoWhitespace(words[i])
    decreases |s|
  {
    if |s| == 0 then []
    else if IsWhitespace(s[0]) then SplitWhitespace(s[1..])
    else
      var n := WordLength(s);
      [s[..n]] + SplitWhitespace(s[n..])
  }

  /** `.filter(|s| !s.is_empty())` */
  function DropEmpty(words: seq<string>): (kept: seq<string>)
    ensures forall i :: 0 <= i < |kept| ==> |kept[i]| > 0
    ensures |kept| <= |words|
  {
    if |words| == 0 then []
    else if |words[0]| == 0 then DropEmpty(words[1..])
    else [words[0]] + DropEmpty(words[1..])
  }

  /** `get_word_count`. */
  function WordCount(s: string): nat {
    |DropEmpty(SplitWhitespace(s))|
  }

  /** Reference definition: the number of positions of `s` that start a run of
      non-whitespace characters, i.e. hold a non-whitespace character whose
      predecessor is whitespace (`afterSpace` says whether the character before
      `s` counts as whitespace; the start of the text does). */
  function RunStarts(s: string, afterSpace: bool): nat
    decreases |s|
  {
    if |s| == 0 then 0
    else (if afterSpace && !IsWhitespace(s[0]) then 1 else 0) + RunStarts(s[1..], IsWhitespace(s[0]))
  }

  /** The filter is a no-op on what `split_whitespace` yields. */
  lemma {:induction false} DropEmptyKeepsNonEmpty(words: seq<string>)
    requires forall i :: 0 <= i < |words| ==> |words[i]| > 0
    ensures DropEmpty(words) == words
    decreases |words|
  {
    if |words| > 0 {
      DropEmptyKeepsNonEmpty(words[1..]);
    }
  }

  /** Skipping over characters that are not whitespace, starting inside a run, adds no run start. */
  lemma {:induction false} InsideWord(s: string, k: nat)
    requires k <= |s|
    requires NoWhitespace(s[..k])
    ensures RunStarts(s, false) == RunStarts(s[k..], false)
    decreases k
  {
    if k > 0 {
      assert !IsWhitespace(s[0]) by { assert s[..k][0] == s[0]; }
      assert s[1..][..k - 1] == s[..k][1..];
      InsideWord(s[1..], k - 1);
      assert s[1..][k - 1..] == s[k..];
    }
  }

  /** After a run has ended (end of text or a whitespace character) the flag carried in does not matter. */
  lemma RunEnded(s: string)
    requires |s| == 0 || IsWhitespace(s[0])
    ensures RunStarts(s, false) == RunStarts(s, true)
  {
  }

  lemma {:induction false} SplitCountsRunStarts(s: string)
    ensures |SplitWhitespace(s)| == RunStarts(s, true)
    decreases |s|
  {
    if |s| == 0 {
    } else if IsWhitespace(s[0]) {
      SplitCountsRunStarts(s[1..]);
    } else {
      var n := WordLength(s);
      assert n > 0;
      assert s[1..][..n - 1] == s[..n][1..];
      InsideWord(s[1..], n - 1);
      assert s[1..][n - 1..] == s[n..];
      RunEnded(s[n..]);
      SplitCountsRunStarts(s[n..]);
    }
  }

  /** The word count is the number of maximal runs of non-whitespace characters. */
  lemma WordCountIsRunCount(s: string)
    ensures WordCount(s) == RunStarts(s, true)
  {
    DropEmptyKeepsNonEmpty(SplitWhitespace(s));
    SplitCountsRunStarts(s);
  }

  lemma {:induction false} NoRunStartsIffWhitespace(s: string)
    ensures RunStarts(s, true) == 0 <==> AllWhitespace(s)
    decreases |s|
  {
    if |s| > 0 {
      NoRunStartsIffWhitespace(s[1..]);
      if IsWhitespace(s[0]) {
        assert AllWhitespace(s) <==> AllWhitespace(s[1..]) by {
          if AllWhitespace(s[1..]) {
            forall i | 0 <= i < |s| ensures IsWhitespace(s[i]) {
              if i > 0 { assert s[i] == s[1..][i - 1]; }
            }
          }
        }
      }
    }
  }

  /** The count is zero exactly for empty or all-whitespace text. */
  lemma WordCountZeroIffBlank(s: string)
    ensures WordCount(s) == 0 <==> AllWhitespace(s)
  {
    WordCountIsRunCount(s);
    NoRunStartsIffWhitespace(s);
  }

  /** Whether a character appended to `s` would begin a new run. */
  predicate AtBoundary(s: string, afterSpace: bool) {
    if |s| == 0 then afterSpace else IsWhitespace(s[|s| - 1])
  }

  lemma {:induction false} RunStartsAppend(s: string, afterSpace: bool, c: char)
    ensures RunStarts(s + [c], afterSpace)
         == RunStarts(s, afterSpace) + (if AtBoundary(s, afterSpace) && !IsWhitespace(c) then 1 else 0)
    decreases |s|
  {
    if |s| > 0 {
      assert (s + [c])[1..] == s[1..] + [c];
      RunStartsAppend(s[1..], IsWhitespace(s[0]), c);
    }
  }

  /** Typing one character: a non-whitespace character after whitespace (or into
      empty text) opens a new word, anything else leaves the count unchanged. */
  lemma WordCountAppend(s: string, c: char)
    ensures WordCount(s + [c])
         == WordCount(s) + (if (|s| == 0 || IsWhitespace(s[|s| - 1])) && !IsWhitespace(c) then 1 else 0)
  {
    WordCountIsRunCount(s);
    WordCountIsRunCount(s + [c]);
    RunStartsAppend(s, true, c);
  }
}
