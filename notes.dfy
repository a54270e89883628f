/**
 * The analysis-notes log: JavaScript's `String.prototype.trim`, the guard
 * `newComment.trim()` that decides whether a note is added, and the note
 * entries themselves.
 */
module Notes {

  /**
   * The characters `trim` removes: ECMAScript's WhiteSpace (tab, vertical
   * tab, form feed, space, no-break space, byte-order mark and the Unicode
   * space separators) and LineTerminator code points.
   */
  predicate IsWhitespace(c: char)
  {
    var n := c as int;
    || n == 0x09 || n == 0x0A || n == 0x0B || n == 0x0C || n == 0x0D
    || n == 0x20 || n == 0xA0 || n == 0x1680
    || (0x2000 <= n <= 0x200A)
    || n == 0x2028 || n == 0x2029 || n == 0x202F || n == 0x205F
    || n == 0x3000 || n == 0xFEFF
  }

  ghost predicate AllWhitespace(s: string)
  {
    forall i :: 0 <= i < |s| ==> IsWhitespace(s[i])
  }

  /** The first index at or after `i` whose character is not whitespace, or `|s|`. */
  function SkipWhitespace(s: string, i: nat): (j: nat)
    requires i <= |s|
    ensures i <= j <= |s|
    ensures j < |s| ==> !IsWhitespace(s[j])
    decreases |s| - i
  {
    if i < |s| && IsWhitespace(s[i]) then SkipWhitespace(s, i + 1) else i
  }

  /**
   * Scanning back from `j` to no further than `lo`: the index just past the
   * last character that is not whitespace, or `lo`.
   */
  function SkipWhitespaceBack(s: string, lo: nat, j: nat): (e: nat)
    requires lo <= j <= |s|
    ensures lo <= e <= j
    ensures lo < e ==> !IsWhitespace(s[e - 1])
    decreases j
  {
    if lo < j && IsWhitespace(s[j - 1]) then SkipWhitespaceBack(s, lo, j - 1) else j
  }

  /** Everything `SkipWhitespace` passes over is whitespace. */
  lemma {:induction false} SkipWhitespacePassesWhitespace(s: string, i: nat)
    requires i <= |s|
    ensures forall k :: i <= k < SkipWhitespace(s, i) ==> IsWhitespace(s[k])
    decreases |s| - i
  {
    if i < |s| && IsWhitespace(s[i]) {
      SkipWhitespacePassesWhitespace(s, i + 1);
    }
  }

  /** Everything `SkipWhitespaceBack` passes over is whitespace. */
  lemma {:induction false} SkipWhitespaceBackPassesWhitespace(s: string, lo: nat, j: nat)
    requires lo <= j <= |s|
    ensures forall k :: SkipWhitespaceBack(s, lo, j) <= k < j ==> IsWhitespace(s[k])
    decreases j
  {
    if lo < j && IsWhitespace(s[j - 1]) {
      SkipWhitespaceBackPassesWhitespace(s, lo, j - 1);
    }
  }

  /** Where the text left by `trim` starts in `s`. */
  function ContentStart(s: string): nat
    ensures ContentStart(s) <= |s|
  {
    SkipWhitespace(s, 0)
  }

  /** Where the text left by `trim` ends in `s`. */
  function ContentEnd(s: string): nat
    ensures ContentStart(s) <= ContentEnd(s) <= |s|
  {
    SkipWhitespaceBack(s, ContentStart(s), |s|)
  }

  /**
   * `s.trim()`: the slice of `s` between its leading and its trailing
   * whitespace, so it neither starts nor ends with whitespace.
   */
  function Trim(s: string): (r: string)
    ensures |r| <= |s|
    ensures r != [] ==> !IsWhitespace(r[0]) && !IsWhitespace(r[|r| - 1])
  {
    s[ContentStart(s)..ContentEnd(s)]
  }

  /** Everything `trim` drops, before and after the slice it keeps, is whitespace. */
  lemma TrimDropsOnlyWhitespace(s: string)
    ensures forall k :: 0 <= k < ContentStart(s) ==> IsWhitespace(s[k])
    ensures forall k :: ContentEnd(s) <= k < |s| ==> IsWhitespace(s[k])
  {
    SkipWhitespacePassesWhitespace(s, 0);
    SkipWhitespaceBackPassesWhitespace(s, ContentStart(s), |s|);
  }

  /** `trim` leaves nothing exactly when the text is all whitespace. */
  lemma TrimEmptyIff(s: string)
    ensures Trim(s) == [] <==> AllWhitespace(s)
  {
    TrimDropsOnlyWhitespace(s);
    if Trim(s) == [] {
      forall k | 0 <= k < |s| ensures IsWhitespace(s[k]) {
        if ContentStart(s) <= k {
          assert ContentEnd(s) <= k;
        }
      }
    }
    if ContentStart(s) < |s| {
      assert !IsWhitespace(s[ContentStart(s)]);
    }
  }

  /** Whether `newComment.trim()` is truthy, i.e. a non-empty string. */
  predicate HasContent(s: string)
  {
    Trim(s) != []
  }

  /** The guard passes exactly when the text holds a character that is not whitespace. */
  lemma HasContentIff(s: string)
    ensures HasContent(s) <==> exists i :: 0 <= i < |s| && !IsWhitespace(s[i])
  {
    TrimEmptyIff(s);
  }

  /** One note: the text as typed (not trimmed) and the time it was added. */
  datatype Comment = Comment(text: string, timestamp: string)
}
