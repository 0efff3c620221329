/**
 * The title check shared by the create and update handlers
 * (backend/app.py lines 61 and 80): the title, with surrounding
 * whitespace removed as Python's `str.strip()` does, may be at most
 * 200 characters long. There is no lower bound.
 */
module Validation {

  /** The largest accepted length of a stripped title. */
  const MaxTitleLength := 200

  /** The code points Python's `str.isspace` accepts, which `str.strip()` removes. */
  predicate IsSpace(c: char) {
    || c == ' '
    || '\t' <= c <= '\r'
    || '\U{1c}' <= c <= '\U{1f}'
    || c == '\U{85}' || c == '\U{a0}' || c == '\U{1680}'
    || '\U{2000}' <= c <= '\U{200a}'
    || c == '\U{2028}' || c == '\U{2029}' || c == '\U{202f}'
    || c == '\U{205f}' || c == '\U{3000}'
  }

  /**
   * Where the leading whitespace of `s[i..]` ends: every character from `i`
   * up to the result is whitespace, and the character at the result, if
   * any, is not.
   */
  function LeadingEnd(s: string, i: nat): (r: nat)
    requires i <= |s|
    ensures i <= r <= |s|
    ensures forall k :: i <= k < r ==> IsSpace(s[k])
    ensures r < |s| ==> !IsSpace(s[r])
    decreases |s| - i
  {
    if i < |s| && IsSpace(s[i]) then LeadingEnd(s, i + 1) else i
  }

  /**
   * Where the trailing whitespace of `s[lo..j]` starts: every character from
   * the result up to `j` is whitespace, and the one just before the result,
   * if it is past `lo`, is not.
   */
  function TrailingStart(s: string, lo: nat, j: nat): (r: nat)
    requires lo <= j <= |s|
    ensures lo <= r <= j
    ensures forall k :: r <= k < j ==> IsSpace(s[k])
    ensures lo < r ==> !IsSpace(s[r - 1])
  {
    if lo < j && IsSpace(s[j - 1]) then TrailingStart(s, lo, j - 1) else j
  }

  /**
   * Python's `s.strip()`: `s` with the whitespace at its two ends cut off,
   * so a middle part of `s` whose cut-off ends are all whitespace. The
   * result is empty exactly when `s` is all whitespace, otherwise it starts
   * and ends with a non-space; a string that already does so is returned
   * whole.
   */
  function Strip(s: string): (r: string)
    ensures |r| <= |s|
    ensures r == [] <==> forall i :: 0 <= i < |s| ==> IsSpace(s[i])
    ensures r != [] ==> !IsSpace(r[0]) && !IsSpace(r[|r| - 1])
    ensures s != [] && !IsSpace(s[0]) && !IsSpace(s[|s| - 1]) ==> r == s
    ensures exists lo, hi ::
      && 0 <= lo <= hi <= |s| && r == s[lo..hi]
      && (forall k :: 0 <= k < lo ==> IsSpace(s[k]))
      && (forall k :: hi <= k < |s| ==> IsSpace(s[k]))
  {
    var lo := LeadingEnd(s, 0);
    var hi := TrailingStart(s, lo, |s|);
    s[lo..hi]
  }

  /** The title check: the stripped title is at most 200 characters long. */
  predicate ValidTitle(title: string) {
    |Strip(title)| <= MaxTitleLength
  }

  /** An empty or all-whitespace title passes the check. */
  lemma BlankTitleAccepted(title: string)
    requires forall i :: 0 <= i < |title| ==> IsSpace(title[i])
    ensures ValidTitle(title)
  {
  }

  /** A title of at most 200 characters passes, whatever it holds. */
  lemma ShortTitleAccepted(title: string)
    requires |title| <= MaxTitleLength
    ensures ValidTitle(title)
  {
  }

  /** A title of more than 200 characters that neither starts nor ends with whitespace is refused. */
  lemma LongTitleRejected(title: string)
    requires |title| > MaxTitleLength
    requires !IsSpace(title[0]) && !IsSpace(title[|title| - 1])
    ensures !ValidTitle(title)
  {
  }
}
