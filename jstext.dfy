/**
 * `String.prototype.trim`, which the task list applies to the text typed in
 * the form and to the text returned by the edit prompt.
 */
module JsText {

  /**
   * The code points `trim` strips: the ECMAScript WhiteSpace set (tab,
   * vertical tab, form feed, space, no-break space, the byte order mark and
   * every Unicode space separator) and the LineTerminator set (line feed,
   * carriage return, line separator, paragraph separator).
   */
  predicate IsTrimmable(c: char) {
    var n := c as int;
    || n == 0x09 || n == 0x0A || n == 0x0B || n == 0x0C || n == 0x0D
    || n == 0x20 || n == 0xA0 || n == 0x1680
    || (0x2000 <= n <= 0x200A)
    || n == 0x2028 || n == 0x2029 || n == 0x202F || n == 0x205F
    || n == 0x3000 || n == 0xFEFF
  }

  /** Every character of `s` would be stripped by `trim`. */
  predicate IsBlank(s: string) {
    forall k :: 0 <= k < |s| ==> IsTrimmable(s[k])
  }

  /** The index of the first character `trim` keeps at the front of `s`. */
  function LeadingBlanks(s: string): (i: nat)
    ensures i <= |s| && IsBlank(s[..i])
    ensures i < |s| ==> !IsTrimmable(s[i])
  {
    if s == [] || !IsTrimmable(s[0]) then 0
    else
      var i := 1 + LeadingBlanks(s[1..]);
      assert forall k :: 1 <= k < i ==> s[..i][k] == s[1..][..i - 1][k - 1];
      i
  }

  /** The length of `s` once `trim` has stripped its end. */
  function TrailingStart(s: string): (j: nat)
    ensures j <= |s| && IsBlank(s[j..])
    ensures j > 0 ==> !IsTrimmable(s[j - 1])
  {
    if s == [] || !IsTrimmable(s[|s| - 1]) then |s|
    else
      var j := TrailingStart(s[..|s| - 1]);
      assert forall k :: j <= k < |s| - 1 ==> s[k] == s[..|s| - 1][k];
      j
  }

  /**
   * `s.trim()`: `s` without the trimmable characters at either end. The
   * result is the slice of `s` between a blank prefix and a blank suffix,
   * it is empty exactly when `s` is blank, and otherwise it starts and ends
   * with a character `trim` keeps.
   */
  function Trim(s: string): (r: string)
    ensures exists i, j :: 0 <= i <= j <= |s| && r == s[i..j] && IsBlank(s[..i]) && IsBlank(s[j..])
    ensures r == [] <==> IsBlank(s)
    ensures r != [] ==> !IsTrimmable(r[0]) && !IsTrimmable(r[|r| - 1])
  {
    var i := LeadingBlanks(s);
    var t := s[i..];
    var j := TrailingStart(t);
    assert t[..j] == s[i..i + j];
    assert t[j..] == s[i + j..];
    assert forall k :: i <= k < |s| ==> s[k] == t[k - i];
    t[..j]
  }

  /** Trimming an already trimmed string changes nothing. */
  lemma TrimIdempotent(s: string)
    ensures Trim(Trim(s)) == Trim(s)
  {
    var r := Trim(s);
    if r != [] {
      assert LeadingBlanks(r) == 0;
      assert TrailingStart(r) == |r|;
    }
  }
}
