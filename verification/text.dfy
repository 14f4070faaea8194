/** Java's `String.trim()` and the services' shared `isBlank` check. */
module Text {
  import opened Wrappers

  /** `trim()` strips every character whose code is at most U+0020. */
  predicate IsSpace(c: char) {
    c <= ' '
  }

  /** Drops the leading run of trimmable characters. */
  function TrimStart(s: string): (t: string)
    ensures |t| <= |s| && t == s[|s| - |t|..]
    ensures forall i :: 0 <= i < |s| - |t| ==> IsSpace(s[i])
    ensures |t| > 0 ==> !IsSpace(t[0])
    decreases |s|
  {
    if |s| > 0 && IsSpace(s[0]) then TrimStart(s[1..]) else s
  }

  /** Drops the trailing run of trimmable characters. */
  function TrimEnd(s: string): (t: string)
    ensures |t| <= |s| && t == s[..|t|]
    ensures forall i :: |t| <= i < |s| ==> IsSpace(s[i])
    ensures |t| > 0 ==> !IsSpace(t[|t| - 1])
    decreases |s|
  {
    if |s| > 0 && IsSpace(s[|s| - 1]) then TrimEnd(s[..|s| - 1]) else s
  }

  /** `s.trim()`: nothing trimmable is left at either end, and the result is empty exactly
      when every character of `s` is trimmable. */
  function Trim(s: string): (t: string)
    ensures |t| <= |s|
    ensures |t| > 0 ==> !IsSpace(t[0]) && !IsSpace(t[|t| - 1])
    ensures |t| == 0 <==> forall i :: 0 <= i < |s| ==> IsSpace(s[i])
  {
    var a := TrimStart(s);
    var t := TrimEnd(a);
    assert |t| > 0 ==> s[|s| - |a|] == t[0];
    t
  }

  /** `isBlank(s)`: `s == null || s.trim().isEmpty()`. */
  predicate IsBlank(s: Option<string>) {
    s.None? || |Trim(s.value)| == 0
  }

  /** A string is blank exactly when it is null or made only of trimmable characters. */
  lemma BlankIffAllSpace(s: Option<string>)
    ensures IsBlank(s) <==> s.None? || forall i :: 0 <= i < |s.value| ==> IsSpace(s.value[i])
  {
  }
}
