/** The JavaScript string operations the `/search` handler relies on to
    decide whether a filter is blank. */
module JsText {
  import opened Wrappers

  // ---------------------------------------------------------------
  // JavaScript's `String.prototype.trim`

  /** The code points `trim` strips: JavaScript's WhiteSpace (tab, vertical
      tab, form feed, the byte order mark and every space separator) and
      LineTerminator (line feed, carriage return, line and paragraph
      separators). */
  predicate IsJsSpace(c: char) {
    || c == '\t' || c == '\n' || c == '\U{B}' || c == '\U{C}' || c == '\r' || c == ' '
    || c == '\U{A0}' || c == '\U{1680}' || ('\U{2000}' <= c <= '\U{200A}')
    || c == '\U{2028}' || c == '\U{2029}' || c == '\U{202F}' || c == '\U{205F}'
    || c == '\U{3000}' || c == '\U{FEFF}'
  }

  /** Drops the leading white space. */
  function TrimStart(s: string): string
    decreases |s|
  {
    if s != [] && IsJsSpace(s[0]) then TrimStart(s[1..]) else s
  }

  /** Drops the trailing white space. */
  function TrimEnd(s: string): string
    decreases |s|
  {
    if s != [] && IsJsSpace(s[|s| - 1]) then TrimEnd(s[..|s| - 1]) else s
  }

  /** `s.trim()`. */
  function Trim(s: string): string {
    TrimEnd(TrimStart(s))
  }

  /** What `TrimStart` leaves is a suffix of `s` that is empty or starts
      with a non-space, and everything it drops is space. */
  lemma {:induction false} TrimStartDropsSpace(s: string)
    ensures var r := TrimStart(s);
      && |r| <= |s| && r == s[|s| - |r|..]
      && (r == [] || !IsJsSpace(r[0]))
      && forall i :: 0 <= i < |s| - |r| ==> IsJsSpace(s[i])
    decreases |s|
  {
    if s != [] && IsJsSpace(s[0]) {
      TrimStartDropsSpace(s[1..]);
    }
  }

  /** What `TrimEnd` leaves is a prefix of `s` that is empty or ends with
      a non-space, and everything it drops is space. */
  lemma {:induction false} TrimEndDropsSpace(s: string)
    ensures var r := TrimEnd(s);
      && |r| <= |s| && r == s[..|r|]
      && (r == [] || !IsJsSpace(r[|r| - 1]))
      && forall i :: |r| <= i < |s| ==> IsJsSpace(s[i])
    decreases |s|
  {
    if s != [] && IsJsSpace(s[|s| - 1]) {
      TrimEndDropsSpace(s[..|s| - 1]);
    }
  }

  /** `trim` yields the empty string exactly when every character is
      white space. */
  lemma TrimEmptyIffAllSpace(s: string)
    ensures Trim(s) == [] <==> forall i :: 0 <= i < |s| ==> IsJsSpace(s[i])
  {
    var t := TrimStart(s);
    TrimStartDropsSpace(s);
    TrimEndDropsSpace(t);
    if t != [] {
      assert !IsJsSpace(t[0]) && t[0] == s[|s| - |t|];
    }
  }

  /** `x && x.trim() !== ""` on an optional query-string value. */
  predicate NonBlank(x: Option<string>) {
    x.Some? && x.value != [] && Trim(x.value) != []
  }

  /** A filter is applied exactly when its value is present and holds some
      character other than white space. */
  lemma NonBlankIffHasNonSpace(x: Option<string>)
    ensures NonBlank(x) <==> x.Some? && exists i :: 0 <= i < |x.value| && !IsJsSpace(x.value[i])
  {
    if x.Some? {
      TrimEmptyIffAllSpace(x.value);
    }
  }
}
