/** Character classes and string helpers shared by the rule engine and the domain list.
    Case folding is ASCII case folding. */
module Text {

  predicate IsUpper(c: char) { 'A' <= c <= 'Z' }

  predicate IsLower(c: char) { 'a' <= c <= 'z' }

  predicate IsDigit(c: char) { '0' <= c <= '9' }

  /** `\w` */
  predicate IsWord(c: char) { IsUpper(c) || IsLower(c) || IsDigit(c) || c == '_' }

  /** `[\w\-]` */
  predicate IsNameChar(c: char) { IsWord(c) || c == '-' }

  /** `\s`, on ASCII */
  predicate IsSpace(c: char) { '\t' <= c <= '\r' || c == ' ' }

  /** The characters `.` does not match in a JavaScript regular expression. */
  predicate IsLineEnd(c: char) { c == '\n' || c == '\r' || c == '\U{2028}' || c == '\U{2029}' }

  function LowerChar(c: char): char {
    if IsUpper(c) then c - 'A' + 'a' else c
  }

  function UpperChar(c: char): char {
    if IsLower(c) then c - 'a' + 'A' else c
  }

  function Lower(s: string): (r: string)
    ensures |r| == |s|
    ensures forall i :: 0 <= i < |s| ==> r[i] == LowerChar(s[i])
  {
    seq(|s|, i requires 0 <= i < |s| => LowerChar(s[i]))
  }

  function Upper(s: string): (r: string)
    ensures |r| == |s|
    ensures forall i :: 0 <= i < |s| ==> r[i] == UpperChar(s[i])
  {
    seq(|s|, i requires 0 <= i < |s| => UpperChar(s[i]))
  }

  predicate StartsWith(s: string, p: string) { |p| <= |s| && s[..|p|] == p }

  predicate EndsWith(s: string, p: string) { |p| <= |s| && s[|s| - |p|..] == p }

  /** The first position of `c` in `s`, or `|s|`. */
  function IndexOf(s: string, c: char): (i: nat)
    ensures i <= |s|
    ensures c !in s[..i]
    ensures i < |s| ==> s[i] == c
  {
    if s == "" || s[0] == c then 0
    else
      var i := 1 + IndexOf(s[1..], c);
      assert s[..i] == [s[0]] + s[1..][..i - 1];
      i
  }

  /** `s.split(sep)` for a one-character separator. */
  function Split(s: string, sep: char): (parts: seq<string>)
    ensures |parts| >= 1
    ensures forall p :: p in parts ==> sep !in p
    decreases |s|
  {
    var i := IndexOf(s, sep);
    if i == |s| then (assert s[..i] == s; [s]) else [s[..i]] + Split(s[i + 1..], sep)
  }

  function Join(parts: seq<string>, sep: char): string
    requires |parts| >= 1
  {
    if |parts| == 1 then parts[0] else parts[0] + [sep] + Join(parts[1..], sep)
  }

  /** Drops every trailing occurrence of `c`: `s.replace(/c+$/, "")`. */
  function TrimEnd(s: string, c: char): (r: string)
    ensures r <= s
    ensures r != "" ==> r[|r| - 1] != c
    ensures forall i :: |r| <= i < |s| ==> s[i] == c
  {
    if s != "" && s[|s| - 1] == c then TrimEnd(s[..|s| - 1], c) else s
  }
}
