/** Compiled URL patterns and what they match.

    A pattern is the list of fragments `getRegexp` writes into the source of the regular
    expression (abp.js:287), one node per fragment. */
module Regex {
  import opened Text

  datatype Node =
    | Lit(c: char)   // an escaped character or a word character
    | AnyRun         // .*
    | Sep            // (?:[separator class]|$)
    | Bol            // ^
    | Eol            // $
    | HostAnchor     // [\w\-]+:\/+(?!\/)(?:[^\/]+\.)?

  /** `[\x00-\x24\x26-\x2C\x2F\x3A-\x40\x5B-\x5E\x60\x7B-\x7F]` */
  predicate IsSeparator(c: char) {
    || c <= '\U{24}'
    || '\U{26}' <= c <= '\U{2C}'
    || c == '\U{2F}'
    || '\U{3A}' <= c <= '\U{40}'
    || '\U{5B}' <= c <= '\U{5E}'
    || c == '\U{60}'
    || '\U{7B}' <= c <= '\U{7F}'
  }

  /** `fold` is the `i` flag. */
  predicate SameChar(fold: bool, c: char, d: char) {
    if fold then LowerChar(c) == LowerChar(d) else c == d
  }

  predicate AllNameChars(s: string) { forall c :: c in s ==> IsNameChar(c) }

  predicate AllSlashes(s: string) { forall c :: c in s ==> c == '/' }

  predicate NoLineEnd(s: string) { forall c :: c in s ==> !IsLineEnd(c) }

  /** `[\w\-]+:\/+` spans `u[i..b]`, the colon at `a`, and no slash follows. */
  predicate SchemeSpan(u: string, i: nat, a: nat, b: nat) {
    && i < a && a + 1 < b <= |u|
    && AllNameChars(u[i..a])
    && u[a] == ':'
    && AllSlashes(u[a + 1..b])
    && (b < |u| ==> u[b] != '/')
  }

  /** `(?:[^\/]+\.)?` spans `u[b..j]`. */
  predicate LabelSpan(u: string, b: nat, j: nat) {
    && b <= j <= |u|
    && (b < j ==> j - b >= 2 && '/' !in u[b..j - 1] && u[j - 1] == '.')
  }

  predicate HostSpan(u: string, i: nat, j: nat) {
    exists a, b | i < a < |u| && a < b <= |u| :: SchemeSpan(u, i, a, b) && LabelSpan(u, b, j)
  }

  /** The pattern matches some stretch of `u` that begins at `i`. */
  predicate MatchAt(re: seq<Node>, fold: bool, u: string, i: nat)
    decreases |re|
  {
    i <= |u| &&
    (re == [] ||
     match re[0]
     case Lit(c) => i < |u| && SameChar(fold, c, u[i]) && MatchAt(re[1..], fold, u, i + 1)
     case AnyRun => exists j | i <= j <= |u| :: NoLineEnd(u[i..j]) && MatchAt(re[1..], fold, u, j)
     case Sep =>
       || (i < |u| && IsSeparator(u[i]) && MatchAt(re[1..], fold, u, i + 1))
       || (i == |u| && MatchAt(re[1..], fold, u, i))
     case Bol => i == 0 && MatchAt(re[1..], fold, u, i)
     case Eol => i == |u| && MatchAt(re[1..], fold, u, i)
     case HostAnchor => exists j | i < j <= |u| :: HostSpan(u, i, j) && MatchAt(re[1..], fold, u, j))
  }

  /** `regexp.test(u)`: an unanchored search. */
  predicate Test(re: seq<Node>, fold: bool, u: string) {
    exists i | 0 <= i <= |u| :: MatchAt(re, fold, u, i)
  }

  /** A match of a list of fragments is a match of its second part from where its first part ends. */
  lemma {:induction false} MatchSuffix(p: seq<Node>, q: seq<Node>, fold: bool, u: string, i: nat)
    requires MatchAt(p + q, fold, u, i)
    ensures exists j | i <= j <= |u| :: MatchAt(q, fold, u, j)
    decreases |p|
  {
    if p == [] {
      assert p + q == q;
    } else {
      var r := p[1..];
      assert (p + q)[1..] == r + q;
      var k: nat :| i <= k <= |u| && MatchAt(r + q, fold, u, k);
      MatchSuffix(r, q, fold, u, k);
    }
  }

  lemma TestSuffix(re: seq<Node>, k: nat, fold: bool, u: string)
    requires k <= |re| && Test(re, fold, u)
    ensures Test(re[k..], fold, u)
  {
    var i: nat :| i <= |u| && MatchAt(re, fold, u, i);
    assert re == re[..k] + re[k..];
    MatchSuffix(re[..k], re[k..], fold, u, i);
  }

  /** A trailing `.*` never changes what matches. */
  lemma {:induction false} TrailingAnyRun(p: seq<Node>, fold: bool, u: string, i: nat)
    ensures MatchAt(p + [AnyRun], fold, u, i) <==> MatchAt(p, fold, u, i)
    decreases |p|
  {
    if p == [] {
      assert (p + [AnyRun])[1..] == [];
      if i <= |u| {
        assert NoLineEnd(u[i..i]) && MatchAt([], fold, u, i);
      }
    } else {
      assert (p + [AnyRun])[1..] == p[1..] + [AnyRun];
      forall k: nat {
        TrailingAnyRun(p[1..], fold, u, k);
      }
    }
  }

  /** A leading `.*` never changes what an unanchored search finds. */
  lemma LeadingAnyRun(p: seq<Node>, fold: bool, u: string)
    ensures Test([AnyRun] + p, fold, u) <==> Test(p, fold, u)
  {
    var q := [AnyRun] + p;
    assert q[1..] == p;
    if Test(p, fold, u) {
      var i :| 0 <= i <= |u| && MatchAt(p, fold, u, i);
      assert NoLineEnd(u[i..i]);
      assert MatchAt(q, fold, u, i);
    }
    if Test(q, fold, u) {
      var i :| 0 <= i <= |u| && MatchAt(q, fold, u, i);
      var j :| i <= j <= |u| && NoLineEnd(u[i..j]) && MatchAt(p, fold, u, j);
    }
  }

  /** `.*.*` matches what `.*` matches. */
  lemma DoubleAnyRun(p: seq<Node>, fold: bool, u: string, i: nat)
    ensures MatchAt([AnyRun, AnyRun] + p, fold, u, i) <==> MatchAt([AnyRun] + p, fold, u, i)
  {
  }
}
