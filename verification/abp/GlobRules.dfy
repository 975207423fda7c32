/** What each mark in a rule means for a URL, said by positions in the URL and by the characters themselves
    (abp.js:287): literal text, `*`, `^`, and `|` at either end. */
module GlobRules {
  import opened Text
  import opened Regex
  import opened Pattern

  /** Text without a mark. */
  predicate IsLiteral(d: string) { d != "" && '*' !in d && '^' !in d && '|' !in d }

  /** The same character or, if `fold`, the two cases of one letter of the English alphabet. */
  predicate Alike(c: char, d: char, fold: bool) {
    || c == d
    || (fold && 'a' <= c <= 'z' && c as int == d as int + 32)
    || (fold && 'a' <= d <= 'z' && d as int == c as int + 32)
  }

  /** `d` stands in `u` from `i` on, up to case if `fold`. */
  predicate Stands(u: string, i: int, d: string, fold: bool) {
    0 <= i && i + |d| <= |u| && forall k :: 0 <= k < |d| ==> Alike(d[k], u[i + k], fold)
  }

  /** Any ASCII character but letters, digits and `_`, `-`, `.`, `%`. */
  predicate Separates(c: char) {
    c as int < 128 && !('a' <= c <= 'z') && !('A' <= c <= 'Z') && !('0' <= c <= '9') && c !in "_-.%"
  }

  predicate OneLine(s: string) { '\n' !in s && '\r' !in s && '\U{2028}' !in s && '\U{2029}' !in s }

  // ---------- characters ----------

  lemma CharactersAre(c: char, d: char, s: string, fold: bool)
    ensures SameChar(fold, c, d) <==> Alike(c, d, fold)
    ensures IsSeparator(c) <==> Separates(c)
    ensures NoLineEnd(s) <==> OneLine(s)
  {
    assert c in "_-.%" <==> c == '_' || c == '-' || c == '.' || c == '%';
  }

  // ---------- fragments ----------

  lemma {:induction false} LettersMatch(d: string, q: seq<Node>, fold: bool, u: string, i: nat)
    requires forall c :: c in d ==> c != '*' && c != '^'
    ensures MatchAt(Nodes(d) + q, fold, u, i) <==> Stands(u, i, d, fold) && MatchAt(q, fold, u, i + |d|)
    decreases |d|
  {
    if d == "" {
      assert Nodes(d) + q == q;
    } else {
      var re := Nodes(d) + q;
      assert d[0] in d && re[0] == Lit(d[0]) && re[1..] == Nodes(d[1..]) + q;
      assert forall c :: c in d[1..] ==> c in d;
      if i < |u| {
        LettersMatch(d[1..], q, fold, u, i + 1);
        CharactersAre(d[0], u[i], "", fold);
        StandsOn(u, i, d, fold);
      }
    }
  }

  lemma StandsOn(u: string, i: nat, d: string, fold: bool)
    requires i < |u| && d != ""
    ensures Stands(u, i, d, fold) <==> Alike(d[0], u[i], fold) && Stands(u, i + 1, d[1..], fold)
  {
    if Alike(d[0], u[i], fold) && Stands(u, i + 1, d[1..], fold) {
      forall k | 0 <= k < |d|
        ensures Alike(d[k], u[i + k], fold)
      {
        assert k > 0 ==> d[k] == d[1..][k - 1] && u[i + k] == u[i + 1 + (k - 1)];
      }
    }
    if Stands(u, i, d, fold) {
      forall k | 0 <= k < |d| - 1
        ensures Alike(d[1..][k], u[i + 1 + k], fold)
      {
        assert d[1..][k] == d[k + 1] && u[i + 1 + k] == u[i + (k + 1)];
      }
    }
  }

  lemma LiteralNodes(d: string, k: nat)
    requires k < |d| && '|' !in d
    ensures Nodes(d)[k] != Lit('|')
  {
    assert d[k] in d;
  }

  /** The pattern of text with one mark in it. */
  lemma PlainOfMark(d: string, m: char, e: string)
    requires IsLiteral(d) && '|' !in e && m != '|'
    ensures Plain(d + [m] + e) == Nodes(d) + [NodeOf(m)] + Nodes(e)
  {
    var s := d + [m] + e;
    assert '|' !in s;
    LiteralNodes(s, 0);
    LiteralNodes(s, |s| - 1);
    assert s[|s| - 1] in s;
    assert Nodes(s) == Nodes(d) + [NodeOf(m)] + Nodes(e);
  }

  lemma MarkAt(s: string, d: string, m: char, e: string, fold: bool, u: string, i: nat)
    requires IsLiteral(d) && '|' !in e && m != '|' && s == d + [m] + e && i <= |u|
    ensures MatchAt(Plain(s), fold, u, i)
       <==> Stands(u, i, d, fold) && MatchAt([NodeOf(m)] + Nodes(e), fold, u, i + |d|)
  {
    var q := [NodeOf(m)] + Nodes(e);
    PlainOfMark(d, m, e);
    LettersMatch(d, q, fold, u, i);
    assert Nodes(d) + [NodeOf(m)] + Nodes(e) == Nodes(d) + q;
  }

  /** Where a rule with one mark in it matches. */
  lemma MarkFound(s: string, d: string, m: char, e: string, fold: bool, u: string) returns (i: nat)
    requires IsLiteral(d) && '|' !in e && m != '|' && s == d + [m] + e && Test(Compile(s), fold, u)
    ensures Stands(u, i, d, fold) && i + |d| <= |u| && MatchAt([NodeOf(m)] + Nodes(e), fold, u, i + |d|)
  {
    NormalisationPreservesMeaning(s, fold, u);
    i :| i <= |u| && MatchAt(Plain(s), fold, u, i);
    MarkAt(s, d, m, e, fold, u, i);
  }

  lemma MarkFinds(s: string, d: string, m: char, e: string, fold: bool, u: string, i: int)
    requires IsLiteral(d) && '|' !in e && m != '|' && s == d + [m] + e
    requires Stands(u, i, d, fold) && MatchAt([NodeOf(m)] + Nodes(e), fold, u, i + |d|)
    ensures Test(Compile(s), fold, u)
  {
    NormalisationPreservesMeaning(s, fold, u);
    MarkAt(s, d, m, e, fold, u, i);
    assert MatchAt(Plain(s), fold, u, i);
  }

  // ---------- the marks ----------

  lemma LettersAlone(d: string, fold: bool, u: string, i: nat)
    requires '*' !in d && '^' !in d
    ensures MatchAt(Nodes(d), fold, u, i) <==> Stands(u, i, d, fold) && i <= |u|
  {
    LettersMatch(d, [], fold, u, i);
    assert Nodes(d) + [] == Nodes(d);
  }

  /** Literal text matches where it stands. */
  lemma TextMatchesAnywhere(d: string, fold: bool, u: string)
    requires IsLiteral(d)
    ensures Test(Compile(d), fold, u) <==> exists i :: Stands(u, i, d, fold)
  {
    NormalisationPreservesMeaning(d, fold, u);
    LiteralNodes(d, 0);
    LiteralNodes(d, |d| - 1);
    assert d[|d| - 1] in d;
    assert Plain(d) == Nodes(d);
    hide Compile, Plain, MatchAt;
    forall i | 0 <= i <= |u|
      ensures MatchAt(Nodes(d), fold, u, i) <==> Stands(u, i, d, fold)
    {
      LettersAlone(d, fold, u, i);
    }
  }

  /** Text on one line from `n` to `j`, and then `e`. */
  predicate RunTo(u: string, n: int, j: int, e: string, fold: bool) {
    0 <= n <= j && Stands(u, j, e, fold) && OneLine(u[n..j])
  }

  /** `*` stands for any text on one line. */
  lemma StarMatchesARun(d: string, e: string, fold: bool, u: string)
    requires IsLiteral(d) && IsLiteral(e)
    ensures Test(Compile(d + "*" + e), fold, u)
       <==> exists i, n, j :: Stands(u, i, d, fold) && n == i + |d| && RunTo(u, n, j, e, fold)
  {
    hide *;
    NoBar(e);
    if Test(Compile(d + "*" + e), fold, u) {
      var i := MarkFound(d + "*" + e, d, '*', e, fold, u);
      RunMatch(e, fold, u, i + |d|);
      var j :| RunTo(u, i + |d|, j, e, fold);
    }
    if i, n, j :| Stands(u, i, d, fold) && n == i + |d| && RunTo(u, n, j, e, fold) {
      InRange(u, i, d, fold);
      RunMatch(e, fold, u, i + |d|);
      MarkFinds(d + "*" + e, d, '*', e, fold, u, i);
    }
  }

  lemma NoBar(e: string)
    requires IsLiteral(e)
    ensures '|' !in e
  {
  }

  lemma InRange(u: string, i: int, d: string, fold: bool)
    requires Stands(u, i, d, fold)
    ensures 0 <= i <= i + |d| <= |u|
  {
  }

  lemma RunMatch(e: string, fold: bool, u: string, n: nat)
    requires IsLiteral(e) && n <= |u|
    ensures MatchAt([NodeOf('*')] + Nodes(e), fold, u, n) <==> exists j :: RunTo(u, n, j, e, fold)
  {
    var ns := Nodes(e);
    assert ([AnyRun] + ns)[1..] == ns;
    forall j: nat | n <= j <= |u|
      ensures NoLineEnd(u[n..j]) && MatchAt(ns, fold, u, j) <==> RunTo(u, n, j, e, fold)
    {
      LettersAlone(e, fold, u, j);
      CharactersAre(' ', ' ', u[n..j], fold);
    }
    hide OneLine, NoLineEnd, Nodes, Stands;
    if j :| RunTo(u, n, j, e, fold) {
      InRange(u, j, e, fold);
      assert n <= j <= |u|;
    }
  }

  /** A separator at `n`, and then `e`. */
  predicate SeparatedAt(u: string, n: int, e: string, fold: bool) {
    0 <= n < |u| && Separates(u[n]) && Stands(u, n + 1, e, fold)
  }

  /** `^` stands for one separator. */
  lemma CaretMatchesASeparator(d: string, e: string, fold: bool, u: string)
    requires IsLiteral(d) && IsLiteral(e)
    ensures Test(Compile(d + "^" + e), fold, u)
       <==> exists i :: Stands(u, i, d, fold) && SeparatedAt(u, i + |d|, e, fold)
  {
    hide *;
    NoBar(e);
    if Test(Compile(d + "^" + e), fold, u) {
      var i := MarkFound(d + "^" + e, d, '^', e, fold, u);
      SepMatch(e, fold, u, i + |d|);
    }
    if i :| Stands(u, i, d, fold) && SeparatedAt(u, i + |d|, e, fold) {
      InRange(u, i, d, fold);
      SepMatch(e, fold, u, i + |d|);
      MarkFinds(d + "^" + e, d, '^', e, fold, u, i);
    }
  }

  lemma SepMatch(e: string, fold: bool, u: string, n: nat)
    requires IsLiteral(e) && n <= |u|
    ensures MatchAt([NodeOf('^')] + Nodes(e), fold, u, n) <==> SeparatedAt(u, n, e, fold)
  {
    assert ([Sep] + Nodes(e))[1..] == Nodes(e);
    LettersAlone(e, fold, u, n);
    if n < |u| {
      LettersAlone(e, fold, u, n + 1);
      CharactersAre(u[n], ' ', "", fold);
    }
  }

  /** A separator at `n`, or the end. */
  predicate SeparatedOrEnd(u: string, n: int) { n == |u| || (0 <= n < |u| && Separates(u[n])) }

  /** `^` at the end, with or without an end anchor behind it, stands for one separator or the end. */
  lemma CaretMatchesTheEnd(d: string, fold: bool, u: string)
    requires IsLiteral(d)
    ensures var found := exists i :: Stands(u, i, d, fold) && SeparatedOrEnd(u, i + |d|);
            (Test(Compile(d + "^"), fold, u) <==> found) && (Test(Compile(d + "^|"), fold, u) <==> found)
  {
    TrimmedEnd(d);
    NormalisationPreservesMeaning(d + "^", fold, u);
    NormalisationPreservesMeaning(d + "^|", fold, u);
    hide *;
    assert d + "^" == d + "^" + "";
    if Test(Compile(d + "^"), fold, u) {
      var i := MarkFound(d + "^", d, '^', "", fold, u);
      EndMatch(fold, u, i + |d|);
    }
    if i :| Stands(u, i, d, fold) && SeparatedOrEnd(u, i + |d|) {
      InRange(u, i, d, fold);
      EndMatch(fold, u, i + |d|);
      MarkFinds(d + "^", d, '^', "", fold, u, i);
    }
  }

  lemma TrimmedEnd(d: string)
    ensures Plain(d + "^|") == Plain(d + "^")
  {
    var s := d + "^|";
    assert s[..|s| - 1] == d + "^" && s[|s| - 2..] == "^|";
    LastIs(d + "^");
  }

  lemma EndMatch(fold: bool, u: string, n: nat)
    requires n <= |u|
    ensures MatchAt([NodeOf('^')] + Nodes(""), fold, u, n) <==> SeparatedOrEnd(u, n)
  {
    assert ([Sep] + Nodes(""))[1..] == [];
    if n < |u| {
      CharactersAre(u[n], ' ', "", fold);
    }
  }

  /** `|` at the front is the start of the URL, and at the back its end. */
  lemma BarsMatchTheEnds(d: string, fold: bool, u: string)
    requires IsLiteral(d)
    ensures Test(Compile("|" + d), fold, u) <==> Stands(u, 0, d, fold)
    ensures Test(Compile(d + "|"), fold, u) <==> Stands(u, |u| - |d|, d, fold)
  {
    NormalisationPreservesMeaning("|" + d, fold, u);
    NormalisationPreservesMeaning(d + "|", fold, u);
    PlainOfFrontBar(d);
    PlainOfBackBar(d);
    StartTest(d, fold, u);
    EndTest(d, fold, u);
  }

  lemma PlainOfFrontBar(d: string)
    requires IsLiteral(d)
    ensures Plain("|" + d) == [Bol] + Nodes(d)
  {
    var s := "|" + d;
    assert d[0] in d && d[|d| - 1] in d && s[1] == d[0] && s[|s| - 1] == d[|d| - 1];
    LastIs(s);
    LastNode(d);
    assert TrimSepEnd(s) == s;
    LiteralNodes(d, 0);
    hide EndsWith, TrimSepEnd, AnchorStart;
    assert Nodes(s) == [Lit('|')] + Nodes(d);
    BolStart(Nodes(d));
  }

  lemma BolStart(ns: seq<Node>)
    requires ns == [] || ns[0] != Lit('|')
    ensures AnchorStart([Lit('|')] + ns) == [Bol] + ns
  {
  }

  lemma LastIs(s: string)
    ensures EndsWith(s, "^|") ==> |s| >= 2 && s[|s| - 1] == '|' && s[|s| - 2] == '^'
  {
    if EndsWith(s, "^|") {
      assert s[|s| - 2..][0] == '^' && s[|s| - 2..][1] == '|';
    }
  }

  lemma PlainOfBackBar(d: string)
    requires IsLiteral(d)
    ensures Plain(d + "|") == Nodes(d) + [Eol]
  {
    var t := d + "|";
    assert d[0] in d && d[|d| - 1] in d && t[0] == d[0] && t[|t| - 2] == d[|d| - 1];
    LastIs(t);
    hide EndsWith;
    assert Nodes(t)[..|t| - 1] == Nodes(d);
    assert AnchorStart(Nodes(t)) == Nodes(t);
  }

  lemma LastNode(d: string)
    requires IsLiteral(d)
    ensures var ns := [Bol] + Nodes(d); ns[|ns| - 1] != Lit('|')
  {
    LiteralNodes(d, |d| - 1);
  }

  lemma StartTest(d: string, fold: bool, u: string)
    requires IsLiteral(d)
    ensures Test([Bol] + Nodes(d), fold, u) <==> Stands(u, 0, d, fold)
  {
    var re := [Bol] + Nodes(d);
    assert re[1..] == Nodes(d);
    LettersAlone(d, fold, u, 0);
    hide Stands;
    assert MatchAt(re, fold, u, 0) <==> Stands(u, 0, d, fold);
    assert forall i :: 0 < i <= |u| ==> !MatchAt(re, fold, u, i);
  }

  lemma EndTest(d: string, fold: bool, u: string)
    requires IsLiteral(d)
    ensures Test(Nodes(d) + [Eol], fold, u) <==> Stands(u, |u| - |d|, d, fold)
  {
    forall i | 0 <= i <= |u|
      ensures MatchAt(Nodes(d) + [Eol], fold, u, i) <==> Stands(u, i, d, fold) && i + |d| == |u|
    {
      LettersMatch(d, [Eol], fold, u, i);
      assert [Eol][1..] == [];
    }
    hide MatchAt;
    if Stands(u, |u| - |d|, d, fold) {
      assert MatchAt(Nodes(d) + [Eol], fold, u, |u| - |d|);
    }
  }
}
