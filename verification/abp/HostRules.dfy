/** What the most common rules mean for a URL of the usual form: `||domain` (abp.js:287), and what a host
    anchor spans, in terms of the URL's own parts. */
module HostRules {
  import opened OptionType
  import opened Text
  import opened Regex
  import opened Pattern
  import opened GlobRules
  import opened Rules
  import opened RuleOptions
  import opened Matcher
  import opened CombinedMatcher

  /** Letters, digits, `_` and `-`. */
  predicate IsScheme(s: string) {
    s != "" && forall c :: c in s ==> 'a' <= c <= 'z' || 'A' <= c <= 'Z' || '0' <= c <= '9' || c == '_' || c == '-'
  }

  // ---------- the pattern ----------

  lemma PlainOfBars(d: string, tail: string)
    requires IsLiteral(d) && (tail == "" || tail == "^")
    ensures Plain("||" + d + tail) == [Bol, HostAnchor] + (Nodes(d) + Nodes(tail))
  {
    var s, ns := "||" + d + tail, Nodes(d) + Nodes(tail);
    BarsStay(d, tail);
    hide *;
    BarsNodes(d, tail);
    PlainBy(s, ns);
  }

  lemma BarsStay(d: string, tail: string)
    requires IsLiteral(d) && (tail == "" || tail == "^")
    ensures var s := "||" + d + tail; TrimSepEnd(s) == s && s[|s| - 1] != '|'
  {
    var s, n := "||" + d + tail, |d| - 1;
    assert d[n] in d && d[n] != '|' && s[n + 2] == d[n];
    assert s[|s| - 1] == (if tail == "" then d[n] else '^');
    LastIs(s);
  }

  lemma BarsNodes(d: string, tail: string)
    ensures Nodes("||" + d + tail) == [Lit('|'), Lit('|')] + (Nodes(d) + Nodes(tail))
  {
    assert NodeOf('|') == Lit('|');
  }

  lemma PlainBy(s: string, ns: seq<Node>)
    requires TrimSepEnd(s) == s && |s| > 2 && s[|s| - 1] != '|' && Nodes(s) == [Lit('|'), Lit('|')] + ns
    ensures Plain(s) == [Bol, HostAnchor] + ns
  {
    BarsStart(ns);
    var x := [Bol, HostAnchor] + ns;
    assert x[|x| - 1] == Nodes(s)[|s| - 1] == NodeOf(s[|s| - 1]);
    hide AnchorStart, TrimSepEnd;
  }

  lemma BarsStart(ns: seq<Node>)
    ensures AnchorStart([Lit('|'), Lit('|')] + ns) == [Bol, HostAnchor] + ns
  {
  }

  /** What is left to match behind the host anchor. */
  predicate Goes(u: string, j: int, d: string, tail: string, fold: bool) {
    Stands(u, j, d, fold) && (tail == "" || SeparatedOrEnd(u, j + |d|))
  }

  lemma RestMatch(d: string, tail: string, fold: bool, u: string, j: nat)
    requires IsLiteral(d) && (tail == "" || tail == "^")
    ensures MatchAt(Nodes(d) + Nodes(tail), fold, u, j) <==> Goes(u, j, d, tail, fold)
  {
    LettersMatch(d, Nodes(tail), fold, u, j);
    if j + |d| <= |u| {
      EndMatch(fold, u, j + |d|);
    }
    assert tail == "^" ==> Nodes(tail) == [NodeOf('^')] + Nodes("");
  }

  // ---------- the host ----------

  /** Where a rule's domain may begin in a host: at its start, or after a dot with a label before it. */
  predicate LabelStart(host: string, k: int) {
    k == 0 || (2 <= k <= |host| && host[k - 1] == '.')
  }

  /** The scheme of a URL ends where it should, and nowhere else. */
  lemma SchemeEnds(scheme: string, host: string, rest: string, a: nat, b: nat)
    requires IsScheme(scheme) && host != "" && '/' !in host
    ensures SchemeSpan(scheme + "://" + host + rest, 0, a, b) <==> a == |scheme| && b == |scheme| + 3
  {
    var u, n := scheme + "://" + host + rest, |scheme|;
    assert u[..n] == scheme && u[n] == ':' && u[n + 1] == '/' && u[n + 2] == '/' && u[n + 3] == host[0];
    assert host[0] in host;
    assert a < n ==> u[a] == scheme[a] && scheme[a] in scheme;
    assert n < a <= |u| ==> u[n] in u[0..a];
    assert n + 3 < b <= |u| ==> u[n + 3] in u[n + 1..b];
    assert u[0..n] == scheme && u[n + 1..n + 3] == "//";
  }

  /** A host anchor spans the scheme and whole labels of the host, any number of them. */
  lemma AnchorSpans(scheme: string, host: string, rest: string, j: nat)
    requires IsScheme(scheme) && host != "" && '/' !in host && (rest == "" || rest[0] == '/')
    ensures HostSpan(scheme + "://" + host + rest, 0, j)
       <==> j >= |scheme| + 3 && LabelStart(host, j - |scheme| - 3)
  {
    var u, b := scheme + "://" + host + rest, |scheme| + 3;
    hide SchemeSpan, LabelSpan, IsScheme;
    SchemeEnds(scheme, host, rest, |scheme|, b);
    if HostSpan(u, 0, j) {
      var a', b' :| 0 < a' < |u| && a' < b' <= |u| && SchemeSpan(u, 0, a', b') && LabelSpan(u, b', j);
      SchemeEnds(scheme, host, rest, a', b');
    }
    SchemeIsThere(scheme, host, rest);
    LabelsOf(scheme + "://", host, rest, j);
  }

  lemma SchemeIsThere(scheme: string, host: string, rest: string)
    requires IsScheme(scheme)
    ensures 0 < |scheme| && |scheme| + 3 <= |scheme + "://" + host + rest|
  {
  }

  lemma LabelsOf(p: string, host: string, rest: string, j: nat)
    requires '/' !in host && (rest == "" || rest[0] == '/')
    ensures LabelSpan(p + host + rest, |p|, j) <==> j >= |p| && LabelStart(host, j - |p|)
  {
    var u, b, k := p + host + rest, |p|, j - |p|;
    if b < j <= |u| {
      if k <= |host| {
        assert u[j - 1] == host[k - 1] && u[b..j - 1] == host[..k - 1];
        assert forall c :: c in host[..k - 1] ==> c in host;
      } else {
        assert u[b + |host|] == rest[0];
        assert j - 1 > b + |host| ==> rest[0] in u[b..j - 1];
      }
    }
  }

  // ---------- the rule ----------

  /** A `||` rule and a URL with a host: the rule's domain stands at the start of the host, or after one of
      its dots, however many labels come before it. */
  lemma BarsMatchLabels(d: string, fold: bool, scheme: string, host: string, rest: string)
    requires IsLiteral(d) && IsScheme(scheme)
    requires host != "" && '/' !in host && (rest == "" || rest[0] == '/')
    ensures Test(Compile("||" + d), fold, scheme + "://" + host + rest)
       <==> exists k :: 0 <= k <= |host| && (k == 0 || (2 <= k && host[k - 1] == '.'))
                     && Stands(host + rest, k, d, fold)
  {
    hide *;
    assert "||" + d + "" == "||" + d;
    BarsMatch(d, "", fold, scheme, host, rest);
    forall k: int {
      GoesIs(host + rest, k, d, "", fold);
    }
  }

  /** With a `^` behind it, the domain also ends there: at a separator or at the end of the URL. */
  lemma BarsCaretMatchLabels(d: string, fold: bool, scheme: string, host: string, rest: string)
    requires IsLiteral(d) && IsScheme(scheme)
    requires host != "" && '/' !in host && (rest == "" || rest[0] == '/')
    ensures Test(Compile("||" + d + "^"), fold, scheme + "://" + host + rest)
       <==> exists k :: 0 <= k <= |host| && (k == 0 || (2 <= k && host[k - 1] == '.'))
                     && Stands(host + rest, k, d, fold) && SeparatedOrEnd(host + rest, k + |d|)
  {
    hide *;
    BarsMatch(d, "^", fold, scheme, host, rest);
    forall k: int {
      GoesIs(host + rest, k, d, "^", fold);
    }
  }

  lemma GoesIs(w: string, k: int, d: string, tail: string, fold: bool)
    ensures Goes(w, k, d, tail, fold) <==> Stands(w, k, d, fold) && (tail == "" || SeparatedOrEnd(w, k + |d|))
  {
  }

  lemma BarsMatch(d: string, tail: string, fold: bool, scheme: string, host: string, rest: string)
    requires IsLiteral(d) && (tail == "" || tail == "^") && IsScheme(scheme)
    requires host != "" && '/' !in host && (rest == "" || rest[0] == '/')
    ensures Test(Compile("||" + d + tail), fold, scheme + "://" + host + rest)
       <==> exists k :: 0 <= k <= |host| && (k == 0 || (2 <= k && host[k - 1] == '.'))
                     && Goes(host + rest, k, d, tail, fold)
  {
    var u, n := scheme + "://" + host + rest, |scheme| + 3;
    hide *;
    BarsAreAnchors(d, tail, fold, u);
    if Test(Compile("||" + d + tail), fold, u) {
      var j: nat :| 0 < j <= |u| && HostSpan(u, 0, j) && Goes(u, j, d, tail, fold);
      AnchorSpans(scheme, host, rest, j);
      LabelStarts(host, j - n);
      GoesThere(d, tail, fold, scheme, host, rest, j - n);
    }
    if k :| 0 <= k <= |host| && (k == 0 || (2 <= k && host[k - 1] == '.')) && Goes(host + rest, k, d, tail, fold) {
      LabelStarts(host, k);
      AnchorSpans(scheme, host, rest, n + k);
      GoesThere(d, tail, fold, scheme, host, rest, k);
      assert 0 < n + k <= |u|;
    }
  }

  lemma BarsAreAnchors(d: string, tail: string, fold: bool, u: string)
    requires IsLiteral(d) && (tail == "" || tail == "^")
    ensures Test(Compile("||" + d + tail), fold, u)
       <==> exists j | 0 < j <= |u| :: HostSpan(u, 0, j) && Goes(u, j, d, tail, fold)
  {
    NormalisationPreservesMeaning("||" + d + tail, fold, u);
    PlainOfBars(d, tail);
    var ns := Nodes(d) + Nodes(tail);
    hide *;
    AnchoredTest(ns, fold, u);
    forall j: nat {
      RestMatch(d, tail, fold, u, j);
    }
  }

  lemma LabelStarts(host: string, k: int)
    ensures LabelStart(host, k) <==> 0 <= k <= |host| && (k == 0 || (2 <= k && host[k - 1] == '.'))
  {
  }

  lemma GoesThere(d: string, tail: string, fold: bool, scheme: string, host: string, rest: string, k: nat)
    requires k <= |host|
    ensures Goes(scheme + "://" + host + rest, |scheme| + 3 + k, d, tail, fold) <==> Goes(host + rest, k, d, tail, fold)
  {
    var u, w, n := scheme + "://" + host + rest, host + rest, |scheme| + 3;
    hide Alike, Separates;
    assert |u| == n + |w| && forall i :: 0 <= i < |w| ==> u[n + i] == w[i];
    if Stands(u, n + k, d, fold) {
      forall i | 0 <= i < |d|
        ensures Alike(d[i], w[k + i], fold)
      {
        assert u[n + k + i] == w[k + i];
      }
    }
    if Stands(w, k, d, fold) {
      forall i | 0 <= i < |d|
        ensures Alike(d[i], u[n + k + i], fold)
      {
        assert u[n + (k + i)] == w[k + i];
      }
    }
  }

  lemma AnchoredTest(ns: seq<Node>, fold: bool, u: string)
    ensures Test([Bol, HostAnchor] + ns, fold, u)
       <==> exists j | 0 < j <= |u| :: HostSpan(u, 0, j) && MatchAt(ns, fold, u, j)
  {
    var re := [Bol, HostAnchor] + ns;
    assert re[1..] == [HostAnchor] + ns && re[1..][1..] == ns;
    hide HostSpan;
    assert MatchAt(re, fold, u, 0) <==> MatchAt(re[1..], fold, u, 0);
  }

  /** So a `||` rule is for its domain and every subdomain, of any depth. */
  lemma SubdomainsMatch(d: string, sub: string, fold: bool, scheme: string, rest: string)
    requires IsLiteral(d) && '/' !in d && IsScheme(scheme) && '/' !in sub && (rest == "" || rest[0] == '/')
    ensures Test(Compile("||" + d), fold, scheme + "://" + d + rest)
    ensures sub != "" ==> Test(Compile("||" + d), fold, scheme + "://" + (sub + "." + d) + rest)
  {
    hide Compile, Test, Stands;
    StandsBelow("", d, rest, fold);
    assert "" + d + rest == d + rest;
    BarsMatchLabels(d, fold, scheme, d, rest);
    if sub != "" {
      StandsBelow(sub + ".", d, rest, fold);
      BelowIsFound(d, sub, rest);
      BarsMatchLabels(d, fold, scheme, sub + "." + d, rest);
    }
  }

  lemma StandsBelow(a: string, d: string, rest: string, fold: bool)
    ensures Stands(a + d + rest, |a|, d, fold)
  {
  }

  lemma BelowIsFound(d: string, sub: string, rest: string)
    requires sub != "" && '/' !in sub && '/' !in d
    ensures var host, k := sub + "." + d, |sub| + 1;
            && '/' !in host && 2 <= k <= |host| && host[k - 1] == '.' && host == (sub + ".") + d
  {
  }

  lemma OneRuleDecides(engine: RegexEngine, text: string, url: string)
    requires IsRule(engine, text, true)
    ensures ShouldProxy(engine, {text}, url) <==> TextMatches(engine, text, url)
  {
    hide Parse, Matches;
    assert !IsRule(engine, text, false);
  }

  /** What such a rule decides when it is the only one: proxy exactly for the URLs whose host has the domain at
      its start or after a dot, whatever the case of their letters. */
  lemma BarsRuleDecides(engine: RegexEngine, d: string, scheme: string, host: string, rest: string)
    requires IsLiteral(d) && '$' !in d && IsScheme(scheme)
    requires host != "" && '/' !in host && (rest == "" || rest[0] == '/')
    ensures ShouldProxy(engine, {"||" + d}, scheme + "://" + host + rest)
       <==> exists k :: 0 <= k <= |host| && (k == 0 || (2 <= k && host[k - 1] == '.'))
                     && Stands(host + rest, k, d, true)
  {
    var text, u := "||" + d, scheme + "://" + host + rest;
    assert text[0] == '|';
    BodyAlone(engine, text);
    PlainRuleFoldsCase(engine, text, u);
    BarsMatchLabels(d, true, scheme, host, rest);
    hide *;
    RuleDecides(engine, text, u);
  }

  lemma RuleDecides(engine: RegexEngine, text: string, url: string)
    requires Parse(engine, text) == Rule(Filter(text, true, false, None, false, Glob(text)))
    requires Matches(engine, Parse(engine, text).filter, url) <==> Test(Compile(text), true, url)
    ensures ShouldProxy(engine, {text}, url) <==> Test(Compile(text), true, url)
  {
    hide Parse, Matches, Test, Compile, ShouldProxy;
    OneRuleDecides(engine, text, url);
  }
}
