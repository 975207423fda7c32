/** The rewriting of a trailing `^|` to `^` (abp.js:287): it only ever widens a rule, and exactly which
    rules it does widen. */
module SepEnd {
  import opened Text
  import opened Regex
  import opened Pattern

  /** A match of a list of fragments is a match of its first part. */
  lemma {:induction false} MatchPrefix(p: seq<Node>, q: seq<Node>, fold: bool, u: string, i: nat)
    requires MatchAt(p + q, fold, u, i)
    ensures MatchAt(p, fold, u, i)
    decreases |p|
  {
    if p != [] {
      assert (p + q)[1..] == p[1..] + q;
      forall k: nat | MatchAt(p[1..] + q, fold, u, k) {
        MatchPrefix(p[1..], q, fold, u, k);
      }
    }
  }

  /** A separator is never part of an opening anchor. */
  lemma AnchorStartSep(ns: seq<Node>, r: seq<Node>)
    ensures AnchorStart(ns + ([Sep] + r)) == AnchorStart(ns) + ([Sep] + r)
  {
    AnchorStartTail(ns, [Sep] + r);
  }

  lemma AnchorStartTail(ns: seq<Node>, r: seq<Node>)
    requires r != [] && r[0] == Sep
    ensures AnchorStart(ns + r) == AnchorStart(ns) + r
  {
    var q := ns + r;
    if ns == [] {
      assert q == r;
    } else if |ns| == 1 {
      assert q[0] == ns[0] && q[1] == Sep && q[1..] == r && ns[1..] == [];
    } else {
      assert q[0] == ns[0] && q[1] == ns[1] && q[1..] == ns[1..] + r && q[2..] == ns[2..] + r;
    }
  }

  /** What a rule that ends in `^|` compiles to, without and with the rewriting. */
  lemma SepEndForms(t: string)
    ensures Anchored(Nodes(t + "^|")) == AnchorStart(Nodes(t)) + [Sep, Eol]
    ensures Plain(t + "^|") == AnchorStart(Nodes(t)) + [Sep]
  {
    var s, ns := t + "^|", Nodes(t);
    assert s[|s| - 2..] == "^|" && s[..|s| - 1] == t + "^";
    assert Nodes(s) == ns + ([Sep] + [Lit('|')]);
    assert Nodes(t + "^") == ns + ([Sep] + []);
    hide Nodes, AnchorStart;
    AnchorStartSep(ns, [Lit('|')]);
    AnchorStartSep(ns, []);
    var x := AnchorStart(ns);
    assert x + ([Sep] + [Lit('|')]) == x + [Sep] + [Lit('|')] && x + [Sep] + [Eol] == x + [Sep, Eol];
    assert x + ([Sep] + []) == x + [Sep];
  }

  /** Every match of the pattern as written is a match after the rewriting. */
  lemma SepEndRewriteWidens(t: string, fold: bool, u: string)
    requires Test(Anchored(Nodes(t + "^|")), fold, u)
    ensures Test(Plain(t + "^|"), fold, u)
  {
    SepEndForms(t);
    hide Nodes, Anchored, Plain;
    var x := AnchorStart(Nodes(t));
    hide AnchorStart, MatchAt;
    var i :| 0 <= i <= |u| && MatchAt(x + [Sep, Eol], fold, u, i);
    assert x + [Sep] + [Eol] == x + [Sep, Eol];
    MatchPrefix(x + [Sep], [Eol], fold, u, i);
  }

  // ---------- rules of nothing but `*` and `^` ----------

  predicate IsSoft(n: Node) { n == AnyRun || n == Sep }

  predicate AllSoft(ns: seq<Node>) { forall n :: n in ns ==> IsSoft(n) }

  /** Soft fragments can all be empty at the end of a URL. */
  lemma {:induction false} SoftMatchesEnd(ns: seq<Node>, fold: bool, u: string)
    requires AllSoft(ns)
    ensures MatchAt(ns + [Sep, Eol], fold, u, |u|)
  {
    var re := ns + [Sep, Eol];
    if ns == [] {
      assert re == [Sep, Eol] && re[1..] == [Eol] && re[1..][1..] == [];
      assert MatchAt([Eol], fold, u, |u|);
    } else {
      assert re[1..] == ns[1..] + [Sep, Eol] && ns[0] in ns;
      SoftMatchesEnd(ns[1..], fold, u);
      assert NoLineEnd(u[|u|..|u|]);
    }
  }

  // ---------- all other rules ----------

  /** Something a fragment matches. */
  function Sample(n: Node): string {
    match n
    case Lit(c) => [c]
    case Sep => "/"
    case HostAnchor => "a:/b."
    case _ => ""
  }

  function Samples(ns: seq<Node>): string {
    if ns == [] then "" else Sample(ns[0]) + Samples(ns[1..])
  }

  lemma HostSample(p: string, rest: string)
    ensures HostSpan(p + "a:/b." + rest, |p|, |p| + 5)
  {
    var u, i := p + "a:/b." + rest, |p|;
    assert u[i..i + 5] == "a:/b.";
    assert u[i] == 'a' && u[i + 1] == ':' && u[i + 2] == '/' && u[i + 3] == 'b' && u[i + 4] == '.';
    assert SchemeSpan(u, i, i + 1, i + 3) && LabelSpan(u, i + 3, i + 5);
  }

  lemma SampleMatches(n: Node, re: seq<Node>, fold: bool, p: string, rest: string)
    requires n != Eol && (n == Bol ==> p == "")
    requires MatchAt(re, fold, p + Sample(n) + rest, |p| + |Sample(n)|)
    ensures MatchAt([n] + re, fold, p + Sample(n) + rest, |p|)
  {
    var u := p + Sample(n) + rest;
    assert ([n] + re)[1..] == re;
    if n == HostAnchor {
      HostSample(p, rest);
    } else if n == AnyRun {
      assert NoLineEnd(u[|p|..|p|]);
    } else if n.Lit? || n == Sep {
      assert u[|p|] == Sample(n)[0];
    }
  }

  /** Samples side by side are matched by the fragments side by side. */
  lemma {:induction false} SamplesMatch(ns: seq<Node>, re: seq<Node>, fold: bool, p: string, rest: string)
    requires Eol !in ns && forall k :: 0 <= k < |ns| && ns[k] == Bol ==> k == 0 && p == ""
    requires MatchAt(re, fold, p + Samples(ns) + rest, |p| + |Samples(ns)|)
    ensures MatchAt(ns + re, fold, p + Samples(ns) + rest, |p|)
    decreases |ns|
  {
    hide MatchAt;
    if ns == [] {
      assert ns + re == re;
    } else {
      var first, more := Sample(ns[0]), Samples(ns[1..]);
      assert (p + first) + more + rest == p + Samples(ns) + rest == p + first + (more + rest);
      SamplesMatch(ns[1..], re, fold, p + first, rest);
      SampleMatches(ns[0], ns[1..] + re, fold, p, more + rest);
      assert [ns[0]] + (ns[1..] + re) == ns + re;
    }
  }

  /** The last character is one that neither a host anchor nor any of the soft fragments `ns` can match. */
  predicate EndsAbruptly(u: string, ns: seq<Node>) {
    && u != "" && !IsSeparator(u[|u| - 1]) && u[|u| - 1] != '.'
    && (AnyRun in ns ==> IsLineEnd(u[|u| - 1]))
  }

  lemma RunStopsShort(u: string, i: nat, j: nat)
    requires u != "" && IsLineEnd(u[|u| - 1]) && i <= j <= |u| && NoLineEnd(u[i..j])
    ensures i < |u| ==> j < |u|
  {
    assert i < j ==> u[j - 1] in u[i..j];
  }

  /** Soft fragments before the end of the URL can only be at its end already. */
  lemma {:induction false} SoftStaysAtEnd(ns: seq<Node>, fold: bool, u: string, i: nat)
    requires AllSoft(ns) && EndsAbruptly(u, ns) && MatchAt(ns + [Sep, Eol], fold, u, i)
    ensures i == |u|
    decreases |ns|
  {
    var re := ns + [Sep, Eol];
    if ns == [] {
      assert re[1..] == [Eol];
    } else {
      assert re[1..] == ns[1..] + [Sep, Eol] && ns[0] in ns;
      if ns[0] == AnyRun {
        var j: nat :| i <= j <= |u| && NoLineEnd(u[i..j]) && MatchAt(re[1..], fold, u, j);
        RunStopsShort(u, i, j);
        SoftStaysAtEnd(ns[1..], fold, u, j);
      } else if i < |u| {
        SoftStaysAtEnd(ns[1..], fold, u, i + 1);
      }
    }
  }

  /** A fragment that is not soft cannot take the last character, unless it is that character. */
  lemma HardStopsShort(n: Node, ns: seq<Node>, fold: bool, u: string, i: nat)
    requires EndsAbruptly(u, ns) && AllSoft(ns) && !IsSoft(n) && n != Eol
    requires n.Lit? ==> LowerChar(n.c) != LowerChar(u[|u| - 1])
    ensures !MatchAt([n] + ns + [Sep, Eol], fold, u, i)
  {
    var re := [n] + ns + [Sep, Eol];
    var more := ns + [Sep, Eol];
    assert re[1..] == more;
    forall j: nat | MatchAt(more, fold, u, j)
      ensures j == |u|
    {
      SoftStaysAtEnd(ns, fold, u, j);
    }
    if MatchAt(re, fold, u, i) && n == HostAnchor {
      var j: nat :| i < j <= |u| && HostSpan(u, i, j) && MatchAt(more, fold, u, j);
      HostEndsPlainly(u, i, j);
    }
  }

  lemma HostEndsPlainly(u: string, i: nat, j: nat)
    requires j <= |u| && HostSpan(u, i, j)
    ensures j > 0 && (u[j - 1] == '.' || u[j - 1] == '/')
  {
    var a, b :| i < a < |u| && a < b <= |u| && SchemeSpan(u, i, a, b) && LabelSpan(u, b, j);
    if b == j {
      assert u[b - 1] in u[a + 1..b];
    }
  }

  predicate IsSoftChar(c: char) { c == '*' || c == '^' }

  lemma {:induction false} LastHard(t: string) returns (m: nat)
    requires exists c :: c in t && !IsSoftChar(c)
    ensures m < |t| && !IsSoftChar(t[m]) && forall k :: m < k < |t| ==> IsSoftChar(t[k])
  {
    var n := |t| - 1;
    if IsSoftChar(t[n]) {
      var c :| c in t && !IsSoftChar(c);
      assert c in t[..n];
      m := LastHard(t[..n]);
      assert t[..n][m] == t[m] && forall k :: m < k < n ==> t[k] == t[..n][k];
    } else {
      m := n;
    }
  }

  /** The fragment at each place: soft for soft characters, and an anchor or itself for any other. */
  lemma StartedAt(t: string, k: nat)
    requires k < |t|
    ensures var x := AnchorStart(Nodes(t));
            && |x| == |t| && x[k] != Eol && (x[k] == Bol ==> k == 0)
            && (IsSoft(x[k]) <==> IsSoftChar(t[k])) && (x[k] == AnyRun <==> t[k] == '*')
            && (x[k].Lit? ==> x[k].c == t[k])
  {
    StartAt(Nodes(t), k);
  }

  lemma SoftText(t: string)
    requires forall c :: c in t ==> IsSoftChar(c)
    ensures AllSoft(AnchorStart(Nodes(t)))
  {
    var x := AnchorStart(Nodes(t));
    forall n | n in x
      ensures IsSoft(n)
    {
      var k :| 0 <= k < |x| && x[k] == n;
      if t != "" {
        StartedAt(t, 0);
        StartedAt(t, k);
      }
    }
  }

  lemma HardInside(x: seq<Node>, m: nat, fold: bool, u: string)
    requires m < |x| && !IsSoft(x[m]) && x[m] != Eol && AllSoft(x[m + 1..])
    requires EndsAbruptly(u, x[m + 1..]) && (x[m].Lit? ==> LowerChar(x[m].c) != LowerChar(u[|u| - 1]))
    ensures !Test(x + [Sep, Eol], fold, u)
  {
    hide IsSoft, AllSoft, EndsAbruptly, MatchAt;
    var p, q := x[..m], x[m + 1..];
    var rest := [x[m]] + q + [Sep, Eol];
    assert x + [Sep, Eol] == p + rest;
    forall i: nat | i <= |u|
      ensures !MatchAt(p + rest, fold, u, i)
    {
      if MatchAt(p + rest, fold, u, i) {
        MatchSuffix(p, rest, fold, u, i);
        var j: nat :| i <= j <= |u| && MatchAt(rest, fold, u, j);
        HardStopsShort(x[m], q, fold, u, j);
      }
    }
  }

  /** A URL that ends in a character which is neither a separator nor the rule's last hard character, and
      which a `*` after that one cannot match. */
  lemma NotAsWritten(t: string, m: nat, fold: bool, u: string)
    requires m < |t| && !IsSoftChar(t[m]) && forall k :: m < k < |t| ==> IsSoftChar(t[k])
    requires u != "" && !IsSeparator(u[|u| - 1]) && u[|u| - 1] != '.'
    requires LowerChar(u[|u| - 1]) != LowerChar(t[m])
    requires IsLineEnd(u[|u| - 1]) || forall k :: m < k < |t| ==> t[k] == '^'
    ensures !Test(AnchorStart(Nodes(t)) + [Sep, Eol], fold, u)
  {
    hide AnchorStart, Nodes, Test;
    StartedAt(t, m);
    forall k: nat | k < |t| {
      StartedAt(t, k);
    }
    HardInside(AnchorStart(Nodes(t)), m, fold, u);
  }

  lemma SampleOfRewritten(t: string, z: char)
    ensures Test(AnchorStart(Nodes(t)) + [Sep], true, Samples(AnchorStart(Nodes(t))) + "/" + [z])
  {
    var x := AnchorStart(Nodes(t));
    forall k: nat | k < |t| {
      StartedAt(t, k);
    }
    assert |x| == |t| by { if t != "" { StartedAt(t, 0); } }
    hide AnchorStart, Nodes, Samples;
    var u := Samples(x) + "/" + [z];
    assert "" + Samples(x) + ("/" + [z]) == u;
    assert MatchAt([Sep], true, u, |Samples(x)|) by {
      assert u[|Samples(x)|] == '/' && [Sep][1..] == [];
      assert MatchAt([], true, u, |Samples(x)| + 1);
    }
    SamplesMatch(x, [Sep], true, "", "/" + [z]);
    assert MatchAt(x + [Sep], true, u, 0);
  }

  /** A URL the rewriting gains: something the rule matches up to its last separator, and then `z`. */
  lemma MoreAfterRewrite(t: string, m: nat, z: char) returns (u: string)
    requires m < |t| && !IsSoftChar(t[m]) && forall k :: m < k < |t| ==> IsSoftChar(t[k])
    requires !IsSeparator(z) && z != '.' && LowerChar(z) != LowerChar(t[m])
    requires IsLineEnd(z) || forall k :: m < k < |t| ==> t[k] == '^'
    ensures Test(Plain(t + "^|"), true, u) && !Test(Anchored(Nodes(t + "^|")), true, u)
    ensures NoLineEnd(t) && !IsLineEnd(z) ==> NoLineEnd(u)
  {
    SepEndForms(t);
    SamplesHaveNoLineEnd(t);
    hide Plain, Anchored, Test, AnchorStart, Nodes, Samples, IsSeparator, IsLineEnd;
    SampleOfRewritten(t, z);
    u := Samples(AnchorStart(Nodes(t))) + "/" + [z];
    assert u[|u| - 1] == z;
    NotAsWritten(t, m, true, u);
    if NoLineEnd(t) && !IsLineEnd(z) {
      SlashIsNoLineEnd();
    }
  }

  lemma SlashIsNoLineEnd()
    ensures !IsLineEnd('/')
  {
  }

  lemma {:induction false} SamplesAreClean(ns: seq<Node>)
    requires forall n :: n in ns && n.Lit? ==> !IsLineEnd(n.c)
    ensures NoLineEnd(Samples(ns))
  {
    if ns != [] {
      assert ns[0] in ns;
      SamplesAreClean(ns[1..]);
      assert NoLineEnd(Sample(ns[0]));
    }
  }

  lemma SamplesHaveNoLineEnd(t: string)
    ensures NoLineEnd(t) ==> NoLineEnd(Samples(AnchorStart(Nodes(t))))
  {
    var x := AnchorStart(Nodes(t));
    if NoLineEnd(t) {
      forall n | n in x && n.Lit?
        ensures !IsLineEnd(n.c)
      {
        var k :| 0 <= k < |x| && x[k] == n;
        if t != "" {
          StartedAt(t, 0);
          StartedAt(t, k);
        }
      }
      SamplesAreClean(x);
    }
  }

  // ---------- URLs of one line ----------

  /** What follows a pattern may be replaced by anything that matches wherever it did. */
  lemma {:induction false} MatchMore(p: seq<Node>, r: seq<Node>, r': seq<Node>, fold: bool, u: string, i: nat)
    requires MatchAt(p + r, fold, u, i) && forall j: nat :: j <= |u| ==> MatchAt(r', fold, u, j)
    ensures MatchAt(p + r', fold, u, i)
    decreases |p|
  {
    if p == [] {
      assert p + r' == r';
    } else {
      assert (p + r)[1..] == p[1..] + r && (p + r')[1..] == p[1..] + r';
      forall k: nat | MatchAt(p[1..] + r, fold, u, k) {
        MatchMore(p[1..], r, r', fold, u, k);
      }
    }
  }

  /** A `*` with nothing hard behind it takes the rest of a URL of one line. */
  lemma StarTakesAll(q: seq<Node>, fold: bool, u: string, j: nat)
    requires AllSoft(q) && NoLineEnd(u) && j <= |u|
    ensures MatchAt([AnyRun] + q + [Sep, Eol], fold, u, j)
  {
    var re := [AnyRun] + q + [Sep, Eol];
    assert re[1..] == q + [Sep, Eol];
    SoftMatchesEnd(q, fold, u);
    assert forall c :: c in u[j..|u|] ==> c in u;
  }

  lemma StarInside(x: seq<Node>, s: nat, fold: bool, u: string)
    requires s < |x| && x[s] == AnyRun && AllSoft(x[s + 1..]) && NoLineEnd(u) && Test(x + [Sep], fold, u)
    ensures Test(x + [Sep, Eol], fold, u)
  {
    hide MatchAt, AllSoft, NoLineEnd;
    var p, q := x[..s], x[s + 1..];
    var r, r' := [AnyRun] + q + [Sep], [AnyRun] + q + [Sep, Eol];
    assert x + [Sep] == p + r && x + [Sep, Eol] == p + r';
    forall j: nat | j <= |u| {
      StarTakesAll(q, fold, u, j);
    }
    var i: nat :| i <= |u| && MatchAt(p + r, fold, u, i);
    MatchMore(p, r, r', fold, u, i);
  }

  /** A rule with a line end in it matches no URL of one line. */
  lemma LineEndInside(x: seq<Node>, k: nat, fold: bool, u: string)
    requires k < |x| && x[k].Lit? && IsLineEnd(x[k].c) && NoLineEnd(u)
    ensures !Test(x + [Sep], fold, u)
  {
    var p, r := x[..k], x[k..] + [Sep];
    assert x + [Sep] == p + r && r[0] == x[k];
    forall j: nat {
      LineEndFirst(r, fold, u, j);
    }
    forall i: nat | MatchAt(p + r, fold, u, i) {
      MatchSuffix(p, r, fold, u, i);
    }
  }

  lemma LineEndFirst(r: seq<Node>, fold: bool, u: string, j: nat)
    requires r != [] && r[0].Lit? && IsLineEnd(r[0].c) && NoLineEnd(u)
    ensures !MatchAt(r, fold, u, j)
  {
    assert j < |u| ==> u[j] in u;
  }

  /** The last character that is neither `*` nor `^` has only `^` after it. */
  predicate EndsHard(t: string) {
    exists m | 0 <= m < |t| :: !IsSoftChar(t[m]) && forall k :: m < k < |t| ==> t[k] == '^'
  }

  lemma NothingGainedByLineEnd(t: string, fold: bool, u: string)
    requires NoLineEnd(u) && !NoLineEnd(t)
    ensures !Test(AnchorStart(Nodes(t)) + [Sep], fold, u)
  {
    var c :| c in t && IsLineEnd(c);
    var k: nat :| k < |t| && t[k] == c;
    LineEndFragment(t, k);
    hide AnchorStart, Nodes, Test;
    LineEndInside(AnchorStart(Nodes(t)), k, fold, u);
  }

  lemma NothingGainedByStar(t: string, s: nat, fold: bool, u: string)
    requires s < |t| && t[s] == '*' && forall k :: s < k < |t| ==> IsSoftChar(t[k])
    requires NoLineEnd(u) && Test(AnchorStart(Nodes(t)) + [Sep], fold, u)
    ensures Test(AnchorStart(Nodes(t)) + [Sep, Eol], fold, u)
  {
    hide AnchorStart, Nodes, Test;
    StartedAt(t, s);
    forall k: nat | k < |t| {
      StartedAt(t, k);
    }
    StarInside(AnchorStart(Nodes(t)), s, fold, u);
  }

  /** On URLs of one line the rewriting gains nothing for any other rule. */
  lemma NothingGained(t: string, fold: bool, u: string)
    requires NoLineEnd(u) && Test(Plain(t + "^|"), fold, u) && !(NoLineEnd(t) && EndsHard(t))
    ensures Test(Anchored(Nodes(t + "^|")), fold, u)
  {
    hide Plain, Anchored, AnchorStart, Nodes, IsSoftChar, NoLineEnd, EndsHard, MatchAt;
    SepEndForms(t);
    if !NoLineEnd(t) {
      NothingGainedByLineEnd(t, fold, u);
    } else if exists c :: c in t && !IsSoftChar(c) {
      var s := StarBehind(t);
      NothingGainedByStar(t, s, fold, u);
    } else {
      SoftText(t);
      SoftMatchesEnd(AnchorStart(Nodes(t)), fold, u);
    }
  }

  lemma LineEndFragment(t: string, k: nat)
    requires k < |t| && IsLineEnd(t[k])
    ensures |AnchorStart(Nodes(t))| == |t| && AnchorStart(Nodes(t))[k] == Lit(t[k])
  {
    StartAt(Nodes(t), k);
  }

  /** A `*` behind the last hard character. */
  lemma StarBehind(t: string) returns (s: nat)
    requires !EndsHard(t) && exists c :: c in t && !IsSoftChar(c)
    ensures s < |t| && t[s] == '*' && forall k :: s < k < |t| ==> IsSoftChar(t[k])
  {
    var m := LastHard(t);
    s :| m < s < |t| && t[s] != '^';
  }

  /** Exactly which rules the rewriting widens: on URLs of one line, `t^|` comes to match more exactly when
      the last character of `t` that is neither `*` nor `^` has no `*` after it (and `t` is itself of one
      line, since otherwise it matches no such URL). */
  lemma SepEndRewriteChangesIff(t: string)
    ensures (exists fold, u :: NoLineEnd(u)
                && Test(Plain(t + "^|"), fold, u) && !Test(Anchored(Nodes(t + "^|")), fold, u))
       <==> NoLineEnd(t) && EndsHard(t)
  {
    hide Plain, Anchored, Nodes, Test;
    if NoLineEnd(t) && EndsHard(t) {
      var m: nat :| m < |t| && !IsSoftChar(t[m]) && forall k :: m < k < |t| ==> t[k] == '^';
      var u := MoreAfterRewrite(t, m, if LowerChar(t[m]) == 'a' then 'b' else 'a');
    } else {
      forall fold, u | NoLineEnd(u) && Test(Plain(t + "^|"), fold, u)
        ensures Test(Anchored(Nodes(t + "^|")), fold, u)
      {
        NothingGained(t, fold, u);
      }
    }
  }

  /** On all URLs whatever, a character besides `*` and `^` is enough: no `*` runs over a line end. */
  lemma SepEndRewriteChangesAnyIff(t: string)
    ensures (exists fold, u :: Test(Plain(t + "^|"), fold, u) && !Test(Anchored(Nodes(t + "^|")), fold, u))
       <==> exists c :: c in t && !IsSoftChar(c)
  {
    SepEndForms(t);
    hide Plain, Anchored, Nodes;
    var x := AnchorStart(Nodes(t));
    if exists c :: c in t && !IsSoftChar(c) {
      var m := LastHard(t);
      LineSeparatorsAreFolded();
      var u := MoreAfterRewrite(t, m, if LowerChar(t[m]) == '\U{2028}' then '\U{2029}' else '\U{2028}');
    } else {
      SoftText(t);
      forall fold, u
        ensures Test(Anchored(Nodes(t + "^|")), fold, u)
      {
        SoftMatchesEnd(x, fold, u);
      }
    }
  }

  lemma LineSeparatorsAreFolded()
    ensures LowerChar('\U{2028}') == '\U{2028}' && LowerChar('\U{2029}') == '\U{2029}'
    ensures !IsSeparator('\U{2028}') && !IsSeparator('\U{2029}')
  {
  }
}
