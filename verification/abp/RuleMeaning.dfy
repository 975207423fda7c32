/** What a rule means, read straight off its text, and the proof that this is what the compiled
    pattern matches. */
module RuleMeaning {
  import opened Text
  import opened Regex
  import opened Pattern

  predicate OpensWithBars(s: string) { |s| >= 2 && s[0] == '|' && s[1] == '|' }

  /** The rule text from position `k` on matches the URL from position `i` on: `||` is a host anchor and
      `|` a start anchor at the front, `|` an end anchor at the back, `*` any run without line ends,
      `^` one separator or the end of the URL, and any other character itself. */
  predicate MeansAt(s: string, k: nat, fold: bool, u: string, i: nat)
    requires k <= |s|
    decreases |s| - k
  {
    i <= |u| &&
    if k == |s| then true
    else if k == 0 && OpensWithBars(s) then
      i == 0 && exists j | 0 < j <= |u| :: HostSpan(u, 0, j) && MeansAt(s, 2, fold, u, j)
    else if k == 0 && s[k] == '|' then i == 0 && MeansAt(s, 1, fold, u, i)
    else if k + 1 == |s| && s[k] == '|' then i == |u|
    else if s[k] == '*' then exists j | i <= j <= |u| :: NoLineEnd(u[i..j]) && MeansAt(s, k + 1, fold, u, j)
    else if s[k] == '^' then
      (i < |u| && IsSeparator(u[i]) && MeansAt(s, k + 1, fold, u, i + 1)) || (i == |u| && MeansAt(s, k + 1, fold, u, i))
    else i < |u| && SameChar(fold, s[k], u[i]) && MeansAt(s, k + 1, fold, u, i + 1)
  }

  /** The fragment at each place of the anchored pattern. */
  lemma FragmentAt(s: string, k: nat)
    requires k < |s|
    ensures |Anchored(Nodes(s))| == |s|
    ensures Anchored(Nodes(s))[k] ==
            if k == 0 && s[0] == '|' then Bol
            else if k == 1 && OpensWithBars(s) then HostAnchor
            else if k + 1 == |s| && s[k] == '|' then Eol
            else NodeOf(s[k])
  {
    var ns := Nodes(s);
    StartAt(ns, k);
    EndAt(AnchorStart(ns), k);
    hide AnchorStart, AnchorEnd;
  }

  /** From any place but between the two opening bars, text and pattern match alike. */
  lemma {:induction false} MeansAtIsMatchAt(s: string, k: nat, fold: bool, u: string, i: nat)
    requires k <= |s| && (k == 1 ==> !OpensWithBars(s))
    requires |Anchored(Nodes(s))| == |s|
    ensures MatchAt(Anchored(Nodes(s))[k..], fold, u, i) <==> MeansAt(s, k, fold, u, i)
    decreases |s| - k
  {
    var re := Anchored(Nodes(s));
    if k < |s| {
      FragmentAt(s, k);
      hide Anchored, Nodes;
      assert re[k..][0] == re[k] && re[k..][1..] == re[k + 1..];
      if k == 0 && OpensWithBars(s) {
        HostAnchored(s, fold, u, i);
      } else {
        var tail, n := re[k + 1..], k + 1;
        forall j: nat
          ensures MatchAt(tail, fold, u, j) <==> MeansAt(s, n, fold, u, j)
        {
          MeansAtIsMatchAt(s, n, fold, u, j);
        }
        if k + 1 == |s| {
          assert re[k + 1..] == [];
        }
      }
    } else {
      assert re[k..] == [];
    }
  }

  lemma {:induction false} HostAnchored(s: string, fold: bool, u: string, i: nat)
    requires OpensWithBars(s) && |Anchored(Nodes(s))| == |s|
    ensures MatchAt(Anchored(Nodes(s)), fold, u, i) <==> MeansAt(s, 0, fold, u, i)
    decreases |s|, 0
  {
    var re := Anchored(Nodes(s));
    FragmentAt(s, 0);
    FragmentAt(s, 1);
    hide Anchored, Nodes, HostSpan;
    assert re[1..][0] == re[1] && re[1..][1..] == re[2..];
    forall j: nat {
      MeansAtIsMatchAt(s, 2, fold, u, j);
    }
    assert MatchAt(re, fold, u, i) <==> i == 0 <= |u| && MatchAt(re[1..], fold, u, 0);
  }

  /** The compiled pattern matches exactly the URLs the rule's own text means: found from some place
      on, after the rewriting of a trailing `^|`, and whatever the normalising steps have removed. */
  lemma CompiledMeaning(source: string, fold: bool, u: string)
    ensures var s := TrimSepEnd(source);
            Test(Compile(source), fold, u) <==> exists i | 0 <= i <= |u| :: MeansAt(s, 0, fold, u, i)
  {
    NormalisationPreservesMeaning(source, fold, u);
    var s := TrimSepEnd(source);
    var re := Plain(source);
    assert re == Anchored(Nodes(s)) && re[0..] == re;
    assert |re| == |s| by {
      if s != "" { FragmentAt(s, 0); }
    }
    hide Anchored, Nodes, Compile, Plain, TrimSepEnd;
    if Test(re, fold, u) {
      var i: nat :| i <= |u| && MatchAt(re, fold, u, i);
      MeansAtIsMatchAt(s, 0, fold, u, i);
      assert MeansAt(s, 0, fold, u, i);
    }
    if i :| 0 <= i <= |u| && MeansAt(s, 0, fold, u, i) {
      MeansAtIsMatchAt(s, 0, fold, u, i);
      assert MatchAt(re, fold, u, i);
    }
  }
}
