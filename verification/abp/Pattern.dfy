/** From the text of a rule to its compiled pattern: the replacement chain of `getRegexp`
    (abp.js:287), one function per replacement, and the proof that the normalising steps of the
    chain do not change what the pattern matches. */
module Pattern {
  import opened Text
  import opened Regex

  /** Collapses every run of `x` to a single `x`. */
  function Squeeze<T(==)>(x: T, s: seq<T>): (r: seq<T>)
    ensures |r| <= |s|
    ensures r == [] <==> s == []
    ensures s != [] ==> r[0] == s[0]
  {
    if |s| <= 1 then s
    else if s[0] == x && s[1] == x then Squeeze(x, s[1..])
    else [s[0]] + Squeeze(x, s[1..])
  }

  /** `/\^\|$/` becomes `^`. */
  function TrimSepEnd(s: string): string {
    if EndsWith(s, "^|") then s[..|s| - 1] else s
  }

  /** Escaping, then `\*` and `\^` turned into their fragments. */
  function NodeOf(c: char): Node {
    if c == '*' then AnyRun else if c == '^' then Sep else Lit(c)
  }

  function Nodes(s: string): (ns: seq<Node>)
    ensures |ns| == |s|
    ensures forall i :: 0 <= i < |s| ==> ns[i] == NodeOf(s[i])
  {
    seq(|s|, i requires 0 <= i < |s| => NodeOf(s[i]))
  }

  /** A leading `||`, otherwise a leading `|`. */
  function AnchorStart(ns: seq<Node>): seq<Node> {
    if |ns| >= 2 && ns[0] == Lit('|') && ns[1] == Lit('|') then [Bol, HostAnchor] + ns[2..]
    else if |ns| >= 1 && ns[0] == Lit('|') then [Bol] + ns[1..]
    else ns
  }

  /** A trailing `|`. */
  function AnchorEnd(ns: seq<Node>): seq<Node> {
    if |ns| >= 1 && ns[|ns| - 1] == Lit('|') then ns[..|ns| - 1] + [Eol] else ns
  }

  function DropLead(ns: seq<Node>): seq<Node> {
    if |ns| >= 1 && ns[0] == AnyRun then ns[1..] else ns
  }

  function DropTrail(ns: seq<Node>): seq<Node> {
    if |ns| >= 1 && ns[|ns| - 1] == AnyRun then ns[..|ns| - 1] else ns
  }

  function Anchored(ns: seq<Node>): seq<Node> { AnchorEnd(AnchorStart(ns)) }

  /** The whole chain. */
  function Compile(source: string): seq<Node> {
    DropTrail(DropLead(Anchored(Nodes(TrimSepEnd(Squeeze('*', source))))))
  }

  /** The chain without its normalising steps: runs of `*` and outer `.*` are kept. */
  function Plain(source: string): seq<Node> {
    Anchored(Nodes(TrimSepEnd(source)))
  }

  lemma StartAt(ns: seq<Node>, k: nat)
    requires k < |ns|
    ensures |AnchorStart(ns)| == |ns|
    ensures AnchorStart(ns)[k] ==
            if k == 0 && ns[0] == Lit('|') then Bol
            else if k == 1 && ns[0] == ns[1] == Lit('|') then HostAnchor
            else ns[k]
  {
  }

  lemma EndAt(ns: seq<Node>, k: nat)
    requires k < |ns|
    ensures |AnchorEnd(ns)| == |ns|
    ensures AnchorEnd(ns)[k] == if k + 1 == |ns| && ns[k] == Lit('|') then Eol else ns[k]
  {
  }

  // ---------- collapsing runs of `*` commutes with the other steps ----------

  lemma {:induction false} SqueezeSnoc<T>(x: T, s: seq<T>, y: T)
    requires y != x
    ensures Squeeze(x, s + [y]) == Squeeze(x, s) + [y]
    decreases |s|
  {
    if s != [] {
      assert (s + [y])[1..] == s[1..] + [y];
      SqueezeSnoc(x, s[1..], y);
      if |s| == 1 {
        assert s[1..] == [];
      }
    }
  }

  lemma {:induction false} SqueezeLast<T>(x: T, s: seq<T>)
    requires s != []
    ensures Squeeze(x, s)[|Squeeze(x, s)| - 1] == s[|s| - 1]
    decreases |s|
  {
    if |s| > 1 {
      SqueezeLast(x, s[1..]);
    }
  }

  lemma {:induction false} SqueezeNodes(s: string)
    ensures Nodes(Squeeze('*', s)) == Squeeze(AnyRun, Nodes(s))
    decreases |s|
  {
    if |s| > 1 {
      SqueezeNodes(s[1..]);
      assert Nodes(s)[1..] == Nodes(s[1..]);
      assert Nodes(s) == [NodeOf(s[0])] + Nodes(s[1..]);
    }
  }

  lemma TrimSepEndSnoc(t: string, c: char)
    ensures TrimSepEnd(t + [c]) == if t != "" && t[|t| - 1] == '^' && c == '|' then t else t + [c]
  {
    var s := t + [c];
    if t != "" {
      assert s[|s| - 2..] == [t[|t| - 1], c];
    }
  }

  lemma SqueezeTrimSepEnd(s: string)
    ensures TrimSepEnd(Squeeze('*', s)) == Squeeze('*', TrimSepEnd(s))
  {
    hide TrimSepEnd;
    if s == "" {
      assert TrimSepEnd("") == "" by { TrimEmpty(); }
    } else {
      var t, c, q := s[..|s| - 1], s[|s| - 1], Squeeze('*', s);
      assert s == t + [c] && q == q[..|q| - 1] + [q[|q| - 1]];
      SqueezeLast('*', s);
      TrimSepEndSnoc(t, c);
      TrimSepEndSnoc(q[..|q| - 1], c);
      if c == '|' {
        SqueezeSnoc('*', t, '|');
        assert q[..|q| - 1] == Squeeze('*', t);
        if t != "" {
          SqueezeLast('*', t);
        }
      }
    }
  }

  lemma TrimEmpty()
    ensures TrimSepEnd("") == ""
  {
  }

  lemma SqueezeCons<T>(x: T, y: T, s: seq<T>)
    requires y != x
    ensures Squeeze(x, [y] + s) == [y] + Squeeze(x, s)
  {
    assert ([y] + s)[1..] == s;
  }

  lemma AnchorStartOneBar(r: seq<Node>)
    requires r == [] || r[0] != Lit('|')
    ensures AnchorStart([Lit('|')] + r) == [Bol] + r
  {
    assert ([Lit('|')] + r)[1..] == r;
  }

  lemma AnchorStartTwoBars(q: seq<Node>)
    ensures AnchorStart([Lit('|')] + ([Lit('|')] + q)) == [Bol] + ([HostAnchor] + q)
  {
    var ns := [Lit('|')] + ([Lit('|')] + q);
    assert ns[1] == Lit('|') && ns[2..] == q;
  }

  lemma SqueezeOneBar(r: seq<Node>)
    requires r == [] || r[0] != Lit('|')
    ensures Squeeze(AnyRun, AnchorStart([Lit('|')] + r)) == AnchorStart(Squeeze(AnyRun, [Lit('|')] + r))
  {
    hide AnchorStart;
    SqueezeCons(AnyRun, Lit('|'), r);
    SqueezeCons(AnyRun, Bol, r);
    AnchorStartOneBar(r);
    AnchorStartOneBar(Squeeze(AnyRun, r));
  }

  lemma SqueezeTwoBars(q: seq<Node>)
    ensures var ns := [Lit('|')] + ([Lit('|')] + q);
            Squeeze(AnyRun, AnchorStart(ns)) == AnchorStart(Squeeze(AnyRun, ns))
  {
    hide AnchorStart, Squeeze;
    SqueezeCons(AnyRun, Lit('|'), [Lit('|')] + q);
    SqueezeCons(AnyRun, Lit('|'), q);
    SqueezeCons(AnyRun, Bol, [HostAnchor] + q);
    SqueezeCons(AnyRun, HostAnchor, q);
    AnchorStartTwoBars(q);
    AnchorStartTwoBars(Squeeze(AnyRun, q));
  }

  lemma SqueezeNoBar(ns: seq<Node>)
    requires ns == [] || ns[0] != Lit('|')
    ensures Squeeze(AnyRun, AnchorStart(ns)) == AnchorStart(Squeeze(AnyRun, ns))
  {
  }

  lemma SqueezeAnchorStart(ns: seq<Node>)
    ensures Squeeze(AnyRun, AnchorStart(ns)) == AnchorStart(Squeeze(AnyRun, ns))
  {
    hide AnchorStart, Squeeze;
    if ns == [] || ns[0] != Lit('|') {
      SqueezeNoBar(ns);
    } else if |ns| == 1 || ns[1] != Lit('|') {
      assert ns == [Lit('|')] + ns[1..];
      SqueezeOneBar(ns[1..]);
    } else {
      assert ns == [Lit('|')] + ([Lit('|')] + ns[2..]);
      SqueezeTwoBars(ns[2..]);
    }
  }

  lemma SqueezeAnchorEnd(ns: seq<Node>)
    ensures Squeeze(AnyRun, AnchorEnd(ns)) == AnchorEnd(Squeeze(AnyRun, ns))
  {
    if ns != [] {
      SqueezeLast(AnyRun, ns);
      if ns[|ns| - 1] == Lit('|') {
        var p := ns[..|ns| - 1];
        assert ns == p + [Lit('|')];
        SqueezeSnoc(AnyRun, p, Lit('|'));
        SqueezeSnoc(AnyRun, p, Eol);
      }
    }
  }

  lemma CompileIsSqueezedPlain(source: string)
    ensures Compile(source) == DropTrail(DropLead(Squeeze(AnyRun, Plain(source))))
  {
    SqueezeTrimSepEnd(source);
    var t := TrimSepEnd(source);
    SqueezeNodes(t);
    SqueezeAnchorStart(Nodes(t));
    SqueezeAnchorEnd(AnchorStart(Nodes(t)));
  }

  // ---------- and none of the normalising steps changes what matches ----------

  lemma {:induction false} SqueezePreservesMatchAt(ns: seq<Node>, fold: bool, u: string, i: nat)
    ensures MatchAt(Squeeze(AnyRun, ns), fold, u, i) <==> MatchAt(ns, fold, u, i)
    decreases |ns|
  {
    if |ns| > 1 {
      var r := ns[1..];
      if ns[0] == AnyRun && r[0] == AnyRun {
        SqueezePreservesMatchAt(r, fold, u, i);
        DoubleAnyRun(r[1..], fold, u, i);
        assert [AnyRun] + r[1..] == r && [AnyRun, AnyRun] + r[1..] == ns;
      } else {
        assert ([ns[0]] + Squeeze(AnyRun, r))[1..] == Squeeze(AnyRun, r);
        forall k: nat {
          SqueezePreservesMatchAt(r, fold, u, k);
        }
      }
    }
  }

  lemma DropsPreserveTest(ns: seq<Node>, fold: bool, u: string)
    ensures Test(DropTrail(DropLead(ns)), fold, u) <==> Test(ns, fold, u)
  {
    var d := DropLead(ns);
    if d != ns {
      LeadingAnyRun(d, fold, u);
      assert ns == [AnyRun] + d;
    }
    var e := DropTrail(d);
    if e != d {
      assert d == e + [AnyRun];
      forall i: nat {
        TrailingAnyRun(e, fold, u, i);
      }
    }
  }

  /** Collapsing runs of `*` and dropping a leading or trailing `.*` leaves the set of matched
      URLs unchanged, for every rule text. */
  lemma NormalisationPreservesMeaning(source: string, fold: bool, u: string)
    ensures Test(Compile(source), fold, u) <==> Test(Plain(source), fold, u)
  {
    CompileIsSqueezedPlain(source);
    var p := Plain(source);
    DropsPreserveTest(Squeeze(AnyRun, p), fold, u);
    forall i: nat {
      SqueezePreservesMatchAt(p, fold, u, i);
    }
  }
}
