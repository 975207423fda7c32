/** The domain list (core/gfw.go:19-95): a loop over the suffixes of a domain, each looked for by a
    regular expression, and what it comes to. */
module Gfw {
  import opened Text

  const PROXY := "proxy"
  const LOCAL := "local"

  /** The characters of a plain label: none of them means anything in a regular expression. */
  predicate IsLabelChar(c: char) { IsWord(c) || c == '-' }

  predicate IsPlain(d: string) { forall c :: c in d ==> IsLabelChar(c) || c == '.' }

  // ---------- the regular expression of `check` ----------

  predicate LineStart(s: string, i: int)
    requires 0 <= i <= |s|
  {
    i == 0 || s[i - 1] == '\n'
  }

  predicate LineEnd(s: string, e: int)
    requires 0 <= e <= |s|
  {
    e == |s| || s[e] == '\n'
  }

  predicate AnyOf(s: string, chars: set<char>) { forall c :: c in s ==> c in chars }

  predicate Optional(s: string, word: string) { s == "" || s == word }

  /** `(?m)^[^\@]*[\|\.]*(http://)?(https://)?D$` matches from `i` on, its parts ending at `j`, `k`,
      `l`, `m`. */
  predicate MatchSpan(s: string, d: string, i: int, j: int, k: int, l: int, m: int) {
    && 0 <= i <= j <= k <= l <= m && m + |d| <= |s|
    && LineStart(s, i)
    && '@' !in s[i..j]
    && AnyOf(s[j..k], {'|', '.'})
    && Optional(s[k..l], "http://")
    && Optional(s[l..m], "https://")
    && s[m..m + |d|] == d
    && LineEnd(s, m + |d|)
  }

  /** `FindString` finds something; a match is never empty, since `d` is not. */
  predicate PatternFound(s: string, d: string) {
    exists i, j, k, l, m | 0 <= i <= |s| && 0 <= j <= |s| && 0 <= k <= |s| && 0 <= l <= |s| && 0 <= m <= |s| ::
      MatchSpan(s, d, i, j, k, l, m)
  }

  // ---------- the same, line by line ----------

  ghost predicate IsLine(s: string, i: int, e: int) {
    0 <= i <= e <= |s| && LineStart(s, i) && LineEnd(s, e) && '\n' !in s[i..e]
  }

  /** A rule line speaks of a domain when it ends with it and what comes before holds no `@`. */
  ghost predicate LineSays(line: string, d: string) {
    EndsWith(line, d) && '@' !in line[..|line| - |d|]
  }

  ghost predicate Says(s: string, d: string) {
    exists i, e :: IsLine(s, i, e) && LineSays(s[i..e], d)
  }

  /** The start of the line that position `m` is in. */
  function LineOf(s: string, m: nat): (i: nat)
    requires m <= |s|
    ensures i <= m && LineStart(s, i) && forall p :: i < p <= m ==> !LineStart(s, p)
  {
    if LineStart(s, m) then m else LineOf(s, m - 1)
  }

  lemma NoAt(s: string, i: int, j: int, k: int, l: int, m: int)
    requires 0 <= i <= j <= k <= l <= m <= |s|
    requires '@' !in s[i..j] && AnyOf(s[j..k], {'|', '.'})
    requires Optional(s[k..l], "http://") && Optional(s[l..m], "https://")
    ensures '@' !in s[i..m]
  {
    forall q | i <= q < m
      ensures s[q] != '@'
    {
      if q < j {
        assert s[q] in s[i..j];
      } else if q < k {
        assert s[q] in s[j..k];
      } else if q < l {
        assert s[q] in s[k..l];
      } else {
        assert s[q] in s[l..m];
      }
    }
  }

  /** The pattern is found in a rule text exactly when one of its lines speaks of the domain: the
      greedy parts of the pattern add nothing. */
  lemma PatternIsLineSuffix(s: string, d: string)
    requires d != "" && IsPlain(d)
    ensures PatternFound(s, d) <==> Says(s, d)
  {
    if PatternFound(s, d) {
      var i, j, k, l, m :| MatchSpan(s, d, i, j, k, l, m);
      SpanSays(s, d, i, j, k, l, m);
    }
    if Says(s, d) {
      var i, e :| IsLine(s, i, e) && LineSays(s[i..e], d);
      LineIsSpan(s, d, i, e);
    }
  }

  /** The same by positions: from the start of a line on there is no `@` and no line end up to `m`, and `d`
      stands there, at the end of the line. */
  lemma SaysByPositions(s: string, d: string)
    ensures Says(s, d) <==>
              exists i, m :: 0 <= i <= m && m + |d| <= |s| && '@' !in s[i..m] && '\n' !in s[i..m + |d|]
                && (i == 0 || s[i - 1] == '\n') && s[m..m + |d|] == d && (m + |d| == |s| || s[m + |d|] == '\n')
  {
    if Says(s, d) {
      var i, e :| IsLine(s, i, e) && LineSays(s[i..e], d);
      SaysAt(s, d, i, e - |d|);
    }
    hide IsLine, LineSays;
    if i, m :| 0 <= i <= m && m + |d| <= |s| && '@' !in s[i..m] && '\n' !in s[i..m + |d|]
               && (i == 0 || s[i - 1] == '\n') && s[m..m + |d|] == d && (m + |d| == |s| || s[m + |d|] == '\n') {
      SaysAt(s, d, i, m);
    }
  }

  lemma SaysAt(s: string, d: string, i: int, m: int)
    ensures 0 <= i <= m && m + |d| <= |s| ==>
              (IsLine(s, i, m + |d|) && LineSays(s[i..m + |d|], d) <==>
                 '@' !in s[i..m] && '\n' !in s[i..m + |d|] && (i == 0 || s[i - 1] == '\n')
                 && s[m..m + |d|] == d && (m + |d| == |s| || s[m + |d|] == '\n'))
  {
    if 0 <= i <= m && m + |d| <= |s| {
      var line := s[i..m + |d|];
      assert line[..m - i] == s[i..m] && line[m - i..] == s[m..m + |d|];
    }
  }

  lemma SpanSays(s: string, d: string, i: int, j: int, k: int, l: int, m: int)
    requires d != "" && IsPlain(d) && MatchSpan(s, d, i, j, k, l, m)
    ensures Says(s, d)
  {
    NoAt(s, i, j, k, l, m);
    SpanIsLine(s, d, i, m);
  }

  lemma SpanIsLine(s: string, d: string, i: int, m: int)
    requires d != "" && IsPlain(d) && 0 <= i <= m && m + |d| <= |s| && LineStart(s, i) && '@' !in s[i..m]
    requires s[m..m + |d|] == d && LineEnd(s, m + |d|)
    ensures Says(s, d)
  {
    var b, e := LineOf(s, m), m + |d|;
    forall q | b <= q < m
      ensures s[q] != '\n'
    {
      assert !LineStart(s, q + 1);
    }
    var line := s[b..e];
    assert line == s[b..m] + d;
    assert s[b..m] == s[i..m][b - i..];
    SplitLine(line, s[b..m], d);
    assert IsLine(s, b, e);
  }

  lemma SplitLine(line: string, p: string, d: string)
    requires line == p + d && '@' !in p && '\n' !in p && IsPlain(d)
    ensures LineSays(line, d) && '\n' !in line
  {
    assert line[..|line| - |d|] == p && line[|line| - |d|..] == d;
  }

  lemma LineIsSpan(s: string, d: string, i: int, e: int)
    requires IsLine(s, i, e) && LineSays(s[i..e], d)
    ensures PatternFound(s, d)
  {
    var m := e - |d|;
    assert s[i..e][..m - i] == s[i..m] && s[i..e][m - i..] == s[m..e];
    assert MatchSpan(s, d, i, m, m, m, m);
  }

  // ---------- suffixes ----------

  /** A line that speaks of a domain speaks of everything the domain ends with. */
  lemma SaysSuffix(s: string, p: string, d: string)
    requires '@' !in p && Says(s, p + d)
    ensures Says(s, d)
  {
    var i, e :| IsLine(s, i, e) && LineSays(s[i..e], p + d);
    var line := s[i..e];
    var n := |line| - |p + d|;
    assert line == line[..n] + (p + d);
    assert line[..|line| - |d|] == line[..n] + p;
    assert line[|line| - |d|..] == d;
    assert LineSays(line, d);
  }

  /** Domains are looked up by their last two labels; a lone label by itself. */
  function Core(domain: string): string {
    var parts := Split(domain, '.');
    if |parts| < 2 then domain else Join(parts[|parts| - 2..], '.')
  }

  lemma {:induction false} JoinPlain(parts: seq<string>)
    requires |parts| >= 1 && forall p :: p in parts ==> IsPlain(p)
    ensures IsPlain(Join(parts, '.')) && (|parts| >= 2 ==> Join(parts, '.') != "")
  {
    assert parts[0] in parts;
    if |parts| > 1 {
      assert forall p :: p in parts[1..] ==> p in parts;
      JoinPlain(parts[1..]);
      assert Join(parts, '.') == parts[0] + ['.'] + Join(parts[1..], '.');
    }
  }

  lemma {:induction false} SplitPlain(d: string)
    requires IsPlain(d)
    ensures forall p :: p in Split(d, '.') ==> IsPlain(p)
    decreases |d|
  {
    var i := IndexOf(d, '.');
    if i < |d| {
      SplitPlain(d[i + 1..]);
    }
  }

  /** If a line speaks of the labels from `i` on, it speaks of the labels from `j` on. */
  lemma {:induction false} SaysFewerLabels(s: string, parts: seq<string>, i: nat, j: nat)
    requires i <= j < |parts| && forall p :: p in parts ==> IsPlain(p)
    requires Says(s, Join(parts[i..], '.'))
    ensures Says(s, Join(parts[j..], '.'))
    decreases j - i
  {
    if i < j {
      assert parts[i..][0] == parts[i] && parts[i..][1..] == parts[i + 1..];
      var p := parts[i] + ['.'];
      assert parts[i] in parts;
      SaysSuffix(s, p, Join(parts[i + 1..], '.'));
      SaysFewerLabels(s, parts, i + 1, j);
    }
  }

  lemma {:induction false} SplitAppend(a: string, d: string)
    ensures Split(a + "." + d, '.') == Split(a, '.') + Split(d, '.')
    decreases |a|
  {
    hide IndexOf;
    var s := a + "." + d;
    var i := IndexOf(a, '.');
    assert forall k :: 0 <= k < i ==> a[..i][k] != '.' && s[k] == a[..i][k];
    IndexOfIs(s, '.', i);
    if i == |a| {
      assert s[..i] == a && s[i + 1..] == d && a[..i] == a;
    } else {
      assert s[..i] == a[..i] && s[i + 1..] == a[i + 1..] + "." + d;
      SplitAppend(a[i + 1..], d);
    }
  }

  lemma {:induction false} IndexOfIs(s: string, c: char, i: nat)
    requires i < |s| && s[i] == c && forall k :: 0 <= k < i ==> s[k] != c
    ensures IndexOf(s, c) == i
  {
    if i > 0 {
      IndexOfIs(s[1..], c, i - 1);
    }
  }

  /** A domain of two labels or more and all its subdomains are looked up by the same two labels, so
      they have the same target. */
  lemma SubdomainHasSameCore(sub: string, d: string)
    requires '.' in d
    ensures Core(sub + "." + d) == Core(d)
  {
    hide Split, Join;
    SplitAppend(sub, d);
    DottedHasTwoLabels(d);
    SameLastTwo(Split(sub, '.'), Split(d, '.'));
  }

  lemma SameLastTwo(a: seq<string>, b: seq<string>)
    requires |b| >= 2
    ensures (a + b)[|a + b| - 2..] == b[|b| - 2..]
  {
  }

  lemma DottedHasTwoLabels(d: string)
    requires '.' in d
    ensures |Split(d, '.')| >= 2
  {
    assert d[..|d|] == d;
  }

  // ---------- the list ----------

  predicate IsTrimmed(c: char) { c == ' ' || c == '\t' || c == '.' }

  function TrimLeft(s: string): (r: string)
    ensures r != "" ==> !IsTrimmed(r[0])
  {
    if s != "" && IsTrimmed(s[0]) then TrimLeft(s[1..]) else s
  }

  function TrimRight(s: string): (r: string)
    ensures r <= s
    ensures r != "" ==> !IsTrimmed(r[|r| - 1])
  {
    if s != "" && IsTrimmed(s[|s| - 1]) then TrimRight(s[..|s| - 1]) else s
  }

  /** `strings.Trim(s, " \t.")` */
  function Trim(s: string): string { TrimRight(TrimLeft(s)) }

  function Lookup(list: map<string, string>, key: string): string {
    if key in list then list[key] else ""
  }

  /** Some rule text speaks of `d`. */
  ghost predicate SomeSays(list: map<string, string>, d: string) {
    exists k :: k in list && k != "*" && Says(k, d)
  }

  /** No rule text that speaks of `d` has the empty target. */
  ghost predicate Named(list: map<string, string>, d: string) {
    forall k :: k in list && k != "*" && Says(k, d) ==> list[k] != ""
  }

  /** What looking for `d` finds: the target of a rule text that speaks of it, or nothing. */
  ghost predicate Finds(list: map<string, string>, d: string, target: string) {
    && (target == "" || SaidTarget(list, d, target))
    && (Named(list, d) && SomeSays(list, d) ==> target != "")
  }

  /** Every rule text that speaks of `d` has the target `t`. */
  ghost predicate Agreed(list: map<string, string>, d: string, t: string) {
    t != "" && forall k :: k in list && k != "*" && Says(k, d) ==> list[k] == t
  }

  /** Every rule text has the target `t`. */
  ghost predicate OneTarget(list: map<string, string>, t: string) {
    t != "" && forall k :: k in list && k != "*" ==> list[k] == t
  }

  /** `t` is the target of a rule text that speaks of `d`. */
  ghost predicate SaidTarget(list: map<string, string>, d: string, t: string) {
    exists k :: k in list && k != "*" && Says(k, d) && list[k] == t
  }

  lemma FindsAgreed(list: map<string, string>, d: string, target: string)
    requires Finds(list, d, target)
    ensures forall t :: Agreed(list, d, t) ==> t != "" && target == if SomeSays(list, d) then t else ""
    ensures forall t :: OneTarget(list, t) ==> Agreed(list, d, t)
  {
  }

  /** What becomes of a domain when the rule texts that speak of it have the target `t`. */
  ghost function TargetOf(list: map<string, string>, t: string, domain: string): string {
    if Trim(domain) != "" && SomeSays(list, Core(Trim(domain))) then t else Lookup(list, "*")
  }

  // ---------- subdomains ----------

  lemma {:induction false} TrimLeftAppend(a: string, d: string) returns (q: string)
    requires d != "" && !IsTrimmed(d[0])
    ensures TrimLeft(a + d) == q + d && EndsWith(a, q)
  {
    if a == "" {
      q := "";
      assert a + d == d;
    } else if IsTrimmed(a[0]) {
      q := TrimLeftAppend(a[1..], d);
      assert (a + d)[1..] == a[1..] + d;
      assert a[|a| - |q|..] == a[1..][|a| - 1 - |q|..];
    } else {
      q := a;
      assert (a + d)[0] == a[0] && a[|a| - |q|..] == a;
    }
  }

  lemma TrimOfSubdomain(sub: string, d: string)
    requires '.' in d && Trim(d) == d
    ensures Trim(sub + "." + d) != "" && Core(Trim(sub + "." + d)) == Core(d)
  {
    assert !IsTrimmed(d[|d| - 1]);
    assert !IsTrimmed(d[0]) by { TrimmedStart(d); }
    var q := TrimLeftAppend(sub + ".", d);
    assert (q + d)[|q + d| - 1] == d[|d| - 1];
    assert Trim(sub + "." + d) == q + d;
    if q == "" {
      assert q + d == d;
    } else {
      var a := sub + ".";
      assert q[|q| - 1] == a[|a| - 1] == '.';
      assert q == q[..|q| - 1] + ".";
      SubdomainHasSameCore(q[..|q| - 1], d);
    }
  }

  lemma TrimmedStart(d: string)
    requires d != "" && Trim(d) == d
    ensures !IsTrimmed(d[0])
  {
    TrimLeftIsShorter(d);
    assert |TrimLeft(d)| == |d|;
  }

  lemma {:induction false} TrimLeftIsShorter(s: string)
    ensures |TrimLeft(s)| <= |s| && (s != "" && IsTrimmed(s[0]) ==> |TrimLeft(s)| < |s|)
  {
    if s != "" && IsTrimmed(s[0]) {
      TrimLeftIsShorter(s[1..]);
    }
  }

  /** Every subdomain of a domain of two labels or more has the domain's own target: with every domain
      it proxies, the list proxies all its subdomains. */
  lemma SubdomainsShareTarget(list: map<string, string>, t: string, sub: string, d: string)
    requires '.' in d && Trim(d) == d
    ensures TargetOf(list, t, sub + "." + d) == TargetOf(list, t, d)
    ensures Agreed(list, Core(Trim(sub + "." + d)), t) <==> Agreed(list, Core(Trim(d)), t)
  {
    TrimOfSubdomain(sub, d);
  }

  // ---------- host names ----------

  lemma {:induction false} TrimLeftIs(a: string, d: string)
    requires forall c :: c in a ==> c == ' ' || c == '\t' || c == '.'
    requires d != "" ==> d[0] != ' ' && d[0] != '\t' && d[0] != '.'
    ensures TrimLeft(a + d) == d
  {
    if a == "" {
      assert a + d == d;
    } else {
      assert a[0] in a && (a + d)[1..] == a[1..] + d;
      assert forall c :: c in a[1..] ==> c in a;
      TrimLeftIs(a[1..], d);
    }
  }

  lemma {:induction false} TrimRightIs(d: string, b: string)
    requires forall c :: c in b ==> c == ' ' || c == '\t' || c == '.'
    requires d != "" ==> var c := d[|d| - 1]; c != ' ' && c != '\t' && c != '.'
    ensures TrimRight(d + b) == d
  {
    if b == "" {
      assert d + b == d;
    } else {
      var n := |b| - 1;
      assert b[n] in b && (d + b)[..|d + b| - 1] == d + b[..n];
      assert forall c :: c in b[..n] ==> c in b;
      TrimRightIs(d, b[..n]);
    }
  }

  lemma {:induction false} SplitNone(d: string)
    requires '.' !in d
    ensures Split(d, '.') == [d]
  {
    assert IndexOf(d, '.') == |d|;
  }

  lemma CoreOfTwo(x: string, y: string)
    requires '.' !in x && '.' !in y
    ensures Core(x + "." + y) == x + "." + y
  {
    hide Split;
    SplitAppend(x, y);
    SplitNone(x);
    SplitNone(y);
    assert [x] + [y] == [x, y] && [x, y][0..] == [x, y] && [x, y][1..] == [y];
    assert Join([x, y], '.') == x + ['.'] + Join([y], '.');
  }

  /** `x.y` and every name under it, with spaces, tabs and dots around it, is looked up by `x.y`, and a lone
      label by itself; of spaces, tabs and dots nothing is left. */
  lemma NameIsLookedUpBy(a: string, under: string, x: string, y: string, b: string)
    requires forall c :: c in a + b ==> c == ' ' || c == '\t' || c == '.'
    requires x != "" && y != "" && '.' !in x + y && (under == "" || (under[0] != '.' && under[|under| - 1] == '.'))
    requires forall c :: c in under + x + y ==>
               'a' <= c <= 'z' || 'A' <= c <= 'Z' || '0' <= c <= '9' || c == '-' || c == '_' || c == '.'
    ensures var name := Trim(a + (under + x + "." + y) + b); IsPlain(name) && Core(name) == x + "." + y
    ensures var name := Trim(a + x + b); IsPlain(name) && Core(name) == x
    ensures Trim(a + b) == ""
  {
    hide Split, Join, IndexOf, Core;
    var d := under + x + "." + y;
    assert forall c :: c in a ==> c in a + b;
    assert forall c :: c in b ==> c in a + b;
    assert forall c :: c in under + x + y <==> c in under || c in x || c in y;
    assert forall c :: c in d ==> c in under || c in x || c in y || c == '.';
    assert d[|d| - 1] == y[|y| - 1] && y[|y| - 1] in y && d[0] == (if under == "" then x[0] else under[0]);
    assert y[|y| - 1] in x + y && x[0] in x && x[0] in x + y && (under != "" ==> under[0] in under);
    TrimAround(a, d, b);
    if under == "" {
      CoreOfTwo(x, y);
      assert d == x + "." + y;
    } else {
      var n := |under| - 1;
      assert under == under[..n] + "." && d == under[..n] + "." + (x + "." + y);
      SubdomainHasSameCore(under[..n], x + "." + y);
      CoreOfTwo(x, y);
    }
    assert x[|x| - 1] in x && x[|x| - 1] in x + y && '.' !in x;
    TrimAround(a, x, b);
    LoneCore(x);
    assert a + b + "" == a + b;
    TrimLeftIs(a + b, "");
  }

  lemma LoneCore(x: string)
    requires '.' !in x
    ensures Core(x) == x
  {
    SplitNone(x);
  }

  lemma TrimAround(a: string, d: string, b: string)
    requires forall c :: c in a + b ==> c == ' ' || c == '\t' || c == '.'
    requires d != "" && d[0] != ' ' && d[0] != '\t' && d[0] != '.'
    requires var c := d[|d| - 1]; c != ' ' && c != '\t' && c != '.'
    ensures Trim(a + d + b) == d
  {
    assert forall c :: c in a ==> c in a + b;
    assert forall c :: c in b ==> c in a + b;
    assert a + d + b == a + (d + b);
    TrimLeftIs(a, d + b);
    TrimRightIs(d, b);
  }

  // ---------- the rule text `*` ----------

  predicate AllStars(s: string) { forall k :: 0 <= k < |s| ==> s[k] == '*' }

  lemma StarsSayNothing(s: string, d: string)
    requires AllStars(s) && d != "" && IsPlain(d)
    ensures !Says(s, d)
  {
    forall i, e | IsLine(s, i, e)
      ensures !LineSays(s[i..e], d)
    {
      assert AllStars(s[i..e]);
      StarLine(s[i..e], d);
    }
  }

  lemma StarLine(line: string, d: string)
    requires d != "" && IsPlain(d) && AllStars(line)
    ensures !LineSays(line, d)
  {
    assert IsLabelChar(d[0]) || d[0] == '.';
    assert |line| >= |d| ==> line[|line| - |d|..][0] == '*';
  }

  class GFW {
    var list: map<string, string>

    constructor ()
      ensures list == map["*" := "local"]
    {
      list := map["*" := LOCAL];
    }

    /** A rule text with a target joins the list: it is one more text that can speak of a domain, and
        a list with one target keeps it. The text `*` only sets the default. */
    method Set(rules: string, target: string)
      modifies this
      ensures list == old(list)[rules := target]
      ensures forall d :: SomeSays(list, d) <==> SomeSays(old(list), d) || (rules != "*" && Says(rules, d))
      ensures forall t :: OneTarget(old(list), t) && (rules == "*" || target == t) ==> OneTarget(list, t)
      ensures Lookup(list, "*") == if rules == "*" then target else Lookup(old(list), "*")
    {
      list := list[rules := target];
      forall d
        ensures SomeSays(list, d) <==> SomeSays(old(list), d) || (rules != "*" && Says(rules, d))
      {
        if rules != "*" && Says(rules, d) {
          assert rules in list;
        }
      }
    }

    /** The target of some rule text the pattern is found in (Go visits a map in no fixed order). */
    method Check(d: string) returns (target: string)
      requires d != "" && IsPlain(d)
      ensures (exists k :: k in list && Says(k, d) && target == list[k])
           || (target == "" && forall k :: k in list ==> !Says(k, d))
    {
      var todo := list.Keys;
      target := "";
      while todo != {}
        invariant todo <= list.Keys
        invariant forall k :: k in list && k !in todo ==> !Says(k, d)
        decreases todo
      {
        var key :| key in todo;
        PatternIsLineSuffix(key, d);
        if PatternFound(key, d) {
          return list[key];
        }
        todo := todo - {key};
      }
    }

    method CheckLabel(d: string) returns (target: string)
      requires d != "" && IsPlain(d)
      ensures Finds(list, d, target)
    {
      target := Check(d);
      StarsSayNothing("*", d);
    }

    /** The target of some rule text that speaks of the last two labels if there is one, or else the
        default. When those texts agree, and so whenever the list has one target, nothing is left open. */
    method Find(domain: string) returns (target: string)
      requires IsPlain(Trim(domain))
      ensures forall t :: Agreed(list, Core(Trim(domain)), t) ==> target == TargetOf(list, t, domain)
      ensures forall t :: OneTarget(list, t) ==> target == TargetOf(list, t, domain)
      ensures target == Lookup(list, "*") || SaidTarget(list, Core(Trim(domain)), target)
      ensures var d := Core(Trim(domain));
              Trim(domain) != "" && SomeSays(list, d) && Named(list, d) ==> SaidTarget(list, d, target)
    {
      var d := Trim(domain);
      if |d| < 1 {
        return Lookup(list, "*");
      }
      var parts := Split(d, '.');
      SplitPlain(d);
      hide Split, IsPlain, Says, Trim;
      if |parts| < 2 {
        target := CheckLabel(d);
        assert Core(d) == d;
      } else {
        target := FindSuffix(parts);
        assert Core(d) == Join(parts[|parts| - 2..], '.');
      }
      FindsAgreed(list, Core(d), target);
      hide Core, SomeSays, Agreed, OneTarget, SaidTarget, Named;
      if |target| < 1 {
        target := Lookup(list, "*");
      }
    }

    /** The loop over the suffixes of two labels or more: whatever its length, only the last two decide. */
    method FindSuffix(parts: seq<string>) returns (target: string)
      requires |parts| >= 2 && forall p :: p in parts ==> IsPlain(p)
      ensures Finds(list, Join(parts[|parts| - 2..], '.'), target)
    {
      var n := |parts| - 1;
      ghost var d := Join(parts[n - 1..], '.');
      target := "";
      for i := 0 to n
        invariant target == ""
        invariant i > 0 && Named(list, d) ==> !SomeSays(list, Join(parts[i - 1..], '.'))
      {
        assert forall p :: p in parts[i..] ==> p in parts;
        JoinPlain(parts[i..]);
        StarsSayNothing("*", Join(parts[i..], '.'));
        target := Check(Join(parts[i..], '.'));
        forall k | Says(k, Join(parts[i..], '.'))
          ensures Says(k, d)
        {
          SaysFewerLabels(k, parts, i, n - 1);
        }
        if |target| > 0 {
          return;
        }
      }
    }

    method IsProxy(domain: string) returns (r: bool)
      requires IsPlain(Trim(domain))
      ensures forall t :: Agreed(list, Core(Trim(domain)), t) ==> (r <==> TargetOf(list, t, domain) == "proxy")
      ensures OneTarget(list, "proxy") && Lookup(list, "*") != "proxy" ==>
                (r <==> Trim(domain) != "" && SomeSays(list, Core(Trim(domain))))
    {
      var target := Find(domain);
      r := target == PROXY;
    }
  }
}
