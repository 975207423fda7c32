/** The keyword of a rule (abp.js:529-566) and why looking a URL up by keyword misses nothing. */
module Keyword {
  import opened Text
  import opened Regex
  import opened Pattern
  import opened Tokens
  import opened Rules

  /** `regexpRegExp`: `/^(@@)?\/.*\/(?:\$options)?$/` matches the rule text. */
  predicate LooksRaw(text: string) {
    var rest := StripAt(text);
    && |rest| >= 2 && rest[0] == '/'
    && exists j | 1 <= j < |rest| ::
         && rest[j] == '/'
         && NoLineEnd(rest[1..j])
         && (j + 1 == |rest| || (rest[j + 1] == '$' && IsOptionList(rest[j + 2..])))
  }

  /** Perhaps `@@`, then slashes around one line, then perhaps options. */
  predicate RawParts(text: string, mark: string, body: string, tail: string) {
    && text == mark + "/" + body + "/" + tail
    && (mark == "" || mark == "@@")
    && '\n' !in body && '\r' !in body && '\U{2028}' !in body && '\U{2029}' !in body
    && (tail == "" || (tail[0] == '$' && IsOptionList(tail[1..])))
  }

  lemma LooksRawIs(text: string)
    ensures LooksRaw(text) <==> exists mark, body, tail :: RawParts(text, mark, body, tail)
  {
    hide *;
    if LooksRaw(text) {
      RawHasParts(text);
    }
    if mark, body, tail :| RawParts(text, mark, body, tail) {
      PartsAreRaw(text, mark, body, tail);
    }
  }

  lemma RawHasParts(text: string)
    requires LooksRaw(text)
    ensures exists mark, body, tail :: RawParts(text, mark, body, tail)
  {
    hide *;
    var mark, rest := Unmarked(text);
    var j := RawEnd(text, rest);
    SlashesAround(text, mark, rest, j);
    RawPartsAt(text, mark, rest[1..j], rest[j + 1..]);
  }

  lemma Unmarked(text: string) returns (mark: string, rest: string)
    ensures text == mark + rest && rest == StripAt(text) && (mark == "" || mark == "@@")
  {
    rest := StripAt(text);
    mark := text[..|text| - |rest|];
  }

  lemma RawEnd(text: string, rest: string) returns (j: nat)
    requires LooksRaw(text) && rest == StripAt(text)
    ensures 1 <= j < |rest| && rest[0] == rest[j] == '/' && NoLineEnd(rest[1..j])
    ensures rest[j + 1..] == "" || (rest[j + 1..][0] == '$' && IsOptionList(rest[j + 1..][1..]))
  {
    hide IsOptionList, StripAt, NoLineEnd;
    j :| 1 <= j < |rest| && rest[j] == '/' && NoLineEnd(rest[1..j])
         && (j + 1 == |rest| || (rest[j + 1] == '$' && IsOptionList(rest[j + 2..])));
    assert j + 1 < |rest| ==> rest[j + 1..][1..] == rest[j + 2..];
  }

  lemma RawPartsAt(text: string, mark: string, body: string, tail: string)
    requires text == mark + "/" + body + "/" + tail && (mark == "" || mark == "@@") && NoLineEnd(body)
    requires tail == "" || (tail[0] == '$' && IsOptionList(tail[1..]))
    ensures RawParts(text, mark, body, tail)
  {
    hide IsOptionList;
  }

  lemma SlashesAround(text: string, mark: string, rest: string, j: nat)
    requires text == mark + rest && 1 <= j < |rest| && rest[0] == rest[j] == '/'
    ensures text == mark + "/" + rest[1..j] + "/" + rest[j + 1..]
  {
    assert rest == "/" + rest[1..j] + "/" + rest[j + 1..];
    assert mark + "/" + rest[1..j] + "/" + rest[j + 1..] == mark + ("/" + rest[1..j] + "/" + rest[j + 1..]);
  }

  lemma PartsAreRaw(text: string, mark: string, body: string, tail: string)
    requires RawParts(text, mark, body, tail)
    ensures LooksRaw(text)
  {
    hide IsOptionList;
    var rest, j := "/" + body + "/" + tail, |body| + 1;
    assert text == mark + rest && text[0] == if mark == "" then '/' else '@';
    assert mark == "@@" ==> text[..2] == "@@" && text[2..] == rest;
    assert StripAt(text) == rest;
    assert rest[j] == '/' && rest[1..j] == body && rest[j + 1..] == tail;
    assert tail != "" ==> rest[j + 1] == tail[0] && rest[j + 2..] == tail[1..];
  }

  /** The text `findKeyword` searches: options off first, then `@@`. */
  function KeywordText(text: string): string { StripAt(text[..OptionsStart(text)]) }

  /** The keywords `findKeyword` may choose from, in the order it meets them. */
  function Candidates(text: string): (r: seq<string>)
    ensures forall c :: c in r ==> |c| >= 3
  {
    if LooksRaw(text) then []
    else
      var found := CandidatesOf(Lower(KeywordText(text)));
      seq(|found|, i requires 0 <= i < |found| => assert found[i] in found; found[i][1..])
  }

  /** What `findKeyword` may answer, whatever the index holds. */
  predicate PossibleKeyword(text: string, keyword: string) {
    keyword == "" || keyword in Candidates(text)
  }

  /** Stripping options before `@@` or after it leaves the same text. */
  lemma KeywordTextIsSource(text: string)
    ensures KeywordText(text) == SourceOf(text)
  {
    hide IsOptionList;
    var k := OptionsStart(text);
    if StartsWith(text, "@@") {
      var rest := text[2..];
      var m := OptionsStart(rest);
      assert text[0] == text[..2][0] && text[1] == text[..2][1];
      assert !OptionsAt(text, 0) && !OptionsAt(text, 1);
      forall j: nat | j < |rest|
        ensures OptionsAt(rest, j) <==> OptionsAt(text, j + 2)
      {
        assert rest[j + 1..] == text[j + 2 + 1..];
      }
      assert k >= 2 && (k < |text| ==> OptionsAt(rest, k - 2));
      assert k == m + 2;
      assert text[..k][..2] == text[..2];
      assert text[..k][2..] == rest[..m];
    } else {
      assert k >= 2 ==> text[..k][..2] == text[..2];
    }
  }

  // ---------- one fragment at a time ----------

  /** The character before position `x` of the URL, if any, cannot belong to a token. */
  ghost predicate ClosedLeft(u: string, x: int) {
    0 < x <= |u| ==> !IsTokenChar(LowerChar(u[x - 1]))
  }

  ghost predicate ClosedRight(u: string, y: int) {
    0 <= y < |u| ==> !IsTokenChar(LowerChar(u[y]))
  }

  /** A fragment that can stand next to a keyword. */
  ghost predicate IsGuard(n: Node) {
    n != AnyRun && (n.Lit? ==> !IsTokenChar(LowerChar(n.c)))
  }

  lemma SeparatorsAreNotTokenChars(c: char)
    requires IsSeparator(c)
    ensures !IsTokenChar(LowerChar(c))
  {
  }

  /** After a guard, a match goes on from a place closed on its left. */
  lemma AfterGuard(re: seq<Node>, fold: bool, u: string, i: nat)
    requires |re| >= 2 && IsGuard(re[0]) && re[1].Lit?
    requires MatchAt(re, fold, u, i)
    ensures exists x | i <= x <= |u| :: MatchAt(re[1..], fold, u, x) && ClosedLeft(u, x)
  {
    match re[0]
    case Lit(_) =>
      assert MatchAt(re[1..], fold, u, i + 1) && ClosedLeft(u, i + 1);
    case Sep =>
      if i < |u| && IsSeparator(u[i]) && MatchAt(re[1..], fold, u, i + 1) {
        SeparatorsAreNotTokenChars(u[i]);
        assert ClosedLeft(u, i + 1);
      }
    case Bol =>
      assert MatchAt(re[1..], fold, u, i) && ClosedLeft(u, i);
    case Eol =>
    case HostAnchor =>
      var j :| i < j <= |u| && HostSpan(u, i, j) && MatchAt(re[1..], fold, u, j);
      HostSpanEnds(u, i, j);
      assert ClosedLeft(u, j);
  }

  lemma HostSpanEnds(u: string, i: nat, j: nat)
    requires HostSpan(u, i, j)
    ensures 0 < j <= |u| && (u[j - 1] == '/' || u[j - 1] == '.')
  {
    var a, b :| i < a < |u| && a < b <= |u| && SchemeSpan(u, i, a, b) && LabelSpan(u, b, j);
    if j == b {
      assert u[a + 1..b][b - a - 2] == u[j - 1];
      assert u[j - 1] in u[a + 1..b];
    }
  }

  /** A guard that follows position `y` of a match closes it on the right. */
  lemma BeforeGuard(re: seq<Node>, fold: bool, u: string, y: nat)
    requires re != [] && IsGuard(re[0]) && (re[0].Lit? || re[0].Sep? || re[0].Eol?)
    requires MatchAt(re, fold, u, y)
    ensures ClosedRight(u, y)
  {
    if y < |u| && re[0].Sep? {
      SeparatorsAreNotTokenChars(u[y]);
    }
  }

  lemma LiteralStep(c: char, q: seq<Node>, fold: bool, u: string, x: nat)
    requires MatchAt([Lit(c)] + q, fold, u, x)
    ensures x < |u| && LowerChar(c) == LowerChar(u[x]) && MatchAt(q, fold, u, x + 1)
  {
    assert ([Lit(c)] + q)[1..] == q;
  }

  /** Literal fragments are found one after another, up to case. */
  lemma {:induction false} LiteralRun(w: string, q: seq<Node>, fold: bool, u: string, x: nat)
    requires forall i :: 0 <= i < |w| ==> w[i] != '*' && w[i] != '^'
    requires x <= |u| && MatchAt(Nodes(w) + q, fold, u, x)
    ensures x + |w| <= |u| && MatchAt(q, fold, u, x + |w|)
    ensures forall k :: 0 <= k < |w| ==> LowerChar(u[x + k]) == LowerChar(w[k])
    decreases |w|
  {
    hide MatchAt, LowerChar;
    if w == "" {
      assert Nodes(w) + q == q;
    } else {
      var rest := w[1..];
      assert Nodes(w) + q == [Lit(w[0])] + (Nodes(rest) + q);
      LiteralStep(w[0], Nodes(rest) + q, fold, u, x);
      LiteralRun(rest, q, fold, u, x + 1);
      forall k | 0 <= k < |w|
        ensures LowerChar(u[x + k]) == LowerChar(w[k])
      {
        if k > 0 {
          assert w[k] == rest[k - 1] && u[x + k] == u[x + 1 + (k - 1)];
        }
      }
    }
  }

  /** The anchor steps keep every fragment but the outer `|`s. */
  lemma AnchoredKeeps(ns: seq<Node>, k: nat)
    requires 1 <= k < |ns| && ns[k] != Lit('|')
    ensures |Anchored(ns)| == |ns| && Anchored(ns)[k] == ns[k]
  {
  }

  lemma AnchoredKeepsGuard(ns: seq<Node>, k: nat)
    requires k < |ns| && IsGuard(ns[k])
    ensures |Anchored(ns)| == |ns| && IsGuard(Anchored(ns)[k])
    ensures k >= 2 && (ns[k].Lit? || ns[k].Sep?) ==>
              Anchored(ns)[k].Lit? || Anchored(ns)[k].Sep? || Anchored(ns)[k].Eol?
  {
  }

  lemma TrimKeeps(s: string, b: int)
    requires 1 <= b < |s| && IsTokenChar(LowerChar(s[b - 1]))
    ensures b < |TrimSepEnd(s)| && TrimSepEnd(s) <= s
  {
    if EndsWith(s, "^|") {
      assert s[|s| - 2..][0] == s[|s| - 2] == '^';
    }
  }

  /** Where a keyword sits in a compiled pattern: literals, with a guard on either side. */
  ghost predicate HoldsRun(re: seq<Node>, w: string, a: int) {
    var b := a + |w|;
    && 1 <= a && b < |re|
    && re[a..b] == Nodes(w)
    && IsGuard(re[a - 1])
    && IsGuard(re[b]) && (re[b].Lit? || re[b].Sep? || re[b].Eol?)
  }

  ghost predicate TokenRun(w: string) {
    |w| >= 3 && forall k :: 0 <= k < |w| ==> IsTokenChar(LowerChar(w[k]))
  }

  lemma FencedIsTokenRun(s: string, a: int, b: int)
    requires Fenced(Lower(s), a, b)
    ensures TokenRun(s[a..b]) && Lower(s)[a..b] == Lower(s[a..b])
  {
    forall k | 0 <= k < b - a
      ensures IsTokenChar(LowerChar(s[a..b][k]))
    {
      assert Lower(s)[a + k] == LowerChar(s[a..b][k]);
    }
  }

  lemma AnchoredKeepsRun(ns: seq<Node>, a: nat, b: nat)
    requires 1 <= a <= b <= |ns| && forall k :: a <= k < b ==> ns[k] != Lit('|')
    ensures |Anchored(ns)| == |ns| && Anchored(ns)[a..b] == ns[a..b]
  {
    forall k | a <= k < b
      ensures Anchored(ns)[k] == ns[k]
    {
      AnchoredKeeps(ns, k);
    }
  }

  lemma TokenRunIsLiteral(t: string, w: string, a: nat)
    requires a + |w| <= |t| && t[a..a + |w|] == w && TokenRun(w)
    ensures Nodes(t)[a..a + |w|] == Nodes(w)
    ensures forall k :: a <= k < a + |w| ==> Nodes(t)[k] != Lit('|')
  {
    forall k | a <= k < a + |w|
      ensures t[k] == w[k - a] && t[k] != '|'
    {
      assert t[a..a + |w|][k - a] == t[k];
      assert IsTokenChar(LowerChar(w[k - a]));
    }
  }

  lemma AnchoredHoldsRun(t: string, w: string, a: int)
    requires 1 <= a && a + |w| < |t| && TokenRun(w)
    requires t[a..a + |w|] == w
    requires IsDelimiter(LowerChar(t[a - 1])) && IsDelimiter(LowerChar(t[a + |w|]))
    ensures HoldsRun(Anchored(Nodes(t)), w, a)
  {
    hide Anchored;
    var ns, b := Nodes(t), a + |w|;
    TokenRunIsLiteral(t, w, a);
    AnchoredKeepsRun(ns, a, b);
    assert IsGuard(ns[a - 1]) && IsGuard(ns[b]);
    AnchoredKeepsGuard(ns, a - 1);
    AnchoredKeepsGuard(ns, b);
  }

  lemma FencedRunInPattern(s: string, a: int, b: int)
    requires Fenced(Lower(s), a, b)
    ensures HoldsRun(Plain(s), s[a..b], a)
  {
    FencedIsTokenRun(s, a, b);
    assert s[a..b][b - a - 1] == s[b - 1];
    TrimKeeps(s, b);
    var t := TrimSepEnd(s);
    assert t[a..b] == s[a..b];
    assert Lower(s)[a - 1] == LowerChar(t[a - 1]) && Lower(s)[b] == LowerChar(t[b]);
    AnchoredHoldsRun(t, s[a..b], a);
  }

  /** A match of a pattern that holds a run of literals finds, in the URL, a stretch equal to it up
      to case and closed on both sides. */
  lemma GuardedLiterals(re: seq<Node>, w: string, fold: bool, u: string) returns (x: nat)
    requires HoldsRun(re, w, 1) && TokenRun(w)
    requires Test(re, fold, u)
    ensures x + |w| <= |u| && Lower(u[x..x + |w|]) == Lower(w)
    ensures ClosedLeft(u, x) && ClosedRight(u, x + |w|)
  {
    var i: nat :| i <= |u| && MatchAt(re, fold, u, i);
    assert re[1] == re[1..|w| + 1][0] == NodeOf(w[0]);
    AfterGuard(re, fold, u, i);
    x :| i <= x <= |u| && MatchAt(re[1..], fold, u, x) && ClosedLeft(u, x);
    var q := re[|w| + 1..];
    assert re[1..] == Nodes(w) + q;
    LiteralRun(w, q, fold, u, x);
    assert Lower(u[x..x + |w|]) == Lower(w);
    BeforeGuard(q, fold, u, x + |w|);
  }

  /** A closed stretch of token characters is a token. */
  lemma ClosedStretchIsToken(u: string, x: nat, w: string)
    requires TokenRun(w) && x + |w| <= |u|
    requires Lower(u[x..x + |w|]) == Lower(w)
    requires ClosedLeft(u, x) && ClosedRight(u, x + |w|)
    ensures Lower(w) in TokensOf(Lower(u))
  {
    var lu, y := Lower(u), x + |w|;
    assert lu[x..y] == Lower(u[x..y]);
    forall k | x <= k < y
      ensures IsTokenChar(lu[k])
    {
      assert lu[k] == lu[x..y][k - x] == Lower(w)[k - x];
    }
    assert MaximalRun(lu, x, y);
    TokensAreMaximalRuns(lu, lu[x..y]);
  }

  lemma HeldRunIsToken(re: seq<Node>, w: string, a: int, fold: bool, u: string)
    requires HoldsRun(re, w, a) && TokenRun(w)
    requires Test(re, fold, u)
    ensures Lower(w) in TokensOf(Lower(u))
  {
    TestSuffix(re, a - 1, fold, u);
    var tail := re[a - 1..];
    assert tail[1..|w| + 1] == re[a..a + |w|];
    var x := GuardedLiterals(tail, w, fold, u);
    ClosedStretchIsToken(u, x, w);
  }

  /** If the pattern of a rule matches a URL, every keyword candidate of the rule is a token of the URL. */
  lemma FencedRunIsToken(s: string, a: int, b: int, fold: bool, u: string)
    requires Fenced(Lower(s), a, b)
    requires Test(Plain(s), fold, u)
    ensures Lower(s)[a..b] in TokensOf(Lower(u))
  {
    FencedRunInPattern(s, a, b);
    FencedIsTokenRun(s, a, b);
    HeldRunIsToken(Plain(s), s[a..b], a, fold, u);
  }

  /** A rule its keyword cannot hide: a raw rule must have no keyword at all, so that every URL is
      tested against it. */
  ghost predicate Findable(text: string) {
    IsRawSource(SourceOf(text)) ==> Candidates(text) == []
  }

  /** A raw rule that holds no line end is findable (`.` in `regexpRegExp` does not match one). */
  lemma OneLineRuleIsFindable(text: string)
    requires NoLineEnd(SourceOf(text))
    ensures Findable(text)
  {
    hide IsOptionList;
    var rest, source := StripAt(text), SourceOf(text);
    if IsRawSource(source) {
      var j := OptionsStart(rest) - 1;
      assert rest[j] == source[j] == '/';
      forall c | c in rest[1..j]
        ensures c in source
      {
        var i :| 0 <= i < j - 1 && rest[1..j][i] == c;
        assert source[i + 1] == c;
      }
      assert LooksRaw(text);
    }
  }

  /** An expression that matches every URL. */
  const MatchesAll := RegexEngine(_ => true, (_, _, _) => true)

  lemma RawRuleMatchesAll(text: string, u: string)
    requires IsRawSource(SourceOf(text)) && !StartsWith(text, "!")
    requires OptionsOf(KindsOf(OptionItems(text))).Some?
    ensures Parse(MatchesAll, text).Rule? && PatternMatches(MatchesAll, Parse(MatchesAll, text).filter, u)
  {
    hide SourceOf, OptionsOf, KindsOf, OptionItems;
  }

  /** A rule that is not findable can be missed: some expression matches a URL without its keyword. */
  lemma UnfindableRuleCanBeMissed(text: string, keyword: string)
    requires IsRawSource(SourceOf(text)) && keyword in Candidates(text)
    requires OptionsOf(KindsOf(OptionItems(text))).Some? && !StartsWith(text, "!")
    ensures exists engine, u ::
              && Parse(engine, text).Rule? && PatternMatches(engine, Parse(engine, text).filter, u)
              && keyword !in TokensOf(Lower(u)) + [""]
  {
    hide SourceOf, OptionsOf, KindsOf, OptionItems, LooksRaw, CandidatesOf, Parse, PatternMatches;
    RawRuleMatchesAll(text, "");
    assert keyword != "";
    assert Lower("") == "" && TokensOf("") == [];
    assert keyword !in TokensOf(Lower("")) + [""];
  }

  /** Every candidate of a rule is a fenced run of its source. */
  lemma CandidateIsFenced(text: string, keyword: string) returns (a: int, b: int)
    requires keyword in Candidates(text)
    ensures !LooksRaw(text)
    ensures Fenced(Lower(SourceOf(text)), a, b) && keyword == Lower(SourceOf(text))[a..b]
  {
    KeywordTextIsSource(text);
    var l := Lower(SourceOf(text));
    var found := CandidatesOf(l);
    var i :| 0 <= i < |Candidates(text)| && Candidates(text)[i] == keyword;
    var c := found[i];
    assert c in found;
    CandidatesAreFencedRuns(l, c);
    a, b :| Fenced(l, a, b) && c == l[a - 1..b];
    assert keyword == c[1..] == l[a..b];
  }

  lemma BodyIs(engine: RegexEngine, f: Filter)
    requires Parse(engine, f.text) == Rule(f)
    ensures var source := SourceOf(f.text);
            f.body == if IsRawSource(source) then Raw(source[1..|source| - 1]) else Glob(source)
  {
    hide SourceOf, OptionsOf, KindsOf, OptionItems;
  }

  /** Keyword completeness: whatever URL the pattern of a rule text matches has every keyword candidate
      of the text among its tokens. */
  lemma KeywordCompleteness(text: string, keyword: string, fold: bool, u: string)
    requires keyword in Candidates(text)
    requires Test(Compile(SourceOf(text)), fold, u)
    ensures keyword in TokensOf(Lower(u))
  {
    hide SourceOf, Candidates, Test, Compile, Plain, TokensOf, LooksRaw;
    var source := SourceOf(text);
    var a, b := CandidateIsFenced(text, keyword);
    NormalisationPreservesMeaning(source, fold, u);
    FencedRunIsToken(source, a, b, fold, u);
  }

  /** Whichever keyword a rule was filed under, every URL the rule matches is looked up by it. */
  lemma RuleIsFound(engine: RegexEngine, f: Filter, keyword: string, u: string)
    requires Parse(engine, f.text) == Rule(f) && Findable(f.text)
    requires PossibleKeyword(f.text, keyword)
    requires PatternMatches(engine, f, u)
    ensures keyword == "" || keyword in TokensOf(Lower(u))
  {
    hide Parse, SourceOf, Candidates, Test, Compile, TokensOf;
    BodyIs(engine, f);
    if keyword != "" {
      KeywordCompleteness(f.text, keyword, !f.matchCase, u);
    }
  }

  /** A raw rule broken over two lines that is not findable: its keyword is "abc". */
  const BROKEN := "/.abc.\n/"

  lemma BrokenRawRuleHasKeyword()
    ensures !Findable(BROKEN) && "abc" in Candidates(BROKEN)
  {
    hide LooksRaw, CandidatesOf, KeywordText, SourceOf;
    BrokenSource();
    KeywordTextIsSource(BROKEN);
    BrokenDoesNotLookRaw();
    BrokenCandidate();
    var found := CandidatesOf(Lower(BROKEN));
    var i :| 0 <= i < |found| && found[i] == ".abc";
    assert Candidates(BROKEN)[i] == ".abc"[1..] == "abc";
  }

  lemma BrokenDoesNotLookRaw()
    ensures !LooksRaw(BROKEN)
  {
    hide IsOptionList;
    assert BROKEN == ['/', '.', 'a', 'b', 'c', '.', '\n', '/'];
    assert BROKEN[..2][0] == '/';
    assert StripAt(BROKEN) == BROKEN;
    forall j | 1 <= j < |BROKEN| && BROKEN[j] == '/'
      ensures !NoLineEnd(BROKEN[1..j])
    {
      assert BROKEN[1..j][5] == '\n';
      assert '\n' in BROKEN[1..j] && IsLineEnd('\n');
    }
  }

  lemma BrokenSource()
    ensures SourceOf(BROKEN) == BROKEN
  {
    hide IsOptionList;
    assert BROKEN[..2][0] == '/';
    assert StripAt(BROKEN) == BROKEN;
    var k := OptionsStart(BROKEN);
    assert BROKEN[..|BROKEN|] == BROKEN;
    assert forall j :: 0 <= j < |BROKEN| ==> BROKEN[j] != '$';
  }

  lemma BrokenCandidate()
    ensures ".abc" in CandidatesOf(Lower(BROKEN))
  {
    var l := Lower(BROKEN);
    assert Fenced(l, 2, 5) && l[1..5] == ".abc";
    CandidatesAreFencedRuns(l, ".abc");
  }
}
