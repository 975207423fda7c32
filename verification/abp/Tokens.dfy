/** The two global regular-expression matches behind the keyword index: the tokens of a URL
    (abp.js:601) and the keyword candidates of a rule (abp.js:546). */
module Tokens {
  import opened Text

  /** `[a-z0-9%]` */
  predicate IsTokenChar(c: char) { IsLower(c) || IsDigit(c) || c == '%' }

  /** `[^a-z0-9%*]` */
  predicate IsDelimiter(c: char) { !IsTokenChar(c) && c != '*' }

  lemma CharactersAre(c: char)
    ensures IsTokenChar(c) <==> c as int == 37 || 48 <= c as int <= 57 || 97 <= c as int <= 122
    ensures IsDelimiter(c) <==> c as int !in {37, 42} && !(48 <= c as int <= 57) && !(97 <= c as int <= 122)
  {
  }

  predicate AllTokenChars(s: string) { forall i :: 0 <= i < |s| ==> IsTokenChar(s[i]) }

  /** Where the run of token characters that starts at `i` ends. */
  function RunEnd(s: string, i: nat): (j: nat)
    requires i <= |s|
    ensures i <= j <= |s|
    ensures AllTokenChars(s[i..j])
    ensures j < |s| ==> !IsTokenChar(s[j])
    decreases |s| - i
  {
    if i < |s| && IsTokenChar(s[i]) then
      var j := RunEnd(s, i + 1);
      assert s[i..j] == [s[i]] + s[i + 1..j];
      j
    else i
  }

  lemma {:induction false} RunEndIs(s: string, i: nat, j: nat)
    requires i <= j <= |s|
    requires forall k :: i <= k < j ==> IsTokenChar(s[k])
    requires j < |s| ==> !IsTokenChar(s[j])
    ensures RunEnd(s, i) == j
    decreases |s| - i
  {
    if i < j {
      RunEndIs(s, i + 1, j);
    }
  }

  /** `s.match(/[a-z0-9%]{3,}/g)` from position `i` on, `[]` for no match. */
  function TokensFrom(s: string, i: nat): seq<string>
    requires i <= |s|
    decreases |s| - i
  {
    if i == |s| then []
    else if !IsTokenChar(s[i]) then TokensFrom(s, i + 1)
    else
      var j := RunEnd(s, i + 1);
      (if j - i >= 3 then [s[i..j]] else []) + TokensFrom(s, j)
  }

  function TokensOf(s: string): seq<string> { TokensFrom(s, 0) }

  /** `s[a..b]` is a run of three or more token characters that cannot be extended either way. */
  ghost predicate MaximalRun(s: string, a: int, b: int) {
    && 0 <= a && a + 3 <= b <= |s|
    && (forall k :: a <= k < b ==> IsTokenChar(s[k]))
    && (a > 0 ==> !IsTokenChar(s[a - 1]))
    && (b < |s| ==> !IsTokenChar(s[b]))
  }

  lemma {:induction false} TokensFromAre(s: string, i: nat, c: string)
    requires i <= |s|
    requires 0 < i < |s| ==> !IsTokenChar(s[i - 1]) || !IsTokenChar(s[i])
    ensures c in TokensFrom(s, i) <==> exists a, b :: i <= a && MaximalRun(s, a, b) && c == s[a..b]
    decreases |s| - i
  {
    if i < |s| {
      if !IsTokenChar(s[i]) {
        TokensFromAre(s, i + 1, c);
      } else {
        var j := RunEnd(s, i + 1);
        assert forall k :: i + 1 <= k < j ==> s[k] == s[i + 1..j][k - (i + 1)];
        TokensFromAre(s, j, c);
        if j - i >= 3 {
          assert MaximalRun(s, i, j);
        }
        forall a, b | i <= a < j && MaximalRun(s, a, b)
          ensures a == i && b == j && j - i >= 3
        {
          RunEndIs(s, i + 1, b);
        }
      }
    }
  }

  /** The tokens of a string are exactly its maximal runs of three or more token characters. */
  lemma TokensAreMaximalRuns(s: string, c: string)
    ensures c in TokensOf(s) <==> exists a, b :: MaximalRun(s, a, b) && c == s[a..b]
  {
    TokensFromAre(s, 0, c);
  }

  /** `s.match(/[^a-z0-9%*][a-z0-9%]{3,}(?=[^a-z0-9%*])/g)` from position `i` on. Each match keeps
      its leading delimiter; the closing one is only looked at, so it may open the next match. */
  function CandidatesFrom(s: string, i: nat): (r: seq<string>)
    requires i <= |s|
    ensures forall c :: c in r ==> |c| >= 4
    decreases |s| - i
  {
    if i == |s| then []
    else if !IsDelimiter(s[i]) then CandidatesFrom(s, i + 1)
    else
      var j := RunEnd(s, i + 1);
      if j - (i + 1) >= 3 && j < |s| && s[j] != '*' then [s[i..j]] + CandidatesFrom(s, j)
      else CandidatesFrom(s, i + 1)
  }

  function CandidatesOf(s: string): (r: seq<string>)
    ensures forall c :: c in r ==> |c| >= 4
  {
    CandidatesFrom(s, 0)
  }

  /** `s[a..b]` is a run of three or more token characters between two delimiters. */
  ghost predicate Fenced(s: string, a: int, b: int) {
    && 1 <= a && a + 3 <= b < |s|
    && IsDelimiter(s[a - 1])
    && (forall k :: a <= k < b ==> IsTokenChar(s[k]))
    && IsDelimiter(s[b])
  }

  /** A fenced run that follows the delimiter at `i` ends where the run of token characters does. */
  lemma FencedEndsAt(s: string, i: nat)
    requires i < |s| && IsDelimiter(s[i])
    ensures var j := RunEnd(s, i + 1);
            && (j - (i + 1) >= 3 && j < |s| && s[j] != '*' ==> Fenced(s, i + 1, j))
            && (forall a, b :: i < a <= j && Fenced(s, a, b) ==> a == i + 1 && b == j)
  {
    var j := RunEnd(s, i + 1);
    assert forall k :: i + 1 <= k < j ==> s[k] == s[i + 1..j][k - (i + 1)];
    forall a, b | i < a <= j && Fenced(s, a, b)
      ensures a == i + 1 && b == j
    {
      if a == i + 1 {
        RunEndIs(s, i + 1, b);
      }
    }
  }

  lemma {:induction false} CandidatesFromAre(s: string, i: nat, c: string)
    requires i <= |s|
    ensures c in CandidatesFrom(s, i) <==> exists a, b :: i < a && Fenced(s, a, b) && c == s[a - 1..b]
    decreases |s| - i
  {
    if i < |s| {
      if !IsDelimiter(s[i]) {
        CandidatesFromAre(s, i + 1, c);
      } else {
        var j := RunEnd(s, i + 1);
        FencedEndsAt(s, i);
        if j - (i + 1) >= 3 && j < |s| && s[j] != '*' {
          CandidatesFromAre(s, j, c);
        } else {
          CandidatesFromAre(s, i + 1, c);
          forall a, b | i < a && Fenced(s, a, b)
            ensures i + 1 < a
          {
          }
        }
      }
    }
  }

  /** The candidates of a rule are exactly its fenced runs, each with its leading delimiter. */
  lemma CandidatesAreFencedRuns(s: string, c: string)
    ensures c in CandidatesOf(s) <==> exists a, b :: Fenced(s, a, b) && c == s[a - 1..b]
  {
    CandidatesFromAre(s, 0, c);
  }
}
