/** `CombinedMatcher` (abp.js:623-763): a whitelist, a blacklist and a bounded cache of answers;
    and the proxy decision itself (abp.js:764-777). */
module CombinedMatcher {
  import opened OptionType
  import opened Text
  import opened Tokens
  import opened Rules
  import opened Keyword
  import opened Matcher
  import opened Pattern
  import opened Regex

  const MAX_CACHE_ENTRIES := 1000

  type Hit = Option<Filter>

  predicate IsBlocking(h: Hit) { h.Some? && h.value.blocking }

  // ---------- the cache key ----------

  function CacheKey(location: string, docDomain: string): string {
    location + " " + docDomain + " "
  }

  /** What is left of the cache when one more answer comes in: nothing of a full one. */
  function Kept(cache: map<string, Hit>): map<string, Hit> {
    if |cache| >= 1000 then map[] else cache
  }

  lemma KeyIs(location: string, docDomain: string)
    ensures location + " " + docDomain + " " == CacheKey(location, docDomain)
  {
  }

  /** Two queries with space-free domains share a key only when they are the same query. */
  lemma CacheKeyInjective(l: string, d: string, l': string, d': string)
    requires ' ' !in d && ' ' !in d' && CacheKey(l, d) == CacheKey(l', d')
    ensures l == l' && d == d'
  {
    var k := CacheKey(l, d);
    assert k[|l|] == ' ' && forall i :: |l| < i <= |l| + |d| ==> k[i] == d[i - |l| - 1];
    assert k[|l'|] == ' ' && forall i :: |l'| < i <= |l'| + |d'| ==> k[i] == d'[i - |l'| - 1];
    assert |l| == |l'|;
    assert l == k[..|l|] && l' == k[..|l'|];
    assert d == k[|l| + 1..|l| + 1 + |d|] && d' == k[|l'| + 1..|l'| + 1 + |d'|];
  }

  /** The key of a query is also that of one for a longer location and a space-free domain exactly when its
      own domain has a space. */
  lemma CacheKeyAmbiguousIff(l: string, d: string)
    ensures ' ' in d <==>
            exists l', d' :: l' != l && ' ' !in d' && |l'| > |l| && CacheKey(l', d') == CacheKey(l, d)
  {
    if ' ' in d {
      var a, b := LastSpace(d);
      var l' := l + " " + a;
      assert CacheKey(l', b) == CacheKey(l, d);
    } else {
      forall l', d' | ' ' !in d' && CacheKey(l', d') == CacheKey(l, d)
        ensures l' == l
      {
        CacheKeyInjective(l', d', l, d);
      }
    }
  }

  /** A query without any space shares its key with no other query at all. */
  lemma PlainKeyIsUnique(l: string, d: string, l': string, d': string)
    requires ' ' !in l && ' ' !in d && CacheKey(l, d) == CacheKey(l', d')
    ensures l == l' && d == d'
  {
    var k := CacheKey(l, d);
    assert forall i :: 0 <= i < |l| ==> k[i] == l[i];
    assert forall i :: |l| < i <= |l| + |d| ==> k[i] == d[i - |l| - 1];
    assert k[|l'|] == ' ' && |l'| < |k| - 1;
    assert |l'| == |l|;
    assert l == k[..|l|] && l' == k[..|l'|];
    assert d == k[|l| + 1..|l| + 1 + |d|] && d' == k[|l'| + 1..|l'| + 1 + |d'|];
  }

  /** Any query with a space shares its key with another one: the URL ends, or begins to end, at the
      last space of the domain, or of the URL itself. */
  lemma SharedKey(l: string, d: string) returns (l': string, d': string)
    requires ' ' in l || ' ' in d
    ensures l' != l && CacheKey(l', d') == CacheKey(l, d)
  {
    if ' ' in d {
      var a, b := LastSpace(d);
      l', d' := l + " " + a, b;
      assert CacheKey(l', d') == CacheKey(l, d);
    } else {
      var a, b := LastSpace(l);
      l', d' := a, b + " " + d;
      assert CacheKey(l', d') == CacheKey(l, d);
    }
  }

  lemma {:induction false} LastSpace(d: string) returns (a: string, b: string)
    requires ' ' in d
    ensures d == a + " " + b && ' ' !in b
    decreases |d|
  {
    var c := IndexOf(d, ' ');
    a, b := d[..c], d[c + 1..];
    if ' ' in b {
      var a', b' := LastSpace(b);
      assert d == (a + " " + a') + " " + b';
      a, b := a + " " + a', b';
    }
  }

  // ---------- the decision, rule by rule ----------

  ghost predicate IsRule(engine: RegexEngine, text: string, blocking: bool) {
    Parse(engine, text).Rule? && Parse(engine, text).filter.blocking == blocking
  }

  ghost predicate SomeRuleMatches(engine: RegexEngine, texts: set<string>, blocking: bool, url: string) {
    exists t :: t in texts && IsRule(engine, t, blocking) && TextMatches(engine, t, url)
  }

  /** Scanning every loaded rule: no whitelist rule matches and some blocking rule does. The rules
      come as a set, so their order and repetitions cannot matter. */
  ghost predicate ShouldProxy(engine: RegexEngine, texts: set<string>, url: string) {
    !SomeRuleMatches(engine, texts, false, url) && SomeRuleMatches(engine, texts, true, url)
  }

  /** An engine that knows one URL. */
  function OnlyUrl(url: string): RegexEngine {
    RegexEngine(_ => true, (_, _, u) => u == url)
  }

  lemma SourceOfX()
    ensures var text := "/x/";
            && !StartsWith(text, "!") && !StartsWith(text, "@@")
            && SourceOf(text) == text && text[1..2] == "x" && OptionItems(text) == []
  {
    hide IsOptionList;
    var text := "/x/";
    assert text[..1][0] == '/' && text[..2][0] == '/';
    assert StripAt(text) == text;
    assert OptionsStart(text) == 3 && text[..3] == text;
  }

  lemma RuleX(engine: RegexEngine)
    requires engine.compiles("x")
    ensures Parse(engine, "/x/") == Rule(Filter("/x/", true, false, None, false, Raw("x")))
    ensures Loadable(engine, "/x/")
  {
    hide Findable, Build, SourceOf, OptionItems;
    SourceOfX();
    OneLineRuleIsFindable("/x/");
    assert KindsOf([]) == [];
    BuiltX(engine);
  }

  lemma BuiltX(engine: RegexEngine)
    requires engine.compiles("x") && !StartsWith("/x/", "@@")
    ensures Build(engine, "/x/", "/x/", NoOptions) == Rule(Filter("/x/", true, false, None, false, Raw("x")))
  {
    hide StartsWith;
    assert "/x/"[1..2] == "x";
  }

  /** After a query for `l'` on `d'`, one for `l` on `d` meets its cached answer, and with the one rule
      `text` that answer is wrong. */
  ghost predicate Misleads(engine: RegexEngine, text: string, l': string, d': string, l: string, d: string) {
    && Loadable(engine, text) && CacheKey(l', d') == CacheKey(l, d)
    && ShouldProxy(engine, {text}, l') && !ShouldProxy(engine, {text}, l)
  }

  /** A space is exactly what does harm: a query with one in its URL or its domain can be misled by an
      earlier one, and no other query can. */
  lemma SpacedQueryIsStaleIff(l: string, d: string)
    ensures ' ' in l || ' ' in d <==> exists engine, text, l', d' :: Misleads(engine, text, l', d', l, d)
  {
    hide ShouldProxy, Loadable, CacheKey;
    if ' ' in l || ' ' in d {
      var l', d' := SharedKey(l, d);
      OnlyOneUrl(l', l);
      assert Misleads(OnlyUrl(l'), "/x/", l', d', l, d);
    } else {
      forall engine, text, l', d' | Misleads(engine, text, l', d', l, d)
        ensures false
      {
        PlainKeyIsUnique(l, d, l', d');
      }
    }
  }

  lemma OnlyOneUrl(url: string, other: string)
    requires url != other
    ensures var engine := OnlyUrl(url);
            Loadable(engine, "/x/") && ShouldProxy(engine, {"/x/"}, url) && !ShouldProxy(engine, {"/x/"}, other)
  {
    var engine, text := OnlyUrl(url), "/x/";
    hide Loadable;
    RuleX(engine);
    hide Parse;
    assert TextMatches(engine, text, url) && !TextMatches(engine, text, other);
    assert IsRule(engine, text, true) && !IsRule(engine, text, false);
  }

  lemma InternedIsRule(engine: RegexEngine, f: Filter)
    requires Interned(engine, f)
    ensures IsRule(engine, f.text, f.blocking) && !IsRule(engine, f.text, !f.blocking)
  {
    hide Loadable, Parse;
  }

  class CombinedMatcher {
    const engine: RegexEngine
    const blacklist: Matcher
    const whitelist: Matcher
    var resultCache: map<string, Hit>
    var cacheEntries: nat
    /** Which query each cached answer was computed for. */
    ghost var origin: map<string, (string, string)>

    /** The answer of `matchesAnyInternal` on the filters held now. */
    ghost function Answer(location: string): Hit
      reads blacklist, whitelist
    {
      var words := LookupWords(location);
      var white := FirstHit(engine, whitelist.filterByKeyword, words, location);
      if white.Some? then white else FirstHit(engine, blacklist.filterByKeyword, words, location)
    }

    /** A list that holds filters of one kind only. */
    ghost predicate OfKind(m: Matcher, blocking: bool)
      reads m
    {
      forall t :: t in m.Texts() ==> IsRule(engine, t, blocking)
    }

    ghost predicate ListsValid()
      reads blacklist, whitelist
    {
      && blacklist != whitelist
      && blacklist.engine == engine && whitelist.engine == engine
      && blacklist.Valid() && whitelist.Valid()
      && OfKind(blacklist, true) && OfKind(whitelist, false)
    }

    /** Every cached answer is the answer to the query it was computed for. */
    ghost predicate CacheSound()
      reads this, blacklist, whitelist
    {
      && origin.Keys == resultCache.Keys
      && cacheEntries == |resultCache| <= MAX_CACHE_ENTRIES
      && forall k :: k in origin ==>
           k == CacheKey(origin[k].0, origin[k].1) && resultCache[k] == Answer(origin[k].0)
    }

    ghost predicate Valid()
      reads this, blacklist, whitelist
    {
      ListsValid() && CacheSound()
    }

    /** No query with a space in its domain is remembered by the cache. */
    ghost predicate OnlyPlainDomains()
      reads this
    {
      forall k :: k in origin ==> ' ' !in origin[k].1
    }

    /** The texts of all held filters. */
    ghost function Texts(): set<string>
      reads blacklist, whitelist
    {
      blacklist.Texts() + whitelist.Texts()
    }

    constructor (engine: RegexEngine)
      ensures Valid() && fresh(blacklist) && fresh(whitelist) && this.engine == engine
      ensures Texts() == {} && OnlyPlainDomains() && resultCache == map[]
    {
      this.engine := engine;
      blacklist := new Matcher(engine);
      whitelist := new Matcher(engine);
      resultCache, cacheEntries, origin := map[], 0, map[];
    }

    method DropCache()
      modifies this
      ensures CacheSound() && OnlyPlainDomains() && cacheEntries == 0 && resultCache == map[]
    {
      resultCache, cacheEntries, origin := map[], 0, map[];
    }

    method Clear()
      requires Valid()
      modifies this, blacklist, whitelist
      ensures Valid() && Texts() == {} && OnlyPlainDomains() && resultCache == map[]
    {
      blacklist.Clear();
      whitelist.Clear();
      DropCache();
    }

    method AddToList(filter: Filter)
      requires ListsValid() && Interned(engine, filter)
      modifies blacklist, whitelist
      ensures ListsValid() && Texts() == old(Texts()) + {filter.text}
    {
      hide Loadable, Indexed, Best, Filed, Parse;
      InternedIsRule(engine, filter);
      if !filter.blocking {
        whitelist.Add(filter);
      } else {
        blacklist.Add(filter);
      }
    }

    method RemoveFromList(filter: Filter)
      requires ListsValid() && Interned(engine, filter)
      modifies blacklist, whitelist
      ensures ListsValid() && Texts() == old(Texts()) - {filter.text}
    {
      hide Loadable, Indexed, Unfiled, Parse;
      InternedIsRule(engine, filter);
      if !filter.blocking {
        whitelist.Remove(filter);
      } else {
        blacklist.Remove(filter);
      }
      assert !IsRule(engine, filter.text, !filter.blocking);
    }

    method Add(filter: Filter)
      requires Valid() && Interned(engine, filter)
      modifies this, blacklist, whitelist
      ensures Valid() && Texts() == old(Texts()) + {filter.text} && resultCache == map[]
      ensures old(OnlyPlainDomains()) ==> OnlyPlainDomains()
    {
      hide ListsValid, Interned, FirstHit;
      AddToList(filter);
      if cacheEntries > 0 {
        DropCache();
      }
    }

    method Remove(filter: Filter)
      requires Valid() && Interned(engine, filter)
      modifies this, blacklist, whitelist
      ensures Valid() && Texts() == old(Texts()) - {filter.text} && resultCache == map[]
      ensures old(OnlyPlainDomains()) ==> OnlyPlainDomains()
    {
      hide ListsValid, Interned, FirstHit;
      RemoveFromList(filter);
      if cacheEntries > 0 {
        DropCache();
      }
    }

    /** The interleaved scan of both lists returns what the whitelist alone returns, or, when that is
        nothing, what the blacklist alone returns. */
    method MatchesAnyInternal(location: string) returns (r: Hit)
      requires Valid()
      ensures r == Answer(location)
    {
      ghost var white, black := whitelist.filterByKeyword, blacklist.filterByKeyword;
      var candidates := LookupWords(location);
      var blacklistHit: Hit := None;
      for i := 0 to |candidates|
        invariant FirstHit(engine, white, candidates, location) == FirstHit(engine, white, candidates[i..], location)
        invariant FirstHit(engine, black, candidates, location)
               == if blacklistHit.Some? then blacklistHit else FirstHit(engine, black, candidates[i..], location)
      {
        var substr := candidates[i];
        assert candidates[i..][1..] == candidates[i + 1..];
        if substr in whitelist.filterByKeyword {
          r := whitelist.CheckEntryMatch(substr, location);
          if r.Some? {
            return;
          }
        }
        if substr in blacklist.filterByKeyword && blacklistHit.None? {
          blacklistHit := blacklist.CheckEntryMatch(substr, location);
        }
      }
      return blacklistHit;
    }

    method Remember(location: string, docDomain: string, r: Hit)
      requires CacheSound() && CacheKey(location, docDomain) !in resultCache && r == Answer(location)
      modifies this
      ensures CacheSound()
      ensures old(OnlyPlainDomains()) && ' ' !in docDomain ==> OnlyPlainDomains()
      ensures resultCache == Kept(old(resultCache))[CacheKey(location, docDomain) := r]
    {
      hide CacheKey, Answer;
      if cacheEntries >= MAX_CACHE_ENTRIES {
        DropCache();
      }
      Store(location, docDomain, r);
    }

    method Store(location: string, docDomain: string, r: Hit)
      requires CacheSound() && CacheKey(location, docDomain) !in resultCache && r == Answer(location)
      requires cacheEntries < MAX_CACHE_ENTRIES
      modifies this
      ensures CacheSound()
      ensures old(OnlyPlainDomains()) && ' ' !in docDomain ==> OnlyPlainDomains()
      ensures resultCache == old(resultCache)[CacheKey(location, docDomain) := r]
    {
      hide CacheKey, Answer;
      var key := CacheKey(location, docDomain);
      resultCache := resultCache[key := r];
      cacheEntries := cacheEntries + 1;
      origin := origin[key := (location, docDomain)];
    }

    /** An answer is the one remembered under its key, or else a fresh one, and is remembered. It is a
        fresh answer to some query with the same key; to this one if it has no space itself, whatever was
        asked before, or if no domain has ever held a space. */
    method MatchesAny(location: string, docDomain: string) returns (r: Hit)
      requires Valid()
      modifies this
      ensures Valid()
      ensures var key := CacheKey(location, docDomain);
              && r == (if key in old(resultCache) then old(resultCache)[key] else Answer(location))
              && key in resultCache && resultCache[key] == r
              && (key in old(resultCache) ==> resultCache == old(resultCache))
      ensures var key := location + " " + docDomain + " ";
              key !in old(resultCache) ==> resultCache == Kept(old(resultCache))[key := r]
      ensures |resultCache| <= 1000
      ensures exists l, d :: CacheKey(l, d) == CacheKey(location, docDomain) && r == Answer(l)
      ensures ' ' !in location && ' ' !in docDomain ==> r == Answer(location)
      ensures old(OnlyPlainDomains()) && ' ' !in docDomain ==> r == Answer(location) && OnlyPlainDomains()
    {
      hide CacheKey, Answer, ListsValid;
      var key := CacheKey(location, docDomain);
      KeyIs(location, docDomain);
      if key in resultCache {
        ghost var (l, d) := origin[key];
        if OnlyPlainDomains() && ' ' !in docDomain {
          CacheKeyInjective(l, d, location, docDomain);
        }
        if ' ' !in location && ' ' !in docDomain {
          PlainKeyIsUnique(location, docDomain, l, d);
        }
        return resultCache[key];
      }
      r := MatchesAnyInternal(location);
      Remember(location, docDomain, r);
    }

    /** What a list finds says that some rule of its kind matches. */
    lemma ListHit(m: Matcher, blocking: bool, location: string)
      requires m.Valid() && m.engine == engine && OfKind(m, blocking)
      ensures FirstHit(engine, m.filterByKeyword, LookupWords(location), location).Some?
              <==> SomeRuleMatches(engine, m.Texts(), blocking, location)
      ensures !SomeRuleMatches(engine, m.Texts(), !blocking, location)
      ensures var hit := FirstHit(engine, m.filterByKeyword, LookupWords(location), location);
              hit.Some? ==> hit.value.blocking == blocking
    {
      hide Indexed, FirstHit, Parse, TextMatches;
      IndexRefinesScan(engine, m.filterByKeyword, m.keywordByFilter, location);
      if FirstHit(engine, m.filterByKeyword, LookupWords(location), location).Some? {
        HitIsHeld(engine, m.filterByKeyword, m.keywordByFilter, LookupWords(location), location);
      }
    }

    /** What an answer says about the loaded rules. */
    lemma AnswerIs(location: string)
      requires ListsValid()
      ensures Answer(location).Some? && Answer(location).value.blocking <==> ShouldProxy(engine, Texts(), location)
    {
      hide FirstHit, TextMatches, IsRule, OfKind;
      ListHit(whitelist, false, location);
      ListHit(blacklist, true, location);
    }

    /** `true` is the proxy, `false` is `DIRECT`. */
    method FindProxyForURL(url: string, host: string) returns (proxy: bool)
      requires Valid()
      modifies this
      ensures Valid() && Texts() == old(Texts())
      ensures old(OnlyPlainDomains()) && ' ' !in host ==>
                OnlyPlainDomains() && (proxy <==> ShouldProxy(engine, Texts(), url))
      ensures (' ' !in url && ' ' !in host) || CacheKey(url, host) !in old(resultCache) ==>
                (proxy <==> ShouldProxy(engine, Texts(), url))
      ensures var key := CacheKey(url, host);
              && key in resultCache && (proxy <==> IsBlocking(resultCache[key]))
              && (key in old(resultCache) ==> resultCache == old(resultCache))
    {
      hide ShouldProxy, Indexed, FirstHit, Parse;
      var r := MatchesAny(url, host);
      AnswerIs(url);
      proxy := IsBlocking(r);
    }
  }

  lemma LoadableParses(engine: RegexEngine, text: string)
    requires Loadable(engine, text)
    ensures Parse(engine, text).Rule? && Interned(engine, Parse(engine, text).filter)
    ensures Parse(engine, text).filter.text == text
  {
    hide OptionsOf, KindsOf, OptionItems, SourceOf, Usable, Findable;
  }

  /** Loading the rule array (abp.js:768-770). */
  method Load(engine: RegexEngine, rules: seq<string>) returns (m: CombinedMatcher)
    requires forall t :: t in rules ==> Loadable(engine, t)
    ensures fresh(m) && m.Valid() && m.engine == engine && m.OnlyPlainDomains() && m.resultCache == map[]
    ensures m.Texts() == set t | t in rules
  {
    hide Parse, Loadable, Interned, CombinedMatcher.ListsValid, CombinedMatcher.CacheSound;
    m := new CombinedMatcher(engine);
    for i := 0 to |rules|
      invariant fresh(m) && fresh(m.blacklist) && fresh(m.whitelist)
      invariant m.Valid() && m.engine == engine && m.OnlyPlainDomains() && m.resultCache == map[]
      invariant m.Texts() == set t | t in rules[..i]
    {
      var parsed := FromText(engine, rules[i]);
      assert rules[i] in rules;
      LoadableParses(engine, rules[i]);
      m.Add(parsed.filter);
      assert rules[..i + 1] == rules[..i] + [rules[i]];
    }
    assert rules[..|rules|] == rules;
  }

  /** A query not yet remembered is answered right; the next with its key gets that answer, whatever the
      rules say of it. */
  method AskTwice(m: CombinedMatcher, l': string, d': string, l: string, d: string)
    returns (first: bool, second: bool)
    requires m.Valid() && CacheKey(l', d') !in m.resultCache && CacheKey(l', d') == CacheKey(l, d)
    modifies m
    ensures m.Valid() && m.Texts() == old(m.Texts())
    ensures first == second && (first <==> ShouldProxy(m.engine, m.Texts(), l'))
  {
    hide ShouldProxy, CacheKey, CombinedMatcher.ListsValid, CombinedMatcher.CacheSound;
    first := m.FindProxyForURL(l', d');
    second := m.FindProxyForURL(l, d);
  }

  /** A misled query gets the wrong decision. */
  method StaleReply(engine: RegexEngine, text: string, l': string, d': string, l: string, d: string)
    returns (proxy: bool)
    requires Misleads(engine, text, l', d', l, d)
    ensures proxy && !ShouldProxy(engine, {text}, l)
  {
    hide ShouldProxy, CacheKey, Loadable, CombinedMatcher.ListsValid, CombinedMatcher.CacheSound;
    var m := Load(engine, [text]);
    assert (set t | t in [text]) == {text};
    var first;
    first, proxy := AskTwice(m, l', d', l, d);
  }
}
