/** `Matcher` (abp.js:469-621): rules filed by keyword, and URLs answered by looking only at the
    rules filed under their tokens. */
module Matcher {
  import opened OptionType
  import opened Text
  import opened Tokens
  import opened Rules
  import opened Keyword
  import Domains

  /** A bare filter, or an array of filters. */
  datatype Entry = One(filter: Filter) | Many(filters: seq<Filter>)

  type Table = map<string, Entry>

  function Items(e: Entry): seq<Filter> {
    match e
    case One(f) => [f]
    case Many(fs) => fs
  }

  /** A line the engine can load: a rule it can use and find, and not the text that
      `_checkEntryMatch` takes for its own marker (abp.js:588). */
  ghost predicate Loadable(engine: RegexEngine, text: string) {
    && Parse(engine, text).Rule?
    && Usable(Parse(engine, text).filter)
    && Findable(text)
    && text != "#this"
  }

  /** Filters are interned by text (abp.js:83-96): a filter is what its text parses to. */
  ghost predicate Interned(engine: RegexEngine, f: Filter) {
    Loadable(engine, f.text) && Parse(engine, f.text) == Rule(f)
  }

  /** The rule with this text matches the URL. */
  ghost predicate TextMatches(engine: RegexEngine, text: string, url: string) {
    Parse(engine, text).Rule? && Matches(engine, Parse(engine, text).filter, url)
  }

  // ---------- the representation ----------

  ghost predicate Distinct(fs: seq<Filter>) {
    forall i, j :: 0 <= i < j < |fs| ==> fs[i] != fs[j]
  }

  ghost predicate GoodEntry(engine: RegexEngine, e: Entry) {
    && (e.Many? ==> |e.filters| >= 2)
    && (forall f :: f in Items(e) ==> Interned(engine, f))
    && Distinct(Items(e))
  }

  /** Every filter of an entry is recorded under that entry's keyword, a keyword it may have. */
  ghost predicate FiledRight(k: string, e: Entry, keys: map<string, string>) {
    forall f :: f in Items(e) ==> f.text in keys && keys[f.text] == k && PossibleKeyword(f.text, k)
  }

  /** The recorded keyword of a text leads to its filter. */
  ghost predicate Reachable(table: Table, keys: map<string, string>, text: string)
    requires text in keys
  {
    keys[text] in table && exists f :: f in Items(table[keys[text]]) && f.text == text
  }

  /** Every held text sits exactly once, under its recorded keyword, in an entry that is one bare
      filter or an array of at least two. */
  ghost predicate Indexed(engine: RegexEngine, table: Table, keys: map<string, string>) {
    && (forall k :: k in table ==> GoodEntry(engine, table[k]) && FiledRight(k, table[k], keys))
    && (forall t :: t in keys ==> Reachable(table, keys, t))
  }

  function Appended(e: Entry, f: Filter): Entry { Many(Items(e) + [f]) }

  function Filed(table: Table, k: string, f: Filter): Table {
    table[k := if k in table then Appended(table[k], f) else One(f)]
  }

  function IndexIn(fs: seq<Filter>, f: Filter): (i: nat)
    ensures i <= |fs|
    ensures f in fs ==> i < |fs| && fs[i] == f
  {
    if fs == [] || fs[0] == f then 0 else 1 + IndexIn(fs[1..], f)
  }

  function Unfiled(table: Table, k: string, f: Filter): Table
    requires k in table
  {
    if |Items(table[k])| <= 1 then table - {k}
    else
      var fs := Items(table[k]);
      var i := IndexIn(fs, f);
      if i == |fs| then table
      else
        var rest := fs[..i] + fs[i + 1..];
        table[k := if |rest| == 1 then One(rest[0]) else Many(rest)]
  }

  lemma AppendedIsGood(engine: RegexEngine, e: Entry, f: Filter)
    requires GoodEntry(engine, e) && Interned(engine, f) && f !in Items(e)
    ensures GoodEntry(engine, Appended(e, f))
  {
    hide Interned, PossibleKeyword;
  }

  lemma FilingEntry(
      engine: RegexEngine, table: Table, keys: map<string, string>, k: string, f: Filter, h: string)
    requires Interned(engine, f) && f.text !in keys && PossibleKeyword(f.text, k)
    requires h in table ==> GoodEntry(engine, table[h]) && FiledRight(h, table[h], keys)
    requires h in table || h == k
    ensures GoodEntry(engine, Filed(table, k, f)[h])
    ensures FiledRight(h, Filed(table, k, f)[h], keys[f.text := k])
  {
    hide Interned, PossibleKeyword;
    if h == k && h in table {
      AppendedIsGood(engine, table[h], f);
    }
  }

  lemma FilingKeepsIndexed(engine: RegexEngine, table: Table, keys: map<string, string>, k: string, f: Filter)
    requires Indexed(engine, table, keys) && Interned(engine, f) && f.text !in keys
    requires PossibleKeyword(f.text, k)
    ensures Indexed(engine, Filed(table, k, f), keys[f.text := k])
  {
    hide Interned, PossibleKeyword, GoodEntry, FiledRight, Reachable;
    var table', keys' := Filed(table, k, f), keys[f.text := k];
    forall h | h in table'
      ensures GoodEntry(engine, table'[h]) && FiledRight(h, table'[h], keys')
    {
      FilingEntry(engine, table, keys, k, f, h);
    }
    forall t | t in keys'
      ensures Reachable(table', keys', t)
    {
      FilingReaches(table, keys, k, f, t);
    }
  }

  lemma FilingReaches(table: Table, keys: map<string, string>, k: string, f: Filter, t: string)
    requires f.text !in keys
    requires t in keys ==> Reachable(table, keys, t)
    requires t in keys || t == f.text
    ensures Reachable(Filed(table, k, f), keys[f.text := k], t)
  {
    var table' := Filed(table, k, f);
    if t == f.text {
      assert f in Items(table'[k]);
    } else {
      var g :| g in Items(table[keys[t]]) && g.text == t;
      assert g in Items(table'[keys[t]]);
    }
  }

  /** The filters of an entry without one of them. */
  function Without(fs: seq<Filter>, f: Filter): seq<Filter>
    requires f in fs
  {
    var i := IndexIn(fs, f);
    fs[..i] + fs[i + 1..]
  }

  lemma WithoutIs(fs: seq<Filter>, f: Filter)
    requires f in fs && Distinct(fs)
    ensures Distinct(Without(fs, f)) && |Without(fs, f)| == |fs| - 1
    ensures forall g :: g in Without(fs, f) <==> g in fs && g != f
  {
    var i, rest := IndexIn(fs, f), Without(fs, f);
    assert forall j :: 0 <= j < |rest| ==> rest[j] == if j < i then fs[j] else fs[j + 1];
    forall g | g in fs && g != f
      ensures g in rest
    {
      var j :| 0 <= j < |fs| && fs[j] == g;
      assert rest[if j < i then j else j - 1] == g;
    }
  }

  lemma UnfiledItems(engine: RegexEngine, table: Table, k: string, f: Filter)
    requires k in table && GoodEntry(engine, table[k]) && f in Items(table[k])
    ensures var table' := Unfiled(table, k, f);
            && table'.Keys <= table.Keys
            && (forall h :: h in table && h != k ==> h in table' && table'[h] == table[h])
            && (k in table' ==> GoodEntry(engine, table'[k]))
            && (forall g :: g != f && g in Items(table[k]) ==> k in table')
            && (forall g :: k in table' && g in Items(table'[k]) <==> g in Items(table[k]) && g != f)
  {
    hide Interned;
    var fs, rest := Items(table[k]), Without(Items(table[k]), f);
    WithoutIs(fs, f);
    if |fs| == 1 {
      assert fs == [f] && rest == [];
    } else {
      assert Unfiled(table, k, f) == table[k := if |rest| == 1 then One(rest[0]) else Many(rest)];
      assert |rest| == 1 ==> rest == [rest[0]];
      assert Items(Unfiled(table, k, f)[k]) == rest;
    }
  }

  lemma HeldIsFiled(engine: RegexEngine, table: Table, keys: map<string, string>, f: Filter)
    requires Indexed(engine, table, keys) && Interned(engine, f) && f.text in keys
    ensures keys[f.text] in table && f in Items(table[keys[f.text]])
  {
    assert Reachable(table, keys, f.text);
    var k := keys[f.text];
    var g :| g in Items(table[k]) && g.text == f.text;
    assert GoodEntry(engine, table[k]);
    assert Interned(engine, g);
  }

  lemma UnfilingEntry(engine: RegexEngine, table: Table, keys: map<string, string>, f: Filter, h: string)
    requires f.text in keys && keys[f.text] in table && f in Items(table[keys[f.text]])
    requires GoodEntry(engine, table[keys[f.text]])
    requires h in Unfiled(table, keys[f.text], f) && h in table
    requires GoodEntry(engine, table[h]) && FiledRight(h, table[h], keys)
    requires Interned(engine, f)
    ensures GoodEntry(engine, Unfiled(table, keys[f.text], f)[h])
    ensures FiledRight(h, Unfiled(table, keys[f.text], f)[h], keys - {f.text})
  {
    hide PossibleKeyword, Unfiled, Distinct, Interned;
    var k := keys[f.text];
    UnfiledItems(engine, table, k, f);
    forall x | x in Items(Unfiled(table, k, f)[h])
      ensures x in Items(table[h]) && x.text != f.text
    {
      assert x in Items(table[h]);
      if h == k {
        InternedByText(engine, x, f);
      }
    }
  }

  lemma InternedByText(engine: RegexEngine, f: Filter, g: Filter)
    requires Interned(engine, f) && Interned(engine, g) && f != g
    ensures f.text != g.text
  {
    hide Loadable, Parse;
  }

  lemma UnfilingKeepsIndexed(engine: RegexEngine, table: Table, keys: map<string, string>, f: Filter)
    requires Indexed(engine, table, keys) && Interned(engine, f) && f.text in keys
    ensures keys[f.text] in table && f in Items(table[keys[f.text]])
    ensures Indexed(engine, Unfiled(table, keys[f.text], f), keys - {f.text})
  {
    hide Interned, PossibleKeyword, GoodEntry, FiledRight, Reachable;
    HeldIsFiled(engine, table, keys, f);
    var table', keys' := Unfiled(table, keys[f.text], f), keys - {f.text};
    assert table'.Keys <= table.Keys;
    forall h | h in table'
      ensures GoodEntry(engine, table'[h]) && FiledRight(h, table'[h], keys')
    {
      UnfilingEntry(engine, table, keys, f, h);
    }
    forall t | t in keys'
      ensures Reachable(table', keys', t)
    {
      UnfilingReaches(engine, table, keys, f, t);
    }
  }

  lemma UnfilingReaches(engine: RegexEngine, table: Table, keys: map<string, string>, f: Filter, t: string)
    requires f.text in keys && keys[f.text] in table && GoodEntry(engine, table[keys[f.text]])
    requires f in Items(table[keys[f.text]])
    requires t in keys && t != f.text && Reachable(table, keys, t)
    ensures Reachable(Unfiled(table, keys[f.text], f), keys - {f.text}, t)
  {
    hide GoodEntry, Unfiled;
    var k, h := keys[f.text], keys[t];
    var x :| x in Items(table[h]) && x.text == t;
    UnfiledItems(engine, table, k, f);
    assert x in Items(Unfiled(table, k, f)[h]);
  }

  // ---------- looking a URL up ----------

  /** The tokens of the URL, then the empty keyword. */
  function LookupWords(url: string): seq<string> { TokensOf(Lower(url)) + [""] }

  function FirstMatch(engine: RegexEngine, fs: seq<Filter>, url: string): Option<Filter> {
    if fs == [] then None
    else if Matches(engine, fs[0], url) then Some(fs[0])
    else FirstMatch(engine, fs[1..], url)
  }

  /** The first match of the entry under one word. */
  function EntryHit(engine: RegexEngine, table: Table, word: string, url: string): Option<Filter> {
    if word in table then FirstMatch(engine, Items(table[word]), url) else None
  }

  /** The first match, word after word. */
  function FirstHit(engine: RegexEngine, table: Table, words: seq<string>, url: string): Option<Filter> {
    if words == [] then None
    else
      var hit := EntryHit(engine, table, words[0], url);
      if hit.Some? then hit else FirstHit(engine, table, words[1..], url)
  }

  lemma {:induction false} FirstMatchIs(engine: RegexEngine, fs: seq<Filter>, url: string)
    ensures FirstMatch(engine, fs, url).Some? <==> exists f :: f in fs && Matches(engine, f, url)
    ensures FirstMatch(engine, fs, url).Some? ==>
              FirstMatch(engine, fs, url).value in fs && Matches(engine, FirstMatch(engine, fs, url).value, url)
  {
    if fs != [] {
      FirstMatchIs(engine, fs[1..], url);
      assert forall f :: f in fs ==> f == fs[0] || f in fs[1..];
    }
  }

  lemma {:induction false} FirstHitIs(engine: RegexEngine, table: Table, words: seq<string>, url: string)
    ensures FirstHit(engine, table, words, url).Some? <==>
            exists w :: w in words && EntryHit(engine, table, w, url).Some?
    ensures FirstHit(engine, table, words, url).Some? ==>
              exists w :: w in words && FirstHit(engine, table, words, url) == EntryHit(engine, table, w, url)
  {
    if words != [] {
      FirstHitIs(engine, table, words[1..], url);
      assert forall w :: w in words ==> w == words[0] || w in words[1..];
      assert words[0] in words;
    }
  }

  /** What a lookup finds is held and matches. */
  lemma HitIsHeld(engine: RegexEngine, table: Table, keys: map<string, string>, words: seq<string>, url: string)
    requires Indexed(engine, table, keys) && FirstHit(engine, table, words, url).Some?
    ensures var f := FirstHit(engine, table, words, url).value;
            f.text in keys && Parse(engine, f.text) == Rule(f) && Matches(engine, f, url)
  {
    hide Parse, Loadable, PossibleKeyword, Matches;
    var hit := FirstHit(engine, table, words, url);
    FirstHitIs(engine, table, words, url);
    var w :| w in words && hit == EntryHit(engine, table, w, url);
    FirstMatchIs(engine, Items(table[w]), url);
    assert GoodEntry(engine, table[w]) && FiledRight(w, table[w], keys);
    assert Interned(engine, hit.value);
  }

  /** A held rule that matches is under one of the words of the URL. */
  lemma MatchIsHit(engine: RegexEngine, table: Table, keys: map<string, string>, t: string, url: string)
    requires Indexed(engine, table, keys) && t in keys && TextMatches(engine, t, url)
    ensures FirstHit(engine, table, LookupWords(url), url).Some?
  {
    hide Parse, Loadable, PossibleKeyword, TokensOf;
    assert Reachable(table, keys, t);
    var k := keys[t];
    var f :| f in Items(table[k]) && f.text == t;
    assert GoodEntry(engine, table[k]) && FiledRight(k, table[k], keys);
    InternedIsFindable(engine, f);
    RuleIsFound(engine, f, k, url);
    FirstMatchIs(engine, Items(table[k]), url);
    assert k in LookupWords(url) && EntryHit(engine, table, k, url).Some?;
    FirstHitIs(engine, table, LookupWords(url), url);
  }

  lemma InternedIsFindable(engine: RegexEngine, f: Filter)
    requires Interned(engine, f)
    ensures Parse(engine, f.text) == Rule(f) && Findable(f.text)
  {
    hide Parse, Findable;
  }

  /** Looking up by keyword refines scanning every held rule: it finds something exactly when some
      held rule matches. */
  lemma IndexRefinesScan(engine: RegexEngine, table: Table, keys: map<string, string>, url: string)
    requires Indexed(engine, table, keys)
    ensures FirstHit(engine, table, LookupWords(url), url).Some? <==>
            exists t :: t in keys && TextMatches(engine, t, url)
  {
    hide Indexed, FirstHit, Parse, Matches;
    var hit := FirstHit(engine, table, LookupWords(url), url);
    if hit.Some? {
      HitIsHeld(engine, table, keys, LookupWords(url), url);
      assert TextMatches(engine, hit.value.text, url);
    }
    if t :| t in keys && TextMatches(engine, t, url) {
      MatchIsHit(engine, table, keys, t, url);
    }
  }

  // ---------- choosing a keyword ----------

  const MAX_COUNT := 16777215

  function CountOf(table: Table, word: string): nat {
    if word in table then |Items(table[word])| else 0
  }

  /** A keyword with fewer rules is better; among equals, a longer one. */
  predicate Better(table: Table, c: string, d: string) {
    CountOf(table, c) < CountOf(table, d) || (CountOf(table, c) == CountOf(table, d) && |c| > |d|)
  }

  /** The first of the best candidates, or the empty keyword when every entry is too full. */
  ghost predicate Best(table: Table, cands: seq<string>, r: string) {
    if r == "" then forall i :: 0 <= i < |cands| ==> CountOf(table, cands[i]) > MAX_COUNT
    else
      && CountOf(table, r) <= MAX_COUNT
      && exists i :: 0 <= i < |cands| && cands[i] == r
           && (forall j :: 0 <= j < i ==> Better(table, r, cands[j]))
           && (forall j :: i < j < |cands| ==> !Better(table, cands[j], r))
  }

  lemma BestSnoc(table: Table, cands: seq<string>, r: string, c: string)
    requires Best(table, cands, r) && c != ""
    ensures Best(table, cands + [c],
                 if (if r == "" then CountOf(table, c) <= MAX_COUNT else Better(table, c, r)) then c else r)
  {
    hide CountOf;
    var more := cands + [c];
    assert more[|cands|] == c && forall j :: 0 <= j < |cands| ==> more[j] == cands[j];
    if r != "" {
      var i :| 0 <= i < |cands| && cands[i] == r
        && (forall j :: 0 <= j < i ==> Better(table, r, cands[j]))
        && (forall j :: i < j < |cands| ==> !Better(table, cands[j], r));
      if Better(table, c, r) {
        assert more[|cands|] == c;
        assert forall j :: 0 <= j < |cands| ==> Better(table, c, more[j]);
      } else {
        assert more[i] == r;
      }
    } else if CountOf(table, c) <= MAX_COUNT {
      assert more[|cands|] == c;
      assert forall j :: 0 <= j < |cands| ==> more[j] == cands[j];
    }
  }

  /** How `c` compares with `r`: it has more rules filed under it or, with as many, is no longer. */
  ghost predicate NoBetter(table: Table, c: string, r: string) {
    var n := if r in table then |Items(table[r])| else 0;
    var m := if c in table then |Items(table[c])| else 0;
    m > n || (m == n && |c| <= |r|)
  }

  /** The chosen keyword is a candidate with the fewest rules and, among those, the longest and then the
      first; there is none only when each candidate has 2^24 rules or more. */
  lemma BestIs(table: Table, cands: seq<string>, r: string)
    requires Best(table, cands, r)
    ensures r == "" ==> forall c :: c in cands ==> c in table && |Items(table[c])| >= 0x100_0000
    ensures r != "" ==>
              exists i :: 0 <= i < |cands| && cands[i] == r && (r in table ==> |Items(table[r])| < 0x100_0000)
                && (forall j :: 0 <= j < |cands| ==> NoBetter(table, cands[j], r))
                && (forall j :: 0 <= j < i ==> !NoBetter(table, r, cands[j]))
  {
  }

  ghost function TextsOf(fs: seq<Filter>): set<string> {
    set f | f in fs :: f.text
  }

  lemma TextsOfSnoc(fs: seq<Filter>, i: nat)
    requires i < |fs|
    ensures TextsOf(fs[..i + 1]) == TextsOf(fs[..i]) + {fs[i].text}
  {
    assert fs[..i + 1] == fs[..i] + [fs[i]];
  }

  class Matcher {
    const engine: RegexEngine
    var filterByKeyword: Table
    var keywordByFilter: map<string, string>

    ghost predicate Valid()
      reads this
    {
      Indexed(engine, filterByKeyword, keywordByFilter)
    }

    /** The texts of the held filters. */
    ghost function Texts(): set<string>
      reads this
    {
      keywordByFilter.Keys
    }

    constructor (engine: RegexEngine)
      ensures Valid() && Texts() == {} && this.engine == engine
    {
      this.engine := engine;
      filterByKeyword, keywordByFilter := map[], map[];
    }

    method Clear()
      modifies this
      ensures Valid() && Texts() == {}
    {
      filterByKeyword, keywordByFilter := map[], map[];
    }

    method FindKeyword(filter: Filter) returns (result: string)
      ensures PossibleKeyword(filter.text, result)
      ensures Best(filterByKeyword, Candidates(filter.text), result)
    {
      hide Candidates;
      var candidates := Candidates(filter.text);
      result := "";
      var resultCount, resultLength := MAX_COUNT, 0;
      for i := 0 to |candidates|
        invariant resultLength == |result|
        invariant resultCount == if result == "" then MAX_COUNT else CountOf(filterByKeyword, result)
        invariant result == "" || result in candidates
        invariant Best(filterByKeyword, candidates[..i], result)
      {
        var candidate := candidates[i];
        BestSnoc(filterByKeyword, candidates[..i], result, candidate);
        assert candidates[..i + 1] == candidates[..i] + [candidate];
        var count := CountOf(filterByKeyword, candidate);
        if count < resultCount || (count == resultCount && |candidate| > resultLength) {
          result, resultCount, resultLength := candidate, count, |candidate|;
        }
      }
      assert candidates[..|candidates|] == candidates;
    }

    method Add(filter: Filter)
      requires Valid() && Interned(engine, filter)
      modifies this
      ensures Valid() && Texts() == old(Texts()) + {filter.text}
      ensures filter.text in old(Texts()) ==>
                filterByKeyword == old(filterByKeyword) && keywordByFilter == old(keywordByFilter)
      ensures filter.text !in old(Texts()) ==>
                exists k :: Best(old(filterByKeyword), Candidates(filter.text), k)
                  && filterByKeyword == Filed(old(filterByKeyword), k, filter)
                  && keywordByFilter == old(keywordByFilter)[filter.text := k]
    {
      hide Interned, PossibleKeyword, Candidates;
      if filter.text in keywordByFilter {
        return;
      }
      var keyword := FindKeyword(filter);
      FilingKeepsIndexed(engine, filterByKeyword, keywordByFilter, keyword, filter);
      if keyword !in filterByKeyword {
        filterByKeyword := filterByKeyword[keyword := One(filter)];
      } else {
        match filterByKeyword[keyword]
        case One(first) =>
          filterByKeyword := filterByKeyword[keyword := Many([first, filter])];
          assert [first] + [filter] == [first, filter];
        case Many(list) =>
          filterByKeyword := filterByKeyword[keyword := Many(list + [filter])];
      }
      assert filterByKeyword == Filed(old(filterByKeyword), keyword, filter);
      keywordByFilter := keywordByFilter[filter.text := keyword];
    }

    method Remove(filter: Filter)
      requires Valid() && Interned(engine, filter)
      modifies this
      ensures Valid() && Texts() == old(Texts()) - {filter.text}
      ensures filter.text !in old(Texts()) ==>
                filterByKeyword == old(filterByKeyword) && keywordByFilter == old(keywordByFilter)
      ensures filter.text in old(Texts()) ==>
                && old(keywordByFilter)[filter.text] in old(filterByKeyword)
                && filterByKeyword == Unfiled(old(filterByKeyword), old(keywordByFilter)[filter.text], filter)
                && keywordByFilter == old(keywordByFilter) - {filter.text}
    {
      hide Interned;
      if filter.text !in keywordByFilter {
        return;
      }
      var keyword := keywordByFilter[filter.text];
      assert Reachable(filterByKeyword, keywordByFilter, filter.text);
      UnfilingKeepsIndexed(engine, filterByKeyword, keywordByFilter, filter);
      var list := Items(filterByKeyword[keyword]);
      if |list| <= 1 {
        filterByKeyword := filterByKeyword - {keyword};
      } else {
        var index := IndexIn(list, filter);
        if index < |list| {
          list := list[..index] + list[index + 1..];
          filterByKeyword := filterByKeyword[keyword := if |list| == 1 then One(list[0]) else Many(list)];
        }
      }
      keywordByFilter := keywordByFilter - {filter.text};
    }

    /** Adding a new rule and taking it out again restores the held set, whatever rules were filed
        in between: the counts that keywords are chosen by have moved, the recorded keyword has not. */
    method AddThenRemove(filter: Filter, others: seq<Filter>)
      requires Valid() && Interned(engine, filter) && filter.text !in Texts()
      requires forall f :: f in others ==> Interned(engine, f) && f.text != filter.text
      modifies this
      ensures Valid() && Texts() == old(Texts()) + TextsOf(others)
    {
      hide Interned, Best, Filed, Unfiled, Candidates, Matcher.Valid;
      Add(filter);
      for i := 0 to |others|
        invariant Valid()
        invariant Texts() == old(Texts()) + {filter.text} + TextsOf(others[..i])
      {
        Add(others[i]);
        TextsOfSnoc(others, i);
      }
      assert others[..|others|] == others;
      Remove(filter);
    }

    method CheckEntryMatch(keyword: string, url: string) returns (r: Option<Filter>)
      requires keyword in filterByKeyword
      ensures r == EntryHit(engine, filterByKeyword, keyword, url)
    {
      var list := Items(filterByKeyword[keyword]);
      for i := 0 to |list|
        invariant FirstMatch(engine, list, url) == FirstMatch(engine, list[i..], url)
      {
        if Matches(engine, list[i], url) {
          return Some(list[i]);
        }
        assert list[i..][1..] == list[i + 1..];
      }
      return None;
    }

    method MatchesAny(url: string) returns (r: Option<Filter>)
      requires Valid()
      ensures r == FirstHit(engine, filterByKeyword, LookupWords(url), url)
      ensures r.Some? <==> exists t :: t in Texts() && TextMatches(engine, t, url)
      ensures r.Some? ==> r.value.text in Texts() && Parse(engine, r.value.text) == Rule(r.value)
                          && Matches(engine, r.value, url)
    {
      hide Indexed, Parse, Matches, TextMatches;
      IndexRefinesScan(engine, filterByKeyword, keywordByFilter, url);
      if FirstHit(engine, filterByKeyword, LookupWords(url), url).Some? {
        HitIsHeld(engine, filterByKeyword, keywordByFilter, LookupWords(url), url);
      }
      var candidates := LookupWords(url);
      for i := 0 to |candidates|
        invariant FirstHit(engine, filterByKeyword, candidates, url)
               == FirstHit(engine, filterByKeyword, candidates[i..], url)
      {
        var substr := candidates[i];
        if substr in filterByKeyword {
          r := CheckEntryMatch(substr, url);
          if r.Some? {
            return;
          }
        }
        assert candidates[i..][1..] == candidates[i + 1..];
      }
      return None;
    }
  }
}
