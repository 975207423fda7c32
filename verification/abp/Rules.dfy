/** Parsing a rule line into a filter: `Filter.fromText` and `RegExpFilter.fromText`
    (abp.js:81-98, 322-431), and `matches` (abp.js:312-319). */
module Rules {
  import opened OptionType
  import opened Text
  import Domains
  import Regex
  import Pattern

  /** JavaScript's own regular expressions, for rules written `/.../`: whether a source compiles,
      and whether it is found in a URL, given the `i` flag. */
  datatype RegexEngine = RegexEngine(compiles: string -> bool, test: (string, bool, string) -> bool)

  datatype Body = Glob(source: string) | Raw(pattern: string)

  /** A `BlockingFilter` or a `WhitelistFilter`. `domains` is the `domain=` value. */
  datatype Filter = Filter(
    text: string, blocking: bool, matchCase: bool, domains: Option<string>, sitekeyed: bool, body: Body)

  datatype Parsed = Comment | Invalid | Rule(filter: Filter)

  /** `~?[\w\-]+(?:=[^,\s]+)?` spans the whole of `s`. */
  predicate IsOptionItem(s: string) {
    IsNamed(if StartsWith(s, "~") then s[1..] else s)
  }

  /** `[\w\-]+(?:=[^,\s]+)?` */
  predicate IsNamed(t: string) {
    var n := IndexOf(t, '=');
    && n >= 1
    && (forall c :: c in t[..n] ==> IsNameChar(c))
    && (n < |t| ==> n + 1 < |t| && forall c :: c in t[n + 1..] ==> c != ',' && !IsSpace(c))
  }

  predicate IsOptionList(s: string) {
    forall item :: item in Split(s, ',') ==> IsOptionItem(item)
  }

  predicate OptionsAt(s: string, k: nat)
    requires k < |s|
  {
    s[k] == '$' && IsOptionList(s[k + 1..])
  }

  /** Where `optionsRegExp` matches: the first `$` that only options follow; `|s|` for no match. */
  function OptionsStart(s: string): (k: nat)
    ensures k <= |s|
    ensures k < |s| ==> OptionsAt(s, k)
    ensures forall j: nat :: j < k ==> !OptionsAt(s, j)
  {
    OptionsStartFrom(s, 0)
  }

  function OptionsStartFrom(s: string, i: nat): (k: nat)
    requires i <= |s|
    ensures i <= k <= |s|
    ensures k < |s| ==> OptionsAt(s, k)
    ensures forall j: nat :: i <= j < k ==> !OptionsAt(s, j)
    decreases |s| - i
  {
    if i == |s| || OptionsAt(s, i) then i else OptionsStartFrom(s, i + 1)
  }

  /** What the parser's option loop leaves behind. */
  datatype Options = Options(matchCase: bool, domains: Option<string>, sitekeys: Option<string>)

  const NoOptions := Options(false, None, None)

  const TYPES: set<string> := {
    "OTHER", "SCRIPT", "IMAGE", "STYLESHEET", "OBJECT", "SUBDOCUMENT", "DOCUMENT", "XBL", "PING",
    "XMLHTTPREQUEST", "OBJECT_SUBREQUEST", "DTD", "MEDIA", "FONT", "BACKGROUND", "POPUP", "ELEMHIDE" }

  const FLAGS: set<string> := { "THIRD_PARTY", "~THIRD_PARTY", "COLLAPSE", "~COLLAPSE" }

  /** The name of an upper-cased option, its first `-` turned into `_`. */
  function OptionName(item: string): string {
    var name := item[..IndexOf(item, '=')];
    var h := IndexOf(name, '-');
    if h < |name| then name[..h] + "_" + name[h + 1..] else name
  }

  function OptionValue(item: string): Option<string> {
    var eq := IndexOf(item, '=');
    if eq < |item| then Some(item[eq + 1..]) else None
  }

  /** What one option says; `Ignored` options are parsed, but `matches` does not look at them. */
  datatype Kind = Case(on: bool) | Domain(list: Option<string>) | Sitekey(keys: Option<string>) | Ignored | Unknown

  function KindOf(item: string): Kind {
    var name := OptionName(item);
    if name == "MATCH_CASE" then Case(true)
    else if name == "~MATCH_CASE" then Case(false)
    else if name == "DOMAIN" then Domain(OptionValue(item))
    else if name == "SITEKEY" then Sitekey(OptionValue(item))
    else if name in FLAGS || name in TYPES || (StartsWith(name, "~") && name[1..] in TYPES) then Ignored
    else Unknown
  }

  function KindsOf(items: seq<string>): (r: seq<Kind>)
    ensures |r| == |items|
    ensures forall i :: 0 <= i < |r| ==> r[i] == KindOf(items[i])
  {
    seq(|items|, i requires 0 <= i < |items| => KindOf(items[i]))
  }

  function WithOption(o: Options, k: Kind): Options {
    match k
    case Case(on) => o.(matchCase := on)
    case Domain(list) => o.(domains := list)
    case Sitekey(keys) => o.(sitekeys := keys)
    case _ => o
  }

  /** The options of a list, `None` when one of them is unknown. */
  function OptionsOf(kinds: seq<Kind>): Option<Options> {
    if kinds == [] then Some(NoOptions)
    else
      var o := OptionsOf(kinds[..|kinds| - 1]);
      var last := kinds[|kinds| - 1];
      if o.None? || last.Unknown? then None else Some(WithOption(o.value, last))
  }

  lemma {:induction false} OptionsAllKnown(kinds: seq<Kind>)
    ensures OptionsOf(kinds).Some? <==> forall i :: 0 <= i < |kinds| ==> !kinds[i].Unknown?
  {
    if kinds != [] {
      OptionsAllKnown(kinds[..|kinds| - 1]);
    }
  }

  /** The last `match-case` option decides case, and so does the last `sitekey` or `domain` option. */
  lemma {:induction false} LastOptionDecides(kinds: seq<Kind>, i: nat)
    requires OptionsOf(kinds).Some? && i < |kinds|
    ensures var o := OptionsOf(kinds).value;
            && (kinds[i].Case? && (forall j :: i < j < |kinds| ==> !kinds[j].Case?)
                ==> o.matchCase == kinds[i].on)
            && (kinds[i].Domain? && (forall j :: i < j < |kinds| ==> !kinds[j].Domain?)
                ==> o.domains == kinds[i].list)
            && (kinds[i].Sitekey? && (forall j :: i < j < |kinds| ==> !kinds[j].Sitekey?)
                ==> o.sitekeys == kinds[i].keys)
    decreases |kinds|
  {
    if i < |kinds| - 1 {
      LastOptionDecides(kinds[..|kinds| - 1], i);
    }
  }

  function StripAt(text: string): string {
    if StartsWith(text, "@@") then text[2..] else text
  }

  /** `regexpSource`: the rule without its `@@` and its options. */
  function SourceOf(text: string): string {
    var rest := StripAt(text);
    rest[..OptionsStart(rest)]
  }

  function OptionItems(text: string): seq<string> {
    var rest := StripAt(text);
    var k := OptionsStart(rest);
    if k == |rest| then [] else Split(Upper(rest[k + 1..]), ',')
  }

  predicate IsRawSource(source: string) {
    |source| >= 2 && source[0] == '/' && source[|source| - 1] == '/'
  }

  /** The filter constructors; compiling a raw rule may fail (abp.js:416-430, 265-273). */
  function Build(engine: RegexEngine, text: string, source: string, o: Options): Parsed {
    var raw := IsRawSource(source);
    if raw && !engine.compiles(source[1..|source| - 1]) then Invalid
    else
      Rule(Filter(
             text, !StartsWith(text, "@@"), o.matchCase, o.domains, o.sitekeys.Some?,
             if raw then Raw(source[1..|source| - 1]) else Glob(source)))
  }

  /** What a rule line parses to. */
  function Parse(engine: RegexEngine, text: string): Parsed {
    if StartsWith(text, "!") then Comment
    else
      var options := OptionsOf(KindsOf(OptionItems(text)));
      if options.None? then Invalid else Build(engine, text, SourceOf(text), options.value)
  }

  /** The text a body was made from. */
  function BodyText(body: Body): string {
    match body
    case Glob(source) => source
    case Raw(pattern) => "/" + pattern + "/"
  }

  /** `text` is a body and then `options`, cut at the first `$` that only options follow. */
  predicate CutAtOptions(body: string, options: string) {
    && (options == "" || (options[0] == '$' && IsOptionList(options[1..])))
    && forall j: nat :: j < |body| ==> !OptionsAt(body + options, j)
  }

  /** The options a text like `$a,b` lists, upper-cased. */
  function ItemsOf(options: string): seq<string> {
    if options == "" then [] else Split(Upper(options[1..]), ',')
  }

  /** What a line that parses to a rule is made of, in this order: `@@` exactly when the rule is a
      whitelist rule, the body, and the options, which are all known and give the filter its settings. */
  ghost predicate WrittenAs(engine: RegexEngine, text: string, f: Filter, options: string, keys: Option<string>) {
    && f.text == text == (if f.blocking then "" else "@@") + BodyText(f.body) + options
    && CutAtOptions(BodyText(f.body), options)
    && (f.body.Raw? <==> IsRawSource(BodyText(f.body))) && (f.body.Raw? ==> engine.compiles(f.body.pattern))
    && OptionsOf(KindsOf(ItemsOf(options))) == Some(Options(f.matchCase, f.domains, keys))
    && (f.sitekeyed <==> keys.Some?)
  }

  lemma RawBody(source: string)
    requires IsRawSource(source)
    ensures BodyText(Raw(source[1..|source| - 1])) == source
  {
  }

  lemma SourceIsCut(text: string)
    ensures var rest, source := StripAt(text), SourceOf(text);
            |source| <= |rest| &&
            var options := rest[|source|..];
            rest == source + options && CutAtOptions(source, options) && OptionItems(text) == ItemsOf(options)
  {
    hide IsOptionList;
    var rest, source := StripAt(text), SourceOf(text);
    var options := rest[|source|..];
    assert rest == source + options;
    if options != "" {
      assert OptionsAt(rest, |source|);
      assert options[0] == rest[|source|] && options[1..] == rest[|source| + 1..];
    }
  }

  lemma Reassembled(text: string, source: string, options: string)
    requires StripAt(text) == source + options
    ensures text == (if StartsWith(text, "@@") then "@@" else "") + source + options
  {
    if StartsWith(text, "@@") {
      assert text == "@@" + text[2..];
    }
  }

  lemma BuiltFrom(engine: RegexEngine, text: string, source: string, o: Options)
    requires Build(engine, text, source, o).Rule?
    ensures var f := Build(engine, text, source, o).filter;
            && f.text == text && (f.blocking <==> !StartsWith(text, "@@")) && BodyText(f.body) == source
            && (f.body.Raw? <==> IsRawSource(source)) && (f.body.Raw? ==> engine.compiles(f.body.pattern))
            && o == Options(f.matchCase, f.domains, o.sitekeys) && (f.sitekeyed <==> o.sitekeys.Some?)
  {
    if IsRawSource(source) {
      RawBody(source);
    }
  }

  lemma WrittenFrom(engine: RegexEngine, text: string, f: Filter, source: string, options: string, o: Options)
    requires f.text == text == (if StartsWith(text, "@@") then "@@" else "") + source + options
    requires (f.blocking <==> !StartsWith(text, "@@")) && BodyText(f.body) == source && CutAtOptions(source, options)
    requires (f.body.Raw? <==> IsRawSource(source)) && (f.body.Raw? ==> engine.compiles(f.body.pattern))
    requires OptionsOf(KindsOf(ItemsOf(options))) == Some(o) && o == Options(f.matchCase, f.domains, o.sitekeys)
    requires f.sitekeyed <==> o.sitekeys.Some?
    ensures WrittenAs(engine, text, f, options, o.sitekeys)
  {
    hide StartsWith, BodyText, CutAtOptions, IsRawSource, OptionsOf, KindsOf, ItemsOf;
  }

  lemma ParsedFrom(engine: RegexEngine, text: string) returns (o: Options)
    requires Parse(engine, text).Rule?
    ensures OptionsOf(KindsOf(OptionItems(text))) == Some(o)
    ensures Build(engine, text, SourceOf(text), o) == Parse(engine, text)
  {
    hide OptionsOf, KindsOf, OptionItems, SourceOf, Build;
    o := OptionsOf(KindsOf(OptionItems(text))).value;
  }

  /** The text of a rule can be read back from its filter. */
  lemma RuleIsWrittenAs(engine: RegexEngine, text: string)
    requires Parse(engine, text).Rule?
    ensures exists options, keys :: WrittenAs(engine, text, Parse(engine, text).filter, options, keys)
  {
    hide *;
    var o := ParsedFrom(engine, text);
    var source := SourceOf(text);
    SourceIsCut(text);
    var options := StripAt(text)[|source|..];
    Reassembled(text, source, options);
    BuiltFrom(engine, text, source, o);
    WrittenFrom(engine, text, Parse(engine, text).filter, source, options, o);
  }

  /** A line is a comment exactly when it opens with `!`, and any other line is a rule unless an option
      is unknown or its expression does not compile. */
  lemma WhichLinesAreRules(engine: RegexEngine, text: string)
    ensures Parse(engine, text).Comment? <==> StartsWith(text, "!")
    ensures Parse(engine, text).Invalid? <==>
              && !StartsWith(text, "!")
              && (|| (exists item :: item in OptionItems(text) && KindOf(item).Unknown?)
                  || (IsRawSource(SourceOf(text)) && !engine.compiles(SourceOf(text)[1..|SourceOf(text)| - 1])))
  {
    hide SourceOf, OptionItems, OptionsOf, KindOf;
    var items := OptionItems(text);
    OptionsAllKnown(KindsOf(items));
    if item :| item in items && KindOf(item).Unknown? {
      var i :| 0 <= i < |items| && items[i] == item;
      assert KindsOf(items)[i].Unknown?;
    }
  }

  lemma SameSource(s: string, t: string)
    requires StripAt(s) == StripAt(t)
    ensures SourceOf(s) == SourceOf(t) && OptionItems(s) == OptionItems(t)
  {
  }

  /** `@@` in front turns a blocking rule into the whitelist rule for the same URLs. */
  lemma WhitelistTwin(engine: RegexEngine, text: string)
    requires !StartsWith(text, "@@") && !StartsWith(text, "!")
    ensures var black, white := Parse(engine, text), Parse(engine, "@@" + text);
            if black.Rule? then
              black.filter.blocking && white == Rule(black.filter.(text := "@@" + text, blocking := false))
            else black.Invalid? && white.Invalid?
  {
    hide OptionsOf, KindsOf, OptionsStart;
    var twin := "@@" + text;
    assert twin[..2] == "@@" && twin[2..] == text && twin[..1][0] == '@';
    assert StripAt(twin) == text == StripAt(text);
    assert !StartsWith(twin, "!");
    SameSource(text, twin);
    hide SourceOf, OptionItems, StripAt;
  }

  method FromText(engine: RegexEngine, text: string) returns (r: Parsed)
    ensures r == Parse(engine, text)
  {
    hide OptionsOf, KindsOf, IsOptionList, OptionsStart, Build, StripAt;
    if StartsWith(text, "!") {
      return Comment;
    }
    var rest := StripAt(text);
    var k := OptionsStart(rest);
    var items := if k == |rest| then [] else Split(Upper(rest[k + 1..]), ',');
    assert items == OptionItems(text) && rest[..k] == SourceOf(text);
    hide OptionItems, SourceOf;
    var options := ReadOptions(KindsOf(items));
    if options.None? {
      return Invalid;
    }
    return Build(engine, text, rest[..k], options.value);
  }

  /** The option loop of `RegExpFilter.fromText` (abp.js:343-406). */
  method ReadOptions(kinds: seq<Kind>) returns (r: Option<Options>)
    ensures r == OptionsOf(kinds)
  {
    var o := NoOptions;
    for i := 0 to |kinds|
      invariant OptionsOf(kinds[..i]) == Some(o)
    {
      assert kinds[..i + 1][..i] == kinds[..i];
      if kinds[i].Unknown? {
        OptionsAllKnown(kinds);
        return None;
      }
      o := WithOption(o, kinds[i]);
    }
    assert kinds[..|kinds|] == kinds;
    return Some(o);
  }

  /** The pattern test alone. */
  predicate PatternMatches(engine: RegexEngine, f: Filter, url: string) {
    match f.body
    case Raw(pattern) => engine.test(pattern, !f.matchCase, url)
    case Glob(source) => Regex.Test(Pattern.Compile(source), !f.matchCase, url)
  }

  /** `matches`, as every caller reaches it: with no sitekey, so a rule that asks for one never
      matches; and with `this.domains` never assigned (abp.js:133-187), so the host plays no part. */
  predicate Matches(engine: RegexEngine, f: Filter, url: string) {
    PatternMatches(engine, f, url) && !f.sitekeyed
  }

  /** `getDomains` fails on the first match of a rule whose `domain=` list has several entries and
      names nothing; such a rule cannot be used. */
  ghost predicate Usable(f: Filter) {
    f.sitekeyed || f.domains.None? ||
    f.domains.value == "" || |Split(f.domains.value, '|')| == 1 || !Domains.ListsNothing(Split(f.domains.value, '|'))
  }

  /** What `matches` does with its rule's `domain=` list (abp.js:193-202): it is built for every rule without
      a sitekey, and that fails exactly for a rule that cannot be used. */
  method GetDomains(f: Filter) returns (r: Domains.Built)
    ensures r.Fails? <==> !Usable(f)
    ensures f.sitekeyed || f.domains.None? ==> r.NoDomains?
    ensures r.Built? ==> Domains.Describes(r.domains, Split(f.domains.value, '|'))
  {
    if f.sitekeyed || f.domains.None? {
      return Domains.NoDomains;
    }
    r := Domains.BuildDomains(f.domains.value);
  }
}
