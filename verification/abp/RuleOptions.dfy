/** What the options of a rule do, said in the words a rule is written in (abp.js:343-406, 257-273). */
module RuleOptions {
  import opened OptionType
  import opened Text
  import opened Rules
  import Domains
  import Regex
  import Pattern

  // ---------- the names ----------

  lemma NotThere(s: string, c: char)
    requires c !in s
    ensures IndexOf(s, c) == |s|
  {
  }

  lemma FirstThere(s: string, c: char, i: nat)
    requires i < |s| && s[i] == c && c !in s[..i]
    ensures IndexOf(s, c) == i
  {
    var k := IndexOf(s, c);
    assert forall j :: 0 <= j < k ==> s[j] in s[..k];
    assert forall j :: 0 <= j < i ==> s[j] in s[..i];
  }

  /** A name stands for itself, its first hyphen for an underscore; a value follows a `=`. */
  lemma NameAlone(name: string)
    requires '=' !in name && '-' !in name
    ensures OptionName(name) == name && OptionValue(name) == None
  {
    NotThere(name, '=');
    assert name[..|name|] == name;
    NotThere(name, '-');
  }

  lemma NameHyphened(a: string, b: string)
    requires '=' !in a && '-' !in a && '=' !in b
    ensures OptionName(a + "-" + b) == a + "_" + b && OptionValue(a + "-" + b) == None
  {
    var s := a + "-" + b;
    NotThere(s, '=');
    assert s[..|s|] == s && s[..|a|] == a;
    FirstThere(s, '-', |a|);
    assert s[|a| + 1..] == b;
  }

  lemma NameAndValue(name: string, value: string)
    requires '=' !in name && '-' !in name
    ensures OptionName(name + "=" + value) == name && OptionValue(name + "=" + value) == Some(value)
  {
    var s := name + "=" + value;
    assert s[..|name|] == name && s[|name| + 1..] == value;
    FirstThere(s, '=', |name|);
    NotThere(name, '-');
  }

  lemma KindByName(item: string, name: string)
    requires OptionName(item) == name
    ensures name == "MATCH_CASE" ==> KindOf(item) == Case(true)
    ensures name == "~MATCH_CASE" ==> KindOf(item) == Case(false)
    ensures name == "DOMAIN" ==> KindOf(item) == Domain(OptionValue(item))
    ensures name == "SITEKEY" ==> KindOf(item) == Sitekey(OptionValue(item))
  {
  }

  lemma MatchCaseIs()
    ensures KindOf("MATCH-CASE") == Case(true) && KindOf("~MATCH-CASE") == Case(false)
  {
    hide OptionName, OptionValue, KindOf;
    NameHyphened("MATCH", "CASE");
    assert "MATCH" + "-" + "CASE" == "MATCH-CASE" && "MATCH" + "_" + "CASE" == "MATCH_CASE";
    KindByName("MATCH-CASE", "MATCH_CASE");
    NameHyphened("~MATCH", "CASE");
    assert "~MATCH" + "-" + "CASE" == "~MATCH-CASE" && "~MATCH" + "_" + "CASE" == "~MATCH_CASE";
    KindByName("~MATCH-CASE", "~MATCH_CASE");
  }

  lemma DomainIs(value: string)
    ensures KindOf("DOMAIN=" + value) == Domain(Some(value)) && KindOf("DOMAIN") == Domain(None)
  {
    hide OptionName, OptionValue;
    NameAndValue("DOMAIN", value);
    assert "DOMAIN" + "=" + value == "DOMAIN=" + value;
    NameAlone("DOMAIN");
  }

  lemma SitekeyIs(value: string)
    ensures KindOf("SITEKEY=" + value) == Sitekey(Some(value)) && KindOf("SITEKEY") == Sitekey(None)
  {
    hide OptionName, OptionValue;
    NameAndValue("SITEKEY", value);
    assert "SITEKEY" + "=" + value == "SITEKEY=" + value;
    NameAlone("SITEKEY");
  }

  /** The options that decide anything, as they are read once they are in upper case. */
  lemma DecidingOptions(value: string)
    ensures KindOf("MATCH-CASE") == Case(true) && KindOf("~MATCH-CASE") == Case(false)
    ensures KindOf("DOMAIN=" + value) == Domain(Some(value)) && KindOf("DOMAIN") == Domain(None)
    ensures KindOf("SITEKEY=" + value) == Sitekey(Some(value)) && KindOf("SITEKEY") == Sitekey(None)
  {
    hide KindOf;
    MatchCaseIs();
    DomainIs(value);
    SitekeyIs(value);
  }

  /** A content type, by its name. */
  predicate IsType(name: string) {
    || name == "OTHER" || name == "SCRIPT" || name == "IMAGE" || name == "STYLESHEET" || name == "OBJECT"
    || name == "SUBDOCUMENT" || name == "DOCUMENT" || name == "XBL" || name == "PING" || name == "XMLHTTPREQUEST"
    || name == "OBJECT_SUBREQUEST" || name == "DTD" || name == "MEDIA" || name == "FONT" || name == "BACKGROUND"
    || name == "POPUP" || name == "ELEMHIDE"
  }

  /** Of the names without hyphen and value, these are known and decide nothing, and no others. */
  lemma OtherOptions(name: string)
    requires '=' !in name && '-' !in name
    requires name !in {"MATCH_CASE", "~MATCH_CASE", "DOMAIN", "SITEKEY"}
    ensures KindOf(name) ==
            if IsType(name) || (name != "" && name[0] == '~' && IsType(name[1..])) || name == "COLLAPSE"
               || name == "~COLLAPSE" || name == "THIRD_PARTY" || name == "~THIRD_PARTY"
            then Ignored else Unknown
  {
    NameAlone(name);
    assert name != "" ==> name[..1] == [name[0]];
    hide OptionName;
  }

  // ---------- the form of an option ----------

  /** A name up to `n` and, if there is a `=` behind it, a value without spaces and commas. */
  ghost predicate NameSpans(t: string, n: nat) {
    && 0 < n <= |t| && (n < |t| ==> t[n] == '=' && n + 1 < |t|)
    && (forall q :: 0 <= q < n ==>
          'a' <= t[q] <= 'z' || 'A' <= t[q] <= 'Z' || '0' <= t[q] <= '9' || t[q] == '_' || t[q] == '-')
    && (forall q :: n < q < |t| ==> t[q] != ',' && t[q] as int !in {9, 10, 11, 12, 13, 32})
  }

  /** An option: such a text, behind at most a `~`. */
  lemma OptionIs(s: string)
    ensures IsOptionItem(s) <==> exists t, n :: (s == t || s == "~" + t) && NameSpans(t, n)
  {
    hide *;
    if IsOptionItem(s) {
      var t := Item(s);
      assert NameSpans(t, IndexOf(t, '='));
    }
    if t, n :| (s == t || s == "~" + t) && NameSpans(t, n) {
      BehindTilde(s, t, n);
    }
  }

  lemma Item(s: string) returns (t: string)
    requires IsOptionItem(s)
    ensures (s == t || s == "~" + t) && NameSpans(t, IndexOf(t, '='))
  {
    hide NameSpans, IsNamed;
    t := if StartsWith(s, "~") then s[1..] else s;
    NamedBy(t, IndexOf(t, '='));
  }

  lemma BehindTilde(s: string, t: string, n: nat)
    requires NameSpans(t, n) && (s == t || s == "~" + t)
    ensures IsOptionItem(s)
  {
    hide NameSpans, IsNamed;
    NamedBy(t, n);
    NameCharIs(t[0]);
    assert s[..1] == [s[0]];
    assert t == if StartsWith(s, "~") then s[1..] else s;
  }

  lemma NameCharIs(c: char)
    ensures IsNameChar(c) <==> 'a' <= c <= 'z' || 'A' <= c <= 'Z' || '0' <= c <= '9' || c == '_' || c == '-'
    ensures IsSpace(c) <==> c as int in {9, 10, 11, 12, 13, 32}
    ensures IsNameChar(c) ==> c != '~' && c != '='
  {
  }

  lemma NamedBy(t: string, n: nat)
    ensures NameSpans(t, n) ==> t != "" && IsNameChar(t[0])
    ensures NameSpans(t, n) <==> n == IndexOf(t, '=') && IsNamed(t)
  {
    if 0 < n <= |t| {
      hide IsNameChar, IsSpace;
      forall q | 0 <= q < |t| {
        NameCharIs(t[q]);
      }
      if n < |t| {
        assert forall q :: n < q < |t| ==> t[n + 1..][q - n - 1] == t[q];
      }
      if NameSpans(t, n) {
        if n < |t| {
          FirstThere(t, '=', n);
        } else {
          NotThere(t, '=');
        }
      }
      hide IndexOf;
      assert forall q :: 0 <= q < n ==> t[..n][q] == t[q];
    }
  }

  // ---------- the rule ----------

  /** A rule text with options, and nothing in the body that could be taken for them. */
  predicate HasBody(body: string) {
    && body != "" && body[0] != '!' && body[0] != '@' && body[0] != '/' && '$' !in body
  }

  lemma Unmarked(text: string)
    requires text != "" && text[0] != '!' && text[0] != '@'
    ensures !StartsWith(text, "!") && !StartsWith(text, "@@") && StripAt(text) == text
  {
    assert text[..1] == [text[0]];
    assert |text| >= 2 ==> text[..2][0] == text[0];
  }

  lemma BodyAlone(engine: RegexEngine, body: string)
    requires HasBody(body)
    ensures Parse(engine, body) == Rule(Filter(body, true, false, None, false, Glob(body)))
  {
    hide IsOptionList;
    Unmarked(body);
    var k := OptionsStart(body);
    assert forall j :: 0 <= j < |body| ==> body[j] in body;
    assert body[..|body|] == body && OptionItems(body) == [] && KindsOf([]) == [];
  }

  lemma BodyAndOptions(engine: RegexEngine, body: string, options: string)
    requires HasBody(body) && IsOptionList(options)
    ensures var text, o := body + "$" + options, OptionsOf(KindsOf(Split(Upper(options), ',')));
            Parse(engine, text) ==
            if o.None? then Invalid
            else Rule(Filter(text, true, o.value.matchCase, o.value.domains, o.value.sitekeys.Some?, Glob(body)))
  {
    hide IsOptionList, OptionsOf, KindsOf, OptionsStart, Split, StripAt, StartsWith;
    var text := body + "$" + options;
    CutText(body, options);
    assert text[0] == body[0];
    Unmarked(text);
    assert text[..|body|] == body && text[|body| + 1..] == options;
  }

  lemma CutText(body: string, options: string)
    requires HasBody(body) && IsOptionList(options)
    ensures OptionsStart(body + "$" + options) == |body|
  {
    hide IsOptionList;
    var text := body + "$" + options;
    var k := OptionsStart(text);
    assert text[|body|] == '$' && text[|body| + 1..] == options;
    assert OptionsAt(text, |body|);
    assert forall j :: 0 <= j < |body| ==> text[j] == body[j] && body[j] in body;
  }

  /** A rule without options does not mind case. */
  lemma PlainRuleFoldsCase(engine: RegexEngine, body: string, url: string)
    requires HasBody(body)
    ensures Parse(engine, body).Rule?
    ensures Matches(engine, Parse(engine, body).filter, url) <==> Regex.Test(Pattern.Compile(body), true, url)
  {
    BodyAlone(engine, body);
    hide Parse;
  }

  /** A rule between slashes is a regular expression of its own. */
  lemma SlashedRuleIsRaw(engine: RegexEngine, p: string, url: string)
    requires '$' !in p
    ensures var f := Parse(engine, "/" + p + "/");
            if engine.compiles(p) then f.Rule? && (Matches(engine, f.filter, url) <==> engine.test(p, true, url))
            else f.Invalid?
  {
    hide IsOptionList;
    var text := "/" + p + "/";
    Unmarked(text);
    var k := OptionsStart(text);
    assert forall j :: 0 <= j < |text| ==> text[j] == '/' || (text[j] == p[j - 1] && p[j - 1] in p);
    assert k == |text|;
    assert text[..|text|] == text && text[1..|text| - 1] == p;
    assert OptionItems(text) == [] && KindsOf([]) == [];
  }

  /** One option, in the lower case rules are written in. */
  predicate IsWritten(item: string, upper: string) {
    && |upper| == |item| && (forall i :: 0 <= i < |item| ==> upper[i] == UpperChar(item[i]) && item[i] != ',')
    && IsOptionItem(item)
  }

  lemma OneOption(engine: RegexEngine, body: string, item: string, upper: string)
    requires HasBody(body) && IsWritten(item, upper)
    ensures var text, k := body + "$" + item, KindOf(upper);
            var o := WithOption(NoOptions, k);
            Parse(engine, text) ==
            if k.Unknown? then Invalid
            else Rule(Filter(text, true, o.matchCase, o.domains, o.sitekeys.Some?, Glob(body)))
  {
    hide IsOptionItem, Parse, KindOf;
    NotThere(item, ',');
    assert item[..|item|] == item;
    assert Upper(item) == upper;
    NotThere(upper, ',');
    assert upper[..|upper|] == upper;
    assert IsOptionList(item) && Split(upper, ',') == [upper];
    OneKind(upper);
    hide IsOptionList, Split, OptionsOf, KindsOf;
    BodyAndOptions(engine, body, item);
  }

  lemma OneKind(item: string)
    ensures KindsOf([item]) == [KindOf(item)]
    ensures OptionsOf([KindOf(item)]) ==
            if KindOf(item).Unknown? then None else Some(WithOption(NoOptions, KindOf(item)))
  {
    hide KindOf;
    assert [KindOf(item)][..0] == [];
  }

  lemma PlainItem(item: string)
    requires item != "" && item[0] != '~' && forall i :: 0 <= i < |item| ==> IsNameChar(item[i]) && item[i] != '='
    ensures IsOptionItem(item)
  {
    NotThere(item, '=');
    assert item[..1] == [item[0]] && item[..|item|] == item;
  }

  lemma ValuedItem(item: string, n: nat)
    requires 0 < n && n + 1 < |item| && item[0] != '~' && item[n] == '='
    requires forall i :: 0 <= i < n ==> IsNameChar(item[i]) && item[i] != '='
    requires forall i :: n < i < |item| ==> item[i] != ',' && !IsSpace(item[i])
    ensures IsOptionItem(item)
  {
    FirstThere(item, '=', n);
    assert item[..1] == [item[0]];
  }

  /** One with `match-case` does. */
  lemma MatchCaseRuleKeepsCase(engine: RegexEngine, body: string, url: string)
    requires HasBody(body)
    ensures var f := Parse(engine, body + "$match-case");
            f.Rule? && (Matches(engine, f.filter, url) <==> Regex.Test(Pattern.Compile(body), false, url))
  {
    hide Parse, KindOf, HasBody, IsOptionItem;
    MatchCaseIs();
    PlainItem("match-case");
    OneOption(engine, body, "match-case", "MATCH-CASE");
    assert body + "$" + "match-case" == body + "$match-case";
  }

  /** One with a sitekey matches nothing. */
  lemma SitekeyRuleNeverMatches(engine: RegexEngine, body: string, url: string)
    requires HasBody(body)
    ensures var f := Parse(engine, body + "$sitekey=k"); f.Rule? && !Matches(engine, f.filter, url)
  {
    hide Parse, KindOf, HasBody, IsOptionItem;
    SitekeyIs("K");
    assert "SITEKEY=" + "K" == "SITEKEY=K";
    ValuedItem("sitekey=k", 7);
    OneOption(engine, body, "sitekey=k", "SITEKEY=K");
    assert body + "$" + "sitekey=k" == body + "$sitekey=k";
  }

  /** An option nobody knows makes the line no rule. */
  lemma UnknownOptionIsInvalid(engine: RegexEngine, body: string)
    requires HasBody(body)
    ensures Parse(engine, body + "$foo").Invalid?
  {
    hide Parse, KindOf, HasBody, IsOptionItem;
    OtherOptions("FOO");
    PlainItem("foo");
    OneOption(engine, body, "foo", "FOO");
    assert body + "$" + "foo" == body + "$foo";
  }
}
