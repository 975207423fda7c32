/** The `domain=` option: the map `getDomains` builds (abp.js:133-184) and the walk
    `isActiveOnDomain` makes over it (abp.js:200-222), with the map handed from one to the other. */
module Domains {
  import opened OptionType
  import opened Text

  type DomainMap = map<string, bool>

  /** `Fails` is the assignment to a property of `null` at abp.js:183. */
  datatype Built = NoDomains | Fails | Built(domains: DomainMap)

  function TrimDots(s: string): string { TrimEnd(s, '.') }

  /** The name an entry lists and whether it includes it, `None` for an entry that lists nothing. */
  function Listed(entry: string): Option<(string, bool)> {
    var d := TrimDots(entry);
    if d == "" then None
    else if d[0] == '~' then Some((d[1..], false))
    else Some((d, true))
  }

  ghost predicate Includes(list: seq<string>) {
    exists i :: 0 <= i < |list| && Listed(list[i]).Some? && Listed(list[i]).value.1
  }

  ghost predicate ListsNothing(list: seq<string>) {
    forall i :: 0 <= i < |list| ==> Listed(list[i]).None?
  }

  /** `p` is what the last entry that lists `name` says about it. */
  ghost predicate LastSays(list: seq<string>, name: string, p: bool) {
    exists i :: 0 <= i < |list| && Listed(list[i]) == Some((name, p))
      && forall j :: i < j < |list| ==> Listed(list[j]).Some? ==> Listed(list[j]).value.0 != name
  }

  /** A list of one name that is not an exclusion. */
  predicate SingleInclude(list: seq<string>) { |list| == 1 && !StartsWith(list[0], "~") }

  /** Such a list whose name is nothing but dots: the name is then the default key. */
  predicate OnlyDots(list: seq<string>) { SingleInclude(list) && TrimDots(list[0]) == "" }

  /** What the builder's map must be, in terms of the list alone. */
  ghost predicate Describes(m: DomainMap, list: seq<string>) {
    if OnlyDots(list) then m == map["" := true]
    else
      && "" in m && (m[""] <==> !Includes(list))
      && forall name, p :: name != "" ==> (name in m && m[name] == p <==> LastSays(list, name, p))
  }

  method BuildDomains(source: string) returns (r: Built)
    ensures source == "" <==> r.NoDomains?
    ensures r.Fails? <==> source != "" && |Split(source, '|')| > 1 && ListsNothing(Split(source, '|'))
    ensures r.Built? ==> Describes(r.domains, Split(source, '|'))
  {
    hide LastSays, Includes, ListsNothing;
    if source == "" {
      return NoDomains;
    }
    var list := Split(source, '|');
    EmptyList();
    if SingleInclude(list) {
      SingleIsDescribed(list);
      return Built(map["" := false][TrimDots(list[0]) := true]);
    }
    var hasIncludes := false;
    var domains: Option<DomainMap> := None;
    var i := 0;
    while i < |list|
      invariant 0 <= i <= |list|
      invariant hasIncludes <==> Includes(list[..i])
      invariant domains.None? <==> ListsNothing(list[..i])
      invariant domains.Some? ==>
                  forall name, p :: name in domains.value && domains.value[name] == p <==> LastSays(list[..i], name, p)
    {
      var domain := TrimDots(list[i]);
      SnocEntry(list[..i], list[i]);
      forall name, p {
        SnocLastSays(list[..i], list[i], name, p);
      }
      assert list[..i + 1] == list[..i] + [list[i]];
      if domain != "" {
        var included := domain[0] != '~';
        if included {
          hasIncludes := true;
        } else {
          domain := domain[1..];
        }
        if domains.None? {
          domains := Some(map[]);
        }
        domains := Some(domains.value[domain := included]);
      }
      i := i + 1;
    }
    assert list[..|list|] == list;
    if domains.None? {
      NothingListedTwice(list);
      return Fails;
    }
    return Built(domains.value["" := !hasIncludes]);
  }

  lemma SingleIsDescribed(list: seq<string>)
    requires SingleInclude(list)
    ensures Describes(map["" := false][TrimDots(list[0]) := true], list)
  {
    var name := TrimDots(list[0]);
    if name != "" {
      assert name[0] == list[0][0] && list[0][..1] == [list[0][0]];
      assert Listed(list[0]) == Some((name, true));
    }
  }

  lemma ExclusionLists(entry: string)
    ensures StartsWith(entry, "~") ==> Listed(entry).Some?
  {
    if StartsWith(entry, "~") {
      assert entry[0] == entry[..1][0] == '~';
    }
  }

  /** A lone entry that is an exclusion lists something: the failing list has at least two entries. */
  lemma NothingListedTwice(list: seq<string>)
    requires |list| >= 1 && !SingleInclude(list) && ListsNothing(list)
    ensures |list| > 1
  {
    ExclusionLists(list[0]);
  }

  lemma EmptyList()
    ensures ListsNothing([]) && !Includes([])
    ensures forall name, p :: !LastSays([], name, p)
  {
  }

  /** What one more entry does to the descriptions of a list. */
  lemma SnocEntry(list: seq<string>, entry: string)
    ensures var l := Listed(entry);
            && (Includes(list + [entry]) <==> Includes(list) || (l.Some? && l.value.1))
            && (ListsNothing(list + [entry]) <==> ListsNothing(list) && l.None?)
    ensures ListsNothing(list) ==> forall name, p :: !LastSays(list, name, p)
  {
    hide Listed;
    var more := list + [entry];
    assert more[|list|] == entry && forall i :: 0 <= i < |list| ==> more[i] == list[i];
  }

  lemma SnocLastSays(list: seq<string>, entry: string, name: string, p: bool)
    ensures LastSays(list + [entry], name, p) <==>
            if Listed(entry).Some? && Listed(entry).value.0 == name
            then p == Listed(entry).value.1
            else LastSays(list, name, p)
  {
    hide Listed;
    var more, n := list + [entry], |list|;
    assert more[n] == entry && forall i :: 0 <= i < n ==> more[i] == list[i];
    if Listed(entry).Some? && Listed(entry).value.0 == name {
      if p == Listed(entry).value.1 {
        assert Listed(more[n]) == Some((name, p));
      }
    } else if LastSays(list, name, p) {
      var i :| 0 <= i < n && Listed(list[i]) == Some((name, p))
        && forall j :: i < j < n ==> Listed(list[j]).Some? ==> Listed(list[j]).value.0 != name;
      assert Listed(more[i]) == Some((name, p));
    }
  }

  /** `host[k..]` is the host or what follows one of its dots. */
  ghost predicate DotSuffix(host: string, k: int) {
    0 <= k <= |host| && (k == 0 || host[k - 1] == '.')
  }

  ghost predicate NoneBefore(m: DomainMap, host: string, at: int) {
    forall l :: 0 <= l < at && DotSuffix(host, l) ==> host[l..] !in m
  }

  /** `host[k..]` is the longest dot-suffix of the host that has a key in the map. */
  ghost predicate LongestKnown(m: DomainMap, host: string, k: int) {
    DotSuffix(host, k) && host[k..] in m && NoneBefore(m, host, k)
  }

  function HostOf(docDomain: string): string { Upper(TrimDots(docDomain)) }

  method IsActiveOnDomain(m: DomainMap, docDomain: string) returns (r: bool)
    requires "" in m
    ensures forall k :: LongestKnown(m, HostOf(docDomain), k) ==> r == m[HostOf(docDomain)[k..]]
    ensures NoneBefore(m, HostOf(docDomain), |HostOf(docDomain)| + 1) ==> r == m[""]
  {
    ghost var host := HostOf(docDomain);
    var d := HostOf(docDomain);
    if docDomain == "" {
      assert host == "" && DotSuffix(host, 0);
      return m[""];
    }
    ghost var at := 0;
    while true
      invariant DotSuffix(host, at) && d == host[at..] && NoneBefore(m, host, at)
      decreases |d|
    {
      if d in m {
        assert LongestKnown(m, host, at);
        return m[d];
      }
      NextDotSuffix(m, host, at);
      var nextDot := IndexOf(d, '.');
      if nextDot == |d| {
        break;
      }
      d := d[nextDot + 1..];
      at := at + nextDot + 1;
    }
    return m[""];
  }

  /** No dot-suffix begins between `at` and the position after the next dot. */
  lemma NextDotSuffix(m: DomainMap, host: string, at: int)
    requires DotSuffix(host, at) && host[at..] !in m && NoneBefore(m, host, at)
    ensures var n := IndexOf(host[at..], '.');
            if n < |host| - at
            then DotSuffix(host, at + n + 1) && NoneBefore(m, host, at + n + 1)
            else NoneBefore(m, host, |host| + 1)
  {
    var n := IndexOf(host[at..], '.');
    forall l | at < l <= at + n
      ensures !DotSuffix(host, l)
    {
      assert host[at..][..n][l - 1 - at] == host[l - 1];
    }
  }

  lemma {:induction false} DotsGo(name: string, dots: string)
    requires (forall c :: c in dots ==> c == '.') && (name == "" || name[|name| - 1] != '.')
    ensures TrimDots(name + dots) == name
  {
    if dots == "" {
      assert name + dots == name;
    } else {
      var n := |dots| - 1;
      assert dots[n] in dots && (name + dots)[..|name| + n] == name + dots[..n];
      assert forall c :: c in dots[..n] ==> c in dots;
      DotsGo(name, dots[..n]);
    }
  }

  /** An entry lists its name, as excluded behind a `~`; dots at its end do not count, and only dots list
      nothing. */
  lemma EntriesList(name: string, dots: string)
    requires (forall c :: c in dots ==> c == '.') && (name == "" || name[|name| - 1] != '.')
    ensures Listed("~" + name + dots) == Some((name, false))
    ensures name != "" && name[0] != '~' ==> Listed(name + dots) == Some((name, true))
    ensures Listed(dots) == None
  {
    var s := "~" + name;
    assert s[1..] == name && s[|s| - 1] == if name == "" then '~' else name[|name| - 1];
    DotsGo(s, dots);
    DotsGo(name, dots);
    DotsGo("", dots);
    assert "" + dots == dots;
  }

  /** A host is looked up in upper case, without dots at its end. */
  lemma HostIsLookedUpBy(name: string, dots: string)
    requires (forall c :: c in dots ==> c == '.') && (name == "" || name[|name| - 1] != '.')
    ensures var host := HostOf(name + dots);
            |host| == |name| && forall i :: 0 <= i < |name| ==>
              host[i] as int == name[i] as int - if 97 <= name[i] as int <= 122 then 32 else 0
  {
    DotsGo(name, dots);
  }

  /** Building and walking together: the longest dot-suffix of the host that the list names decides,
      by its last entry, and an unnamed host is active exactly when the list includes nothing. Only a
      list of one name that is nothing but dots is different: it is active everywhere. */
  method ActiveOnHost(source: string, docDomain: string) returns (r: Option<bool>)
    ensures source == "" ==> r == Some(true)
    ensures r.None? <==> source != "" && |Split(source, '|')| > 1 && ListsNothing(Split(source, '|'))
    ensures var list, host := Split(source, '|'), HostOf(docDomain);
            source != "" && !OnlyDots(list) && r.Some? ==>
              && (forall k, p :: DotSuffix(host, k) && host[k..] != "" && LastSays(list, host[k..], p)
                    && (forall l, q :: 0 <= l < k && DotSuffix(host, l) ==> !LastSays(list, host[l..], q))
                    ==> r.value == p)
              && ((forall k, p :: DotSuffix(host, k) && host[k..] != "" ==> !LastSays(list, host[k..], p))
                    ==> (r.value <==> !Includes(list)))
    ensures source != "" && OnlyDots(Split(source, '|')) ==> r == Some(true)
  {
    var b := BuildDomains(source);
    match b
    case NoDomains => return Some(true);
    case Fails => return None;
    case Built(m) =>
      assert "" in m;
      var active := IsActiveOnDomain(m, docDomain);
      ghost var list, host := Split(source, '|'), HostOf(docDomain);
      if OnlyDots(list) {
        OnlyDefaultIsMet(m, host);
      } else {
        forall k, p | DotSuffix(host, k) && host[k..] != "" && LastSays(list, host[k..], p)
            && (forall l, q :: 0 <= l < k && DotSuffix(host, l) ==> !LastSays(list, host[l..], q))
          ensures active == p
        {
          assert LongestKnown(m, host, k) by {
            forall l | 0 <= l < k && DotSuffix(host, l)
              ensures host[l..] !in m
            {
              assert !LastSays(list, host[l..], true) && !LastSays(list, host[l..], false);
            }
          }
        }
        if forall k, p :: DotSuffix(host, k) && host[k..] != "" ==> !LastSays(list, host[k..], p) {
          NothingKnown(m, list, host);
        }
      }
      return Some(active);
  }

  /** When the map has no dot-suffix of the host, only the default key can be met. */
  lemma OnlyDefaultIsMet(m: DomainMap, host: string)
    requires "" in m && forall k :: DotSuffix(host, k) && host[k..] != "" ==> host[k..] !in m
    ensures NoneBefore(m, host, |host| + 1) || exists k :: LongestKnown(m, host, k) && host[k..] == ""
  {
    if DotSuffix(host, |host|) {
      assert host[|host|..] == "";
      assert LongestKnown(m, host, |host|);
    }
  }

  lemma NothingKnown(m: DomainMap, list: seq<string>, host: string)
    requires !OnlyDots(list) && Describes(m, list)
    requires forall k, p :: DotSuffix(host, k) && host[k..] != "" ==> !LastSays(list, host[k..], p)
    ensures NoneBefore(m, host, |host| + 1) || exists k :: LongestKnown(m, host, k) && host[k..] == ""
  {
    forall k | DotSuffix(host, k) && host[k..] != ""
      ensures host[k..] !in m
    {
      assert !LastSays(list, host[k..], true) && !LastSays(list, host[k..], false);
    }
    OnlyDefaultIsMet(m, host);
  }
}
