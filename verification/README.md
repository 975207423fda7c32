# A verified model of gocs

gocs is a SOCKS proxy that hides its traffic in ordinary web traffic. This project models the parts of it
that decide and carry: the Adblock-style rule engine that chooses between proxy and direct connection, the
channel protocol and the channel pool between client and server, the UDP gateway, the domain list, and the
statistics of the sorted dialer.

`dafny verify dfyconfig.toml` checks everything.

## What is modelled

**Rule engine (`abp/`, from `abp.js`).** A rule line is parsed (`Rules`), compiled by the chain of replacements
of `getRegexp` (`Pattern`) to a list of regular-expression fragments with their matching relation (`Regex`;
`SepEnd` has the one replacement that changes a rule), and filed under one keyword of its text (`Keyword`,
`Tokens`, `Matcher`). A URL is answered by looking only at the rules filed under its tokens, in one fused scan
of whitelist and blacklist, behind a bounded cache (`CombinedMatcher`). `RuleMeaning` says what a rule means
without compiling it; `GlobRules`, `HostRules` and `RuleOptions` say what each mark, a `||` rule and the options
of a rule come to, by positions in the URL and by the characters themselves. The main results: no rule that
matches is ever skipped, and `FindProxyForURL` answers "proxy" exactly when no loaded whitelist rule and some
loaded blocking rule matches, whatever the order of the rules and, for every query without a space in its URL or
domain, whatever was asked, added and removed before. `Domains` has the `domain=` list.

**Channels (`core/Channel`, `core/Ends`, `core/Loops`, `core/Session*`, `core/CleanRun`, from `core/cs.go`).**
One channel carries many sessions. Client and server are state machines over two FIFO wires, with failures,
refused dials and stray Close frames at any time; a run is any interleaving. `Ends` has the code of both ends on
a `ChannelConn` and proves each piece of it to be a step of these machines; `Loops` puts the pieces together to
the loop of `ProcConn` and the life of a channel at the client, and proves that each execution, with whatever
the other end does meanwhile, is a run that carries out its script turn by turn, none left out and none added.
The main result: the j-th session of either end is the same dial, and each end gets only what the other wrote in
that session, in order, and all of it once it has read a Close, whatever was left over from earlier sessions.

**Pool (`core/Pool*`, from `core/cs.go`).** The pool's methods on its two maps (`PoolClient`), each proved to be a
function on the pool as a value (`Pool`), and any number of concurrent dials interleaved at the pool's lock, whose
steps are these functions (`PoolRuns`); a dial of the code is proved to be a list of these steps. The main result is a conservation law: each channel ever made is in exactly one place.

**Pool and channels together (`core/Dials`).** A whole channel, both ends and both wires, behind each key of the
pool, and any number of concurrent calls, each of which moves only the channel it has in hand. The main result:
whatever the interleaving, a call's payloads reach only the server's session of its own dial, that session's
reach only the call, and no session gets anything from anyone else.

**UDP gateway (`udpgw/`, from `udpgw/udpgw.go`).** The packet header, the table's methods as functions on the
table and the open sockets, and the same functions as the steps of runs under concurrency.

**Domain list and dialer (`core/Gfw`, `core/SortedDialer`, from `core/gfw.go` and `core/dialer.go`).**

### Assumptions

- Case folding (`toLowerCase`, the `i` flag) is ASCII case folding, and `\s` is ASCII white space.
- JavaScript's engine for `/.../` rules is a parameter: which sources compile, and what they match.
- Filters are values determined by their text, so the identity test of `indexOf` is equality (the original
  interns filters by text).
- A loaded rule is neither a comment nor invalid, its text is not `#this` (taken for the engine's own marker
  inside an array), a raw rule has no keyword (true of every one-line rule), and its `domain=` list is not a
  list of several entries that names nothing: on such inputs the original throws or hides the rule.
- `getDomains` never stores the map it builds, so `domain=` has no influence on matching; builder and walk are
  therefore modelled with the map handed from one to the other. A rule with a `sitekey` option never matches,
  since no caller passes a sitekey.
- A frame is a command and a payload on a reliable FIFO wire. `PipeConn` is outside the repository; it is
  assumed to write Data frames, then close the channel once, and to return when it has done so and has read
  the peer's Close, or when the channel is marked with an error. A frame whose write failed is never read, and
  neither is what the same end writes after it. The Close of a channel in the pool does not fail.
- `Close` of the client closes the channels it has listed; that it does so after releasing the lock makes no
  difference to the pool's maps.
- A session's piper is closed once. Times are integers, the outcomes of network calls are parameters, and
  error rates are exact fractions.
- A domain looked up in the domain list has, once trimmed, only letters, digits, `-`, `_` and dots.

### Where the code differs from what one might expect

- A trailing `^|` is compiled as `^`, which matches more URLs exactly when no `*` stands after the last character
  of the rule that is neither `*` nor `^` (`SepEnd.SepEndRewriteChangesIff`).
- A raw rule that contains a line end can have a keyword and be missed (`Keyword.BrokenRawRuleHasKeyword`).
- A query with a space in its URL or its domain, and no other, can be answered wrongly from another query's
  cache entry (`CombinedMatcher.SpacedQueryIsStaleIff`, `CombinedMatcher.StaleReply`).
- A `domain=` list of one name that is nothing but dots makes its rule active everywhere (`Domains.ActiveOnHost`).
- `pushConn` closes the oldest idle channel of a full pool but leaves it there, so `MaxIdle` does not bound the
  pool (`PoolClient.Client.PushConn`).
- With `MaxConn < 1` the gateway still holds one connection (`GatewayRuns.MaxConnIsKeptIff`). A reader that exits
  after its conid has been given to a newer connection takes that connection out of the table and leaves its
  socket open; nothing else does (`GatewayRuns.RunOrphansIff`).
- A refusal whose text is "ok" passes for an acceptance at the client (`SessionIsolation.EndsAgree`).
- The dialers' order is not transitive in general (`SortedDialer.TransitiveIffNoBridge`).

## Model

| member | source | states |
|---|---|---|
| Pattern.NormalisationPreservesMeaning | abp.js:287 | for every rule text, collapsing runs of `*` and dropping an outer `.*` leaves the set of matched URLs unchanged |
| Pattern.CompileIsSqueezedPlain | abp.js:287 | collapsing `*` first or last in the chain gives the same pattern, through trimming, escaping and anchoring |
| SepEnd.SepEndRewriteWidens | abp.js:287 | rewriting a trailing `^\|` to `^` loses no match |
| SepEnd.SepEndRewriteChangesIff | abp.js:287 | on URLs of one line it gains some exactly when the rule, itself of one line, has a character besides `*` and `^` before that end and no `*` after the last such character |
| SepEnd.SepEndRewriteChangesAnyIff | abp.js:287 | on URLs that may hold line ends, exactly when it has such a character at all |
| RuleMeaning.CompiledMeaning | abp.js:280-291 | the compiled pattern is found in a URL exactly when the rule's own text, read as anchors, wildcards, separators and literals, means the URL |
| RuleMeaning.MeansAtIsMatchAt | abp.js:287 | place by place, text and compiled fragments match alike |
| GlobRules.TextMatchesAnywhere | abp.js:287 | text without marks matches exactly the URLs it stands in, up to ASCII case when the rule does not mind case |
| GlobRules.StarMatchesARun | abp.js:287 | `*` between two texts stands for any text without one of the four line ends |
| GlobRules.CaretMatchesASeparator | abp.js:287 | `^` between two texts stands for one ASCII character that is no letter, digit, `_`, `-`, `.` or `%` |
| GlobRules.CaretMatchesTheEnd | abp.js:287 | `^` at the end stands for one such character or the end of the URL, and so does `^\|` |
| GlobRules.BarsMatchTheEnds | abp.js:287 | `\|` in front is the start of the URL, and `\|` behind its end |
| HostRules.BarsMatchLabels | abp.js:287 | `\|\|d` matches a URL of scheme, host and rest exactly when `d` stands at the start of the host or after one of its dots with a label before it, however many labels come before |
| HostRules.BarsCaretMatchLabels | abp.js:287 | `\|\|d^` does so exactly when a separator or the end follows `d` as well |
| HostRules.SubdomainsMatch | abp.js:287 | `\|\|d` matches `d` and every subdomain of it, of any depth |
| HostRules.BarsRuleDecides | abp.js:772-777 | as the only loaded rule, `\|\|d` proxies exactly those URLs, whatever the case of their letters |
| Regex.LeadingAnyRun | abp.js:287 | a leading `.*` adds nothing to an unanchored search |
| Regex.TrailingAnyRun | abp.js:287 | neither does a trailing one |
| Regex.MatchSuffix | abp.js:287-288 | a match of a pattern contains a match of each of its tails |
| Rules.OptionsStart | abp.js:80 | finds the first `$` that only options follow |
| Rules.RuleIsWrittenAs | abp.js:322-430 | the text of a rule is `@@` exactly for a whitelist rule, then its body, then options that start at the first possible `$`, are all known, and give the filter its settings |
| Rules.WhichLinesAreRules | abp.js:81-98 | a line is a comment exactly when it opens with `!`, and otherwise a rule unless an option is unknown or its expression does not compile |
| Rules.ReadOptions | abp.js:343-406 | the option loop fails exactly on an unknown option and otherwise folds the options in order |
| Rules.OptionsAllKnown | abp.js:343-406 | a list of options is accepted exactly when each is known |
| Rules.LastOptionDecides | abp.js:370-401 | the last option of each kind decides |
| Rules.WhitelistTwin | abp.js:326-330 | `@@` in front of a blocking rule gives the whitelist rule for the same URLs |
| RuleOptions.OptionIs | abp.js:80 | an option is, behind at most a `~`, a name of letters, digits, `_` and `-`, and perhaps a `=` and a value without commas and white space |
| RuleOptions.DecidingOptions | abp.js:343-406 | `match-case`, `domain` and `sitekey` are read by these names, with the value behind the `=` |
| RuleOptions.OtherOptions | abp.js:343-406 | of all other names without hyphen and value, the content types, their negations and the third-party and collapse options are known and decide nothing, and no others are known |
| RuleOptions.PlainRuleFoldsCase | abp.js:287-291 | a rule without options matches without regard to case |
| RuleOptions.MatchCaseRuleKeepsCase | abp.js:257-260 | with `$match-case` behind it, with regard to case |
| RuleOptions.SitekeyRuleNeverMatches | abp.js:191-196 | with a sitekey option, it matches nothing |
| RuleOptions.SlashedRuleIsRaw | abp.js:269-273 | a rule between slashes is searched for as a regular expression of its own, without regard to case, and is invalid when it does not compile |
| RuleOptions.UnknownOptionIsInvalid | abp.js:402-405 | an unknown option makes the line no rule |
| Tokens.TokensAreMaximalRuns | abp.js:601 | the tokens of a URL are exactly its maximal runs of three or more token characters |
| Tokens.CandidatesAreFencedRuns | abp.js:546 | the keyword candidates of a rule are exactly its runs of three or more token characters between delimiters |
| Keyword.KeywordTextIsSource | abp.js:537-545 | `findKeyword`, which strips options before `@@`, searches the same text `fromText` compiles |
| Keyword.LooksRawIs | abp.js:79 | a rule is taken for raw exactly when it is slashes around one line, perhaps behind `@@`, perhaps with options behind |
| Keyword.FencedRunIsToken | abp.js:287 | whatever a pattern matches holds each of the rule's candidates as a token, through anchors, separators and wildcards |
| Keyword.KeywordCompleteness | abp.js:529-566 | whatever URL the pattern of a rule matches has every keyword candidate of the rule among its tokens |
| Keyword.RuleIsFound | abp.js:529-606 | whichever keyword a rule was filed under, every URL it matches is looked up by it |
| Keyword.OneLineRuleIsFindable | abp.js:533-536 | a rule without line ends that is raw gets the empty keyword |
| Keyword.UnfindableRuleCanBeMissed | abp.js:533-536 | a raw rule with a keyword can match a URL that is not looked up under it, so the condition of the completeness result is needed |
| Keyword.BrokenRawRuleHasKeyword | abp.js:79 | there are such rules |
| Matcher.IndexRefinesScan | abp.js:599-620 | lookup by keyword finds something exactly when some held rule matches |
| Matcher.HitIsHeld | abp.js:582-620 | what a lookup finds is held and matches |
| Matcher.MatchIsHit | abp.js:599-620 | no held rule that matches is missed |
| Matcher.FirstHitIs | abp.js:607-618 | the scan over the words finds something exactly when the entry of some word does |
| Matcher.FilingKeepsIndexed | abp.js:487-501 | filing a new rule keeps every held text in exactly one place, under its recorded keyword, in a bare entry or an array of two or more |
| Matcher.UnfilingKeepsIndexed | abp.js:509-527 | and so does removing one |
| Matcher.Matcher.FindKeyword | abp.js:551-565 | the first candidate with the fewest rules and, among those, the greatest length |
| Matcher.BestIs | abp.js:549-565 | the chosen keyword is the first of the longest of the candidates with the fewest rules, and there is none only when each has 2^24 rules or more |
| Matcher.Matcher.Add | abp.js:481-502 | the held set gains the rule, the index stays consistent |
| Matcher.Matcher.Remove | abp.js:503-528 | the held set loses the rule, the index stays consistent |
| Matcher.Matcher.Clear | abp.js:476-480 | nothing is held |
| Matcher.Matcher.AddThenRemove | abp.js:481-528 | removing a rule undoes adding it, whatever was filed in between |
| Matcher.Matcher.CheckEntryMatch | abp.js:582-598 | the first matching filter of an entry |
| Matcher.Matcher.MatchesAny | abp.js:599-620 | non-null exactly when some held rule matches, and then a held rule that matches |
| CombinedMatcher.CombinedMatcher.MatchesAnyInternal | abp.js:719-745 | the fused scan returns what the whitelist returns or, when that is nothing, what the blacklist returns |
| CombinedMatcher.CombinedMatcher.MatchesAny | abp.js:746-762 | the answer is the one remembered under the key, or else a fresh one, and is then remembered; it is a fresh answer to a query with the same key, and to this very query when that has no space, whatever was asked before, or when no domain ever had one; nothing else of the cache changes, but that 1000 answers make way for the next, and its count is right |
| CombinedMatcher.CombinedMatcher.Add | abp.js:642-657 | the rule joins its list and no stale answer survives |
| CombinedMatcher.CombinedMatcher.Remove | abp.js:658-673 | the rule leaves its list and no stale answer survives |
| CombinedMatcher.CombinedMatcher.Clear | abp.js:635-641 | nothing is held or remembered |
| CombinedMatcher.CacheKeyInjective | abp.js:748 | queries with space-free domains share a key only when equal |
| CombinedMatcher.PlainKeyIsUnique | abp.js:748 | a query without any space shares its key with no other query |
| CombinedMatcher.CacheKeyAmbiguousIff | abp.js:748 | a query shares its key with one for a longer location exactly when its domain has a space |
| CombinedMatcher.SpacedQueryIsStaleIff | abp.js:746-762 | a query can be misled by an earlier one with the same key and a different decision exactly when its URL or its domain has a space |
| CombinedMatcher.AskTwice | abp.js:746-762 | a query not yet remembered gets its own decision, and the next query with its key gets that decision too |
| CombinedMatcher.StaleReply | abp.js:764-777 | a misled query, asked of the loaded rule, gets the wrong decision |
| CombinedMatcher.CombinedMatcher.ListHit | abp.js:719-745 | a list finds something exactly when some rule of its kind matches |
| CombinedMatcher.CombinedMatcher.AnswerIs | abp.js:772-777 | the answer is a blocking rule exactly when no held whitelist rule and some held blocking rule matches |
| CombinedMatcher.CombinedMatcher.FindProxyForURL | abp.js:772-777 | proxy exactly when no loaded whitelist rule and some loaded blocking rule matches: for a query without a space whatever was asked before, for one not remembered, and for space-free hosts throughout |
| CombinedMatcher.Load | abp.js:764-770 | what is held is the set of the loaded lines, so order and repetition do not matter |
| Domains.BuildDomains | abp.js:133-187 | the map gives each listed name the polarity of its last entry and the default the rest; fails exactly on several entries that name nothing |
| Domains.IsActiveOnDomain | abp.js:200-222 | the walk ends, with the polarity of the longest dot-suffix that has a key |
| Domains.ActiveOnHost | abp.js:126-223 | builder and walk together, in terms of the list alone: the longest listed dot-suffix of the host decides by its last entry, any other host is active exactly when nothing is included, and a single name of dots is active everywhere |
| Rules.GetDomains | abp.js:193-202 | the list of a rule is built when it is matched and has no sitekey, and that fails exactly for a rule whose list has several entries and names nothing |
| Domains.SnocLastSays | abp.js:155-182 | a later entry for a name overrides an earlier one |
| Domains.EntriesList | abp.js:145-182 | an entry lists its name without the dots at its end, as excluded behind a `~`; only dots list nothing |
| Domains.HostIsLookedUpBy | abp.js:204-209 | a host is looked up in upper case and without the dots at its end |
| Ends.NextDial | core/cs.go:226-238 | the head of the server's loop is a read step of an idle server: a Dial, or the channel is given up |
| Ends.Answer | core/cs.go:240-248 | answering is a refuse or an accept step, written to the wire unless the write fails, which only marks the channel: after a refusal the server reads on |
| Ends.AfterSession | core/cs.go:249-256 | the end of the loop body is a done step, and the loop goes on exactly with a sound channel |
| Ends.WriteDial | core/cs.go:471-477 | writing the Dial is a dial step, and a channel it fails on is closed |
| Ends.ReadBack | core/cs.go:478-515 | awaiting the answer is a read step of a busy client: a session on "ok", a free channel on another text, a channel closed on anything else |
| Ends.ClosePiper | core/cs.go:532-542 | closing the piper is a done step: a sound channel is free again, a broken one is closed |
| Ends.PipeIn | core/cs.go:53-78 | a read while piping is a read step of either end, and its payload is what the session gets |
| Ends.PipeOut | core/cs.go:80-88 | a write while piping is a data step of either end |
| Ends.PipeClose | core/cs.go:122-130 | closing at the end of piping is a close step of either end, silent on a marked channel |
| Loops.ProcConn | core/cs.go:215-261 | the loop, whatever the other end does meanwhile: its run carries out its script turn by turn, each statement being the one due where the server then is (a read when idle, an answer when dialing, a read, write or close of the session when it is open), what it writes to its connection is turn by turn what these steps put on the wire, and it stops before the end of the script only with the channel given up and closed |
| Loops.UseChannel | core/cs.go:460-542 | and so does a client with one channel, dial after dial: a Dial when idle, the read of its answer, the statements of the session |
| Channel.ChannelConn.CloseConn | core/cs.go:122-130 | a sound channel sends a Close and lives on, a marked one is closed |
| SessionWires.ClientTakesKeepsWires | core/cs.go:53-78 | a frame the client reads belongs to the dial it was written for |
| SessionWires.BackwardHead | core/cs.go:240-246 | next on the client's wire is a frame of its last answered dial or, once none is left, the next answer |
| SessionWires.AwaitKeepsWires | core/cs.go:478-490 | the answer the client takes is the server's answer to the same dial |
| SessionWires.ForwardHead | core/cs.go:472-490 | next on the server's wire is a frame of its last dial or, once none is left, the next Dial |
| SessionWires.AcceptDialKeepsWires | core/cs.go:226-238 | a Dial the server takes is the client's next dial |
| SessionSteps.PipingServerIsNotDialed | core/cs.go:249-251 | no Dial reaches a server that is still in a session |
| SessionSteps.ApplyKeepsInv | core/cs.go:215-261 | every step of either end keeps the invariant |
| SessionIsolation.RunKeepsInv | core/cs.go:53-542 | the invariant holds in every state of every run |
| SessionIsolation.RunExists | core/cs.go:53-542 | every list of actions has a run |
| SessionIsolation.EndsAgree | core/cs.go:240-246 | both ends agree which dials became sessions, except that the answer to the server's last dial may be unread, or be a refusal that reads "ok" |
| SessionIsolation.InvIsolates | core/cs.go:493-542 | the invariant isolates sessions: one dial, and each end got what the other wrote before its first Close, from the start, and all of it once it has read a Close |
| SessionIsolation.EveryRunIsIsolated | core/cs.go:53-542 | over every interleaving, the j-th session of both ends is one dial, and each end got what the other wrote in it before its first Close: in order, from the start, and all of it once it has read a Close |
| CleanRun.CleanSessionsAreWhole | core/cs.go:215-261 | without stray Closes a session gets a start of what its peer wrote, and exactly that once it has read a Close |
| CleanRun.RunIsTidy | core/cs.go:122-130 | without stray Closes nothing is written in a session after its Close |
| PoolClient.Client.PullConn | core/cs.go:399-420 | an idle channel when there is one, otherwise a new one |
| PoolClient.Client.FindOldest | core/cs.go:430-438 | the least recently made idle channel |
| PoolClient.Client.PushConn | core/cs.go:423-447 | the channel moves to the pool; a full pool closes its least recently made channel, if one was made before now, and keeps it; the pool is within `MaxIdle` exactly when it was below it |
| PoolClient.Client.TimeoutConn | core/cs.go:362-377 | exactly the channels that are too old are closed, each once, and dropped; it is the timeout step of any run with this pool |
| PoolClient.Client.Close | core/cs.go:321-335 | every recorded channel is closed, once, and no idle one; the maps are unchanged; it is that step of any run with this pool |
| PoolClient.Client.DialBack | core/cs.go:460-491 | at most `TryMax` attempts; all channels but the returned one are closed; success exactly when some attempt is answered, with the text of the first that is; what it does is a list of steps of one call of a run, which stands at the attempt of that answer, or has made all `TryMax` |
| PoolClient.Client.DialConn | core/cs.go:493-501 | by the first answered attempt: success on "ok"; any other text puts the channel back into the pool and fails; with no answer every pulled channel is closed; what is closed, in order, with the eviction of a push; from any state of a run with this pool it is the steps of one more call, up to its session or its end |
| PoolClient.Client.ClosePiper | core/cs.go:532-542 | a broken channel is closed, a sound one goes back to the pool; it is the step that ends the call |
| PoolRuns.ApplyKeepsInv | core/cs.go:362-447 | every step of every concurrent dial keeps the pool's invariant |
| PoolRuns.MoveKeepsInv | core/cs.go:399-447 | a call that takes from the pool what it gains, and closes what it logs, keeps the conservation laws |
| PoolRuns.RunExists | core/cs.go:362-542 | every list of actions has a run from an empty pool |
| PoolRuns.PoolOwnership | core/cs.go:362-542 | over every interleaving the maps are disjoint, each channel ever made is in exactly one place (idle, with one call, closed by one call, expired), each Close is a call's, a timeout's, an eviction's or that of `Close`, and what a call pulled, each channel once and at most `TryMax`, is as a multiset what it closed, pushed back and holds |
| PoolRuns.ClosedForGood | core/cs.go:362-542 | a channel closed by a call, or expired, is never idle or held again in any longer run |
| Dials.ApplyKeepsInv | core/cs.go:215-542 | every step of every call, server and expiry keeps pool, channels and records together |
| Dials.RunExists | core/cs.go:215-542 | every list of actions has a run |
| Dials.EveryCallIsServed | core/cs.go:460-542 | over every interleaving, the server's session of a call's dial has the call's target and got a start of what the call put in, the call got a start of what that session wrote, each all of it once it has read a Close; a call without a dial has exchanged nothing |
| Dials.EverySessionHasOneCall | core/cs.go:215-542 | whatever a session of any channel's server got comes from one call, and no other call stands for its dial |
| Header.HeaderRoundTrip | udpgw/udpgw.go:92-114 | parsing a reply to a well-formed request gives back conid, address and port, with the flags masked |
| Header.ParseOfHeader | udpgw/udpgw.go:155-170 | the header `procRead` builds parses to what it was built from |
| Header.ParsedIsInRange | udpgw/udpgw.go:106-114 | address, data and header make up the whole packet |
| Header.ReplyFlagsKeepBits | udpgw/udpgw.go:157-164 | a reply keeps the IPv6 and DNS bits and no other |
| Header.ParseByNumbers | udpgw/udpgw.go:92-114 | a request byte by byte: bit 0 of the flags is the keepalive, bit 3 an address of 16 bytes and not 4, numbers have their high byte first, and what is too short fails or panics |
| Header.ReplyByNumbers | udpgw/udpgw.go:155-170 | a reply carries bits 2 and 3 of the flags and no other, and its numbers high byte first |
| Header.FillHeader | udpgw/udpgw.go:155-170 | the moving offset writes the header, and panics exactly when the buffer is too short |
| Header.CopyAt | udpgw/udpgw.go:168 | copies what fits and nothing else |
| Gateway.UDPGW.ProcData | udpgw/udpgw.go:92-141 | each kind of packet: error, keepalive, panic, known and new connection, which is recorded with the flags, address and port of its first request on a socket of its own; a full write reports the whole length |
| Gateway.UDPGW.Connect | udpgw/udpgw.go:118-136 | a new connection keeps the bound; the table gains its entry and loses a least recently used one exactly when it was full, even if the dial then fails |
| Gateway.UDPGW.LimitConn | udpgw/udpgw.go:185-202 | drops a least recently used entry exactly when the table is full |
| Gateway.UDPGW.FindOldest | udpgw/udpgw.go:191-196 | an entry no entry was used before |
| Gateway.UDPGW.ProcTimeout | udpgw/udpgw.go:244-255 | exactly the entries unused for too long are closed and deleted |
| Gateway.UDPGW.CloseAllConn | udpgw/udpgw.go:49-56 | every entry is closed and deleted |
| Gateway.UDPGW.ReaderDeletes | udpgw/udpgw.go:149-151 | the entry of the reader's conid is gone, and the reader's own with it |
| Gateway.UDPGW.ReaderCloses | udpgw/udpgw.go:152 | closing the reader's socket then touches no entry |
| GatewayRuns.ApplyKeepsInv | udpgw/udpgw.go:92-153 | every step of every actor keeps the table's invariant |
| GatewayRuns.TableSafety | udpgw/udpgw.go:49-257 | over every interleaving each key is its entry's conid, no entry has a closed socket, and the table is within its bound |
| GatewayRuns.RunKeepsInv | udpgw/udpgw.go:49-257 | the invariant holds after every run |
| GatewayRuns.MaxConnIsKeptIff | udpgw/udpgw.go:185-202 | every run stays within `MaxConn` exactly when `MaxConn` is at least one |
| GatewayRuns.StepOrphansIff | udpgw/udpgw.go:118-153 | a step leaves an open socket without entry, exiting reader or pending insertion exactly when it is the exit of a reader whose conid has a newer entry |
| GatewayRuns.RunOrphansIff | udpgw/udpgw.go:49-257 | every open socket stays accounted for throughout a run exactly when no reader in it exits late |
| GatewayRuns.LateExitOrphansSocket | udpgw/udpgw.go:149-152 | a run with such an exit, by a timeout and a reconnection |
| Gfw.PatternIsLineSuffix | core/gfw.go:83-95 | the pattern is found in a rule text exactly when a line ends with the domain and has no `@` before it |
| Gfw.SaysByPositions | core/gfw.go:84 | a text speaks of a domain exactly when it stands at the end of a line, with no `@` between the start of the line and it |
| Gfw.NameIsLookedUpBy | core/gfw.go:60-76 | `x.y` and every name under it, with any spaces, tabs and dots around it, is looked up by `x.y`, a lone label by itself |
| Gfw.SaysFewerLabels | core/gfw.go:69-74 | a line that speaks of some labels speaks of fewer |
| Gfw.SubdomainHasSameCore | core/gfw.go:57-81 | a domain and all its subdomains are decided by the same two labels |
| Gfw.SubdomainsShareTarget | core/gfw.go:57-81 | every subdomain of a domain of two labels or more, trimmed as `Find` trims it, has the domain's target |
| Gfw.GFW.Set | core/gfw.go:37-41 | the domains the list speaks of grow by those the new text speaks of, a list of one target keeps it, and the text `*` only sets the default |
| Gfw.GFW.Check | core/gfw.go:83-95 | the target of a rule text that speaks of the domain, or nothing |
| Gfw.GFW.FindSuffix | core/gfw.go:68-75 | the loop over suffixes finds the target of a rule text that speaks of the last two labels, and something whenever one with a target does: looking at longer suffixes adds nothing |
| Gfw.GFW.Find | core/gfw.go:57-81 | the target of the rule texts that speak of the last two labels, when they agree and so in every list of one target, else the default; in any list the target of one of those texts, when none of them is empty |
| Gfw.GFW.IsProxy | core/gfw.go:52-54 | with one target `proxy`, proxied exactly when some rule text speaks of the last two labels |
| SortedDialer.DialerAccounting | core/dialer.go:371-403 | over every interleaving tries are errors, successes and dials in flight, no average divides by zero, and error rates are fractions |
| SortedDialer.FiguresAfter | core/dialer.go:371-403 | over every interleaving, after each end of a dial or a test, the error rate of its dialer times errors, successes and dials in flight is its errors; after a success its average time is the sum of its milliseconds divided by successes and dials in flight, truncated; no figure of another dialer moves |
| SortedDialer.SortedDialer.Record | core/dialer.go:472-508 | each lock section keeps the counters those of the run so far |
| SortedDialer.SortedDialer.constructor | core/dialer.go:350-368 | the keys are the names in order, the dialers their set, all counters zero |
| SortedDialer.SortedDialer.Swap | core/dialer.go:423-425 | the keys stay a permutation |
| SortedDialer.LessIsStrict | core/dialer.go:412-420 | the order is irreflexive and asymmetric |
| SortedDialer.TransitiveIffNoBridge | core/dialer.go:412-420 | the order is transitive for all average times exactly when no error rate bridges two others |
| SortedDialer.ClusterableIff | core/dialer.go:412-420 | error rates can be put in clusters exactly when no two are the tolerance apart and what is near a near one is near |
| SortedDialer.ClusteredIsLexicographic | core/dialer.go:412-420 | on clustered error rates the order is by cluster, then by average time |
| SortedDialer.SwapsPermute | core/dialer.go:423-425 | any run of swaps permutes the keys |
| SortedDialer.SortedByCluster | core/dialer.go:412-425 | sorting by any swaps until no key is less than the one before leaves the same keys, ordered throughout by cluster of error rates and then by average time |
| SortedDialer.SortedDialer.Summarise | core/dialer.go:428-505 | successes and failures add up to the dialers tested; the average is the truncated mean over the successes, the minimum and maximum are those of the successes, or the initial minute and zero without any |
| SortedDialer.Tally | core/dialer.go:474-502 | the sums of the round, dialer by dialer, in the order the loop met them |

## Left out

- Rule options other than `match-case`, `sitekey` and `domain` are parsed and otherwise ignored, as `matches` ignores them.
- `isActiveOnlyOnDomain`, `isSlowFilter` and the key functions of `CombinedMatcher` are not called when deciding.
- Non-ASCII case folding and white space in rules and URLs.
- The memoised `regexp` of a filter: a filter here is a value, compiled anew where it is used.
- JavaScript arrays in the index are values reassigned in the table; they are not shared in the original either.
- PoolClient.Client.DialBack: one dial at a time, since other dials between its attempts are the subject of `PoolRuns`.
- Session timing and liveness: nothing is said about whether a frame is ever read.
- `Ping` and the test loop of the client, HTTP transport, and process start-up.
- Channels that a failed dial closed stay in `conns` for ever; the model has this and states nothing about memory.
- Gateway.UDPGW.ProcData: one packet with nothing else running, since the other actors are the subject of `GatewayRuns`.
- The address of a new UDP connection is copied at creation, where the original keeps a slice of the frame buffer.
- `sort.Sort` belongs to Go's library; the model has its `Less`, its `Len` through the key set, and its `Swap`.
- Reading `s.keys` while sorting changes it in place, 64-bit overflow of counters, and float32 rounding.
- CombinedMatcher.Load: comment lines, invalid lines and the text `#this`, which the original files too and fails on when they are looked up.
- Gfw.PatternIsLineSuffix: domains with characters that mean something in a regular expression.
- Gfw.GFW.Check: the same.
- Gfw.GFW.FindSuffix: the same.
- Gfw.GFW.IsProxy: the same.
- Gfw.GFW.Find: domains with characters that mean something in a regular expression; where rule texts that speak of a domain disagree, the original's answer depends on the order of a map, and the model says only that it is one of theirs.
- Reading rule files, authentication, TLS, websockets and PAC routing.
