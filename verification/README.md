# Verified models for subconverter-ng

subconverter-ng fetches proxy subscriptions, runs nodes and routing rules through a pipeline and
prints them in the formats of several clients. This project models its core in Dafny and proves what
the code keeps, undoes or preserves. `dafny verify dfyconfig.toml` checks everything.

Code that changes things step by step is modelled as it is written: classes for the cache, the
limiter and the nodes, methods with loops for the pipeline, the generators and the parsers. Each
method is tied to a function of its inputs or of the old state, and the properties are lemmas about
those functions, over all inputs, all runs or all interleavings.

| files | what they hold |
|---|---|
| RateLimit, RateLaws | the token-bucket limiter against one that never evicts; exactly when a client is refused; the window bound; memory; Retry-After |
| FetchCache, FetchFlight, FetchAnswers | the TTL cache against an unbounded one; the singleflight protocol as a step system over any number of callers; which replies answers and entries come from |
| Values, UniqueNames, PrepareNodes, NodeStamps | nodes updated in place, distinct display names, the shared node pipeline, and what its options do key by key |
| Rules, RuleLists, RuleTypes | neutral rules, the list format, types, aliases and inline rules |
| RuleProviders, SingboxRouting | first-match meaning of the inlined, provider and sing-box forms |
| Clauses, ProviderRouting | both Clash outputs as first-match clause lists, and exactly when they route alike |
| Groups, GroupLaws | proxy groups, their sing-box and Surge forms, and whether a sing-box configuration's references resolve |
| FanOut, CollectRules, Subscriptions | goroutine fan-out as a step system, and the two places that use it |
| Base64, Percent, LinkText, SSLinks, SSRLinks, Formats, ShareLists | share links printed and read, up to whole base64 lists |
| LinkCodes, LinkForms | what base64, percent-encoding and every link of the documented shapes say, whoever wrote them |
| SurgeLines, SurgeLists, SurgeOptions, SurgeSections | Surge proxy lines and sections, printed, read and printed again; lines option by option, documents line by line |
| JsonTrees, SingboxOutbounds, SingboxDocuments | sing-box outbounds as JSON trees, rendered, parsed and rendered again |
| SingboxFields, SingboxNodes | the same outbounds key by key, as printed and as read from any object |
| SingboxConfigs | whole sing-box configurations, generated, read and generated again |
| Utf8, Unescape, UnescapeParts, Redact, RedactAgain | the two in-place text rewriters, and redacting what was redacted |
| Text, Decimal, Accessors, AccessorLaws, Sets, Wrappers | strings.\*, strconv, typed field access, set sizes |

Go strings are byte strings: a Dafny `string` whose characters stand for bytes. Where a theorem needs
every character below 256 it says so (`IsBytes`). Times are integers for the cache and reals for the
limiter. 64-bit limits matter in decimal conversion and are modelled there.

## Where the code does less than its comments say

Each of these is stated and proved, with a concrete input or the exact condition under which the code
does what is promised, or both.

- `uniquifyNames` does not always leave the first holder of a name alone: in the order "a", "a", "a 2"
  the second "a" takes "a 2" (FirstHolderLosesName). FirstHoldersKeepIff gives the condition, a count
  over the input names.
- Evicting idle buckets is unobservable, and the burst bound holds, exactly when burst is at most ten
  times the rate per minute (EvictionInvisibleIff, WindowBoundIff).
- The integer Retry-After is rounded down, although a comment calls it the worst-case wait: it suffices
  exactly when the rate is at least 60 a minute or divides 60 (HeaderHonouredIff).
- `expand=false` can change routing when an inline rule refers to a generated provider name such as
  provider_1 (NameClashReroutes). It does unless the rule stands behind a catch-all, or everything that can
  still decide from that rule to the first catch-all goes to its group (ExpandFalsePreservesRouting,
  ClashMayBeHarmless). ClientOwes says what the client has to do for its part.
- An ss share link has no room for every field: a plugin other than obfs and v2ray-plugin is dropped, obfs
  loses path and tls, v2ray-plugin without a mode gets websocket, and every node read back has UDP on and
  neither TCP fast open nor certificate skipping (PluginSurvivesIff, FieldsSurviveIff, OtherPluginIsLost,
  MissingModeIsFilled). ListKeepsFieldsIff says which lists come back whole.
- sing-box keeps rules that follow a catch-all and uses the last catch-all (RoutingPreservedIff).
- A Surge line read back loses vmess udp and alterId, gives trojan udp, and drops an obfs plugin that has
  no mode. LineReproducedIff says exactly which nodes are stable.
- A socks outbound loses TCP fast open when read (SocksLosesTfo), and reality options with neither key nor
  short id are lost; RenderIsFixed says that nothing else is.
- `unescapeUnicode` works on text, not on YAML: outside double quotes it rewrites a literal
  backslash-u (PlainScalarIsRewritten). CopiedIff says exactly which texts it leaves alone.
- Redacting twice can differ from redacting once when "://" stands only in a masked query value
  (SeparatorInValue). RedactTwiceIff gives the exact condition on texts without white space.
- A rule whose group is not defined keeps its name in a sing-box configuration, where nothing then answers to
  it; RoutesResolveIff says exactly when that cannot happen. Surge groups drop references to other groups
  (SurgeMembersAre), although a comment says they are kept.
- A list line with four or more fields is neither used nor reported (LineMeans, ListSays).
- An inline rule is printed with its group last, so a flag written in it (no-resolve) stands where a client looks
  for the group. InlineGroupIff says exactly when the group is found.

## Model

| member | source | states |
|---|---|---|
| `RateLimit.Limiter.constructor` | internal/ratelimit/ratelimit.go:42-58 | a new limiter is the empty state; a non-positive burst becomes 1, a negative rate becomes 0 |
| `RateLimit.Limiter.Allow` | internal/ratelimit/ratelimit.go:62-99 | answer and whole new state are one step of the limiter's state machine, sweep included |
| `RateLimit.Limiter.EvictStale` | internal/ratelimit/ratelimit.go:103-116 | drops exactly the buckets idle for more than ten minutes |
| `RateLimit.TouchSound` | internal/ratelimit/ratelimit.go:84-98 | a call keeps 0 <= tokens <= burst, before and after the token is taken |
| `RateLimit.RunSound` | internal/ratelimit/ratelimit.go:62-116 | every state of every run keeps 0 <= tokens <= burst and no bucket from the future |
| `RateLimit.StaleIsFull` | internal/ratelimit/ratelimit.go:84-98 | a bucket idle past the TTL answers as a missing one when the TTL refills a burst |
| `RateLimit.EvictionInvisible` | internal/ratelimit/ratelimit.go:62-116 | every run with interleaved sweeps answers as a limiter that never evicts |
| `RateLimit.EvictionInvisibleIff` | internal/ratelimit/ratelimit.go:42-116 | eviction is unobservable in all runs if and only if the normalised burst is at most 10 * ratePerMin; otherwise a run that tells them apart is built |
| `RateLimit.IdealIsPerKey` | internal/ratelimit/ratelimit.go:62-99 | without eviction a key's answers are a function of that key's own request times |
| `RateLimit.OwnTimesDecide` | internal/ratelimit/ratelimit.go:42-116 | two runs in which a key asks at the same times give it the same answers, whatever other keys and sweeps do |
| `RateLimit.SpendBound` | internal/ratelimit/ratelimit.go:84-98 | requests admitted from one bucket never exceed what it held plus what it earned |
| `RateLimit.WindowBound` | internal/ratelimit/ratelimit.go:62-116 | in any window of any run one key is admitted at most burst + refill times |
| `RateLimit.WindowBoundIff` | internal/ratelimit/ratelimit.go:42-116 | that bound holds for all keys, runs and windows if and only if the normalised burst is at most 10 * ratePerMin |
| `RateLimit.OneTokenSuffices` | internal/server/server.go:131-136 | a refused client that waits 60/rpm seconds is admitted, in every reachable state, with anything but its own requests in between |
| `RateLimit.EarlyRetryRefused` | internal/server/server.go:131-136 | for rpm < 60 not dividing 60 a run exists in which obeying Retry-After is refused again |
| `RateLimit.HeaderHonouredIff` | internal/server/server.go:131-136 | the integer Retry-After always suffices if and only if rpm >= 60 or rpm divides 60 |
| `RateLaws.RefusedIff` | internal/ratelimit/ratelimit.go:84-98 | a client on its own is refused if and only if, counted from some request of its own, the burst and all that was earned since are used up by the requests admitted since: the exact law over times and answers alone |
| `RateLaws.RunRefusesIff` | internal/ratelimit/ratelimit.go:42-116 | the same in every run with other clients and sweeps in between, for the limits an operator writes down, where eviction is unobservable |
| `RateLaws.SweepKeepsRecent` | internal/ratelimit/ratelimit.go:103-116 | after a sweep the buckets left are exactly those seen within ten minutes |
| `RateLaws.CallSweepsIff` | internal/ratelimit/ratelimit.go:67-81 | a call sweeps if and only if it brings a new key a minute or more after the last sweep; otherwise no bucket goes |
| `RateLaws.NewKeyBoundsMemory` | internal/ratelimit/ratelimit.go:62-116 | in every run, after a call that adds a key, each bucket was seen within the last eleven minutes |
| `FetchCache.Cache.constructor` | internal/fetch/cache.go:32-42 | an empty cache of 1000 entries; a non-positive TTL becomes five minutes |
| `FetchCache.Cache.Get` | internal/fetch/cache.go:45-57 | a hit is the response stored last and still live; a live response is missed only when crowded out; an expired entry is deleted |
| `FetchCache.Cache.Set` | internal/fetch/cache.go:60-104 | the new entries are one of the outcomes map iteration order allows, and the ideal cache gains the response |
| `FetchCache.Cache.MakeRoom` | internal/fetch/cache.go:79-97 | the single pass over the map drops all expired entries, or else one that expires first |
| `FetchCache.Cache.Flush` | internal/fetch/cache.go:107-111 | cache and ideal cache are both empty |
| `FetchCache.Cache.Len` | internal/fetch/cache.go:114-118 | never more than the capacity |
| `FetchCache.SetAgrees` | internal/fetch/cache.go:60-104 | whichever entry makes way, the cache still agrees with an unbounded TTL map that stored the same response |
| `FetchCache.Crowded` | internal/fetch/cache.go:79-97 | an entry that was evicted unexpired has at least capacity rivals stored no earlier |
| `FetchCache.RoomSize` | internal/fetch/cache.go:74-103 | after making room and storing, the size is within capacity and no kept entry changed |
| `FetchCache.LookupsAreFaithful` | internal/fetch/cache.go:45-111 | over any history of gets, sets and flushes: size bound, hits are last stored and live, a live URL is absent only if capacity other URLs were stored no earlier |
| `FetchFlight.FlightsKept` | internal/fetch/fetch.go:190-226 | every step keeps one running flight per URL, listed in the group |
| `FetchFlight.NoNeedlessFetchKept` | internal/fetch/fetch.go:200-215 | every step keeps: a flight past its inner check that has not stored has no live entry for its URL |
| `FetchFlight.SharedResultKept` | internal/fetch/fetch.go:190-226 | every step keeps callers, channels and delivered results in agreement |
| `FetchFlight.LogKept` | internal/fetch/fetch.go:266-278 | every step keeps: a store that neither expired nor was undone is a live entry |
| `FetchFlight.RunKeepsInv` | internal/fetch/fetch.go:190-278 | all of these hold in every state of every interleaving |
| `FetchFlight.AtMostOneFlight` | internal/fetch/fetch.go:190-226 | no reachable state runs two flights for one URL |
| `FetchFlight.NoRequestWhileLive` | internal/fetch/fetch.go:200-263 | no step of any run starts an origin request for a URL whose entry is unexpired then, retries and replays included |
| `FetchFlight.RefetchHasACause` | internal/fetch/fetch.go:228-278 | between a store and the next origin request for that URL its entry expired, was evicted, or the cache was flushed |
| `FetchFlight.SameFlightSameResult` | internal/fetch/fetch.go:201-226 | all callers served by one flight have one result |
| `FetchFlight.NobodyIsForgotten` | internal/fetch/fetch.go:216-226 | a caller still waiting after its flight delivered has that result in its channel |
| `FetchFlight.OthersStep` | internal/fetch/fetch.go:216-226 | any step of anybody else is possible with the same outcome whatever became of one caller |
| `FetchFlight.CancellationIsPrivate` | internal/fetch/fetch.go:216-226 | striking one caller's cancellation out of any run leaves a run ending in the same cache, flights, channels and log, all other callers unchanged |
| `FetchAnswers.ResultHasASource` | internal/fetch/fetch.go:200-263 | every body a flight delivers is one the origin gave that flight with status 200, no challenge page unless it answers the replay, or one its inner check found unexpired |
| `FetchAnswers.ServedIsAReply` | internal/fetch/fetch.go:190-278 | every body any caller is given, from a flight or from the cache, is one the origin gave for that caller's URL with status 200, no challenge page unless after a solved challenge |
| `FetchAnswers.EntryIsAReply` | internal/fetch/fetch.go:266-271 | every cache entry of every run holds a non-empty body that the origin gave for its URL in such a reply |
| `FetchAnswers.CachedAnswerIsLive` | internal/fetch/fetch.go:195-199 | a caller served without a flight got what was unexpired for its URL when it asked |
| `FetchAnswers.ReplyDecides` | internal/fetch/fetch.go:230-262 | a reply that is no challenge, or that answers the replay, decides the flight: 200 is its result, any other status an error |
| `FetchAnswers.ChallengeDecides` | internal/fetch/fetch.go:231-253 | a challenge page goes to the solver if there is one, and is an error if there is none |
| `FetchAnswers.UnsolvedIsAnError` | internal/fetch/fetch.go:250-253 | a challenge that is not solved is an error |
| `FetchAnswers.FailuresDecide` | internal/fetch/fetch.go:228-263 | a flight whose retries are used up without a reply is an error, unless a solver is still to try |
| `FetchAnswers.RequestsAre` | internal/fetch/fetch.go:228-263 | origin requests start exactly with a flight's first request, with the replay after a solved challenge, and with each retry that is left, one each and for the flight's URL |
| `FetchAnswers.GoodReplyIsStored` | internal/fetch/fetch.go:238-271 | before a flight with a good reply delivers, its body is stored unexpired under its URL, unless it is empty, and then the cache stays as it was |
| `FetchAnswers.BeginAnswers` | internal/fetch/fetch.go:195-199 | a caller is served at once if and only if its URL has an unexpired entry |
| `FetchAnswers.JoinLeads` | internal/fetch/fetch.go:201-214 | a caller that missed waits for the flight that runs for its URL, or for a new one when none does |
| `Values.Proxy.constructor` | internal/proxy/proxy.go:27-36 | a node's fields and its five seed entries |
| `Values.Proxy.Rename` | internal/proxy/proxy.go:39-42 | Name and the map's name entry change together, nothing else does |
| `Values.Proxy.Set` | internal/proxy/proxy.go:46-56 | an empty string, and nothing else, is not stored |
| `Values.Proxy.SetRaw` | internal/proxy/proxy.go:60-62 | stores any value under the key and leaves the rest |
| `AccessorLaws.NumberReads` | internal/generator/common.go:400-451 | an integer, a float cut off towards it and its decimal text read the same, as a number and as a text |
| `AccessorLaws.SwitchReads` | internal/generator/common.go:415-428 | a switch is on for true, for a number that is not zero and for four words in any case |
| `UniqueNames.SuffixInjective` | internal/generator/common.go:104-110 | decimal suffixes of one name are injective |
| `UniqueNames.ProbesAreTaken` | internal/generator/common.go:104-110 | k probes in a row can fail only if k names are taken, so the unbounded probe stops |
| `UniqueNames.Probe` | internal/generator/common.go:104-110 | the probe loop terminates and gives the least free suffix from 2 upward |
| `UniqueNames.UniquifyNames` | internal/generator/common.go:94-114 | every node object ends up with its place's name in the list of unique names, renamed only when that differs, name and map in lockstep |
| `UniqueNames.UniqueIsDistinct` | internal/generator/common.go:94-114 | the names that come out are pairwise distinct, for every list |
| `UniqueNames.UniqueAt` | internal/generator/common.go:94-114 | a name is kept exactly when no earlier node ended up with it, else it gets the least free suffix |
| `UniqueNames.DistinctIsUnchanged` | internal/generator/common.go:94-114 | distinct names are left alone |
| `UniqueNames.UniqueTwice` | internal/generator/common.go:94-114 | a second pass changes nothing |
| `UniqueNames.SuffixesGiven` | internal/generator/common.go:94-114 | while first holders keep their names, a suffix no input spells is in use exactly when the repeats of its name outnumber the free suffixes below it |
| `UniqueNames.FirstHoldersKeepIff` | internal/generator/common.go:87-114 | every first holder keeps its name if and only if no input name spells a suffix that the repeats before it have reached, a count over the input names alone |
| `UniqueNames.FirstHolderLosesName` | internal/generator/common.go:94-114 | the first holder of "a 2" loses it in ["a", "a", "a 2"] |
| `PrepareNodes.CleanNodes` | internal/generator/common.go:37-48 | nil nodes go; CR and LF leave the names of the others |
| `PrepareNodes.FilterProtocols` | internal/generator/common.go:198-217 | keeps, in order, exactly the node objects whose protocol is not excluded and counts the rest |
| `PrepareNodes.FilterNodes` | internal/generator/clash.go:285-300 | keeps exactly those that match an include pattern, if there is one, and no exclude pattern |
| `PrepareNodes.FilterDeprecated` | internal/generator/clash.go:353-366 | drops exactly the ss nodes whose non-empty cipher is not in the supported set |
| `PrepareNodes.Dedup` | internal/generator/clash.go:306-335 | keeps the first node of each set of connection fields as their YAML text shows them (typed and untyped lists, small whole floats and integers alike), counts the others |
| `PrepareNodes.SortNodes` | internal/generator/common.go:74-76 | the objects are put in the order of the stable sort by name |
| `PrepareNodes.ApplyNodeOptions` | internal/generator/clash.go:380-405 | type tag, emoji, renames and the three flags, on the object in place |
| `PrepareNodes.PrepareNodes` | internal/generator/common.go:37-86 | the objects returned and the counters reported are those of the pipeline's specification, other objects untouched |
| `PrepareNodes.NothingIsLost` | internal/generator/common.go:37-86 | inputs = NodeCount + excluded + remark-filtered + deprecated + duplicates, and NodeCount nodes come out |
| `PrepareNodes.WhoSurvives` | internal/generator/common.go:37-73 | the survivors are, in input order, exactly the inputs that pass the filters and, with Dedup, have no earlier passing twin |
| `PrepareNodes.DuplicateHasKeptTwin` | internal/generator/clash.go:306-335 | each dropped duplicate has an earlier kept node with the same connection fields |
| `PrepareNodes.SortedSize` | internal/generator/common.go:74-76 | sorting permutes |
| `PrepareNodes.SortIsStable` | internal/generator/common.go:74-76 | names ascend and equal names keep input order |
| `PrepareNodes.NamesAreFit` | internal/generator/common.go:77-86 | the display names that come out are pairwise distinct and hold no CR or LF, whatever renames and emoji rules do |
| `PrepareNodes.OutputsAreStampedInputs` | internal/generator/common.go:37-86 | each output is one surviving input, no input twice, with connection fields changed by nothing but the stamped flags |
| `NodeStamps.StampMeans` | internal/generator/clash.go:380-405 | key by key: udp, tfo and skip-cert-verify become true where the option asks and stay otherwise, every other field stays, and the name is what type tag, emoji removal, renames in list order and emoji addition make of it, each of what the one before left |
| `NodeStamps.PlainStamps` | internal/generator/clash.go:380-405 | without naming options the name stays; the type tag alone gives the bracketed upper-case type, a space and the name |
| `NodeStamps.OutputFields` | internal/generator/common.go:37-86 | every node that leaves the pipeline is one of the inputs with its flags stamped in this sense and every other field but the name as it was |
| `NodeStamps.OutputNames` | internal/generator/common.go:37-86 | the names that leave the pipeline are the names so made, without CR and LF, then made distinct in output order |
| `NodeStamps.PassesIff` | internal/generator/clash.go:285-366 | which nodes pass the filters, in terms of type, name and cipher |
| `NodeStamps.TwinsIff` | internal/generator/clash.go:306-335 | two nodes are duplicates if and only if every key but the name is rendered alike in both, or missing in both |
| `NodeStamps.LessIff` | internal/generator/common.go:37-86 | names are ordered byte by byte: the first difference decides, a proper prefix comes first |
| `Rules.ParseRemoteRuleset` | internal/generator/common.go:363-395 | the rules and the reported lines of a list, line by line; lines of four or more fields leave neither |
| `RuleLists.LineMeans` | internal/generator/common.go:365-392 | one line of the list format, whatever wrapper, quotes, blanks and CR surround it: type, value and flag in this order; one word, four or more fields, remarks and blank lines each as the format says |
| `RuleLists.ListSays` | internal/generator/common.go:363-395 | a whole list so written, all kinds of lines interleaved, reads as exactly its rules in order, and exactly its single words that are no catch-all are reported |
| `RuleTypes.NameMeans` | internal/generator/common.go:236-253 | a type is read in upper case without blanks; six aliases stand for their types, any other for itself |
| `RuleTypes.TypesTaken` | internal/generator/clash.go:541-553 | which normalised types a Clash configuration may hold, kind by kind |
| `RuleTypes.AskedIsTaken` | internal/generator/common.go:260-273 | every rule that sing-box can express is a line of the Clash output |
| `RuleTypes.InlineSays` | internal/generator/common.go:349-358 | an inline body is a catch-all word in any case, or the type before its first comma and all that follows, or no rule |
| `RuleTypes.InlineGroupIff` | internal/generator/common.go:338-358 | a client finds the group of an inline rule in its place if and only if nothing follows the value (or what does is the group's own name): a flag such as no-resolve ends up where the group belongs |
| `RuleProviders.BuildRules` | internal/generator/clash.go:469-479 | every neutral rule as a Clash line or among the skipped, in order |
| `RuleProviders.BuildRuleProviders` | internal/generator/clash.go:487-535 | the seen-sets, the provider map and the generated names of the loop, for the whole ruleset list |
| `RuleProviders.SameNumber` | internal/generator/clash.go:511-515 | generated provider names are injective in their number |
| `RuleProviders.NextNameIsNew` | internal/generator/clash.go:511-515 | the next generated name is not in use, so no two URLs share a provider name |
| `RuleProviders.ExtendAllKeeps` | internal/generator/clash.go:487-535 | every iteration keeps providers one-to-one with their URLs and never changes an existing one |
| `RuleProviders.EntryDecides` | internal/generator/common.go:236-273 | a list entry inlined under a group sends to that group exactly the packets the entry matches |
| `RuleProviders.InlinedRuleset` | internal/generator/common.go:286-395 | an inlined ruleset decides as one test: any entry matches, then the group |
| `RuleProviders.SeenBefore` | internal/generator/clash.go:527-532 | a (provider, group) pair found in the seen-set comes from an earlier ruleset with that URL and group |
| `RuleProviders.RepeatDecidesNothing` | internal/generator/clash.go:527-532 | a RULE-SET line that is left out as a repeat would have decided no packet |
| `Clauses.AgreeIff` | internal/generator/clash.go:466-535 | two clause lists that differ only where one asks for a RULE-SET name and the other for a list decide alike for every packet if and only if their clashes are harmless |
| `ProviderRouting.InlinedAsClauses` | internal/generator/common.go:286-395 | the inlined output sends each packet where the first matching clause does, one clause a ruleset, no provider known |
| `ProviderRouting.ProvidersAsClauses` | internal/generator/clash.go:487-535 | the RULE-SET lines and providers send it where the clauses with the providers known do, left-out repeats included |
| `ProviderRouting.FactsOccur` | internal/generator/common.go:363-395 | any combination of clause tests is true of some packet under some list contents |
| `ProviderRouting.RulesetsAgreeIff` | internal/generator/clash.go:466-535 | each ruleset taken alone means the same in both forms for all lists and packets if and only if no inline rule names a generated provider |
| `ProviderRouting.ExpandFalsePreservesRouting` | internal/generator/clash.go:466-535 | for a client that reads lists as the converter does, expand=false sends every packet where expand=true does, for every content of the lists, if and only if there is no clashing inline rule before the first catch-all, or every clause from the first one to the catch-all that can still decide has its group |
| `ProviderRouting.NoClashPreservesRouting` | internal/generator/clash.go:466-535 | in particular when no inline rule names a generated provider |
| `ProviderRouting.ClientOwes` | internal/generator/clash.go:487-535 | with one list and nothing else, routing is preserved exactly by the clients that read every list as the converter does |
| `ProviderRouting.ClashMayBeHarmless` | internal/generator/clash.go:487-535 | a configuration with such an inline rule that expand=false does not reroute |
| `ProviderRouting.NameClashReroutes` | internal/generator/clash.go:487-535 | a configuration with an inline RULE-SET,provider_1 that expand=false reroutes, whatever the client |
| `SingboxRouting.RouteRule` | internal/generator/singbox.go:175-201 | the rule object, or none for a type sing-box has no field for |
| `SingboxRouting.RouteRules` | internal/generator/singbox.go:64-78 | route list, final outbound and skipped rules of the loop |
| `SingboxRouting.FinalIsLast` | internal/generator/singbox.go:67-72 | the last catch-all decides `final` |
| `SingboxRouting.DnsGoesToDns` | internal/generator/singbox.go:66 | DNS packets go to dns-out whatever the rules say |
| `SingboxRouting.SingboxSemantics` | internal/generator/singbox.go:64-122 | the first expressible rule that hits decides wherever a catch-all stands, then the last catch-all, then direct |
| `SingboxRouting.RoutingPreservedIff` | internal/generator/singbox.go:64-122 | every non-DNS packet goes where the neutral rules, as they themselves read, send it if and only if what follows the first catch-all would send its packets to that catch-all's outbound |
| `SingboxRouting.RuleMeans` | internal/generator/singbox.go:163-201 | the object emitted for a rule asks of a packet what the rule asks, by two readings written apart, and exactly the rules that ask something get one |
| `SingboxRouting.PolicyOutbounds` | internal/generator/singbox.go:107-122 | packets that a rule sends to DIRECT leave by direct, to REJECT and REJECT-DROP by block, to any other group by that group |
| `SingboxRouting.SuffixReachesSubdomains` | internal/generator/singbox.go:163-171 | DOMAIN-SUFFIX,google.com sends www.google.com, and not notgoogle.com, to its group |
| `SingboxRouting.CatchAllLastPreserves` | internal/generator/singbox.go:64-122 | in particular when no rule follows a catch-all |
| `SingboxRouting.RuleAfterCatchAllReroutes` | internal/generator/singbox.go:67-72 | MATCH,A then DOMAIN,x,B: sing-box sends x to B |
| `Groups.ResolveSelectors` | internal/generator/clash.go:433-464 | the loops and the seen-set give each picked name once, where it is first picked |
| `Groups.FirstsAre` | internal/generator/clash.go:436-441 | exactly the non-empty names, none twice, in the order in which they are first added |
| `Groups.MembersAre` | internal/generator/clash.go:433-464 | a name is a member if and only if it is not empty and some selector means it: by reference, as one of all, or by a pattern that compiles |
| `GroupLaws.MembersInOrder` | internal/generator/clash.go:433-466 | members stand selector by selector, and within one selector in the order of the nodes |
| `Groups.BuildGroups` | internal/generator/clash.go:409-429 | one group a definition, DIRECT for the empty ones, whose names are reported |
| `Groups.SingboxGroupOutbound` | internal/generator/singbox.go:125-161 | the selector or urltest object of a group |
| `Groups.MembersKeptIff` | internal/generator/singbox.go:125-142 | the object lists every member as its tag if and only if each is a built-in policy, a group or a printed node |
| `GroupLaws.GroupObject` | internal/generator/singbox.go:125-161 | the object of each definition in a whole configuration: tag, members, selector for select only, and otherwise test URL, interval in seconds and tolerance with their defaults |
| `Groups.GenerateDocument` | internal/generator/singbox.go:45-78 | tags, group objects, routes and final of the configuration |
| `Groups.GroupsResolve` | internal/generator/singbox.go:45-161 | in every configuration each group object has a member, and every member is an outbound the configuration defines |
| `Groups.RoutesResolveIff` | internal/generator/singbox.go:64-122 | every outbound that routes and final refer to is defined if and only if each expressible rule and the last catch-all name a built-in policy, a group, a printed node or a tag |
| `Groups.FormatSurgeGroup` | internal/generator/surge.go:110-141 | the line of a group, unknown types degraded to select |
| `Groups.SurgeMembersAre` | internal/generator/surge.go:119-124 | what stays in a Surge group is exactly the built-in policies and printed nodes among its members, so references to other groups go |
| `GroupLaws.SurgeLine` | internal/generator/surge.go:110-141 | the parts of the line, by position: a type Surge has, the members kept, and test options for the tested types only |
| `GroupLaws.SurgeByPlace` | internal/generator/surge.go:118-124 | members are kept or dropped one by one, in place |
| `FanOut.StepKeepsInv` | internal/generator/common.go:298-321 | every step keeps each slot written only by its own goroutine and the semaphore equal to the places in use |
| `FanOut.FetchesAreBounded` | internal/generator/common.go:298-321 | never more goroutines fetch than the semaphore has places |
| `FanOut.SlotsAreTheWork` | internal/generator/common.go:298-322 | once all are done and nobody cancelled, slot i holds what source i alone gives, in every schedule |
| `FanOut.CancelledSlots` | internal/generator/common.go:306-318 | cancelled or not, a slot holds the whole work, a cut fetch's leavings, or nothing |
| `FanOut.NeverStuck` | internal/generator/common.go:298-322 | until all goroutines are done some step other than a cancellation is possible: no deadlock on the semaphore |
| `FanOut.RunsAreShort` | internal/generator/common.go:298-322 | every schedule is over after at most four steps a source and one cancellation |
| `CollectRules.Assemble` | internal/generator/common.go:324-336 | slots are appended in declared order, inline bodies in place, Tailscale rules first |
| `CollectRules.CollectIsScheduleIndependent` | internal/generator/common.go:286-337 | in all interleavings without cancellation the result is the sequential expansion in declared order, failed lists contributing nothing |
| `CollectRules.CancellationDropsWholeLists` | internal/generator/common.go:306-336 | after a cancellation the result is the sequential expansion without some lists, never part of one |
| `CollectRules.AtMostSixteenFetches` | internal/generator/common.go:298-312 | at most 16 lists are being fetched at any moment |
| `CollectRules.SequentialIsNeutral` | internal/generator/common.go:286-337 | with every fetch successful the expansion is the rule list that the provider form is compared with |
| `Subscriptions.Merge` | internal/convert/convert.go:261-275 | the lowest-indexed failure, or all nodes and skipped lines in source order and the first source's userinfo |
| `Subscriptions.MergeContractIsMergeOf` | internal/convert/convert.go:261-275 | that contract has exactly one result |
| `Subscriptions.MergeIsOneByOne` | internal/convert/convert.go:223-276 | it is what fetching one source after the other and stopping at the first failure gives |
| `Subscriptions.MergeIsScheduleIndependent` | internal/convert/convert.go:223-276 | in all interleavings without cancellation |
| `Subscriptions.Gather` | internal/convert/convert.go:98-125 | a failed subscription is an error, failed insert sources are not; the userinfo is the subscription's |
| `Base64.B64Decode` | internal/parser/util.go:12-23 | the first of the four variants that accepts the trimmed text, else the text and false |
| `Base64.DecodeEncode` | internal/generator/v2ray.go:35 | each variant decodes what it encodes, on every byte string (sections 4 and 5 of RFC 4648) |
| `Base64.VariantsAgree` | internal/parser/util.go:12-23 | two variants that both accept a text decode it to the same bytes |
| `Base64.B64IsAnyVariant` | internal/parser/util.go:12-23 | b64decode gives x if and only if some variant does, so the order of the variants does not matter |
| `Base64.B64OfEncode` | internal/parser/util.go:12-23 | b64decode is exact on every encoding of every byte string, padded or not, standard or URL-safe |
| `Base64.B64OfWrapped` | internal/parser/util.go:12-23 | also when the text is wrapped over lines and surrounded by white space |
| `LinkCodes.Alphabets` | internal/parser/util.go:12-23 | the two alphabets, symbol by symbol (tables 1 and 2 of RFC 4648) |
| `LinkCodes.ThreeBytes` | internal/parser/util.go:12-23 | three bytes are four symbols whose six-bit values read as one number give the bytes read as one number |
| `LinkCodes.TwoBytes` | internal/parser/util.go:12-23 | two bytes left over are three symbols filled up with zero bits, padded where the variant pads; OneByte and EncodedByThree are the other cases |
| `Percent.UnescapeEscape` | internal/generator/v2ray.go:364-366 | unescaping undoes escaping on every byte string, a space written as + or %20 (section 2.1 of RFC 3986) |
| `Percent.PlusIsSpace` | internal/generator/v2ray.go:364-366 | replacing + by %20 after QueryEscape is escaping a space as %20 |
| `Percent.ParseEncoded` | internal/parser/ssr.go:40-62 | parsing an encoded query gives the same pairs in the same order |
| `LinkCodes.EscapedByte` | internal/generator/v2ray.go:364-366 | letters, digits and four marks stay, a space is written as asked, any other byte as percent and two upper-case hex digits |
| `LinkCodes.UnescapesPieces` | internal/parser/ss.go:22-27 | a text of plain characters, plus signs and hex pairs in either case unescapes to what its pieces mean |
| `LinkCodes.QueryByPair` | internal/parser/ss.go:33-52 | a query string is read pair by pair: up to the next ampersand, split at the first equals sign, both sides unescaped |
| `LinkText.AtoiPortOf` | internal/parser/util.go:38-41 | a printed 64-bit port reads back |
| `LinkText.SplitPrinted` | internal/parser/util.go:68-84 | host:port splits back into host and port, for every host without a leading bracket or blank, colons included |
| `SSLinks.SSPluginQuery` | internal/generator/v2ray.go:274-302 | the SIP002 plugin query of a node, "" for an unknown plugin |
| `SSLinks.ApplySSPlugin` | internal/parser/ss.go:91-120 | the plugin fields a spec adds to a node, part by part |
| `SSLinks.ParseSS` | internal/parser/ss.go:18-80 | the node of a link in SIP002 or legacy form; null exactly for the error returns |
| `SSLinks.ShareLink` | internal/generator/v2ray.go:42-57 | the printed link of an ss node |
| `SSLinks.PluginRead` | internal/parser/ss.go:91-120 | reading the printed plugin spec gives back the plugin and every option printed |
| `SSLinks.LinkRead` | internal/generator/v2ray.go:42-302 | a printed link reads back as the node it stands for: name, server, port, cipher, password, plugin and options |
| `SSLinks.FieldsSurvive` | internal/generator/v2ray.go:42-57 | name, server, port, cipher and password always read the same on the node that comes back |
| `SSLinks.PluginSurvivesIff` | internal/generator/v2ray.go:274-302 | plugin, mode, host, path and tls read the same if and only if: no plugin and no options, or obfs without path and tls, or v2ray-plugin with a mode |
| `SSLinks.FieldsSurviveIff` | internal/parser/ss.go:18-120 | every field that printer or reader knows (address, cipher, password, plugin fields, UDP, TCP fast open, certificate skipping) reads the same if and only if that holds and the node has UDP on, TCP fast open and certificate skipping off |
| `SSLinks.OtherPluginIsLost` | internal/generator/v2ray.go:274-302 | a well-formed node with the plugin shadow-tls comes back without a plugin |
| `SSLinks.MissingModeIsFilled` | internal/generator/v2ray.go:274-302 | v2ray-plugin without a mode comes back with the mode websocket |
| `SSLinks.RereadIff` | internal/parser/ss.go:18-120 | printing and reading again a node read from a link gives that node if and only if its plugin options are ones the printer writes as they are |
| `LinkForms.SipForm` | internal/parser/ss.go:18-79 | every SIP002 link (credentials plain or in any base64 variant, plain or bracketed host, with or without query and fragment) gives the node with that cipher, password, host, port, plugin and name |
| `LinkForms.LegacyForm` | internal/parser/ss.go:47-79 | the same for the older form, all in one piece of base64 of any variant, whatever the password holds |
| `LinkForms.PartSets` | internal/parser/ss.go:91-120 | which option each part of a plugin spec sets; the last one of an option stands |
| `SSRLinks.ShareLink` | internal/generator/v2ray.go:248-268 | the printed link of an ssr node |
| `SSRLinks.ParseSSR` | internal/parser/ssr.go:17-71 | the node of a link; null exactly for the error returns |
| `SSRLinks.LinkRead` | internal/generator/v2ray.go:248-268 | a printed link reads back as the node it stands for, through both layers of base64 |
| `SSRLinks.FieldsSurvive` | internal/generator/v2ray.go:248-268 | every field a link carries reads the same on the node that comes back |
| `SSRLinks.FieldsSurviveIff` | internal/parser/ssr.go:17-71 | every field that printer or reader knows, and the three flags, read the same if and only if the node has UDP on, TCP fast open and certificate skipping off |
| `SSRLinks.RereadIsIdentity` | internal/parser/ssr.go:17-71 | printing and reading again a well-formed node read from any link gives that very node |
| `LinkForms.SSRForm` | internal/parser/ssr.go:17-71 | every ssr link, in any variants of base64 inside and out, gives the node with the six fields of its body by position and the parameters of its query by name |
| `Formats.IsSurge` | internal/parser/surge.go:29-55 | the detection loop answers whether some line looks like Surge |
| `ShareLists.GenerateV2ray` | internal/generator/v2ray.go:20-38 | the base64 document and the skipped nodes |
| `ShareLists.TryDecode` | internal/parser/parser.go:147-168 | the decoded body when the document is base64 of text |
| `ShareLists.DispatchLine` | internal/parser/parser.go:70-142 | the node a line's scheme reader gives |
| `ShareLists.ParseLines` | internal/parser/parser.go:112-130 | the nodes and the skipped lines, in line order |
| `ShareLists.ListRoundTrip` | internal/parser/parser.go:89-168 | for every non-empty list of well-formed ss and ssr nodes, reading the printed document gives the nodes their links stand for, in the same order, nothing skipped, no other format detected |
| `ShareLists.ListKeepsFieldsIff` | internal/parser/parser.go:89-168 | that document reads as the printed nodes with every such field if and only if each node is one whose link holds all of them |
| `SurgeLines.SSParts` | internal/generator/surge.go:187-203 | the options printed for ss are those of the facts of the node's fields |
| `SurgeLines.VMessParts` | internal/generator/surge.go:204-218 | the same for vmess, with TLS and WebSocket options |
| `SurgeLines.TrojanParts` | internal/generator/surge.go:219-235 | the same for trojan |
| `SurgeLines.Hysteria2Parts` | internal/generator/surge.go:236-245 | the same for hysteria2 |
| `SurgeLines.WSParts` | internal/generator/surge.go:418-433 | WebSocket options appended to a line |
| `SurgeLines.NodeLine` | internal/generator/surge.go:177-244 | the whole line of a node |
| `SurgeLines.ReadParams` | internal/parser/surge.go:127-146 | the key=value parameters of a line, the last one of a key winning |
| `SurgeLines.SetFields` | internal/parser/surge.go:148-301 | the fields set from the parameters, for ss, vmess, trojan and hysteria2 |
| `SurgeLines.ParseLine` | internal/parser/surge.go:127-301 | the node of a line; null exactly for the error returns |
| `SurgeLines.LineReads` | internal/parser/surge.go:58-301 | a printed line reads as a node with the line's name, type, address and facts as the reader takes them |
| `SurgeLines.LineReproducedIff` | internal/generator/surge.go:177-244 | print, read, print gives the same line if and only if: ss has a mode with its obfs plugin, trojan has udp, vmess has no udp and alterId 0 |
| `SurgeOptions.OptionsAre` | internal/generator/surge.go:177-433 | which option a printed line has for which key of the node's own fields, and that it has no others |
| `SurgeOptions.LineText` | internal/generator/surge.go:177-245 | a line is the name, the type, the address and the options, in this order |
| `SurgeOptions.FieldsAre` | internal/parser/surge.go:127-301 | which field of the node each parameter of any line sets |
| `SurgeOptions.NodeIs` | internal/parser/surge.go:127-301 | the node of any line of the four types, key by key, in terms of the line's parameters |
| `SurgeOptions.LinePlaces` | internal/parser/surge.go:97-118 | name, type, server and port of a line by their places, blanks around them apart |
| `SurgeOptions.ParamIs` | internal/parser/surge.go:127-150 | a parameter is what follows the first equals sign of its token; the last token of a key counts |
| `SurgeLists.GenerateList` | internal/generator/surge.go:66-78 | the list-only [Proxy] section |
| `SurgeLists.FindSections` | internal/parser/surge.go:63-70 | whether the document has section headers |
| `SurgeLists.ScanLines` | internal/parser/surge.go:72-97 | the section scan: comments, headers and other sections left out |
| `SurgeLists.ParseSurge` | internal/parser/surge.go:58-125 | nodes and skipped lines of a document, in order |
| `SurgeSections.LinesTaken` | internal/parser/surge.go:64-95 | the lines taken for nodes are, in order, exactly those that set something and whose last header above, if the document has any, is [Proxy] in any case |
| `SurgeSections.DocumentRead` | internal/parser/surge.go:58-124 | nodes and skipped lines of any document are those of the lines so taken, in order |
| `SurgeLists.SectionReads` | internal/parser/surge.go:58-125 | reading a printed section finds every node, in order, and skips nothing |
| `SurgeLists.SectionReproduced` | internal/generator/surge.go:66-78 | the section is reproduced when every node is one the reader takes whole |
| `SurgeLists.SectionReproducedIff` | internal/generator/surge.go:66-78 | and only then |
| `SingboxDocuments.TLSObject` | internal/generator/singbox.go:415-443 | the tls object built key by key is the table of what the node's fields say about TLS |
| `SingboxDocuments.TransportObject` | internal/generator/singbox.go:382-410 | the same for ws, grpc and h2 transports |
| `SingboxDocuments.KindObject` | internal/generator/singbox.go:218-378 | each protocol's keys, assigned one by one, are the table of the outbound's facts |
| `SingboxDocuments.NodeOutbound` | internal/generator/singbox.go:204-378 | the object of a node, none for a type sing-box has no outbound for |
| `SingboxDocuments.ExtractTLS` | internal/parser/singbox.go:257-298 | fields set on the node from a tls object |
| `SingboxDocuments.ExtractTransport` | internal/parser/singbox.go:300-341 | fields set on the node from a transport object |
| `SingboxDocuments.SetPlugin` | internal/parser/singbox.go:98-136 | plugin fields from the plugin_opts string |
| `SingboxDocuments.SetAddresses` | internal/parser/singbox.go:225-255 | ip and ipv6 from local_address, prefix lengths dropped |
| `SingboxDocuments.ParseOutbound` | internal/parser/singbox.go:82-255 | the node of an object; null exactly for the error returns |
| `SingboxDocuments.ParseOutbounds` | internal/parser/singbox.go:58-80 | nodes in order, routing outbounds passed over, failures counted |
| `SingboxDocuments.GenerateOutbounds` | internal/generator/singbox.go:22-34 | the objects of all nodes in order, the names of the nodes that have one, and the nodes left out |
| `SingboxOutbounds.OutboundBack` | internal/parser/singbox.go:82-341 | printed, decoded and read, any fitting outbound of the ten protocols gives a node that says the same outbound, but for a blank reality object and the TCP fast open of socks |
| `SingboxOutbounds.RenderIsFixed` | internal/generator/singbox.go:204-443 | rendering, parsing and rendering again gives the same JSON tree if and only if the node has neither of these |
| `SingboxFields.ObjectFields` | internal/generator/singbox.go:204-378 | which types have an object, and what each object holds under each of its keys in terms of the node's own fields |
| `SingboxFields.TlsObjects` | internal/generator/singbox.go:415-443 | which nodes have a tls object, and the whole of it, reality and utls included |
| `SingboxFields.TransportObjects` | internal/generator/singbox.go:382-412 | the whole transport object, for the protocols and networks that have one |
| `SingboxFields.OtherObjects` | internal/generator/singbox.go:204-378 | the obfs object of hysteria2, the addresses and reserved bytes of wireguard |
| `SingboxNodes.NodeFields` | internal/parser/singbox.go:58-341 | which objects give a node, whoever wrote them, and what each key of that node holds in terms of the object's keys |
| `SingboxNodes.NestedFields` | internal/parser/singbox.go:257-341 | the same for reality, WebSocket and HTTP options |
| `SingboxOutbounds.SocksLosesTfo` | internal/parser/singbox.go:212-217 | a socks outbound comes back without its TCP fast open and otherwise whole, so its tree is reproduced if and only if it has none |
| `SingboxDocuments.DocumentIsFixed` | internal/parser/singbox.go:39-80 | a list of outbounds is read as as many nodes in the same order, nothing skipped, and is reproduced if and only if every node is |
| `SingboxConfigs.GenerateSingbox` | internal/generator/singbox.go:18-112 | the whole outbounds list (nodes, groups, built-in ones), the groups, routes and final, and everything reported; with list=true the node outbounds alone |
| `SingboxConfigs.ConfigReadsAsItsNodes` | internal/parser/singbox.go:27-80 | any configuration reads as its node outbounds alone: group objects and built-in outbounds give no node and are not reported as skipped |
| `SingboxConfigs.ConfigKeepsNodes` | internal/parser/singbox.go:39-80 | a configuration of fitting nodes, whatever its groups and rules, reads as exactly those nodes in order, each with all that the reader keeps, nothing skipped |
| `SingboxConfigs.ConfigIsFixed` | internal/generator/singbox.go:18-112 | generating, reading and generating again with the same groups and rules gives the same outbounds, groups, routes and final if and only if every node comes back whole |
| `SingboxConfigs.ConfigTags` | internal/generator/singbox.go:22-69 | the objects carry, one each and in order, the tags that references are checked against |
| `SingboxConfigs.MembersArePrinted` | internal/generator/singbox.go:125-161 | every tag that a group object lists is the tag of some object of the configuration |
| `Utf8.DecodeEncode` | internal/generator/clash.go:258-274 | a printed scalar value reads back whatever follows it |
| `Unescape.UnescapeUnicode` | internal/generator/clash.go:248-281 | the indexed scan equals the step-by-step rewriting of the text |
| `Unescape.UnescapeTwice` | internal/generator/clash.go:248-281 | running it twice is running it once, on every byte string |
| `Unescape.TextIsKept` | internal/generator/clash.go:248-281 | every well-formed double-quoted scalar body without surrogate escapes keeps its decoded text (sections 5.4 and 5.7 of YAML 1.2.2) |
| `Unescape.CopiedIff` | internal/generator/clash.go:248-281 | a text is copied unchanged if and only if it holds no escape the scan would meet; otherwise it gets shorter |
| `UnescapeParts.PartsBecome` | internal/generator/clash.go:248-281 | every text of plain characters, escapes and pairs of backslashes: each escape outside ASCII becomes its character, all else stays |
| `UnescapeParts.RuneBits` | internal/generator/clash.go:248-281 | the bits of UTF-8, first bits first, U+FFFD for what is no scalar value (section 3 of RFC 3629); ThreeByteRune and FourByteRune are the longer forms |
| `Unescape.PlainScalarIsRewritten` | internal/generator/clash.go:240-281 | outside double quotes the rewriter does change a text: a literal backslash-u |
| `Redact.MaskQuery` | internal/config/redact.go:133-147 | parts overwritten in place |
| `Redact.RedactUserinfo` | internal/config/redact.go:111-130 | the authority scan |
| `Redact.RedactURL` | internal/config/redact.go:44-68 | the whole function, opaque schemes included |
| `Redact.RedactedParts` | internal/config/redact.go:44-147 | on any URL with its parts in place, white space around it or not: the trimmed text with the userinfo and each query value become ***, all else as it was |
| `Redact.DissectFits` | internal/config/redact.go:44-147 | every text with "://" before its first '?' has such parts |
| `Redact.RedactedIsIndependent` | internal/config/redact.go:44-147 | URLs that differ only in userinfo (section 3.2.1 of RFC 3986) and query values redact to one text |
| `RedactAgain.RedactTwice` | internal/config/redact.go:44-147 | without white space and with "://" before the first '?', redacting twice is redacting once |
| `RedactAgain.RedactTwiceIff` | internal/config/redact.go:44-147 | without white space, redacting twice is redacting once if and only if "://" stands before the first '?', or nowhere, or in some key of the query, or the masked text has nine bytes with *** at offset 4 |
| `RedactAgain.SeparatorInValue` | internal/config/redact.go:44-55 | with "://" only in a masked value the second pass differs |

## Left out

What the properties assume:

- The limiter reads its clock before taking the lock; runs are assumed to have non-decreasing times in lock order.
- Clients with `nocache` share the singleflight group; the flight protocol is stated for caching clients only.
- A flight's panic and the group's Forget are not modelled; a timeout of the flight is one of the transport errors.
- The cache protocol takes a store's two clock readings as one instant; FetchCache treats them separately.
- FetchCache.Cache.Set: requires a non-empty URL, because the eviction loop uses the empty key as "none"; the client never stores one.
- Within one fan-out the same URL answers the same; two goroutines asking for it may share a flight.
- RuleLists writes down lists whose fields are trimmed and without commas, with at most one item marker and one pair of quotes a line; the parser itself is verified on every text.
- First match over rules is the meaning given to both Clash forms, not code of this repository. How a client reads a provider's list is a parameter, and the routing theorem assumes that it reads lists as the converter does (ReadsLists); ClientOwes shows that a configuration of one list already needs this. What a packet matches is an arbitrary predicate on type, value and flag.
- AND, OR and NOT rules are one opaque condition each, also where they nest a RULE-SET.
- sing-box drops the no-resolve flag; the routing theorem compares conditions without flags on both sides. A packet shows any set of facts (host, address, port and so on); how facts depend on one another is left open, except in SuffixReachesSubdomains.
- UniqueNames.UniquifyNames: requires that no node object occurs twice in the list.
- PrepareNodes.PrepareNodes: requires that no non-nil node object occurs twice in the list.
- sort.SliceStable is taken as a stable sort; its algorithm is not modelled.
- Share links, Surge sections and sing-box lists are printed from nodes as the pipeline leaves them; `prepareNodes` is verified on its own and not composed with the printers.

What stands as a parameter:

- Regular expressions and their compilation, emoji tables and the protocol alias table are function-valued options or parameters.
- The share-link schemes other than ss and ssr, the Surge types other than ss, vmess, trojan and hysteria2, and their readers are function parameters: any behaviour of theirs is allowed.
- The outcome of a subscription source (fetch, then parse) is a parameter of the fan-out.

What is simpler than the code:

- SSLinks.FieldsSurviveIff, SSRLinks.FieldsSurviveIff: compare the fields that printer or reader knows. Other keys of a node's bag, such as udp-over-tcp, have no place in a link; that they are lost is not part of the statements.
- nodeSignature's YAML rendering is modelled by what it tells apart: typed and untyped lists look alike, and so do integers and whole floats below a million. Everything else is taken as rendered differently.
- JSON texts are value trees: marshalling followed by unmarshalling turns integers into floats and every list into a list of any. Strings are assumed valid UTF-8 and integers exactly representable as float64.
- ToLower and ToUpper change ASCII letters only.
- strings.TrimSpace knows the Unicode white space of the Go library; other Unicode properties are not used.
- net/url is modelled as far as ss and ssr use it: QueryEscape, QueryUnescape, ParseQuery with Set and Get, and the fragment.
- tryBase64 drops blanks byte by byte; that strings.Map also rewrites invalid UTF-8 is not modelled (no base64 variant accepts such bytes).
- Converting a float field outside the 64-bit range to an integer is modelled as truncation.

Not modelled:

- HTTP transport, dialling, redirects, the FlareSolverr call itself, cookies, SSRF checks and response size limits.
- The Surge rule section, whole Clash documents and base configuration merging; tags of different groups and nodes may coincide, as in the code.
- Share links that go through net/url or JSON (vmess, vless, trojan, hysteria2, tuic and others).
- Loon, QuanX and Shadowrocket printers; the Clash YAML reader and writer.
- RedactString, RedactSubURL and RedactError.
- anytls in sing-box documents: only the reader knows it.
- The server's handlers, parameters, web page and configuration loading, except the Retry-After arithmetic.
