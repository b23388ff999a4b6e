# Bancuh DNS, verified

A Dafny model of the filtering core of Bancuh DNS, an ad-blocking DNS server written in Rust: from
the text of block lists to the decision on each query, and the state that changes around it. Every
result holds for all inputs, all runs or all reachable states; nothing here runs the server.

Check the project with `dafny verify dfyconfig.toml` (Dafny 4.11).

## What is modelled

- `Text`, `Regex`, `Parsers`, `HostLines`, `ZoneLines` (`src/compiler/parser/`): the three line
  patterns with the leftmost, greedy, backtracking meaning of the regex engine. The search is proved
  equal to a declarative reading (leftmost start, then every repetition as long as it can be), and what
  the patterns capture is derived from that.
- `Db`, `Rules` (`src/db.rs`): the stores as maps from string keys, `put`, `put_alias`, `get`,
  `contains` and `drop` on objects, and the lookup over dotted keys proved to be a longest-suffix match
  over rules seen as lists of labels.
- `Compiler`, `Meaning`, `Locality`, `WrittenLists` (`src/compiler/`): the nested compile loops over fetched
  sources, the theorem that the compiled stores decide what a scan of the rules on the source lines decides,
  and the same from names written into texts to decisions, without rules or keys in the statement.
- `Engine`, `HotSwap`, `HotSwapSafety`, `MixedAnswer` (`src/engine.rs`, `src/main.rs`): the engine object,
  and the hot swap as a state machine whose steps interleave one updater with any number of requests,
  with reference counts on published databases and the destruction of their stores.
- `QueryLog` (`src/query_log.rs`), `Handler` (`src/handler.rs`), `RateLimiter` (`src/rate_limiter.rs`),
  `Admin`, `IpText`, `IpKeys` (`src/admin.rs`): the query log against an unbounded history, the life of a
  request, the rate-limiting buckets, escaping, and the agreement of the two log keys.

Strings are sequences of Unicode scalar values. A queried name is given by its labels (`IsName`:
non-empty, without dots) and written with a trailing dot (`Absolute`), as in section 3.1 of RFC 1034; the
server asks with lower-case absolute names.

### Inputs from outside

- A fetched source is an optional text; a fetch that failed contributes nothing.
- Library functions are fields of `Parsers.Lib`: Unicode decimal digits, the names that
  `addr::parse_domain_name` accepts (taken to give an accepted name back unchanged) and
  `idna::domain_to_ascii`. Round trips are stated for names these leave alone (`Parsers.Stable`);
  what trailing text does to a hosts line, for libraries that accept no name with white space in it
  (`HostLines.RejectsSpaces`).
- Failing writes are a set of write numbers, failing reads a map from keys to errors.
- The rate limiter's verdict, the upstream resolver, the acceptance of an alias as a name, the outcomes of
  sending and all clock readings are fields of `Handler.World`.
- Parsing an IP address means finding the address that the text denotes under section 2.2 of RFC 4291
  (`IpText.ParseIp`); printing follows sections 4 and 5 of RFC 5952. The standard library's own code is not
  part of this model.

### Where the code and its documentation differ

- `README.md` says in-flight queries are unaffected by an update. A request that loads the published
  database twice around a swap can get an answer that no published version gives
  (`MixedAnswer.ProgramCanMix`). `HotSwapSafety.MixedAnswerIff` says exactly when an answer is the decision
  of a version published between the two loads.
- `README.md` says every query is logged. Only those handled successfully are; a blocked query for a type
  other than A and AAAA never is (`Handler.LoggedIff`).
- A comment in `src/engine.rs` says the old database is dropped at the swap. It survives the swap as
  long as a request holds a guard on it (`MixedAnswer.OldVersionOutlivesSwap`), and goes with the last guard
  (`HotSwapSafety.DestroyedIffUnused`).
- `README.md` offers prefix lengths for rate limiting without a lower bound. With prefix 0 the mask is
  shifted by the whole width; a release build then masks nothing (`RateLimiter.BucketLawIff`).
- The log shows the last ten minutes only if the clock does not go back between insertions and the question
  (`QueryLog.AnswersTrulyIff`, with the lost entry in `QueryLog.ClockGoingBackLoses`).
- Text after the name on a hosts line, such as a comment, is not ignored. The line loses its rule exactly
  when a dot followed by two lower-case letters comes after the name, at most 200 characters from the name's
  start: the greedy capture then runs on to that dot, and names with white space are rejected
  (`HostLines.TrailingTextIff`). So `# v1.2` is harmless and `# see foo.org for details` is not.

## Model

| member | source | states |
|---|---|---|
| Text.LinesRoundTrip | src/compiler/whitelist.rs:51-53 | reading the lines of a text gives back exactly the lines it was written from, with LF or CRLF endings |
| Text.SplitJoin | src/db.rs:75-80 | splitting at dots inverts joining with dots for parts without dots |
| Text.TrimIs | src/compiler/parser/host.rs:22-23 | trimming takes white space off both ends, and all of it |
| Text.SpacesAndLetters | src/compiler/parser/host.rs:12-20 | white space is the 25 characters of the Unicode property, letters are those of `[a-z]` |
| Regex.FindIsCapture | src/compiler/parser/host.rs:12-20 | the backtracking search finds a match exactly when it is the leftmost one and lexicographically greatest in its repetition ends, and finds none exactly when nothing fits anywhere |
| Regex.SearchGreatest | src/compiler/parser/domain.rs:10-15 | from a fixed start, whatever fits, the search succeeds and nothing greedier fits |
| Parsers.DomainSpanExact | src/compiler/parser/domain.rs:9-16 | the captured span is the leftmost start, then the furthest dot with 2 to 200 characters before it that is followed by two lower-case letters, then up to six letters; both directions |
| Parsers.CapturedWhole | src/compiler/parser/domain.rs:9-16 | a line is captured whole if and only if it has 2 to 200 characters, a dot, and a last label of 2 to 6 lower-case letters |
| Parsers.Recapture | src/compiler/parser/domain.rs:9-32 | parsing a captured text again captures all of it and gives the same result |
| Parsers.LongLabelIsCut | src/compiler/parser/domain.rs:10-16 | a last label of more than six letters is cut after the sixth |
| Parsers.ShortNameIsSkipped | src/compiler/parser/domain.rs:10-16 | a name whose dots all come before its third character gives no rule |
| Parsers.ParseStable | src/compiler/parser/domain.rs:9-32 | a whole name that the libraries leave alone parses to itself, with or without a leading wildcard label |
| Parsers.ParseWholeName | src/compiler/parser/domain.rs:18-32 | a whole name without white space gives its ASCII form if the library accepts it, and nothing otherwise; behind a leading wildcard label acceptance is asked of the rest |
| Parsers.ParsePaddedName | src/compiler/parser/domain.rs:23-30 | white space in front of a name is trimmed off after the library has accepted it |
| HostLines.HostFromStart | src/compiler/parser/host.rs:12-33 | when the rest of a hosts line is matched from its start, the line gives what the domain parser gives for the rest |
| HostLines.HostLineMeansName | src/compiler/parser/host.rs:12-33 | for every dotted quad, white space and name without spaces, the line gives the parsed name if the pattern fits at the start of the name, and nothing otherwise, whatever the white space gives back while backtracking |
| HostLines.HostAgreesIff | src/compiler/parser/host.rs:12-33 | hosts lines and domain lines agree on a name if and only if it is matched from its start or not matched at all |
| HostLines.HostWholeName | src/compiler/parser/host.rs:12-33 | they agree on every whole name: its ASCII form if the library accepts it, and the name itself if the libraries leave it alone |
| HostLines.ParseHostExact | src/compiler/parser/host.rs:12-33 | any line gives nothing if the pattern fits nowhere, and otherwise the address and the parsed domain of its leftmost, then greediest match |
| HostLines.NoAddressNoRule | src/compiler/parser/host.rs:19 | a line without a digit right before white space gives nothing |
| HostLines.DottedCommentLosesLine | src/compiler/parser/host.rs:12-33 | after any name without spaces, a dot followed by two lower-case letters in the trailing text, at most 200 characters from the start of the name, makes the line give nothing, if names with spaces are rejected |
| HostLines.TrailingTextIff | src/compiler/parser/host.rs:12-33 | trailing text leaves what a line gives for its name as it is if and only if that was nothing or no such dot follows |
| ZoneLines.ZoneLineMeansNames | src/compiler/parser/cname.rs:12-37 | a zone line of two whole names gives exactly what the domain parser gives for the two names, for any white space, both keyword spellings and any tail without dots |
| ZoneLines.ZoneRoundTrip | src/compiler/parser/cname.rs:12-37 | a zone line written from two names that the libraries leave alone parses back to exactly those names |
| ZoneLines.ParseCNameExact | src/compiler/parser/cname.rs:12-37 | any line gives nothing if the pattern fits nowhere, and otherwise the parsed owner and target of its leftmost, then greediest match |
| ZoneLines.NoKeywordNoRule | src/compiler/parser/cname.rs:12-37 | a line with neither spelling of the keyword gives nothing |
| Db.DomainStore.Put | src/db.rs:54-61 | sets the normalised key, changes nothing on failure or after the drop |
| Db.DomainStore.PutAlias | src/db.rs:63-71 | sets the normalised key to the normalised alias, changes nothing on failure or after the drop |
| Db.DomainStore.Get | src/db.rs:73-91 | the value of the first present key, the first read error before it, or nothing |
| Db.FirstHitDecides | src/db.rs:83-90 | the first key that is present or cannot be read decides, with its value or its error; without one nothing is found |
| Db.DomainStore.Contains | src/db.rs:93-95 | whether there is such a value, with the same errors |
| Db.DomainStore.Drop | src/db.rs:98-113 | takes the database away and destroys its directory, the first time only |
| Db.AdblockDB.Create | src/db.rs:122-134 | three fresh empty stores; or an error when the creation of any of them fails, with those created before it destroyed, once each |
| Rules.LabelsOfAbsolute | src/db.rs:75 | splitting a name and dropping empty parts gives its labels |
| Rules.KeyIsName | src/db.rs:21-27 | a normalised rule equals the text of a name if and only if the rule has its labels |
| Rules.CoversIffKey | src/db.rs:73-81 | a rule covers a name if and only if its key is one of the keys tried for that name |
| Rules.SameKeySameRule | src/db.rs:21-27 | rules with one key are one rule |
| Rules.BestIsWinner | src/db.rs:77-87 | the reference scan finds an entry if and only if it covers the name, no covering entry fixes more labels and no later one as many |
| Rules.LookupIsBest | src/db.rs:73-91 | the index over dotted keys answers what the scan answers: exact rule, else wildcard with the longest proper non-empty suffix, else nothing |
| Rules.ApexIsNotCovered | src/db.rs:78-81 | a wildcard alone in the index is found by exactly the names with labels in front of its suffix, and never by the suffix itself |
| Rules.UndottedNameMissesExact | src/db.rs:77 | a name asked without its trailing dot is answered by the wildcards only |
| Compiler.Compile | src/compiler/mod.rs:32-53 | the stores after the nested loops are those after all whitelist, blacklist and rewrite writes in order, the failed ones left out |
| Compiler.CompileWhitelist | src/compiler/mod.rs:33-38 | the same for the whitelist loops |
| Compiler.CompileBlacklist | src/compiler/mod.rs:40-45 | the same for the blacklist loops |
| Compiler.CompileRewrites | src/compiler/mod.rs:47-52 | the same for the rewrite loops |
| Meaning.IndexMeansRules | src/engine.rs:60-85 | over the stores of three rule lists, redirects and blocking are those of the rules, and so is the decision |
| Meaning.AnyWritesMeanKept | src/compiler/mod.rs:32-53 | whatever writes fail, the database means exactly the rules that were written |
| Meaning.KeptPicks | src/compiler/mod.rs:32-53 | the writes carried out are exactly those that did not fail, in order |
| Meaning.AllWritesFail | src/compiler/mod.rs:32-53 | when every write fails, every name is forwarded |
| Meaning.CompilationPreservesMeaning | src/compiler/mod.rs:32-53 | for every configuration, every fetch outcome and every name, the decision over the compiled stores is the decision of a scan of the source lines: best rewrite, else blacklisted and not whitelisted, else forwarded |
| WrittenLists.WrittenIsRead | src/compiler/whitelist.rs:12-20 | names and records written one per line, in each format and with either line ending, are read by the program's own parsers as exactly those names and records, in order; sources not fetched add nothing |
| WrittenLists.KeysCover | src/db.rs:73-81 | the keys tried for a name are exactly the rule texts that are its text, or a star and a proper suffix of its text |
| WrittenLists.WrittenListsDecide | src/compiler/mod.rs:32-53 | from written texts to the decision on any name, in terms of texts alone: the deciding record rewrites, with the dotted target; else blocked if a name on the blacklists covers it and none on the whitelists; else forwarded |
| WrittenLists.DecidesOnce | src/db.rs:63-71 | at most one record decides: an owner equal to the query before wildcards, longer before shorter, later before earlier |
| Meaning.KeysComeFromSources | src/compiler/mod.rs:32-53 | with any failing writes, every key and alias in a store comes from a rule of its sources |
| Meaning.SameRulesSameFlags | src/compiler/mod.rs:33-45 | the blacklist and whitelist stores depend only on which rules there are |
| Meaning.RewritesKeepLast | src/compiler/mod.rs:47-52 | the rewrite store keeps the last alias per normalised key |
| Locality.LoadedIff | src/compiler/blacklist.rs:36-53 | a source contributes a rule if and only if it was fetched and one of its lines parses to the rule |
| Locality.FlagStoresIgnoreOrder | src/compiler/mod.rs:32-45 | permuting or repeating sources and lines, or moving lines between sources of one format, leaves both flag stores as they are |
| Locality.BlacklistLineIsLocal | src/compiler/blacklist.rs:36-53 | one more blacklist line turns forwarded into blocked exactly for covered names that are not whitelisted, and changes nothing else |
| Locality.WhitelistLineIsLocal | src/compiler/whitelist.rs:39-56 | one more whitelist line turns blocked into forwarded exactly for covered names, and changes nothing else |
| Locality.OverrideLineIsLocal | src/compiler/rewrites.rs:33-50 | one more override line changes the decision only for covered names, and then to its own alias |
| Locality.MoreAliases | src/db.rs:63-71 | one more rewrite rule leaves the redirect of a covered name or makes it its own alias, and never takes it away |
| Locality.SharedZonesAreWhitelisted | src/compiler/whitelist.rs:12-19 | when every override text is also a whitelist zone, every rewritten name is whitelisted |
| Engine.ResultsAreLookups | src/engine.rs:60-85 | without read errors the two engine questions are the lookups that decisions are made of |
| Engine.UnfetchedIsEmpty | src/compiler/whitelist.rs:40-48 | a source that could not be fetched contributes no rule, and a configuration of such sources no write |
| Engine.AdblockEngine.New | src/engine.rs:41-45 | a new engine answers from three empty stores |
| Engine.AdblockEngine.RunUpdate | src/engine.rs:47-58 | succeeds exactly when the stores can be created and the configuration loaded, whatever fetches and writes fail; success publishes a fresh, completely compiled database that means its source lines and destroys the stores of the old one; with every fetch or every write failed it forwards every name; failure keeps the old database unchanged and destroys every store that was created |
| Engine.AdblockEngine.GetRedirect | src/engine.rs:60-69 | the answer of the rewrite store |
| Engine.AdblockEngine.IsBlockedName | src/engine.rs:71-85 | not blocked if whitelisted, else blocked if blacklisted, with read errors passed on |
| HotSwap.NextInv | src/engine.rs:47-85 | every step of every interleaving keeps the invariant: versions completely compiled, reference counts exact, stores owned once, destroyed when unreferenced, requests consistent |
| HotSwap.RunInv | src/main.rs:187-209 | so does every run |
| HotSwapSafety.AnsweredByVersions | src/engine.rs:60-85 | every answer in every run comes from completely compiled published versions i and j with i <= j, no older than the one published at arrival, and is one version's decision when i = j |
| HotSwapSafety.AnswersMeanRules | src/handler.rs:129-180 | end to end: the answer is the evaluation of the rules on the lines of configuration i for rewrites and j for blocking |
| HotSwapSafety.MixedAnswerIff | src/engine.rs:60-85 | in every run, an answer is the decision of a version published between the two loads of its request, both ends included, if and only if the first of them rewrites the name, or one of them does not and blocks it just when the last does |
| HotSwapSafety.QuietAnswerIsOneVersion | src/engine.rs:60-85 | without a publication between the two loads the answer is a single version's decision |
| HotSwapSafety.DestroyedIffUnused | src/db.rs:98-113 | in every run each store is destroyed at most once, and exactly when neither the published pointer, nor a guard, nor the update in progress refers to it |
| HotSwapSafety.StoreLedger | src/db.rs:98-134 | created stores are the live and the destroyed ones |
| HotSwapSafety.QuiescentStores | src/engine.rs:53-55 | with nothing in flight exactly the three stores of the published version are left |
| HotSwapSafety.FailedUpdate | src/engine.rs:50-52 | a failed update leaves versions and requests alone and destroys exactly the stores it created |
| HotSwapSafety.RequestNeverStuck | src/handler.rs:129-180 | an unfinished request can always take its next step |
| HotSwapSafety.UpdateSucceeds | src/engine.rs:47-58 | from any reachable idle state an update can run to the end, whatever writes fail, and publishes the compiled configuration, without touching requests |
| MixedAnswer.StraddlingRequestIsMixed | src/handler.rs:129-150 | a run for every configuration that both rewrites and blocks a name: answered blocked, although one version forwards and the other rewrites it, so that no version gives the answer |
| MixedAnswer.ProgramCanMix | src/handler.rs:129-150 | such a configuration out of one domain line and one zone line, read by the program's own parsers |
| MixedAnswer.OldVersionOutlivesSwap | src/engine.rs:53-55 | a run for every configuration in which the old version, guarded by a request, still has its three stores after the new one is published, and loses them, once each, when the guard is dropped |
| QueryLog.QueryLogStore.Insert | src/query_log.rs:30-46 | the queue loses its expired entries up to the first that is not, one more if it is still full, and gains the new entry; it stays the end of its history whatever the clock says |
| QueryLog.QueryLogStore.GetLogs | src/query_log.rs:48-62 | the entries at exactly the positions not older than ten minutes, in order; if no clock reading was later, exactly those among the last thousand ever inserted |
| QueryLog.WindowPicks | src/query_log.rs:48-62 | filtering the last entries picks exactly those that are young, at increasing positions |
| QueryLog.EntriesPicked | src/query_log.rs:30-34 | the entries of an address are those of exactly the insertions for it, in order |
| QueryLog.QueryLogStore.ActiveIps | src/query_log.rs:64-72 | a number that never exceeds that of the addresses with entries to show, equals it exactly when each of these has a young newest entry, and so whenever entries came in time order |
| QueryLog.InsertedIsQueue | src/query_log.rs:30-46 | a queue is a contiguous end of the history, of at most 1000 entries, and has lost of the last thousand only expired ones |
| QueryLog.AnswersTrulyIff | src/query_log.rs:30-62 | all logs whose insertions read the clock at a given time or before answer like the last thousand entries of the full history if and only if the question does not come before that time |
| QueryLog.ClockGoingBackLoses | src/query_log.rs:35-38 | whenever the clock has gone back there is a history whose answer misses a young entry |
| QueryLog.ActiveIpsCount | src/query_log.rs:64-72 | active addresses never exceed those with entries to show, and equal them if and only if each of these has a young newest entry |
| QueryLog.ActiveIpsInOrder | src/query_log.rs:64-72 | they are equal when entries were inserted in time order |
| Handler.RequestHandler.DoHandleRequest | src/handler.rs:109-181 | result, upstream lookups and messages sent are those of the reply to the request |
| Handler.RequestHandler.HandleRequest | src/handler.rs:219-270 | a dropped request leaves no trace; any other adds its exchange of messages and its log entry, and reports its code |
| Handler.SendsPerRequest | src/handler.rs:183-200 | one or two attempts to send: the records, or an error code once; after records that could not be sent a server failure; at most one is successful |
| Handler.InfoSays | src/handler.rs:243-268 | no error is reported exactly when records went out, else the code that went out, or a server failure when nothing did |
| Handler.LoggedIff | src/handler.rs:243-256 | exactly when a request is logged |
| Handler.LogEntrySays | src/handler.rs:243-254 | the log entry holds the normalised address, the time of the query, the name and type asked, and the kind of answer |
| Handler.ReplyShowsDecision | src/handler.rs:129-180 | the reply shows the decision: the records of the upstream resolver for the name, or for the alias behind one alias record, and only one hop; no such domain, no records of the type and other upstream errors each in their way; the null address of the type asked when blocked |
| Handler.Refusals | src/handler.rs:114-181 | what is no query is refused; a malformed query, failing stores and an alias that is no name are server failures; nothing is asked upstream for them |
| Handler.OneVerdictPerBucket | src/handler.rs:226-241 | requests from one bucket meet one verdict, and without a rate limiter none is dropped |
| Handler.OneEntryPerSuccess | src/handler.rs:243-254 | over any run each address has one log entry per request of it handled successfully |
| Handler.DeliveriesOverRuns | src/handler.rs:183-270 | over any run no more messages are delivered than requests were let through, and the log grows by exactly one entry per set of records delivered |
| Handler.Serve | src/handler.rs:219-270 | any sequence of requests and updates leaves the database of the last successful update, and sends, asks upstream and logs exactly what the events of those requests amount to, each with the database it met |
| RateLimiter.MaskRoundsDown | src/rate_limiter.rs:11-30 | from prefix 1 up, masking rounds down to a multiple of two to the number of free bits |
| RateLimiter.RoundDownIs | src/rate_limiter.rs:18-26 | rounding down takes away the remainder modulo a power of two |
| RateLimiter.FreeBitsAre | src/rate_limiter.rs:11-30 | each family has its own width and prefix |
| RateLimiter.SameBucketIff | src/rate_limiter.rs:11-30 | two addresses share a bucket if and only if they are of one family and their top bits agree |
| RateLimiter.MaskTwice | src/rate_limiter.rs:11-30 | masking by p and then q is masking by the smaller one |
| RateLimiter.BucketSize | src/rate_limiter.rs:11-30 | each bucket has exactly two to the number of free bits members |
| RateLimiter.BucketLawIff | src/rate_limiter.rs:18-26 | the law of top bits holds for a family if and only if its prefix is at least 1 |
| Admin.EscapeIsPerCharacter | src/admin.rs:94-98 | the three sequential replacements are one substitution per character |
| Admin.EscapesAre | src/admin.rs:94-98 | the three characters and their entities; any other character is left alone |
| Admin.EscapedIsSafe | src/admin.rs:94-98 | the output has no angle brackets and each ampersand starts one of three entities |
| Admin.EscapeRoundTrip | src/admin.rs:94-98 | unescaping recovers the input |
| IpKeys.KeysAgree | src/admin.rs:26-38 | for every address, printing, stripping, parsing and falling back gives the handler's key, also for unmapped addresses whose text starts like a mapped one |
| IpKeys.QuadParses | src/admin.rs:36-37 | a dotted quad denotes its IPv4 address and nothing else |
| IpKeys.QuadByOctets | src/admin.rs:36-37 | a dotted quad is its four octets in decimal, most significant first |
| IpKeys.NormalizeByGroups | src/handler.rs:203-215 | an IPv6 address of five zero groups, `ffff` and two more is the IPv4 address of these two; any other is its own key |
| IpKeys.DoubleColonIff | src/admin.rs:26-38 | a printed address has a double colon exactly when two neighbouring groups are zero |
| IpKeys.StrippedDenotesNothing | src/admin.rs:26-30 | what is left of an unmapped address after stripping denotes nothing |

## Left out

- Fetching over HTTP or from files, YAML and URL handling, and the retries before start-up (`src/fetch`, `src/config`, `src/main.rs`): I/O. A fetch is an optional text, a configuration load an optional configuration.
- Sockets, TLS and ACME, the DNS and HTTP servers, the BIND child process, signals and shutdown (`src/net.rs`, `src/tls.rs`, `src/bind.rs`, most of `src/main.rs`): library and system behaviour. An update cut short by the end of the program is not a step of the hot swap.
- RocksDB itself, directory names and UTF-8 decoding: a store is a map; reads, decoding and writes fail as told from outside, and destroying a store always works.
- The token bucket of the rate limiter: a verdict per masked address.
- Whether a source address can be IPv4-mapped at all: listeners are bound for IPv6 only (`src/net.rs`), so such addresses are not ordinary input; the log keys are proved to agree for every address.
- Unicode tables behind `\d`, `parse_domain_name` and `domain_to_ascii`: parameters.
- Names with dots inside labels and other escapes in the text form of queries: `IsName` excludes them. Read errors do not occur in the hot swap's answers; they end a request as failed.
- The HTML page around the log rows, JSON output and tracing: layout.
- A build with overflow checks, which stops at prefix 0: the shift is modelled as in a release build, with its amount taken modulo the width.
- Engine.AdblockEngine.RunUpdate: drops the replaced database at once, because the object model has no requests in flight; the hot swap has them.
- The order in which `active_ips` goes through the addresses: it counts them, as a set.
- Requests that run at the same time on the objects of `Handler`: `Handler.Serve` takes them one after another; overlapping requests and updates are the hot swap's.
